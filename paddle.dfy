/** The paddle: where it is spawned and how the A/D keys move it between the walls. */
module Paddles {
  import opened Common
  import opened Resources
  import opened Walls

  const PADDLE_START_Y: real := -240.0
  const PADDLE_SIZE: Vec2 := Vec2(120.0, 20.0)
  const PADDLE_SPEED: real := 500.0

  /** The `Paddle` marker component. */
  datatype Paddle = Paddle

  /** The components `spawn_paddle` gives the paddle entity (sprite and texture left out). */
  datatype PaddleBundle = PaddleBundle(transform: Transform, paddle: Paddle, collider: Collider)

  /** `spawn_paddle`: centred horizontally at the paddle's rest height, colliding as its sprite size. */
  function SpawnPaddle(): (p: PaddleBundle)
    ensures p.transform.translation == Vec3(0.0, -240.0, 0.0)
    ensures p.collider.size == PADDLE_SIZE == Vec2(120.0, 20.0)
  {
    PaddleBundle(AtTranslation(Vec3(0.0, PADDLE_START_Y, 0.0)), Paddle, Collider(PADDLE_SIZE))
  }

  /** Which of the two steering keys are held during this step. */
  datatype Keys = Keys(aPressed: bool, dPressed: bool)

  /** The steering direction: A alone is left, D alone is right, both or neither is still. */
  function Direction(keys: Keys): (r: real)
    ensures r == -1.0 <==> keys.aPressed && !keys.dPressed
    ensures r == 1.0 <==> keys.dPressed && !keys.aPressed
    ensures r == 0.0 <==> keys.aPressed == keys.dPressed
  {
    (if keys.dPressed then 1.0 else 0.0) - (if keys.aPressed then 1.0 else 0.0)
  }

  /** The largest x the paddle's centre may take: half a wall and half a paddle inside the right wall. */
  function RightBound(walls: Walls): real
  {
    walls.right - (walls.thickness + PADDLE_SIZE.x) * 0.5
  }

  /** The smallest x the paddle's centre may take. */
  function LeftBound(walls: Walls): real
  {
    walls.left + (walls.thickness + PADDLE_SIZE.x) * 0.5
  }

  /** The paddle's x after one step: the displacement, clamped right and then left. */
  function NextX(x: real, keys: Keys, dt: real, walls: Walls): (r: real)
    ensures LeftBound(walls) <= RightBound(walls) ==> LeftBound(walls) <= r <= RightBound(walls)
    ensures LeftBound(walls) > RightBound(walls) ==> r == LeftBound(walls)
    ensures LeftBound(walls) <= x + Direction(keys) * PADDLE_SPEED * dt <= RightBound(walls)
            ==> r == x + Direction(keys) * PADDLE_SPEED * dt
    ensures LeftBound(walls) <= RightBound(walls) && x + Direction(keys) * PADDLE_SPEED * dt > RightBound(walls)
            ==> r == RightBound(walls)
    ensures x + Direction(keys) * PADDLE_SPEED * dt < LeftBound(walls) ==> r == LeftBound(walls)
  {
    Max(Min(x + Direction(keys) * PADDLE_SPEED * dt, RightBound(walls)), LeftBound(walls))
  }

  /** With neither key held, a paddle inside its bounds stays where it is. */
  lemma AtRestStays(x: real, dt: real, walls: Walls)
    requires LeftBound(walls) <= x <= RightBound(walls)
    ensures NextX(x, Keys(false, false), dt, walls) == x
  {
  }

  /** A paddle that starts at the spawn point and is not steered stays there,
      whenever the walls leave room for it at the centre. */
  lemma SpawnedPaddleAtRest(dt: real, walls: Walls)
    requires LeftBound(walls) <= 0.0 <= RightBound(walls)
    ensures NextX(SpawnPaddle().transform.translation.x, Keys(false, false), dt, walls) == 0.0
  {
  }

  /** `move_paddle`: only the paddle's translation.x changes, to `NextX` of the old x. */
  method MovePaddle(keys: Keys, dt: real, walls: Walls, transforms: array<Transform>, paddle: Entity)
    requires paddle < transforms.Length
    modifies transforms
    ensures transforms[paddle] == old(transforms[paddle]).(translation :=
              old(transforms[paddle].translation).(x := NextX(old(transforms[paddle].translation.x), keys, dt, walls)))
    ensures forall i :: 0 <= i < transforms.Length && i != paddle ==> transforms[i] == old(transforms[i])
  {
    var paddleTransform := transforms[paddle];
    var direction := 0.0;
    if keys.aPressed {
      direction := direction - 1.0;
    }
    if keys.dPressed {
      direction := direction + 1.0;
    }
    var xPos := paddleTransform.translation.x + direction * PADDLE_SPEED * dt;
    xPos := Min(xPos, RightBound(walls));
    xPos := Max(xPos, LeftBound(walls));
    transforms[paddle] := paddleTransform.(translation := paddleTransform.translation.(x := xPos));
  }
}
