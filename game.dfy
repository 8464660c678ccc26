/** One fixed-timestep tick of the game: the three systems run in the order
    the schedule chains them. */
module Game {
  import opened Common
  import opened Resources
  import opened Walls
  import opened Balls
  import opened Paddles
  import opened Blocks

  /** The state the fixed-timestep systems touch: each entity's transform and
      optional velocity, the paddle and ball entities, the score resource and
      the queue of deferred despawns. */
  class World {
    const transforms: array<Transform>
    var velocities: seq<Option<Velocity>>
    const paddle: Entity
    const ball: Entity
    const scoreboard: Scoreboard
    const commands: Commands

    /** The world's shape, and a despawn queue holding distinct block entities only. */
    ghost predicate Valid()
      reads this, commands
    {
      && |velocities| == transforms.Length
      && paddle == 0 && ball == 1
      && 2 <= transforms.Length
      && velocities[ball].Some?
      && velocities[paddle].None?
      && (forall e :: e in commands.despawned ==> IsBlockEntity(e))
      && (forall i, j :: 0 <= i < j < |commands.despawned| ==> commands.despawned[i] != commands.despawned[j])
    }

    /** The entities carrying the `Block` marker: every entity after the paddle and the ball. */
    predicate IsBlockEntity(e: Entity)
      reads this
    {
      2 <= e < transforms.Length
    }

    /** The entities `setup` spawns, numbered in spawn order: the paddle is
        entity 0, the ball entity 1 and the blocks follow in grid order. The
        score starts at 0 and no despawn is pending. */
    constructor (randomX: real, walls: Walls)
      requires -1.0 <= randomX <= 1.0
      ensures Valid() && fresh(transforms) && fresh(scoreboard) && fresh(commands)
      ensures scoreboard.score == 0 && commands.despawned == []
      ensures paddle == 0 && ball == 1
      ensures transforms.Length == 2 + BlockCount(walls)
      ensures transforms[0] == SpawnPaddle().transform && transforms[1] == SpawnBall(randomX).transform
      ensures forall k :: 0 <= k < BlockCount(walls) ==>
                transforms[2 + k] == SpawnedAt(walls, k / Columns(walls), k % Columns(walls)).transform
      ensures velocities[1] == Some(SpawnBall(randomX).velocity)
      ensures forall i :: 0 <= i < |velocities| && i != 1 ==> velocities[i].None?
    {
      var ballBundle := SpawnBall(randomX);
      var blocks := SpawnBlocks(walls);
      var all := [SpawnPaddle().transform, ballBundle.transform]
                 + seq(|blocks|, k requires 0 <= k < |blocks| => blocks[k].transform);
      transforms := new Transform[|all|](i requires 0 <= i < |all| => all[i]);
      velocities := [None, Some(ballBundle.velocity)] + seq(|blocks|, k => None);
      paddle, ball := 0, 1;
      scoreboard := new Scoreboard(0);
      commands := new Commands();
    }

    /** `apply_velocity`, then `move_paddle`, then `ball_collision`; `contacts`
        are the AABB verdicts of the ball against every collider after the moves.
        The collider query yields each live collider once, and a contact is
        flagged as a block exactly when its entity has the `Block` marker. */
    method Tick(keys: Keys, dt: real, walls: Walls, contacts: seq<Contact>)
      requires Valid()
      requires forall c :: c in contacts ==> (c.isBlock <==> IsBlockEntity(c.entity))
      requires forall c :: c in contacts ==> c.entity !in commands.despawned
      requires forall i, j :: 0 <= i < j < |contacts| ==> contacts[i].entity != contacts[j].entity
      modifies this, transforms, scoreboard, commands
      ensures Valid()
      ensures forall i :: 0 <= i < transforms.Length && i != paddle ==>
                transforms[i] == Moved(old(transforms[i]), old(velocities[i]), dt)
      ensures transforms[paddle] == old(transforms[paddle]).(translation :=
                old(transforms[paddle].translation).(x := NextX(old(transforms[paddle].translation.x), keys, dt, walls)))
      ensures velocities == old(velocities)[ball := Some(Respond(old(velocities[ball].value), contacts))]
      ensures scoreboard.score == old(scoreboard.score) + BlockHits(contacts)
      ensures commands.despawned == old(commands.despawned) + Despawns(contacts)
      ensures forall e :: e in Despawns(contacts) ==> IsBlockEntity(e) && e != paddle && e != ball
      ensures forall e :: e in Despawns(contacts) ==> e !in old(commands.despawned)
    {
      ApplyVelocity(transforms, velocities, dt);
      MovePaddle(keys, dt, walls, transforms, paddle);
      var updated := BallCollision([velocities[ball].value], [contacts], scoreboard, commands);
      velocities := velocities[ball := Some(updated[0])];
      assert [contacts][..0] == [];
      forall e | e in Despawns(contacts)
        ensures IsBlockEntity(e) && e !in old(commands.despawned)
      {
        DespawnedIffDestroyed(contacts, e);
        var i :| 0 <= i < |contacts| && Destroys(contacts[i]) && contacts[i].entity == e;
        assert contacts[i] in contacts;
      }
      DespawnsDistinct(contacts);
      var before, added := old(commands.despawned), Despawns(contacts);
      forall i, j | 0 <= i < j < |commands.despawned|
        ensures commands.despawned[i] != commands.despawned[j]
      {
        if j < |before| {
          assert commands.despawned[i] == before[i] && commands.despawned[j] == before[j];
        } else if i < |before| {
          assert commands.despawned[i] == before[i];
          assert commands.despawned[j] == added[j - |before|] && added[j - |before|] in added;
        } else {
          assert commands.despawned[i] == added[i - |before|];
          assert commands.despawned[j] == added[j - |before|];
        }
      }
    }
  }
}
