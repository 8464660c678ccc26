/** The ball: how it is spawned and how its velocity, the score and the block
    despawns respond to the collisions found in one fixed-timestep pass. */
module Balls {
  import opened Common
  import opened Resources

  const BALL_STARTING_POS: Vec3 := Vec3(0.0, -50.0, 1.0)
  const BALL_SIZE: Vec2 := Vec2(20.0, 20.0)
  const BALL_SPEED: real := 400.0

  /** The `Ball` component: the ball's bounding-box size. */
  datatype Ball = Ball(size: Vec2)

  /** The components `spawn_ball` gives the ball entity (sprite and texture left out). */
  datatype BallBundle = BallBundle(transform: Transform, ball: Ball, velocity: Velocity)

  /** `spawn_ball`, with the random horizontal direction drawn from [-1, 1] as a parameter. */
  function SpawnBall(randomX: real): (b: BallBundle)
    requires -1.0 <= randomX <= 1.0
    ensures b.velocity.y == -200.0
    ensures -BALL_SPEED <= b.velocity.x <= BALL_SPEED
    ensures b.ball.size == BALL_SIZE == Vec2(20.0, 20.0)
    ensures b.transform.translation == BALL_STARTING_POS
  {
    var direction := Vec2(randomX, -0.5);
    BallBundle(AtTranslation(BALL_STARTING_POS), Ball(BALL_SIZE),
               Velocity(BALL_SPEED * direction.x, BALL_SPEED * direction.y))
  }

  /** The side of the other box the ball hit, as reported by the AABB test. */
  datatype Collision = Left | Right | Top | Bottom | Inside

  /** One collider as seen from the ball in this pass: its entity, the AABB
      test's verdict against the ball, and whether it carries the `Block` marker. */
  datatype Contact = Contact(entity: Entity, collision: Option<Collision>, isBlock: bool)

  /** The contact destroys a block: it collided and the collider is a block. */
  predicate Destroys(c: Contact)
  {
    c.collision.Some? && c.isBlock
  }

  /** The velocity after responding to one contact: an axis is negated only
      when the ball is moving into the side it hit. */
  function Reflect(v: Velocity, c: Option<Collision>): (r: Velocity)
    ensures c == Some(Left) ==> r.x <= 0.0
    ensures c == Some(Right) ==> r.x >= 0.0
    ensures c == Some(Top) ==> r.y >= 0.0
    ensures c == Some(Bottom) ==> r.y <= 0.0
    ensures r.x != v.x <==> (c == Some(Left) && v.x > 0.0) || (c == Some(Right) && v.x < 0.0)
    ensures r.y != v.y <==> (c == Some(Top) && v.y < 0.0) || (c == Some(Bottom) && v.y > 0.0)
    ensures r.x == v.x || r.x == -v.x
    ensures r.y == v.y || r.y == -v.y
    ensures c.None? || c == Some(Inside) ==> r == v
  {
    var reflectX := match c
      case Some(Left) => v.x > 0.0
      case Some(Right) => v.x < 0.0
      case _ => false;
    var reflectY := match c
      case Some(Top) => v.y < 0.0
      case Some(Bottom) => v.y > 0.0
      case _ => false;
    Velocity(if reflectX then v.x * -1.0 else v.x, if reflectY then v.y * -1.0 else v.y)
  }

  /** Responding twice to the same side is the same as responding once. */
  lemma ReflectIdempotent(v: Velocity, c: Option<Collision>)
    ensures Reflect(Reflect(v, c), c) == Reflect(v, c)
  {
  }

  /** The velocity after responding to the contacts in order. */
  function Respond(v: Velocity, contacts: seq<Contact>): Velocity
  {
    if contacts == [] then v
    else Reflect(Respond(v, contacts[..|contacts| - 1]), contacts[|contacts| - 1].collision)
  }

  /** The number of contacts that destroy a block. */
  function BlockHits(contacts: seq<Contact>): nat
  {
    if contacts == [] then 0
    else BlockHits(contacts[..|contacts| - 1]) + (if Destroys(contacts[|contacts| - 1]) then 1 else 0)
  }

  /** The entities queued for despawn, in contact order. */
  function Despawns(contacts: seq<Contact>): seq<Entity>
  {
    if contacts == [] then []
    else Despawns(contacts[..|contacts| - 1])
         + (if Destroys(contacts[|contacts| - 1]) then [contacts[|contacts| - 1].entity] else [])
  }

  /** Responding only negates components: the speed along each axis is kept. */
  lemma {:induction false} RespondPreservesSpeed(v: Velocity, contacts: seq<Contact>)
    ensures Abs(Respond(v, contacts).x) == Abs(v.x)
    ensures Abs(Respond(v, contacts).y) == Abs(v.y)
  {
    if contacts != [] {
      RespondPreservesSpeed(v, contacts[..|contacts| - 1]);
    }
  }

  /** Contacts that did not collide, or that report `Inside`, leave the velocity alone. */
  lemma {:induction false} RespondWithoutSideHits(v: Velocity, contacts: seq<Contact>)
    requires forall i :: 0 <= i < |contacts| ==> contacts[i].collision in {None, Some(Inside)}
    ensures Respond(v, contacts) == v
  {
    if contacts != [] {
      RespondWithoutSideHits(v, contacts[..|contacts| - 1]);
    }
  }

  /** Exactly one despawn is queued per point scored. */
  lemma {:induction false} DespawnsMatchHits(contacts: seq<Contact>)
    ensures |Despawns(contacts)| == BlockHits(contacts) <= |contacts|
  {
    if contacts != [] {
      DespawnsMatchHits(contacts[..|contacts| - 1]);
    }
  }

  /** An entity is queued for despawn iff one of its contacts collided and it is a block. */
  lemma {:induction false} DespawnedIffDestroyed(contacts: seq<Contact>, e: Entity)
    ensures e in Despawns(contacts) <==>
            exists i :: 0 <= i < |contacts| && Destroys(contacts[i]) && contacts[i].entity == e
  {
    if contacts != [] {
      var n := |contacts| - 1;
      var prefix := contacts[..n];
      DespawnedIffDestroyed(prefix, e);
      if e in Despawns(contacts) && e !in Despawns(prefix) {
        assert Destroys(contacts[n]) && contacts[n].entity == e;
      }
      if exists i :: 0 <= i < |contacts| && Destroys(contacts[i]) && contacts[i].entity == e {
        var i :| 0 <= i < |contacts| && Destroys(contacts[i]) && contacts[i].entity == e;
        if i < n {
          assert prefix[i] == contacts[i];
        }
      }
    }
  }

  /** When each collider appears once, no entity is queued for despawn twice. */
  lemma {:induction false} DespawnsDistinct(contacts: seq<Contact>)
    requires forall i, j :: 0 <= i < j < |contacts| ==> contacts[i].entity != contacts[j].entity
    ensures forall i, j :: 0 <= i < j < |Despawns(contacts)| ==> Despawns(contacts)[i] != Despawns(contacts)[j]
  {
    if contacts != [] {
      var n := |contacts| - 1;
      var prefix := contacts[..n];
      DespawnsDistinct(prefix);
      if Destroys(contacts[n]) {
        DespawnedIffDestroyed(prefix, contacts[n].entity);
        if contacts[n].entity in Despawns(prefix) {
          assert false;
        }
      }
    }
  }

  /** Walls, the paddle and any other non-block collider never score. */
  lemma {:induction false} NoBlocksNoScore(contacts: seq<Contact>)
    requires forall i :: 0 <= i < |contacts| ==> !contacts[i].isBlock
    ensures BlockHits(contacts) == 0 && Despawns(contacts) == []
  {
    if contacts != [] {
      NoBlocksNoScore(contacts[..|contacts| - 1]);
    }
  }

  /** The inner loop of `ball_collision` for one ball: respond to every collider
      in query order, despawning and scoring each block that was hit. */
  method CollideBall(velocity: Velocity, contacts: seq<Contact>, scoreboard: Scoreboard, commands: Commands)
    returns (v: Velocity)
    modifies scoreboard, commands
    ensures v == Respond(velocity, contacts)
    ensures scoreboard.score == old(scoreboard.score) + BlockHits(contacts)
    ensures commands.despawned == old(commands.despawned) + Despawns(contacts)
  {
    v := velocity;
    for i := 0 to |contacts|
      invariant v == Respond(velocity, contacts[..i])
      invariant scoreboard.score == old(scoreboard.score) + BlockHits(contacts[..i])
      invariant commands.despawned == old(commands.despawned) + Despawns(contacts[..i])
    {
      assert contacts[..i + 1][..i] == contacts[..i];
      var contact := contacts[i];
      var reflectX := false;
      var reflectY := false;
      if contact.collision.Some? {
        match contact.collision.value {
          case Left => reflectX := v.x > 0.0;
          case Right => reflectX := v.x < 0.0;
          case Top => reflectY := v.y < 0.0;
          case Bottom => reflectY := v.y > 0.0;
          case Inside =>
        }

        if reflectX {
          v := v.(x := v.x * -1.0);
        }
        if reflectY {
          v := v.(y := v.y * -1.0);
        }
        if contact.isBlock {
          commands.Despawn(contact.entity);
          scoreboard.score := scoreboard.score + 1;
        }
      }
    }
    assert contacts[..|contacts|] == contacts;
  }

  /** The points scored by all balls in one pass. */
  function TotalHits(contacts: seq<seq<Contact>>): nat
  {
    if contacts == [] then 0
    else TotalHits(contacts[..|contacts| - 1]) + BlockHits(contacts[|contacts| - 1])
  }

  /** The despawns queued by all balls in one pass, ball by ball. */
  function AllDespawns(contacts: seq<seq<Contact>>): seq<Entity>
  {
    if contacts == [] then []
    else AllDespawns(contacts[..|contacts| - 1]) + Despawns(contacts[|contacts| - 1])
  }

  /** Over a pass, the score rises by exactly the number of queued despawns. */
  lemma {:induction false} TotalHitsMatchDespawns(contacts: seq<seq<Contact>>)
    ensures |AllDespawns(contacts)| == TotalHits(contacts)
  {
    if contacts != [] {
      TotalHitsMatchDespawns(contacts[..|contacts| - 1]);
      DespawnsMatchHits(contacts[|contacts| - 1]);
    }
  }

  /** `ball_collision`: each ball (with its contacts against every collider)
      in query order. The ball positions do not change during the pass, so
      the collision verdicts are fixed inputs. */
  method BallCollision(velocities: seq<Velocity>, contacts: seq<seq<Contact>>,
                       scoreboard: Scoreboard, commands: Commands)
    returns (updated: seq<Velocity>)
    requires |contacts| == |velocities|
    modifies scoreboard, commands
    ensures |updated| == |velocities|
    ensures forall b :: 0 <= b < |velocities| ==> updated[b] == Respond(velocities[b], contacts[b])
    ensures scoreboard.score == old(scoreboard.score) + TotalHits(contacts)
    ensures commands.despawned == old(commands.despawned) + AllDespawns(contacts)
  {
    updated := [];
    for b := 0 to |velocities|
      invariant |updated| == b
      invariant forall k :: 0 <= k < b ==> updated[k] == Respond(velocities[k], contacts[k])
      invariant scoreboard.score == old(scoreboard.score) + TotalHits(contacts[..b])
      invariant commands.despawned == old(commands.despawned) + AllDespawns(contacts[..b])
    {
      assert contacts[..b + 1][..b] == contacts[..b];
      var v := CollideBall(velocities[b], contacts[b], scoreboard, commands);
      updated := updated + [v];
    }
    assert contacts[..|contacts|] == contacts;
  }
}
