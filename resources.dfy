/** The shared components and resources of the game (velocity, collider,
    scoreboard, the scoreboard text) and the two systems that live beside
    them: position integration and the scoreboard refresh. */
module Resources {
  import opened Common

  /** Entities are identified by an index into the world's component storage. */
  type Entity = nat

  /** `Velocity(Vec2)`, in units per second. */
  datatype Velocity = Velocity(x: real, y: real)

  /** `Collider { size }`: the extent of an entity's bounding box. */
  datatype Collider = Collider(size: Vec2)

  /** The score resource; `usize` is modelled as an unbounded `nat`. */
  class Scoreboard {
    var score: nat

    constructor (score: nat)
      ensures this.score == score
    {
      this.score := score;
    }
  }

  /** The deferred command queue, reduced to the despawns the game issues. */
  class Commands {
    var despawned: seq<Entity>

    constructor ()
      ensures despawned == []
    {
      despawned := [];
    }

    /** `commands.entity(e).despawn()`: queued, applied later by the engine. */
    method Despawn(e: Entity)
      modifies this
      ensures despawned == old(despawned) + [e]
    {
      despawned := despawned + [e];
    }
  }

  const SCORE_LABEL: string := "Score: "

  /** The scoreboard's text entity: a label section followed by the score section. */
  class Text {
    var sections: seq<string>

    /** The sections `spawn_scoreboard` creates: the label and an empty score. */
    constructor ScoreText()
      ensures sections == [SCORE_LABEL, ""]
    {
      sections := [SCORE_LABEL, ""];
    }
  }

  // ---------------------------------------------------------------------
  // Decimal rendering of the score (`usize::to_string`)

  predicate IsDigits(s: string)
  {
    forall i :: 0 <= i < |s| ==> '0' <= s[i] <= '9'
  }

  /** A canonical decimal numeral: non-empty, digits only, no leading zero. */
  predicate IsCanonical(s: string)
  {
    |s| >= 1 && IsDigits(s) && (s[0] == '0' ==> |s| == 1)
  }

  function DigitChar(d: nat): (c: char)
    requires d < 10
  {
    (48 + d) as char
  }

  function DigitValue(c: char): nat
    requires '0' <= c <= '9'
  {
    c as int - 48
  }

  /** The decimal numeral of `n`, most significant digit first. */
  function Decimal(n: nat): (s: string)
    ensures IsCanonical(s)
  {
    if n < 10 then [DigitChar(n)] else Decimal(n / 10) + [DigitChar(n % 10)]
  }

  /** The value a string of decimal digits denotes. */
  function ParseDecimal(s: string): nat
    requires IsDigits(s)
  {
    if s == [] then 0 else ParseDecimal(s[..|s| - 1]) * 10 + DigitValue(s[|s| - 1])
  }

  /** Reading the rendered score back gives the score. */
  lemma {:induction false} DecimalRoundTrip(n: nat)
    ensures ParseDecimal(Decimal(n)) == n
  {
    var s := Decimal(n);
    if n >= 10 {
      var p := Decimal(n / 10);
      assert s[..|s| - 1] == p;
      DecimalRoundTrip(n / 10);
    }
  }

  /** Two scores render to the same text only when they are equal. */
  lemma DecimalInjective(m: nat, n: nat)
    ensures Decimal(m) == Decimal(n) <==> m == n
  {
    if Decimal(m) == Decimal(n) {
      DecimalRoundTrip(m);
      DecimalRoundTrip(n);
    }
  }

  /** A canonical numeral with a non-zero leading digit denotes a positive number. */
  lemma {:induction false} ParsePositive(s: string)
    requires IsDigits(s) && |s| >= 1 && s[0] != '0'
    ensures ParseDecimal(s) >= 1
  {
    if |s| > 1 {
      ParsePositive(s[..|s| - 1]);
    }
  }

  /** Every canonical numeral is the rendering of the value it denotes. */
  lemma {:induction false} DecimalCanonical(s: string)
    requires IsCanonical(s)
    ensures Decimal(ParseDecimal(s)) == s
  {
    var n := ParseDecimal(s);
    if |s| == 1 {
      assert s[..0] == [];
      assert DigitChar(DigitValue(s[0])) == s[0];
    } else {
      var p := s[..|s| - 1];
      assert p[0] == s[0];
      ParsePositive(p);
      DecimalCanonical(p);
      assert n / 10 == ParseDecimal(p) && n % 10 == DigitValue(s[|s| - 1]);
      assert DigitChar(DigitValue(s[|s| - 1])) == s[|s| - 1];
      assert s == p + [s[|s| - 1]];
    }
  }

  /** `update_scoreboard`: section 1 shows the score, the label is kept. */
  method UpdateScoreboard(scoreboard: Scoreboard, text: Text)
    requires |text.sections| >= 2
    modifies text
    ensures text.sections == old(text.sections)[1 := Decimal(scoreboard.score)]
  {
    text.sections := text.sections[1 := Decimal(scoreboard.score)];
  }

  // ---------------------------------------------------------------------
  // Position integration (`apply_velocity`)

  /** Where one entity is after `dt` seconds; entities without a velocity stay put. */
  function Moved(t: Transform, v: Option<Velocity>, dt: real): Transform
  {
    match v
    case None => t
    case Some(vel) =>
      t.(translation := t.translation.(x := t.translation.x + vel.x * dt,
                                       y := t.translation.y + vel.y * dt))
  }

  /** Only x and y of the translation move, each by its own velocity times `dt`. */
  lemma MovedTranslation(t: Transform, v: Option<Velocity>, dt: real)
    ensures v.Some? ==> Moved(t, v, dt).translation
                        == Vec3(t.translation.x + v.value.x * dt, t.translation.y + v.value.y * dt, t.translation.z)
    ensures Moved(t, v, dt).rotation == t.rotation && Moved(t, v, dt).scale == t.scale
    ensures v.None? ==> Moved(t, v, dt) == t
  {
  }

  /** With no elapsed time or no speed nothing moves. */
  lemma MovedAtRest(t: Transform, v: Option<Velocity>, dt: real)
    requires dt == 0.0 || v.None? || v.value == Velocity(0.0, 0.0)
    ensures Moved(t, v, dt) == t
  {
  }

  /** Two steps of `a` and `b` seconds land where one step of `a + b` does. */
  lemma MovedAdditive(t: Transform, v: Option<Velocity>, a: real, b: real)
    ensures Moved(Moved(t, v, a), v, b) == Moved(t, v, a + b)
  {
  }

  /** `apply_velocity`: every entity moves by its own velocity, in place. */
  method ApplyVelocity(transforms: array<Transform>, velocities: seq<Option<Velocity>>, dt: real)
    requires transforms.Length == |velocities|
    modifies transforms
    ensures forall i :: 0 <= i < transforms.Length ==> transforms[i] == Moved(old(transforms[i]), velocities[i], dt)
  {
    for i := 0 to transforms.Length
      invariant forall j :: 0 <= j < i ==> transforms[j] == Moved(old(transforms[j]), velocities[j], dt)
      invariant forall j :: i <= j < transforms.Length ==> transforms[j] == old(transforms[j])
    {
      match velocities[i]
      case None =>
      case Some(velocity) =>
        var t := transforms[i];
        transforms[i] := t.(translation := t.translation.(x := t.translation.x + velocity.x * dt,
                                                          y := t.translation.y + velocity.y * dt));
    }
  }
}
