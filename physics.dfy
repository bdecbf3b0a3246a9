/** The per-tick speed ramp, Theo's gravity integration with the ground clamp,
    and the two-frame running animation (the first half of update). */
module Physics {
  import opened Config
  import opened Session
  import opened JsMath

  /** speed = Math.min(maxSpeed, speed + speedIncrement). */
  function Ramp(speed: real): (r: real)
    ensures r <= MaxSpeed
    ensures speed <= MaxSpeed ==> speed <= r
    ensures r == MaxSpeed || r == speed + SpeedIncrement
  {
    Min(MaxSpeed, speed + SpeedIncrement)
  }

  /** The speed after n ramps from the base speed, that is after n ticks of
      uninterrupted play following a restart. */
  function SpeedAfter(n: nat): (speed: real)
  {
    if n == 0 then BaseSpeed else Ramp(SpeedAfter(n - 1))
  }

  /** The speed grows linearly by speedIncrement per tick until it meets the cap. */
  lemma {:induction false} SpeedAfterClosedForm(n: nat)
    ensures SpeedAfter(n) == Min(MaxSpeed, BaseSpeed + n as real * SpeedIncrement)
  {
    if n > 0 {
      SpeedAfterClosedForm(n - 1);
    }
  }

  /** Half-way to the cap after 3500 ticks; at the cap from tick 7000 on. */
  lemma SpeedMilestones(n: nat)
    ensures SpeedAfter(3500) == 8.5
    ensures n >= 7000 ==> SpeedAfter(n) == MaxSpeed
    ensures n < 7000 ==> SpeedAfter(n) < MaxSpeed
  {
    SpeedAfterClosedForm(3500);
    SpeedAfterClosedForm(n);
  }

  /** Gravity integration: vy += gravity; y += vy; landing at or below the
      ground clamps y, zeroes vy and ends the jump. */
  function Fall(t: Theo): (r: Theo)
    ensures r.y <= GroundY
    ensures (!t.isJumping ==> t.y == GroundY && t.vy == 0.0) ==>
              (!r.isJumping ==> r.y == GroundY && r.vy == 0.0)
    ensures !t.isJumping && t.y == GroundY && t.vy == 0.0 ==> r == t
    ensures r.isJumping ==> t.isJumping && r.y < GroundY && r.vy == t.vy + Gravity
    ensures r.frame == t.frame && r.frameTime == t.frameTime
    ensures t.y + t.vy + Gravity >= GroundY ==>
              r == t.(y := GroundY, vy := 0.0, isJumping := false)
    ensures t.y + t.vy + Gravity < GroundY ==>
              r == t.(y := t.y + t.vy + Gravity, vy := t.vy + Gravity)
  {
    var vy := t.vy + Gravity;
    var y := t.y + vy;
    if y >= GroundY then t.(y := GroundY, vy := 0.0, isJumping := false)
    else t.(y := y, vy := vy)
  }

  /** Theo's part of update, step by step on a copy of the record: gravity,
      the ground clamp, then the animation counter at the new speed. */
  method MoveTheo(theo: Theo, speed: real) returns (t: Theo)
    ensures t == Animate(Fall(theo), speed)
  {
    t := theo;
    t := t.(vy := t.vy + Gravity);
    t := t.(y := t.y + t.vy);
    if t.y >= GroundY {
      t := t.(y := GroundY, vy := 0.0, isJumping := false);
    }
    assert t == Fall(theo);
    t := t.(frameTime := t.frameTime + speed);
    if t.frameTime > 10.0 {
      t := t.(frame := (t.frame + 1) % 2, frameTime := 0.0);
    }
  }

  /** Theo after n ticks of gravity. */
  function FallN(t: Theo, n: nat): (r: Theo)
  {
    if n == 0 then t else Fall(FallN(t, n - 1))
  }

  /** The height of a jump x ticks after take-off from the ground with
      vy = jumpForce: y = groundY - 12x + 0.3x(x + 1). */
  function ArcHeight(x: real): (y: real)
  {
    GroundY - 12.0 * x + 0.3 * x * (x + 1.0)
  }

  /** One tick of gravity takes the arc from tick x - 1 to tick x. */
  lemma ArcStep(x: real)
    ensures ArcHeight(x - 1.0) + (JumpForce + Gravity * (x - 1.0)) + Gravity == ArcHeight(x)
  {
  }

  /** Through tick 38 the arc is strictly above the ground. */
  lemma ArcAboveGround(x: real)
    requires 0.0 < x <= 38.0
    ensures ArcHeight(x) < GroundY
  {
    ArcRise(x);
  }

  lemma ArcRise(x: real)
    requires 0.0 < x <= 38.0
    ensures 0.3 * x * (x + 1.0) < 12.0 * x
  {
    MultiplyStrict(x, 0.3 * (x + 1.0), 12.0);
    assert x * 12.0 == 12.0 * x;
    assert 0.3 * x * (x + 1.0) == x * (0.3 * (x + 1.0));
  }

  lemma MultiplyStrict(a: real, b: real, c: real)
    requires a > 0.0 && b < c
    ensures a * b < a * c
  {
  }

  /** Until tick 38 Theo follows the parabola of the jump and stays in the air. */
  lemma {:induction false} JumpArc(t: Theo, n: nat)
    requires t.y == GroundY && t.vy == JumpForce && t.isJumping
    requires n <= 38
    ensures FallN(t, n) == t.(y := ArcHeight(n as real), vy := JumpForce + Gravity * n as real)
    ensures 0 < n ==> FallN(t, n).y < GroundY
  {
    if n > 0 {
      JumpArc(t, n - 1);
      var x := n as real;
      assert (n - 1) as real == x - 1.0;
      ArcStep(x);
      ArcAboveGround(x);
    }
  }

  /** A jump lasts 39 ticks: airborne through tick 38 (at y = 308.6 then),
      back on the ground at tick 39. */
  lemma JumpAirtime(t: Theo)
    requires t.y == GroundY && t.vy == JumpForce && t.isJumping
    ensures FallN(t, 38).y == 308.6 && FallN(t, 38).isJumping
    ensures FallN(t, 39) == t.(y := GroundY, vy := 0.0, isJumping := false)
  {
    JumpArc(t, 38);
  }

  /** The animation counter: frameTime accumulates speed and, past 10,
      flips frame between 0 and 1 and starts again from 0. */
  function Animate(t: Theo, speed: real): (r: Theo)
    ensures r.y == t.y && r.vy == t.vy && r.isJumping == t.isJumping
    ensures (t.frame == 0 || t.frame == 1) ==> (r.frame == 0 || r.frame == 1)
    ensures t.frameTime >= 0.0 && speed >= 0.0 ==> 0.0 <= r.frameTime <= 10.0
    ensures r.frame != t.frame ==> r.frameTime == 0.0
  {
    var frameTime := t.frameTime + speed;
    if frameTime > 10.0 then t.(frame := (t.frame + 1) % 2, frameTime := 0.0)
    else t.(frameTime := frameTime)
  }
}
