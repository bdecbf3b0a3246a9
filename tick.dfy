/** The input transition jump and the per-tick step update, as functions of
    the game state, and what they preserve. */
module Tick {
  import opened Config
  import opened World
  import opened Session
  import opened Physics
  import opened Spawning
  import opened Collisions

  /** jump: the first jump starts the round and jumps; a grounded Theo in a
      running round jumps; in 'gameover' it restarts the round without
      jumping, since the jump branch is tested before the restart branch. */
  function Jumped(s: State): (r: State)
    ensures r.mode == Playing
    ensures r.bestScore == s.bestScore && r.reducedMotion == s.reducedMotion
    ensures r.sounds == s.sounds || r.sounds == s.sounds + [JumpSound]
  {
    var started := if s.mode == Start then s.(mode := Playing) else s;
    var jumped :=
      if started.mode == Playing && !started.theo.isJumping then
        started.(theo := started.theo.(vy := JumpForce, isJumping := true),
                 sounds := started.sounds + [JumpSound])
      else started;
    assert jumped.mode == started.mode != Start;
    if jumped.mode == GameOver then Restarted(jumped) else jumped
  }

  /** The first part of a tick: the speed ramp, gravity with the ground clamp,
      the animation counter, and the scrolling of the three lists. */
  function Moved(s: State): (r: State)
    ensures s.speed <= MaxSpeed ==> s.speed <= r.speed <= MaxSpeed
    ensures r.theo.y <= GroundY
    ensures |r.obstacles| <= |s.obstacles| && |r.collectibles| <= |s.collectibles| && |r.tunnels| <= |s.tunnels|
    ensures r.(speed := s.speed, theo := s.theo, obstacles := s.obstacles,
               collectibles := s.collectibles, tunnels := s.tunnels) == s
  {
    var speed := Ramp(s.speed);
    s.(speed := speed,
       theo := Animate(Fall(s.theo), speed),
       obstacles := Advance(s.obstacles, speed),
       collectibles := Advance(s.collectibles, speed),
       tunnels := Advance(s.tunnels, speed))
  }

  /** update: nothing happens outside 'playing'. Otherwise, in order: the
      speed ramp, gravity and the ground clamp, the animation counter, the
      three lists scroll, the spawner runs, collisions are resolved, and then
      the score ticks and the shake decays, even on the tick that ended the
      round. */
  function Stepped(s: State, d: Draws): (r: State)
    requires Inv(s)
    ensures s.mode != Playing ==> r == s
    ensures r.bestScore >= s.bestScore
    ensures s.sounds <= r.sounds
  {
    if s.mode != Playing then s
    else
      Scored(Collided(Spawned(Moved(s), d)))
  }

  /** The end of a tick: one point, and one frame less of shake. */
  function Scored(s: State): (r: State)
    ensures r.score == s.score + 1
    ensures s.shakeTime >= 0 ==> 0 <= r.shakeTime <= s.shakeTime
    ensures s.shakeTime > 0 ==> r.shakeTime == s.shakeTime - 1
    ensures r.(score := s.score, shakeTime := s.shakeTime) == s
  {
    s.(score := s.score + 1,
       shakeTime := if s.shakeTime > 0 then s.shakeTime - 1 else s.shakeTime)
  }

  lemma JumpFromStart(s: State)
    requires Inv(s) && s.mode == Start
    ensures Jumped(s) == s.(mode := Playing, theo := s.theo.(vy := JumpForce, isJumping := true),
                            sounds := s.sounds + [JumpSound])
  {
  }

  /** The ordinary jump: in a running round with Theo on the ground, the jump
      sets vy to jumpForce, marks Theo as jumping and requests one jump
      sound; nothing else changes. */
  lemma JumpWhenGrounded(s: State)
    requires s.mode == Playing && !s.theo.isJumping
    ensures Jumped(s) == s.(theo := s.theo.(vy := JumpForce, isJumping := true),
                            sounds := s.sounds + [JumpSound])
  {
  }

  /** A jump while already airborne changes nothing. */
  lemma JumpWhileAirborne(s: State)
    requires s.mode == Playing && s.theo.isJumping
    ensures Jumped(s) == s
  {
  }

  /** A jump in 'gameover' is a restart with Theo on the ground, not jumping. */
  lemma JumpAfterGameOver(s: State)
    requires s.mode == GameOver
    ensures Jumped(s) == Restarted(s)
    ensures Jumped(s).mode == Playing && Grounded(Jumped(s).theo) && Jumped(s).score == 0
    ensures Jumped(s).bestScore == s.bestScore
  {
  }

  lemma JumpPreservesInv(s: State)
    requires Inv(s)
    ensures Inv(Jumped(s))
    ensures Jumped(s).bestScore == s.bestScore
  {
  }

  /** update keeps the invariant: speed band, ground clamp, grounded when not
      jumping, two animation frames, non-negative shake, one variant per list. */
  lemma StepPreservesInv(s: State, d: Draws)
    requires Inv(s)
    ensures Inv(Stepped(s, d))
  {
    if s.mode == Playing {
      var speed := Ramp(s.speed);
      AdvanceKeepsVariant(s.obstacles, speed);
      AdvanceKeepsVariant(s.collectibles, speed);
      AdvanceKeepsVariant(s.tunnels, speed);
      var moved := Moved(s);
      SpawnKeepsVariants(moved, d);
      var spawned := Spawned(moved, d);
      CollectKeepsVariant(Hitbox(spawned.theo), spawned.collectibles);
      assert Inv(spawned);
      assert Inv(Collided(spawned));
    }
  }

  /** While playing, speed never decreases and stays within
      [baseSpeed, maxSpeed]; Theo stays at or above the ground. */
  lemma StepSpeedAndGround(s: State, d: Draws)
    requires Inv(s)
    ensures s.speed <= Stepped(s, d).speed <= MaxSpeed
    ensures BaseSpeed <= Stepped(s, d).speed
    ensures Stepped(s, d).theo.y <= GroundY
    ensures Stepped(s, d).bestScore >= s.bestScore
  {
    StepPreservesInv(s, d);
  }

  /** The tick that ends the round: the best score is ratcheted from the
      score before this tick's increment, the score still ticks once, the
      shake has already decayed to 14 unless reduced motion is requested,
      and every later tick changes nothing. */
  lemma StepEndsRound(s: State, d: Draws, d2: Draws)
    requires Inv(s) && s.mode == Playing && Stepped(s, d).mode == GameOver
    ensures Stepped(s, d).score == s.score + 1
    ensures Stepped(s, d).bestScore == Ratchet(s.bestScore, s.score)
    ensures !s.reducedMotion ==> Stepped(s, d).shakeTime == ShakeFrames - 1
    ensures Inv(Stepped(s, d)) && Stepped(Stepped(s, d), d2) == Stepped(s, d)
  {
    StepPreservesInv(s, d);
  }

  /** A tick that does not end the round adds one point per tick plus the
      collect bonus for every tuna it takes. */
  lemma StepScore(s: State, d: Draws)
    requires Inv(s) && s.mode == Playing && Stepped(s, d).mode == Playing
    ensures var spawned := Spawned(Moved(s), d);
      var n := NewlyCollected(Hitbox(Moved(s).theo), spawned.collectibles);
      Stepped(s, d).score == s.score + 1 + CollectBonus * n &&
      Stepped(s, d).sounds == s.sounds + CollectSounds(n) &&
      Stepped(s, d).collectibles == CollectAll(Hitbox(Moved(s).theo), spawned.collectibles)
  {
  }

  lemma RestartPreservesInv(s: State)
    requires Inv(s)
    ensures Inv(Restarted(s)) && Restarted(s).bestScore == s.bestScore
  {
  }

  /** What the host delivers: a jump (Space, ArrowUp, touch, click), a
      restart (KeyR, the restart button), or an animation frame with the
      random draws of its update. */
  datatype Input = JumpInput | RestartInput | FrameInput(draws: Draws)

  function Apply(s: State, e: Input): (r: State)
    requires Inv(s)
    ensures Inv(r)
  {
    match e
    case JumpInput => JumpPreservesInv(s); Jumped(s)
    case RestartInput => Restarted(s)
    case FrameInput(d) => StepPreservesInv(s, d); Stepped(s, d)
  }

  /** The state after a sequence of inputs. */
  function Run(s: State, es: seq<Input>): (r: State)
    requires Inv(s)
    ensures Inv(r)
    decreases |es|
  {
    if es == [] then s else Run(Apply(s, es[0]), es[1..])
  }

  /** Over any sequence of inputs the best score never decreases, the speed
      stays within [baseSpeed, maxSpeed], Theo never sinks below the ground,
      and the sound log only grows. */
  lemma {:induction false} RunMonotone(s: State, es: seq<Input>)
    requires Inv(s)
    ensures Run(s, es).bestScore >= s.bestScore
    ensures BaseSpeed <= Run(s, es).speed <= MaxSpeed && Run(s, es).theo.y <= GroundY
    ensures s.sounds <= Run(s, es).sounds
    decreases |es|
  {
    if es != [] {
      if es[0].FrameInput? {
        StepSpeedAndGround(s, es[0].draws);
      }
      RunMonotone(Apply(s, es[0]), es[1..]);
    }
  }
}
