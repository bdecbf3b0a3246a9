/** The game state of the runner as one value, its invariant, and the two
    whole-session transitions: restartGame and gameOver. */
module Session {
  import opened Config
  import opened World

  /** gameState: 'start', 'playing' or 'gameover'. */
  datatype Mode = Start | Playing | GameOver

  /** The mutable fields of theo; theo.x is never assigned and stays TheoX. */
  datatype Theo = Theo(y: real, vy: real, isJumping: bool, frame: int, frameTime: real)

  /** A playSound request. */
  datatype Sound = JumpSound | CollectSound | HitSound

  datatype State = State(
    mode: Mode,
    score: nat,
    bestScore: int,
    reducedMotion: bool,
    shakeTime: int,
    speed: real,
    theo: Theo,
    obstacles: seq<WorldObject>,
    collectibles: seq<WorldObject>,
    tunnels: seq<WorldObject>,
    nextSpawnX: real,
    sounds: seq<Sound>)

  /** Theo on the ground, at rest. */
  predicate Grounded(t: Theo)
  {
    t.y == GroundY && t.vy == 0.0 && !t.isJumping
  }

  /** What every reachable state satisfies: the speed band, the ground clamp,
      a grounded Theo when not jumping (and before the first jump), a
      two-frame animation, a non-negative shake countdown, and one variant
      per object list. */
  predicate Inv(s: State)
  {
    (s.mode == Start ==> Grounded(s.theo)) &&
    BaseSpeed <= s.speed <= MaxSpeed &&
    s.theo.y <= GroundY &&
    (!s.theo.isJumping ==> s.theo.y == GroundY && s.theo.vy == 0.0) &&
    (s.theo.frame == 0 || s.theo.frame == 1) &&
    s.theo.frameTime >= 0.0 &&
    s.shakeTime >= 0 &&
    (forall o :: o in s.obstacles ==> o.Obstacle?) &&
    (forall o :: o in s.collectibles ==> o.Collectible?) &&
    (forall o :: o in s.tunnels ==> o.Tunnel?)
  }

  /** The state at page load, given the stored best score and the
      reduced-motion preference. */
  function Initial(bestScore: int, reducedMotion: bool): (s: State)
    ensures Inv(s) && s.mode == Start && Grounded(s.theo)
    ensures s.score == 0 && s.bestScore == bestScore && s.sounds == []
  {
    State(Start, 0, bestScore, reducedMotion, 0, BaseSpeed,
          Theo(GroundY, 0.0, false, 0, 0.0), [], [], [], InitialSpawnX, [])
  }

  /** restartGame: a fresh round. Score, speed, Theo's height and velocity,
      the object lists, the spawn cursor and the shake are reset; the
      animation counter, the best score and the sound log are kept. */
  function Restarted(s: State): (r: State)
    ensures r.mode == Playing && r.score == 0 && r.speed == BaseSpeed
    ensures Grounded(r.theo) && r.obstacles == r.collectibles == r.tunnels == []
    ensures r.bestScore == s.bestScore && r.sounds == s.sounds
    ensures r.theo.frame == s.theo.frame && r.theo.frameTime == s.theo.frameTime
    ensures r.nextSpawnX == InitialSpawnX && r.shakeTime == 0 && r.reducedMotion == s.reducedMotion
    ensures Inv(s) ==> Inv(r)
  {
    s.(mode := Playing, score := 0, speed := BaseSpeed,
       theo := s.theo.(y := GroundY, vy := 0.0, isJumping := false),
       obstacles := [], collectibles := [], tunnels := [],
       nextSpawnX := InitialSpawnX, shakeTime := 0)
  }

  /** The best score after a round that ended with the given raw score:
      the displayed score floor(score / 10) if it beats the record. */
  function Ratchet(bestScore: int, score: nat): (b: int)
    ensures b >= bestScore && b >= score / 10
    ensures b == bestScore || b == score / 10
  {
    var finalScore := score / 10;
    if finalScore > bestScore then finalScore else bestScore
  }

  /** gameOver: the round ends, a hit is sounded, the shake starts unless
      reduced motion is requested, and the best score is ratcheted. */
  function Ended(s: State): (r: State)
    ensures r.mode == GameOver && r.sounds == s.sounds + [HitSound]
    ensures r.shakeTime == if s.reducedMotion then s.shakeTime else ShakeFrames
    ensures r.bestScore >= s.bestScore && r.bestScore >= s.score / 10
    ensures r.bestScore == Ratchet(s.bestScore, s.score)
    ensures r.(mode := s.mode, sounds := s.sounds, shakeTime := s.shakeTime, bestScore := s.bestScore) == s
    ensures r.score == s.score && r.theo == s.theo && r.speed == s.speed
    ensures r.obstacles == s.obstacles && r.collectibles == s.collectibles && r.tunnels == s.tunnels
    ensures Inv(s) ==> Inv(r)
  {
    s.(mode := GameOver, sounds := s.sounds + [HitSound],
       shakeTime := if !s.reducedMotion then ShakeFrames else s.shakeTime,
       bestScore := Ratchet(s.bestScore, s.score))
  }
}
