/** The module-level state of the runner and the procedures that mutate it,
    each proved against the state function that specifies it. */
module Game {
  import opened Config
  import opened Geometry
  import opened World
  import opened Session
  import opened Physics
  import opened Spawning
  import opened Collisions
  import opened Tick
  import opened JsMath

  class Game {
    var mode: Mode
    var score: nat
    var bestScore: int
    const reducedMotion: bool
    var shakeTime: int
    var speed: real
    var theo: Theo
    var obstacles: seq<WorldObject>
    var collectibles: seq<WorldObject>
    var tunnels: seq<WorldObject>
    var nextSpawnX: real
    /** The playSound requests so far. */
    ghost var sounds: seq<Sound>

    /** The whole game state as one value. */
    ghost function Model(): State
      reads this
    {
      State(mode, score, bestScore, reducedMotion, shakeTime, speed, theo,
            obstacles, collectibles, tunnels, nextSpawnX, sounds)
    }

    ghost predicate Valid()
      reads this
    {
      Inv(Model())
    }

    /** The state at page load; the stored best score and the reduced-motion
        preference come from the host. */
    constructor (storedBest: int, prefersReducedMotion: bool)
      ensures Valid() && Model() == Initial(storedBest, prefersReducedMotion)
    {
      mode := Start;
      score := 0;
      bestScore := storedBest;
      reducedMotion := prefersReducedMotion;
      shakeTime := 0;
      speed := BaseSpeed;
      theo := Theo(GroundY, 0.0, false, 0, 0.0);
      obstacles := [];
      collectibles := [];
      tunnels := [];
      nextSpawnX := InitialSpawnX;
      sounds := [];
    }

    /** The jump input (Space, ArrowUp, touch or click). */
    method Jump()
      requires Valid()
      modifies this
      ensures Valid() && Model() == Jumped(old(Model()))
      ensures bestScore == old(bestScore)
    {
      if mode == Start {
        mode := Playing;
      }
      if mode == Playing && !theo.isJumping {
        theo := theo.(vy := JumpForce, isJumping := true);
        sounds := sounds + [JumpSound];
      }
      if mode == Mode.GameOver {
        RestartGame();
      }
      JumpPreservesInv(old(Model()));
    }

    /** restartGame: reachable from any state (KeyR, the restart button). */
    method RestartGame()
      requires Valid()
      modifies this
      ensures Valid() && Model() == Restarted(old(Model()))
    {
      ghost var target := Restarted(Model());
      mode, score, speed := Playing, 0, BaseSpeed;
      theo := theo.(y := GroundY, vy := 0.0, isJumping := false);
      obstacles, collectibles, tunnels := [], [], [];
      nextSpawnX, shakeTime := InitialSpawnX, 0;
      assert Model() == target;
    }

    /** update: one tick, with the random draws the spawner may consume. */
    method Update(d: Draws)
      requires Valid()
      modifies this
      ensures Valid() && Model() == Stepped(old(Model()), d)
      ensures old(mode) != Playing ==> Model() == old(Model())
      ensures old(speed) <= speed <= MaxSpeed && theo.y <= GroundY
      ensures bestScore >= old(bestScore)
    {
      if mode != Playing {
        return;
      }
      ghost var before := Model();

      Integrate();
      assert Model() == Moved(before);

      SpawnObjects(d);
      ghost var spawned := Model();
      CheckCollisions();
      ghost var checked := Model();
      assert checked == Collided(spawned);

      score := score + 1;
      if shakeTime > 0 {
        shakeTime := shakeTime - 1;
      }
      assert score == checked.score + 1;
      assert Model() == checked.(score := score, shakeTime := shakeTime);
      assert Model() == Stepped(before, d);
      StepPreservesInv(before, d);
      StepSpeedAndGround(before, d);
    }

    /** The first half of update: the speed ramp, gravity with the ground
        clamp, the animation counter, and moveObjects on the three lists. */
    method Integrate()
      modifies this
      ensures Model() == Moved(old(Model()))
    {
      ghost var target := Moved(Model());
      var newSpeed := Min(MaxSpeed, speed + SpeedIncrement);

      var t := MoveTheo(theo, newSpeed);
      assert target.speed == newSpeed && target.theo == t;

      var movedObstacles := MoveObjects(obstacles, newSpeed);
      var movedCollectibles := MoveObjects(collectibles, newSpeed);
      var movedTunnels := MoveObjects(tunnels, newSpeed);
      assert target == Model().(speed := newSpeed, theo := t, obstacles := movedObstacles,
                                collectibles := movedCollectibles, tunnels := movedTunnels);
      speed, theo := newSpeed, t;
      obstacles, collectibles, tunnels := movedObstacles, movedCollectibles, movedTunnels;
    }

    /** spawnObjects, with the draws as parameters. */
    method SpawnObjects(d: Draws)
      requires speed > 0.0
      modifies this
      ensures Model() == Spawned(old(Model()), d)
    {
      if nextSpawnX <= FieldWidth {
        var rand := d.kind;
        if rand < TunnelChance {
          tunnels := tunnels + [NewTunnel()];
          collectibles := collectibles + [TunnelTuna()];
        } else {
          obstacles := obstacles + [NewObstacle(d.orange)];
          if d.tuna < TunaChance {
            collectibles := collectibles + [AboveTuna()];
          }
        }
        var gap := Gap(d.gap);
        nextSpawnX := FieldWidth + gap * (BaseSpeed / speed);
      }
      nextSpawnX := nextSpawnX - speed;
    }

    /** The tunnel search of checkCollisions: does the box overlap a tunnel? */
    method InTunnel(theoBox: Box) returns (inTunnel: bool)
      ensures inTunnel == AnyOverlap(theoBox, tunnels)
    {
      inTunnel := false;
      var i := 0;
      while i < |tunnels|
        invariant 0 <= i <= |tunnels|
        invariant forall j :: 0 <= j < i ==> !BoxCollision(theoBox, tunnels[j].box)
      {
        if BoxCollision(theoBox, tunnels[i].box) {
          inTunnel := true;
          break;
        }
        i := i + 1;
      }
    }

    /** The obstacle search of checkCollisions: does the box overlap an obstacle? */
    method HitsObstacle(theoBox: Box) returns (hit: bool)
      ensures hit == AnyOverlap(theoBox, obstacles)
    {
      hit := false;
      var i := 0;
      while i < |obstacles|
        invariant 0 <= i <= |obstacles|
        invariant forall j :: 0 <= j < i ==> !BoxCollision(theoBox, obstacles[j].box)
      {
        if BoxCollision(theoBox, obstacles[i].box) {
          hit := true;
          break;
        }
        i := i + 1;
      }
    }

    /** checkCollisions: shelter first, then an obstacle hit ends the round
        before anything is collected, then the collection loop. */
    method CheckCollisions()
      modifies this
      ensures Model() == Collided(old(Model()))
    {
      var theoBox := Hitbox(theo);
      var inTunnel := InTunnel(theoBox);
      if !inTunnel {
        var hit := HitsObstacle(theoBox);
        if hit {
          GameOver();
          return;
        }
      }
      CollectTuna(theoBox);
    }

    /** The collection loop of checkCollisions: every touched tuna not yet
        taken is flagged, scores collectBonus and sounds once. */
    method CollectTuna(theoBox: Box)
      modifies this
      ensures Model() == old(Model()).(
        collectibles := CollectAll(theoBox, old(collectibles)),
        score := old(score) + CollectBonus * NewlyCollected(theoBox, old(collectibles)),
        sounds := old(sounds) + CollectSounds(NewlyCollected(theoBox, old(collectibles))))
    {
      var taken, total := CollectLoop(theoBox, collectibles, score);
      sounds := sounds + CollectSounds(NewlyCollected(theoBox, collectibles));
      collectibles, score := taken, total;
    }

    /** gameOver */
    method GameOver()
      modifies this
      ensures Model() == Ended(old(Model()))
    {
      mode := Mode.GameOver;
      sounds := sounds + [HitSound];
      if !reducedMotion {
        shakeTime := ShakeFrames;
      }
      var finalScore := score / 10;
      if finalScore > bestScore {
        bestScore := finalScore;
      }
    }
  }
}
