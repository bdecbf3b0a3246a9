/** The tuning constants of the runner: the physics, Theo and spawning fields
    of CONFIG (js/game.js:10-28), as exact reals. */
module Config {
  // Physics
  const Gravity: real := 0.6
  const JumpForce: real := -12.0
  const BaseSpeed: real := 5.0
  const MaxSpeed: real := 12.0
  const SpeedIncrement: real := 0.001

  // Theo
  const TheoWidth: real := 50.0
  const TheoHeight: real := 40.0
  const TheoX: real := 80.0
  const GroundY: real := 320.0

  // Spawning
  const MinObstacleGap: real := 200.0
  const MaxObstacleGap: real := 400.0
  const TunnelChance: real := 0.15
  const TunaChance: real := 0.3

  /** The width of the drawing surface; the page lays the canvas out as 800 by 400. */
  const FieldWidth: real := 800.0

  /** Where the spawn cursor starts at load and after a restart. */
  const InitialSpawnX: real := 500.0

  /** Frames of screen shake started by a hit. */
  const ShakeFrames: int := 15

  /** Points for one collected tuna. */
  const CollectBonus: nat := 100
}
