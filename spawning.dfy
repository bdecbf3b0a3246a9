/** spawnObjects: the spawn cursor and the spawn rules. */
module Spawning {
  import opened Config
  import opened Geometry
  import opened World
  import opened Session

  /** The Math.random() draws one spawn may consume, named by purpose: the
      category, obstacle shape, tuna above the obstacle, and the next gap. */
  datatype Draws = Draws(kind: real, orange: real, tuna: real, gap: real)

  /** Math.random() returns a value in [0, 1). */
  predicate ValidDraws(d: Draws)
  {
    0.0 <= d.kind < 1.0 && 0.0 <= d.orange < 1.0 && 0.0 <= d.tuna < 1.0 && 0.0 <= d.gap < 1.0
  }

  /** A tunnel at the right edge, on the ground. */
  function NewTunnel(): (tunnel: WorldObject)
  {
    Tunnel(Box(FieldWidth, GroundY - 50.0, 100.0, 60.0))
  }

  /** The tuna placed inside a fresh tunnel. */
  function TunnelTuna(): (tuna: WorldObject)
  {
    Collectible(Box(FieldWidth + 35.0, GroundY - 25.0, 30.0, 20.0), false)
  }

  /** An orange (draw above one half) or a bag at the right edge. */
  function NewObstacle(orangeDraw: real): (o: WorldObject)
    ensures o.Obstacle? && o.box.x == FieldWidth
    ensures o.kind == Orange <==> orangeDraw > 0.5
  {
    var isOrange := orangeDraw > 0.5;
    Obstacle(Box(FieldWidth,
                 GroundY - (if isOrange then 25.0 else 35.0),
                 if isOrange then 30.0 else 35.0,
                 if isOrange then 30.0 else 40.0),
             if isOrange then Orange else Bag)
  }

  /** The tuna that may float above a fresh obstacle. */
  function AboveTuna(): (tuna: WorldObject)
  {
    Collectible(Box(FieldWidth, GroundY - 80.0, 30.0, 20.0), false)
  }

  /** The gap to the next spawn before scaling: uniform over the
      [minObstacleGap, maxObstacleGap) range for a draw in [0, 1). */
  function Gap(draw: real): (gap: real)
    ensures 0.0 <= draw < 1.0 ==> MinObstacleGap <= gap < MaxObstacleGap
  {
    MinObstacleGap + draw * (MaxObstacleGap - MinObstacleGap)
  }

  /** The spawn cursor after a spawn fired: the right edge plus the gap scaled
      by baseSpeed / speed, less this tick's speed. */
  function Rearmed(gap: real, speed: real): (cursor: real)
    requires speed > 0.0
  {
    FieldWidth + gap * (BaseSpeed / speed) - speed
  }

  /** spawnObjects. While the cursor is beyond the right edge only the cursor
      moves; otherwise a tunnel with its tuna (draw below tunnelChance) or an
      obstacle with, sometimes, a tuna above it is appended, and the cursor
      is re-armed. */
  function Spawned(s: State, d: Draws): (r: State)
    requires s.speed > 0.0
    ensures s.nextSpawnX > FieldWidth ==> r == s.(nextSpawnX := s.nextSpawnX - s.speed)
    ensures s.nextSpawnX <= FieldWidth ==> r.nextSpawnX == Rearmed(Gap(d.gap), s.speed)
    ensures s.nextSpawnX <= FieldWidth && d.kind < TunnelChance ==>
      r.tunnels == s.tunnels + [NewTunnel()] &&
      r.collectibles == s.collectibles + [TunnelTuna()] &&
      r.obstacles == s.obstacles
    ensures s.nextSpawnX <= FieldWidth && d.kind >= TunnelChance ==>
      r.obstacles == s.obstacles + [NewObstacle(d.orange)] &&
      r.collectibles == (if d.tuna < TunaChance then s.collectibles + [AboveTuna()] else s.collectibles) &&
      r.tunnels == s.tunnels
    ensures r.(obstacles := s.obstacles, collectibles := s.collectibles,
               tunnels := s.tunnels, nextSpawnX := s.nextSpawnX) == s
  {
    if s.nextSpawnX <= FieldWidth then
      var placed :=
        if d.kind < TunnelChance then
          s.(tunnels := s.tunnels + [NewTunnel()],
             collectibles := s.collectibles + [TunnelTuna()])
        else
          var withObstacle := s.(obstacles := s.obstacles + [NewObstacle(d.orange)]);
          if d.tuna < TunaChance then
            withObstacle.(collectibles := s.collectibles + [AboveTuna()])
          else withObstacle;
      placed.(nextSpawnX := Rearmed(Gap(d.gap), s.speed))
    else
      s.(nextSpawnX := s.nextSpawnX - s.speed)
  }

  /** Each spawn adds one tunnel or one obstacle and at most one tuna, and
      leaves the entries already present untouched. */
  lemma SpawnAppends(s: State, d: Draws)
    requires s.speed > 0.0
    ensures var r := Spawned(s, d);
      r.obstacles[..|s.obstacles|] == s.obstacles &&
      r.collectibles[..|s.collectibles|] == s.collectibles &&
      r.tunnels[..|s.tunnels|] == s.tunnels &&
      |r.obstacles| + |r.tunnels| <= |s.obstacles| + |s.tunnels| + 1 &&
      |s.collectibles| <= |r.collectibles| <= |s.collectibles| + 1
  {
  }

  /** The re-armed cursor lies between the right edge plus the scaled minimum
      gap and the right edge plus the scaled maximum gap, less the speed. */
  lemma RearmedRange(d: Draws, speed: real)
    requires ValidDraws(d) && speed > 0.0
    ensures var scale := BaseSpeed / speed;
            FieldWidth + MinObstacleGap * scale - speed <= Rearmed(Gap(d.gap), speed) < FieldWidth + MaxObstacleGap * scale - speed
  {
    var scale := BaseSpeed / speed;
    var g := Gap(d.gap);
    ScaleBetween(g, scale);
  }

  /** Multiplying the gap range by a positive scale keeps the order. */
  lemma ScaleBetween(g: real, scale: real)
    requires MinObstacleGap <= g < MaxObstacleGap && scale > 0.0
    ensures MinObstacleGap * scale <= g * scale < MaxObstacleGap * scale
  {
    var below, above := g - MinObstacleGap, MaxObstacleGap - g;
    assert below * scale >= 0.0;
    assert above * scale > 0.0;
  }

  /** Spawning keeps each list to its one variant. */
  lemma SpawnKeepsVariants(s: State, d: Draws)
    requires s.speed > 0.0
    requires forall o :: o in s.obstacles ==> o.Obstacle?
    requires forall o :: o in s.collectibles ==> o.Collectible?
    requires forall o :: o in s.tunnels ==> o.Tunnel?
    ensures forall o :: o in Spawned(s, d).obstacles ==> o.Obstacle?
    ensures forall o :: o in Spawned(s, d).collectibles ==> o.Collectible?
    ensures forall o :: o in Spawned(s, d).tunnels ==> o.Tunnel?
  {
  }
}
