/** checkCollisions: tunnel shelter, obstacle hits and tuna collection. */
module Collisions {
  import opened Config
  import opened Geometry
  import opened World
  import opened Session

  /** theoBox: Theo's sprite inset by 5 on the left, right and top. */
  function Hitbox(t: Theo): (b: Box)
    ensures Proper(b)
    ensures TheoX < b.x && b.x + b.width < TheoX + TheoWidth
    ensures t.y - TheoHeight < b.y && b.y + b.height == t.y
  {
    Box(TheoX + 5.0, t.y - TheoHeight + 5.0, TheoWidth - 10.0, TheoHeight - 5.0)
  }

  /** Some object of the list overlaps the box. */
  predicate AnyOverlap(hb: Box, objs: seq<WorldObject>)
  {
    exists j :: 0 <= j < |objs| && BoxCollision(hb, objs[j].box)
  }

  /** A tuna that the box touches and that has not been taken yet. */
  predicate Collectable(hb: Box, c: WorldObject)
  {
    c.Collectible? && !c.collected && BoxCollision(hb, c.box)
  }

  /** The tuna after one pass of the collection loop. */
  function Collect(hb: Box, c: WorldObject): (taken: WorldObject)
  {
    if Collectable(hb, c) then c.(collected := true) else c
  }

  /** The collectibles list after the collection loop. */
  function CollectAll(hb: Box, cs: seq<WorldObject>): (r: seq<WorldObject>)
    ensures |r| == |cs|
    ensures forall k :: 0 <= k < |cs| ==> r[k].box == cs[k].box
    ensures forall k :: 0 <= k < |cs| ==> (r[k] != cs[k] <==> Collectable(hb, cs[k]))
  {
    seq(|cs|, k requires 0 <= k < |cs| => Collect(hb, cs[k]))
  }

  /** How many tuna the collection loop takes. */
  function NewlyCollected(hb: Box, cs: seq<WorldObject>): (n: nat)
    ensures n <= |cs|
  {
    if cs == [] then 0
    else NewlyCollected(hb, cs[..|cs| - 1]) + (if Collectable(hb, cs[|cs| - 1]) then 1 else 0)
  }

  /** The count is the number of positions holding an untaken tuna that the
      box touches. */
  lemma {:induction false} CountTaken(hb: Box, cs: seq<WorldObject>)
    ensures NewlyCollected(hb, cs) == |set k | 0 <= k < |cs| && Collectable(hb, cs[k])|
    decreases |cs|
  {
    if cs != [] {
      CountTaken(hb, cs[..|cs| - 1]);
      TakenSplit(hb, cs);
    }
  }

  /** The positions of the tuna taken from cs are those taken from all but
      its last entry, plus the last one if it is taken. */
  lemma TakenSplit(hb: Box, cs: seq<WorldObject>)
    requires cs != []
    ensures var m := |cs| - 1;
      |set k | 0 <= k < |cs| && Collectable(hb, cs[k])| ==
      |set k | 0 <= k < m && Collectable(hb, cs[..m][k])| + (if Collectable(hb, cs[m]) then 1 else 0)
  {
    var m := |cs| - 1;
    var all := set k | 0 <= k < |cs| && Collectable(hb, cs[k]);
    var before := set k | 0 <= k < m && Collectable(hb, cs[..m][k]);
    if Collectable(hb, cs[m]) {
      assert all == before + {m};
    } else {
      assert all == before;
    }
  }

  /** One "collect" sound per tuna taken. */
  function CollectSounds(n: nat): (r: seq<Sound>)
    ensures |r| == n && forall k :: 0 <= k < n ==> r[k] == CollectSound
  {
    seq(n, _ => CollectSound)
  }

  /** checkCollisions. Overlapping a tunnel shelters Theo from every obstacle;
      otherwise an obstacle hit ends the round at once, before any tuna is
      scored; otherwise every touched tuna not yet taken is flagged and
      scores collectBonus. */
  function Collided(s: State): (r: State)
    ensures r.mode == s.mode || r.mode == GameOver
    ensures r.score >= s.score && r.bestScore >= s.bestScore && s.sounds <= r.sounds
    ensures |r.collectibles| == |s.collectibles|
    ensures r.theo == s.theo && r.speed == s.speed && r.nextSpawnX == s.nextSpawnX
    ensures r.obstacles == s.obstacles && r.tunnels == s.tunnels
  {
    var hb := Hitbox(s.theo);
    if !AnyOverlap(hb, s.tunnels) && AnyOverlap(hb, s.obstacles) then Ended(s)
    else
      var n := NewlyCollected(hb, s.collectibles);
      s.(collectibles := CollectAll(hb, s.collectibles),
         score := s.score + CollectBonus * n,
         sounds := s.sounds + CollectSounds(n))
  }

  /** One more pass of the collection loop, over element i. */
  lemma CollectStep(hb: Box, cs: seq<WorldObject>, i: nat)
    requires i < |cs|
    ensures CollectAll(hb, cs[..i + 1]) == CollectAll(hb, cs[..i]) + [Collect(hb, cs[i])]
    ensures NewlyCollected(hb, cs[..i + 1]) ==
      NewlyCollected(hb, cs[..i]) + if Collectable(hb, cs[i]) then 1 else 0
    ensures (CollectAll(hb, cs[..i]) + cs[i..])[i := Collect(hb, cs[i])] ==
      CollectAll(hb, cs[..i + 1]) + cs[i + 1..]
  {
    assert cs[..i + 1][..i] == cs[..i];
  }

  /** The collection loop over a copy of the list: each touched tuna not yet
      taken is flagged and adds collectBonus to the running score. */
  method CollectLoop(hb: Box, cs: seq<WorldObject>, score: nat) returns (r: seq<WorldObject>, total: nat)
    ensures r == CollectAll(hb, cs)
    ensures total == score + CollectBonus * NewlyCollected(hb, cs)
  {
    r, total := cs, score;
    var i := 0;
    while i < |r|
      invariant 0 <= i <= |r| == |cs|
      invariant r == CollectAll(hb, cs[..i]) + cs[i..]
      invariant total == score + CollectBonus * NewlyCollected(hb, cs[..i])
    {
      var coll := r[i];
      assert coll == cs[i..][0] == cs[i];
      CollectStep(hb, cs, i);
      if coll.Collectible? && !coll.collected && BoxCollision(hb, coll.box) {
        r := r[i := coll.(collected := true)];
        total := total + CollectBonus;
      } else {
        assert Collect(hb, cs[i]) == coll;
        assert r == r[i := coll];
      }
      i := i + 1;
    }
    assert cs[..i] == cs;
  }

  /** Shelter precedence: inside a tunnel no obstacle can end the round. */
  lemma ShelterPrecedence(s: State)
    requires AnyOverlap(Hitbox(s.theo), s.tunnels)
    ensures Collided(s).mode == s.mode
    ensures Collided(s).collectibles == CollectAll(Hitbox(s.theo), s.collectibles)
  {
  }

  /** An unsheltered obstacle hit ends the round and scores no tuna. */
  lemma HitEndsRound(s: State)
    requires !AnyOverlap(Hitbox(s.theo), s.tunnels) && AnyOverlap(Hitbox(s.theo), s.obstacles)
    ensures Collided(s) == Ended(s)
    ensures Collided(s).mode == GameOver
    ensures Collided(s).score == s.score && Collided(s).collectibles == s.collectibles
  {
  }

  /** Without an unsheltered hit the round goes on: every touched tuna not
      yet taken is flagged, and each adds collectBonus and one collect sound. */
  lemma CollectedWithoutHit(s: State)
    requires AnyOverlap(Hitbox(s.theo), s.tunnels) || !AnyOverlap(Hitbox(s.theo), s.obstacles)
    ensures var hb := Hitbox(s.theo);
      var n := |set k | 0 <= k < |s.collectibles| && Collectable(hb, s.collectibles[k])|;
      Collided(s) == s.(collectibles := CollectAll(hb, s.collectibles),
                        score := s.score + CollectBonus * n,
                        sounds := s.sounds + CollectSounds(n))
  {
    CountTaken(Hitbox(s.theo), s.collectibles);
  }

  /** Nothing is taken exactly when no untaken tuna is touched. */
  lemma {:induction false} NothingCollected(hb: Box, cs: seq<WorldObject>)
    ensures NewlyCollected(hb, cs) == 0 <==> forall k :: 0 <= k < |cs| ==> !Collectable(hb, cs[k])
  {
    if cs != [] {
      var init := cs[..|cs| - 1];
      NothingCollected(hb, init);
      assert forall k :: 0 <= k < |init| ==> init[k] == cs[k];
    }
  }

  /** Score-once: after a pass, a second pass over the same list takes nothing
      and changes nothing, so a taken tuna is never rescored. */
  lemma CollectOnce(hb: Box, cs: seq<WorldObject>)
    ensures CollectAll(hb, CollectAll(hb, cs)) == CollectAll(hb, cs)
    ensures NewlyCollected(hb, CollectAll(hb, cs)) == 0
  {
    var once := CollectAll(hb, cs);
    forall k | 0 <= k < |once| ensures !Collectable(hb, once[k]) {
    }
    NothingCollected(hb, once);
  }

  /** Collection keeps the collectibles list to tuna only. */
  lemma CollectKeepsVariant(hb: Box, cs: seq<WorldObject>)
    requires forall o :: o in cs ==> o.Collectible?
    ensures forall o :: o in CollectAll(hb, cs) ==> o.Collectible?
  {
    var r := CollectAll(hb, cs);
    forall o | o in r ensures o.Collectible? {
      var k :| 0 <= k < |r| && r[k] == o;
      assert cs[k] in cs;
    }
  }

  /** Theo running on the ground runs into an orange: the round ends. */
  lemma GroundedTheoHitsOrange(s: State)
    requires Grounded(s.theo) && s.mode == Playing && s.tunnels == []
    requires s.obstacles == [Obstacle(Box(100.0, GroundY - 25.0, 30.0, 30.0), Orange)]
    ensures Collided(s).mode == GameOver
  {
    assert BoxCollision(Hitbox(s.theo), s.obstacles[0].box);
  }

  /** The same orange inside a tunnel that holds a tuna: Theo is sheltered,
      takes the tuna and scores collectBonus. */
  lemma ShelteredTheoTakesTuna(s: State)
    requires Grounded(s.theo) && s.mode == Playing
    requires s.obstacles == [Obstacle(Box(100.0, GroundY - 25.0, 30.0, 30.0), Orange)]
    requires s.tunnels == [Tunnel(Box(60.0, GroundY - 50.0, 100.0, 60.0))]
    requires s.collectibles == [Collectible(Box(95.0, GroundY - 25.0, 30.0, 20.0), false)]
    ensures Collided(s).mode == Playing
    ensures Collided(s).score == s.score + CollectBonus
    ensures Collided(s).collectibles == [Collectible(Box(95.0, GroundY - 25.0, 30.0, 20.0), true)]
  {
    var hb := Hitbox(s.theo);
    assert BoxCollision(hb, s.tunnels[0].box);
    assert Collectable(hb, s.collectibles[0]);
    assert s.collectibles[..0] == [];
  }
}
