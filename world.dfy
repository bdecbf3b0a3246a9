/** The world objects and the per-tick scrolling of their lists (moveObjects). */
module World {
  import opened Geometry

  datatype ObstacleKind = Orange | Bag

  /** One entry of the obstacles, collectibles or tunnels list. The three
      variants share the rectangle; each list holds one variant only. */
  datatype WorldObject =
    | Obstacle(box: Box, kind: ObstacleKind)
    | Collectible(box: Box, collected: bool)
    | Tunnel(box: Box)

  /** The object moved left by speed. */
  function Shifted(o: WorldObject, speed: real): (moved: WorldObject)
  {
    o.(box := o.box.(x := o.box.x - speed))
  }

  /** The trailing edge has passed the left border of the field. */
  predicate OffScreen(o: WorldObject)
  {
    o.box.x + o.box.width < 0.0
  }

  /** The list after moveObjects: every element shifted, and those now off
      screen dropped. */
  function Advance(s: seq<WorldObject>, speed: real): (r: seq<WorldObject>)
    ensures |r| <= |s|
    ensures forall k :: 0 <= k < |r| ==> !OffScreen(r[k])
  {
    if s == [] then []
    else
      var o := Shifted(s[0], speed);
      (if OffScreen(o) then [] else [o]) + Advance(s[1..], speed)
  }

  /** The indices j >= i of s whose element survives one advance, in order. */
  function KeptFrom(s: seq<WorldObject>, speed: real, i: nat): (ks: seq<nat>)
    requires i <= |s|
    decreases |s| - i
  {
    if i == |s| then []
    else (if OffScreen(Shifted(s[i], speed)) then [] else [i]) + KeptFrom(s, speed, i + 1)
  }

  /** Advance of the suffix s[i..] is exactly the survivors of that suffix,
      shifted, in their original order. */
  lemma {:induction false} AdvanceFrom(s: seq<WorldObject>, speed: real, i: nat)
    requires i <= |s|
    ensures var r, ks := Advance(s[i..], speed), KeptFrom(s, speed, i);
      |r| == |ks| &&
      (forall k :: 0 <= k < |ks| ==> i <= ks[k] < |s| && r[k] == Shifted(s[ks[k]], speed)) &&
      (forall k, l :: 0 <= k < l < |ks| ==> ks[k] < ks[l]) &&
      (forall j :: i <= j < |s| ==> (j in ks <==> !OffScreen(Shifted(s[j], speed))))
    decreases |s| - i
  {
    if i < |s| {
      AdvanceFrom(s, speed, i + 1);
      assert s[i..][1..] == s[i + 1..];
      assert s[i..][0] == s[i];
    }
  }

  /** Pruning exactness for moveObjects: the survivors are the elements whose
      shifted trailing edge is not past the left border, kept in order; each
      moved left by exactly speed, nothing else about it changed. */
  lemma AdvanceExact(s: seq<WorldObject>, speed: real)
    ensures var r, ks := Advance(s, speed), KeptFrom(s, speed, 0);
      |r| == |ks| &&
      (forall k, l :: 0 <= k < l < |ks| ==> ks[k] < ks[l]) &&
      (forall j :: 0 <= j < |s| ==> (j in ks <==> s[j].box.x - speed + s[j].box.width >= 0.0)) &&
      (forall k :: 0 <= k < |ks| ==>
         ks[k] < |s| &&
         r[k] == Shifted(s[ks[k]], speed) &&
         r[k].box.x == s[ks[k]].box.x - speed &&
         r[k].box.(x := s[ks[k]].box.x) == s[ks[k]].box)
  {
    AdvanceFrom(s, speed, 0);
    assert s[0..] == s;
  }

  /** Advancing keeps each list to its one variant. */
  lemma {:induction false} AdvanceKeepsVariant(s: seq<WorldObject>, speed: real)
    ensures (forall o :: o in s ==> o.Obstacle?) ==> (forall o :: o in Advance(s, speed) ==> o.Obstacle?)
    ensures (forall o :: o in s ==> o.Collectible?) ==> (forall o :: o in Advance(s, speed) ==> o.Collectible?)
    ensures (forall o :: o in s ==> o.Tunnel?) ==> (forall o :: o in Advance(s, speed) ==> o.Tunnel?)
  {
    if s != [] {
      AdvanceKeepsVariant(s[1..], speed);
      assert forall o :: o in s[1..] ==> o in s;
      var o := Shifted(s[0], speed);
      assert o.Obstacle? == s[0].Obstacle? && o.Collectible? == s[0].Collectible? && o.Tunnel? == s[0].Tunnel?;
    }
  }

  /** moveObjects: a backward index loop that moves each element and splices
      out the ones that left the field. */
  method MoveObjects(arr: seq<WorldObject>, speed: real) returns (r: seq<WorldObject>)
    ensures r == Advance(arr, speed)
  {
    r := arr;
    var i := |arr| - 1;
    while i >= 0
      invariant -1 <= i < |arr|
      invariant r == arr[..i + 1] + Advance(arr[i + 1..], speed)
    {
      assert arr[i..][1..] == arr[i + 1..];
      assert arr[i..][0] == arr[i];
      r := r[i := Shifted(r[i], speed)];
      if OffScreen(r[i]) {
        r := r[..i] + r[i + 1..];
      }
      assert arr[..i + 1][..i] == arr[..i];
      i := i - 1;
    }
    assert arr[0..] == arr;
  }
}
