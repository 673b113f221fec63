/** The ghost's direction engine as functions of the ghost's box, its current
    direction and the wall list: which of the four directions are clear, which of
    them are admissible, and which one a chasing or fleeing ghost prefers. The
    Ghost class runs these same computations as loops and is proved against them. */
module DirectionEngine {
  import opened Geometry
  import opened Mazes

  /** isPathClear: a non-zero direction is clear when the ghost's box, moved two
      units along it, overlaps no wall. */
  predicate PathClear(walls: seq<Box>, pos: Vec, size: Vec, d: Vec) {
    d != Zero && !HitsWall(walls, BoxAt(MulAdd(pos, d, 2.0), size))
  }

  /** The number of clear directions among ds. */
  function ClearCount(walls: seq<Box>, pos: Vec, size: Vec, ds: seq<Vec>): (n: nat)
    ensures n <= |ds|
  {
    if ds == [] then 0
    else ClearCount(walls, pos, size, ds[..|ds| - 1]) + (if PathClear(walls, pos, size, ds[|ds| - 1]) then 1 else 0)
  }

  /** countValidExits. */
  function ExitCount(walls: seq<Box>, pos: Vec, size: Vec): nat {
    ClearCount(walls, pos, size, Units)
  }

  /** The loop test of getValidDirections: d is skipped when it is the reverse and
      more than one exit is clear, and kept when it is clear. */
  predicate Admitted(walls: seq<Box>, pos: Vec, size: Vec, cur: Vec, exits: nat, d: Vec) {
    !(d == Neg(cur) && exits > 1) && PathClear(walls, pos, size, d)
  }

  /** The admitted directions of ds, in the order of ds. */
  function Kept(walls: seq<Box>, pos: Vec, size: Vec, cur: Vec, exits: nat, ds: seq<Vec>): seq<Vec> {
    if ds == [] then []
    else Kept(walls, pos, size, cur, exits, ds[..|ds| - 1]) +
         (if Admitted(walls, pos, size, cur, exits, ds[|ds| - 1]) then [ds[|ds| - 1]] else [])
  }

  /** getValidDirections: the admitted unit directions, or, when there are none,
      the reverse if it is clear. */
  function ValidDirections(walls: seq<Box>, pos: Vec, size: Vec, cur: Vec): seq<Vec> {
    var kept := Kept(walls, pos, size, cur, ExitCount(walls, pos, size), Units);
    if kept == [] && PathClear(walls, pos, size, Neg(cur)) then [Neg(cur)] else kept
  }

  /** Position of a unit direction in the enumeration order right, left, up, down. */
  function UnitIndex(d: Vec): nat {
    if d == Right then 0 else if d == Left then 1 else if d == Up then 2 else 3
  }

  /** Unit directions listed in enumeration order, each at most once. */
  predicate InEnumerationOrder(r: seq<Vec>) {
    (forall i :: 0 <= i < |r| ==> IsUnit(r[i])) &&
    (forall i, j :: 0 <= i < j < |r| ==> UnitIndex(r[i]) < UnitIndex(r[j]))
  }

  /** What Kept keeps of the first n unit directions: exactly the admitted ones. */
  lemma {:induction false} KeptPrefix(walls: seq<Box>, pos: Vec, size: Vec, cur: Vec, exits: nat, n: nat)
    requires n <= 4
    ensures forall d :: d in Kept(walls, pos, size, cur, exits, Units[..n]) <==>
      d in Units[..n] && Admitted(walls, pos, size, cur, exits, d)
  {
    if n > 0 {
      KeptPrefix(walls, pos, size, cur, exits, n - 1);
      var u := Units[n - 1];
      assert Units[..n][..n - 1] == Units[..n - 1];
      assert Units[..n] == Units[..n - 1] + [u];
    }
  }

  /** ... and it lists them in enumeration order, each below the n-th. */
  lemma {:induction false} KeptPrefixOrdered(walls: seq<Box>, pos: Vec, size: Vec, cur: Vec, exits: nat, n: nat)
    requires n <= 4
    ensures var r := Kept(walls, pos, size, cur, exits, Units[..n]);
      InEnumerationOrder(r) && forall i :: 0 <= i < |r| ==> UnitIndex(r[i]) < n
  {
    if n > 0 {
      KeptPrefixOrdered(walls, pos, size, cur, exits, n - 1);
      var u := Units[n - 1];
      assert Units[..n][..n - 1] == Units[..n - 1];
      assert IsUnit(u) && UnitIndex(u) == n - 1;
    }
  }

  /** The number of clear units counts the clear ones of the first n. */
  lemma {:induction false} ClearCountPrefix(walls: seq<Box>, pos: Vec, size: Vec, n: nat)
    requires n <= 4
    ensures ClearCount(walls, pos, size, Units[..n]) ==
      (if n > 0 && PathClear(walls, pos, size, Right) then 1 else 0) +
      (if n > 1 && PathClear(walls, pos, size, Left) then 1 else 0) +
      (if n > 2 && PathClear(walls, pos, size, Up) then 1 else 0) +
      (if n > 3 && PathClear(walls, pos, size, Down) then 1 else 0)
  {
    if n > 0 {
      ClearCountPrefix(walls, pos, size, n - 1);
      assert Units[..n][..n - 1] == Units[..n - 1];
    }
  }

  /** The kept list: the admitted unit directions, in enumeration order. */
  lemma KeptUnits(walls: seq<Box>, pos: Vec, size: Vec, cur: Vec, exits: nat)
    ensures InEnumerationOrder(Kept(walls, pos, size, cur, exits, Units))
    ensures forall d :: d in Kept(walls, pos, size, cur, exits, Units) <==>
      IsUnit(d) && Admitted(walls, pos, size, cur, exits, d)
  {
    KeptPrefix(walls, pos, size, cur, exits, 4);
    KeptPrefixOrdered(walls, pos, size, cur, exits, 4);
    assert Units[..4] == Units;
  }

  /** There is an exit iff one of the four directions is clear, and more than one
      exit iff two different directions are clear. */
  lemma ExitCountPositive(walls: seq<Box>, pos: Vec, size: Vec)
    ensures ExitCount(walls, pos, size) > 0 <==>
      exists d :: IsUnit(d) && PathClear(walls, pos, size, d)
    ensures ExitCount(walls, pos, size) > 1 ==>
      exists d, e :: IsUnit(d) && IsUnit(e) && d != e && PathClear(walls, pos, size, d) && PathClear(walls, pos, size, e)
  {
    ClearCountPrefix(walls, pos, size, 4);
    assert Units[..4] == Units;
    var r, l, u, w := PathClear(walls, pos, size, Right), PathClear(walls, pos, size, Left),
                      PathClear(walls, pos, size, Up), PathClear(walls, pos, size, Down);
    if r { assert IsUnit(Right); }
    if l { assert IsUnit(Left); }
    if u { assert IsUnit(Up); }
    if w { assert IsUnit(Down); }
    if ExitCount(walls, pos, size) > 1 {
      if r && l { assert IsUnit(Right) && IsUnit(Left) && Right != Left; }
      else if r && u { assert IsUnit(Right) && IsUnit(Up) && Right != Up; }
      else if r && w { assert IsUnit(Right) && IsUnit(Down) && Right != Down; }
      else if l && u { assert IsUnit(Left) && IsUnit(Up) && Left != Up; }
      else if l && w { assert IsUnit(Left) && IsUnit(Down) && Left != Down; }
      else { assert IsUnit(Up) && IsUnit(Down) && Up != Down; }
    }
  }

  /** With a unit current direction, some direction is admitted whenever some exit
      is clear, so the fallback to the reverse never changes the result. */
  lemma FallbackUnused(walls: seq<Box>, pos: Vec, size: Vec, cur: Vec)
    requires IsUnit(cur)
    ensures ValidDirections(walls, pos, size, cur) == Kept(walls, pos, size, cur, ExitCount(walls, pos, size), Units)
    ensures ExitCount(walls, pos, size) > 0 ==> Kept(walls, pos, size, cur, ExitCount(walls, pos, size), Units) != []
  {
    var exits := ExitCount(walls, pos, size);
    var kept := Kept(walls, pos, size, cur, exits, Units);
    KeptUnits(walls, pos, size, cur, exits);
    ExitCountPositive(walls, pos, size);
    assert IsUnit(Neg(cur));
    if exits > 0 {
      var d :| IsUnit(d) && PathClear(walls, pos, size, d);
      if exits > 1 {
        var e :| IsUnit(e) && PathClear(walls, pos, size, e) && e != d;
        if d == Neg(cur) { assert e in kept; } else { assert d in kept; }
      } else {
        assert d in kept;
      }
    }
  }

  /** For a unit current direction, a direction is returned iff it is a clear unit
      direction that is not the reverse or is the reverse while it is the only
      exit; the list keeps the order right, left, up, down; and it is empty only
      when all four directions are blocked, so a dead end yields the reverse. */
  lemma ValidDirectionsCharacterised(walls: seq<Box>, pos: Vec, size: Vec, cur: Vec)
    requires IsUnit(cur)
    ensures InEnumerationOrder(ValidDirections(walls, pos, size, cur))
    ensures forall d :: d in ValidDirections(walls, pos, size, cur) <==>
      IsUnit(d) && PathClear(walls, pos, size, d) && (d != Neg(cur) || ExitCount(walls, pos, size) <= 1)
    ensures |ValidDirections(walls, pos, size, cur)| > 0 <==> ExitCount(walls, pos, size) > 0
  {
    var exits := ExitCount(walls, pos, size);
    var kept := Kept(walls, pos, size, cur, exits, Units);
    KeptUnits(walls, pos, size, cur, exits);
    FallbackUnused(walls, pos, size, cur);
    ExitCountPositive(walls, pos, size);
    if |kept| > 0 {
      assert kept[0] in kept;
    }
  }

  /** The reverse of the current direction is never returned while more than one of
      the four directions is clear, whatever the current direction. */
  lemma NoNeedlessReversal(walls: seq<Box>, pos: Vec, size: Vec, cur: Vec)
    requires ExitCount(walls, pos, size) > 1
    ensures Neg(cur) !in ValidDirections(walls, pos, size, cur)
  {
    var exits := ExitCount(walls, pos, size);
    var kept := Kept(walls, pos, size, cur, exits, Units);
    KeptUnits(walls, pos, size, cur, exits);
    ExitCountPositive(walls, pos, size);
    var d, e :| IsUnit(d) && IsUnit(e) && PathClear(walls, pos, size, d) && PathClear(walls, pos, size, e) && d != e;
    if d == Neg(cur) { assert e in kept; } else { assert d in kept; }
  }

  /** Everything getValidDirections returns is clear, whatever the current direction. */
  lemma ValidDirectionsClear(walls: seq<Box>, pos: Vec, size: Vec, cur: Vec, d: Vec)
    requires d in ValidDirections(walls, pos, size, cur)
    ensures PathClear(walls, pos, size, d)
  {
    KeptPrefix(walls, pos, size, cur, ExitCount(walls, pos, size), 4);
    KeptPrefixOrdered(walls, pos, size, cur, ExitCount(walls, pos, size), 4);
    assert Units[..4] == Units;
  }

  /** Is a strictly better than b: nearer when chasing, farther when fleeing. */
  predicate Better(a: real, b: real, fleeing: bool) {
    if fleeing then a > b else a < b
  }

  /** The index chooseBestDirection settles on: scanning left to right, a candidate
      replaces the best so far only when strictly better. */
  function ArgBest(ms: seq<real>, fleeing: bool): (k: nat)
    requires |ms| > 0
    ensures k < |ms|
  {
    if |ms| == 1 then 0
    else
      var k := ArgBest(ms[..|ms| - 1], fleeing);
      if Better(ms[|ms| - 1], ms[k], fleeing) then |ms| - 1 else k
  }

  /** ArgBest is optimal (no candidate is strictly better: the minimum when chasing,
      the maximum when fleeing) and ties go to the earliest candidate (every
      earlier one is strictly worse). */
  lemma {:induction false} ArgBestIsBest(ms: seq<real>, fleeing: bool)
    requires |ms| > 0
    ensures forall j :: 0 <= j < |ms| ==> !Better(ms[j], ms[ArgBest(ms, fleeing)], fleeing)
    ensures forall j :: 0 <= j < ArgBest(ms, fleeing) ==> Better(ms[ArgBest(ms, fleeing)], ms[j], fleeing)
  {
    if |ms| > 1 {
      var init := ms[..|ms| - 1];
      ArgBestIsBest(init, fleeing);
      var k := ArgBest(init, fleeing);
      assert forall j :: 0 <= j < |init| ==> ms[j] == init[j];
    }
  }

  /** The squared distance from the tile-size step along each candidate, taken from
      the ghost's centre, to the target. */
  function Metrics(dirs: seq<Vec>, center: Vec, tileSize: real, target: Vec): (ms: seq<real>)
    ensures |ms| == |dirs|
    ensures forall i :: 0 <= i < |dirs| ==> ms[i] == Dst2(MulAdd(center, dirs[i], tileSize), target)
  {
    seq(|dirs|, i requires 0 <= i < |dirs| => Dst2(MulAdd(center, dirs[i], tileSize), target))
  }

  /** chooseBestDirection. */
  function BestDirection(dirs: seq<Vec>, center: Vec, tileSize: real, target: Vec, fleeing: bool): (d: Vec)
    requires |dirs| > 0
    ensures d in dirs
  {
    dirs[ArgBest(Metrics(dirs, center, tileSize, target), fleeing)]
  }

  /** isAtTileCenter: the centre lies closer than half a tick's travel to the centre
      of the tile it is in (compared squared; the tolerance must be positive for a
      distance to fall below it). */
  predicate AtTileCenter(center: Vec, speed: real, delta: real, tileSize: real)
    requires tileSize != 0.0
  {
    var tolerance := speed * delta / 2.0;
    var tileCenter := Vec((center.x / tileSize).Floor as real * tileSize + tileSize / 2.0,
                          (center.y / tileSize).Floor as real * tileSize + tileSize / 2.0);
    tolerance > 0.0 && Dst2(center, tileCenter) < tolerance * tolerance
  }

  /** A centre lying exactly on a tile's centre counts as at the tile centre as soon
      as the ghost travels at all in the tick; when it does not travel (speed * delta
      not positive) no centre ever counts. */
  lemma {:induction false} AtTileCenterTolerance(col: int, row: int, tileSize: real, speed: real, delta: real,
                                                 center: Vec)
    requires tileSize > 0.0
    ensures speed * delta > 0.0 ==>
              AtTileCenter(Vec(col as real * tileSize + tileSize / 2.0, row as real * tileSize + tileSize / 2.0),
                           speed, delta, tileSize)
    ensures speed * delta <= 0.0 ==> !AtTileCenter(center, speed, delta, tileSize)
  {
    var c := Vec(col as real * tileSize + tileSize / 2.0, row as real * tileSize + tileSize / 2.0);
    HalfTile(col, tileSize);
    HalfTile(row, tileSize);
    var tileCenter := Vec((c.x / tileSize).Floor as real * tileSize + tileSize / 2.0,
                          (c.y / tileSize).Floor as real * tileSize + tileSize / 2.0);
    assert tileCenter == c;
    if speed * delta > 0.0 {
      assert Dst2(c, tileCenter) == 0.0;
      BelowSquare(Dst2(c, tileCenter), speed * delta / 2.0);
    }
  }

  /** Zero lies below the square of any positive tolerance. */
  lemma BelowSquare(d: real, tolerance: real)
    requires d == 0.0 && tolerance > 0.0
    ensures d < tolerance * tolerance
  {
    calc {
      d;
    ==
      0.0;
    < { SquareNonNeg(tolerance); }
      tolerance * tolerance;
    }
  }

  /** The middle of tile k, divided by the tile size, floors back to k. */
  lemma HalfTile(k: int, tileSize: real)
    requires tileSize > 0.0
    ensures ((k as real * tileSize + tileSize / 2.0) / tileSize).Floor == k
  {
    var m := k as real + 0.5;
    var q := (k as real * tileSize + tileSize / 2.0) / tileSize;
    assert q * tileSize == m * tileSize;
    assert q == m;
    assert m.Floor == k;
  }

  /** isAboutToHitWall: no direction, or the current one is blocked. */
  predicate AboutToHitWall(walls: seq<Box>, pos: Vec, size: Vec, cur: Vec) {
    cur == Zero || !PathClear(walls, pos, size, cur)
  }
}
