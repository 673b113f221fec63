/** The game-loop bookkeeping of the Main screen: eating dots and power-ups,
    ghost collisions, lives and the game state, the respawn delay, dot placement
    and power-up spawning. Keys and random draws arrive as parameters. */
module GameLoop {
  import opened Geometry
  import opened Timers
  import opened Mazes
  import opened Players
  import opened GhostTypes
  import opened Ghosts
  import opened PowerUps

  datatype GameState = Menu | Playing | Respawning | GameOver | GameWon

  datatype Option<T> = None | Some(value: T)

  const DotPoints: int := 10
  const GhostPoints: int := 200
  const StartingLives: int := 3
  /** The delay between a lost life and the next round, in seconds. */
  const RespawnDelay: real := 1.5
  /** What eating a PowerFood grants Pacman and the scared music, in seconds. */
  const PowerFoodTime: real := 5.0
  const FirstSpawnDelay: real := 5.0
  const MaxActivePowerUps: nat := 5
  const MaxAttempts: nat := 100

  // ---------------------------------------------------------------- dots

  /** The dots Pacman's box pb does not overlap, in their original order. */
  function Uneaten(ds: seq<Box>, pb: Box): seq<Box> {
    if |ds| == 0 then []
    else (if Overlaps(pb, ds[0]) then [] else [ds[0]]) + Uneaten(ds[1..], pb)
  }

  /** The dots Pacman's box pb overlaps, in their original order. */
  function Eaten(ds: seq<Box>, pb: Box): seq<Box> {
    if |ds| == 0 then []
    else (if Overlaps(pb, ds[0]) then [ds[0]] else []) + Eaten(ds[1..], pb)
  }

  /** Every dot is either eaten or kept, never both: the kept ones are exactly
      those not overlapping Pacman, the eaten ones exactly those overlapping. */
  lemma {:induction false} EatingPartitions(ds: seq<Box>, pb: Box)
    ensures |Uneaten(ds, pb)| + |Eaten(ds, pb)| == |ds|
    ensures forall d :: d in Uneaten(ds, pb) <==> d in ds && !Overlaps(pb, d)
    ensures forall d :: d in Eaten(ds, pb) <==> d in ds && Overlaps(pb, d)
  {
    if |ds| > 0 {
      EatingPartitions(ds[1..], pb);
      assert ds == [ds[0]] + ds[1..];
    }
  }

  /** A second bite at the same place eats nothing more. */
  lemma {:induction false} UneatenIdempotent(ds: seq<Box>, pb: Box)
    ensures Uneaten(Uneaten(ds, pb), pb) == Uneaten(ds, pb)
    ensures Eaten(Uneaten(ds, pb), pb) == []
  {
    if |ds| > 0 {
      UneatenIdempotent(ds[1..], pb);
      var rest := Uneaten(ds[1..], pb);
      if Overlaps(pb, ds[0]) {
        assert Uneaten(ds, pb) == rest;
      } else {
        var u := Uneaten(ds, pb);
        assert u == [ds[0]] + rest;
        assert u[0] == ds[0] && u[1..] == rest;
        assert Uneaten(u, pb) == [ds[0]] + Uneaten(rest, pb);
        assert Eaten(u, pb) == Eaten(rest, pb);
      }
    }
  }

  // ---------------------------------------------------------------- ghost collisions

  /** What checkGhostCollisions looks at in a ghost: its box and whether it is scared. */
  datatype GhostView = GhostView(box: Box, scared: bool)

  /** A scared ghost overlapping pb is eaten. */
  predicate GhostEaten(v: GhostView, pb: Box) {
    Overlaps(pb, v.box) && v.scared
  }

  /** A ghost's position, scared state and heading, the parts a collision can change. */
  datatype Pose = Pose(position: Vec, scared: bool, scaredTime: real, direction: Vec, sprite: GhostSprite)

  /** Ghost.respawn: back at the start, not scared, heading down; the spell's time is kept. */
  function Respawned(p: Pose, start: Vec): (q: Pose)
    ensures q.position == start && !q.scared && q.direction == Down && q.sprite == NormalSprite
    ensures q.scaredTime == p.scaredTime
  {
    p.(position := start, scared := false, direction := Down, sprite := NormalSprite)
  }

  /** How many of the ghosts overlapping pb are scared (each is eaten for 200 points). */
  function ScaredHits(vs: seq<GhostView>, pb: Box): (n: nat)
    ensures n <= |vs|
  {
    if |vs| == 0 then 0
    else ScaredHits(vs[..|vs| - 1], pb) + (if Overlaps(pb, vs[|vs| - 1].box) && vs[|vs| - 1].scared then 1 else 0)
  }

  /** How many of the ghosts overlapping pb are not scared (each catches Pacman). */
  function Catches(vs: seq<GhostView>, pb: Box): (n: nat)
    ensures n <= |vs|
  {
    if |vs| == 0 then 0
    else Catches(vs[..|vs| - 1], pb) + (if Overlaps(pb, vs[|vs| - 1].box) && !vs[|vs| - 1].scared then 1 else 0)
  }

  /** The lives a collision pass costs: every catch while Pacman is not powered up. */
  function LivesLost(vs: seq<GhostView>, pb: Box, powered: bool): (n: nat)
    ensures n <= |vs|
    ensures n > 0 <==> !powered && exists j :: 0 <= j < |vs| && Overlaps(pb, vs[j].box) && !vs[j].scared
  {
    CatchesPositive(vs, pb);
    if powered then 0 else Catches(vs, pb)
  }

  /** Some non-scared ghost overlaps pb exactly when there is a catch. */
  lemma {:induction false} CatchesPositive(vs: seq<GhostView>, pb: Box)
    ensures Catches(vs, pb) > 0 <==> exists j :: 0 <= j < |vs| && Overlaps(pb, vs[j].box) && !vs[j].scared
  {
    if |vs| > 0 {
      var init := vs[..|vs| - 1];
      CatchesPositive(init, pb);
      if Catches(init, pb) > 0 {
        var j :| 0 <= j < |init| && Overlaps(pb, init[j].box) && !init[j].scared;
        assert vs[j] == init[j];
      }
      if exists j :: 0 <= j < |vs| && Overlaps(pb, vs[j].box) && !vs[j].scared {
        var j :| 0 <= j < |vs| && Overlaps(pb, vs[j].box) && !vs[j].scared;
        if j < |vs| - 1 {
          assert init[j] == vs[j];
        }
      }
    }
  }

  /** Taking one more ghost into a pass adds its own hit. */
  lemma PassStep(vs: seq<GhostView>, i: nat, pb: Box, powered: bool)
    requires i < |vs|
    ensures ScaredHits(vs[..i + 1], pb) == ScaredHits(vs[..i], pb) + (if GhostEaten(vs[i], pb) then 1 else 0)
    ensures LivesLost(vs[..i + 1], pb, powered) ==
      LivesLost(vs[..i], pb, powered) + (if Overlaps(pb, vs[i].box) && !vs[i].scared && !powered then 1 else 0)
  {
    assert vs[..i + 1][..i] == vs[..i];
  }

  /** The ghosts' poses once a pass has dealt with the first i of them: each eaten
      one respawned, every other pose as it was. */
  function Resolved(ps: seq<Pose>, vs: seq<GhostView>, starts: seq<Vec>, pb: Box, i: nat): (rs: seq<Pose>)
    requires |vs| == |ps| == |starts|
    ensures |rs| == |ps|
    ensures forall j :: 0 <= j < |ps| ==>
      rs[j] == if j < i && GhostEaten(vs[j], pb) then Respawned(ps[j], starts[j]) else ps[j]
  {
    seq(|ps|, j requires 0 <= j < |ps| => if j < i && GhostEaten(vs[j], pb) then Respawned(ps[j], starts[j]) else ps[j])
  }

  lemma ResolvedStep(ps: seq<Pose>, vs: seq<GhostView>, starts: seq<Vec>, pb: Box, i: nat)
    requires |vs| == |ps| == |starts| && i < |ps|
    ensures Resolved(ps, vs, starts, pb, i + 1) ==
      Resolved(ps, vs, starts, pb, i)[i := if GhostEaten(vs[i], pb) then Respawned(ps[i], starts[i]) else ps[i]]
  {
  }

  /** The state a collision pass entered in PLAYING leaves: unchanged without a lost
      life, otherwise decided by the lives left after the last one. */
  function StateAfterCatches(lost: nat, livesAfter: int): (s: GameState)
    ensures s == Playing <==> lost == 0
    ensures s == GameOver <==> lost > 0 && livesAfter <= 0
    ensures s == Respawning <==> lost > 0 && livesAfter > 0
  {
    if lost == 0 then Playing else if livesAfter <= 0 then GameOver else Respawning
  }

  /** The respawn timer is set to 1.5 once some lost life leaves lives over; the
      first lost life leaves the most, so that is exactly when lives exceeded one. */
  function TimerAfterCatches(lost: nat, livesBefore: int, timer: real): (t: real)
    ensures lost > 0 && livesBefore - 1 > 0 ==> t == RespawnDelay
    ensures lost == 0 || livesBefore <= 1 ==> t == timer
  {
    if lost > 0 && livesBefore > 1 then RespawnDelay else timer
  }

  /** Two non-scared ghosts on Pacman at once cost two lives (the state is not
      re-checked inside the pass): with three lives the round is not over. */
  lemma TwoCatchesCostTwoLives(pb: Box, g1: Box, g2: Box)
    requires Overlaps(pb, g1) && Overlaps(pb, g2)
    ensures var vs := [GhostView(g1, false), GhostView(g2, false)];
      LivesLost(vs, pb, false) == 2 &&
      StateAfterCatches(LivesLost(vs, pb, false), StartingLives - 2) == Respawning &&
      TimerAfterCatches(LivesLost(vs, pb, false), StartingLives, 0.0) == RespawnDelay
  {
    var vs := [GhostView(g1, false), GhostView(g2, false)];
    assert vs[..1] == [GhostView(g1, false)];
    assert vs[..1][..0] == [];
    assert Catches(vs[..1][..0], pb) == 0;
    assert Catches(vs[..1], pb) == 1;
    assert Catches(vs, pb) == 2;
  }

  // ---------------------------------------------------------------- power-up collection

  /** What checkPowerUpCollisions looks at in an item. */
  datatype ItemView = ItemView(kind: Kind, box: Box, active: bool)

  /** A ghost's scared state. */
  datatype Mood = Mood(scared: bool, scaredTime: real, sprite: GhostSprite)

  /** What eating a PowerFood leaves behind with n ghosts: Pacman powered up and
      darkened for 5 seconds, every ghost scared for its whole spell, and the
      5-second scared music on. */
  function FoodState(n: nat): (e: EffectState)
    ensures |e.moods| == n && forall i :: 0 <= i < n ==> e.moods[i].scared
  {
    EffectState(true, PowerFoodTime, Darkened, PowerFoodTime, true,
      seq(n, _ => Mood(true, ScaredSpell, ScaredSprite)))
  }

  /** The state eating a PowerFood changes. */
  datatype EffectState = EffectState(poweredUp: bool, powerUpTime: real, sprite: Sprite,
                                       musicTime: real, music: bool, moods: seq<Mood>)

  predicate Grabbed(v: ItemView, pb: Box) {
    v.active && Overlaps(pb, v.box)
  }

  /** The points a pass collects: the score value of every active item Pacman overlaps. */
  function Gains(vs: seq<ItemView>, pb: Box): (n: int)
    ensures n >= 0
    ensures n == 0 <==> forall j :: 0 <= j < |vs| ==> !Grabbed(vs[j], pb)
  {
    if |vs| == 0 then 0
    else
      var rest := Gains(vs[1..], pb);
      assert forall j :: 1 <= j < |vs| ==> vs[j] == vs[1..][j - 1];
      assert forall j :: 0 <= j < |vs| - 1 ==> vs[1..][j] == vs[j + 1];
      (if Grabbed(vs[0], pb) then ScoreValue(vs[0].kind) else 0) + rest
  }

  /** Whether a pass collects some PowerFood. */
  function FoodGrabbed(vs: seq<ItemView>, pb: Box): (b: bool)
    ensures b <==> exists j :: 0 <= j < |vs| && Grabbed(vs[j], pb) && vs[j].kind == PowerFood
  {
    if |vs| == 0 then false
    else
      assert forall j :: 1 <= j < |vs| ==> vs[j] == vs[1..][j - 1];
      assert forall j :: 0 <= j < |vs| - 1 ==> vs[1..][j] == vs[j + 1];
      (Grabbed(vs[0], pb) && vs[0].kind == PowerFood) || FoodGrabbed(vs[1..], pb)
  }

  /** A lone cherry adds its 100 or 300 points and grants no power; a lone
      PowerFood adds 50 and does. */
  lemma SingleItemGains(k: Kind, b: Box, pb: Box)
    requires Overlaps(pb, b)
    ensures Gains([ItemView(k, b, true)], pb) == ScoreValue(k)
    ensures FoodGrabbed([ItemView(k, b, true)], pb) <==> k == PowerFood
    ensures Gains([ItemView(k, b, false)], pb) == 0 && !FoodGrabbed([ItemView(k, b, false)], pb)
  {
    assert [ItemView(k, b, true)][1..] == [];
    assert [ItemView(k, b, false)][1..] == [];
  }

  /** How many of the items are still active. */
  function ActiveCount(vs: seq<ItemView>): (n: nat)
    ensures n <= |vs|
  {
    if |vs| == 0 then 0 else ActiveCount(vs[..|vs| - 1]) + (if vs[|vs| - 1].active then 1 else 0)
  }

  // ---------------------------------------------------------------- spawn area and dot placement

  /** isNearInitialEntityPosition for tile size ts: strictly within 3.5 tiles of the
      point (9 ts + 5, 6 ts + 5) (compared squared), or strictly inside the ghost
      house of 5 x 4 tiles whose corner is tile (7, 9). */
  predicate NearSpawn(ts: real, x: real, y: real) {
    var tolerance := ts * 3.5;
    (tolerance > 0.0 && Dst2(Vec(x, y), Vec(9.0 * ts + 5.0, 6.0 * ts + 5.0)) < tolerance * tolerance) ||
    Contains(Box(7.0 * ts, 9.0 * ts, 5.0 * ts, 4.0 * ts), x, y)
  }

  /** The ghost house holds the centres of the four ghosts' start tiles, and
      Pacman's start tile centre lies within the spawn radius: no dot and no
      power-up is ever placed on a start tile. */
  lemma StartTilesAreNearSpawn()
    ensures NearSpawn(TileSize, CentreX(9), CentreY(11))
    ensures NearSpawn(TileSize, CentreX(8), CentreY(10))
    ensures NearSpawn(TileSize, CentreX(10), CentreY(10))
    ensures NearSpawn(TileSize, CentreX(9), CentreY(9))
    ensures NearSpawn(TileSize, CentreX(9), CentreY(5))
  {
    assert Dst2(Vec(CentreX(9), CentreY(5)), Vec(365.0, 245.0)) == 850.0;
  }

  /** The 10 x 10 dot centred on the centre of tile t. */
  function DotAt(t: Tile, ts: real): (d: Box)
    ensures d.w == 10.0 && d.h == 10.0
    ensures d.x + 5.0 == t.col as real * ts + ts / 2.0 && d.y + 5.0 == t.row as real * ts + ts / 2.0
  {
    Box(t.col as real * ts + ts / 2.0 - 5.0, t.row as real * ts + ts / 2.0 - 5.0, 10.0, 10.0)
  }

  /** initializeDots' test for tile t: its centre is not in a wall (a 1 x 1 probe)
      and not near a spawn position. */
  predicate DotSite(walls: seq<Box>, ts: real, t: Tile) {
    var cx := t.col as real * ts + ts / 2.0;
    var cy := t.row as real * ts + ts / 2.0;
    !HitsWall(walls, Box(cx, cy, 1.0, 1.0)) && !NearSpawn(ts, cx, cy)
  }

  /** The dot initializeDots places on tile t, if any. */
  function DotsAt(walls: seq<Box>, ts: real, t: Tile): seq<Box> {
    if DotSite(walls, ts, t) then [DotAt(t, ts)] else []
  }

  /** The dots placed on the given tiles, in their order. */
  function DotsOver(walls: seq<Box>, ts: real, tiles: seq<Tile>): seq<Box> {
    if |tiles| == 0 then []
    else DotsOver(walls, ts, tiles[..|tiles| - 1]) + DotsAt(walls, ts, tiles[|tiles| - 1])
  }

  /** The first n tiles of the board, row by row from the bottom, left to right
      (a row holds TotalCols = 18 tiles). */
  function BoardTiles(n: nat): (r: seq<Tile>)
    ensures |r| == n
    ensures forall k :: 0 <= k < n ==> r[k] == Tile(k % 18, k / 18)
  {
    seq(n, k requires 0 <= k < n => Tile(k % 18, k / 18))
  }

  /** Tile (c, r) comes at position 18 r + c of the board. */
  lemma BoardIndex(c: int, r: int)
    requires 0 <= c < 18 && 0 <= r
    ensures (18 * r + c) % 18 == c && (18 * r + c) / 18 == r
  {
  }

  /** The dots over the first n board tiles, built one tile at a time. */
  function DotsUpTo(walls: seq<Box>, ts: real, n: nat): seq<Box> {
    if n == 0 then [] else DotsUpTo(walls, ts, n - 1) + DotsAt(walls, ts, Tile((n - 1) % 18, (n - 1) / 18))
  }

  /** Building tile by tile gives the dots over the board's first n tiles. */
  lemma {:induction false} DotsUpToBoard(walls: seq<Box>, ts: real, n: nat)
    ensures DotsUpTo(walls, ts, n) == DotsOver(walls, ts, BoardTiles(n))
  {
    if n > 0 {
      DotsUpToBoard(walls, ts, n - 1);
      assert BoardTiles(n)[..n - 1] == BoardTiles(n - 1);
    }
  }

  /** Visiting tile (x, y) next, in board order, adds its dot if it has one. */
  lemma DotsUpToNextTile(walls: seq<Box>, ts: real, n: nat, x: int, y: int)
    requires 0 <= x < 18 && 0 <= y && n == 18 * y + x
    ensures DotsUpTo(walls, ts, n + 1) == DotsUpTo(walls, ts, n) + DotsAt(walls, ts, Tile(x, y))
  {
    BoardIndex(x, y);
  }

  /** The dots initializeDots lays out over the whole board. */
  function DotLayout(walls: seq<Box>, ts: real): seq<Box> {
    DotsOver(walls, ts, BoardTiles(18 * TotalRows))
  }

  lemma {:induction false} DotsOverMembers(walls: seq<Box>, ts: real, tiles: seq<Tile>, d: Box)
    ensures d in DotsOver(walls, ts, tiles) <==>
      exists k :: 0 <= k < |tiles| && DotSite(walls, ts, tiles[k]) && d == DotAt(tiles[k], ts)
  {
    if |tiles| > 0 {
      var init := tiles[..|tiles| - 1];
      DotsOverMembers(walls, ts, init, d);
      assert forall k :: 0 <= k < |init| ==> init[k] == tiles[k];
    }
  }

  /** On a maze built from wall tiles, a tile is a dot site iff it is not a wall
      tile and its centre is not near a spawn position. */
  lemma DotSiteOpen(tiles: seq<Tile>, c: int, r: int)
    ensures DotSite(Boxes(tiles), TileSize, Tile(c, r)) <==>
      Tile(c, r) !in tiles && !NearSpawn(TileSize, CentreX(c), CentreY(r))
  {
    WallAtTileCentre(tiles, c, r);
  }

  /** The open tiles of the first rows of the board that are not near a spawn position. */
  ghost predicate OpenDotTile(tiles: seq<Tile>, rows: nat, d: Box, c: int, r: int) {
    0 <= c < 18 && 0 <= r < rows && d == DotAt(Tile(c, r), TileSize) &&
    Tile(c, r) !in tiles && !NearSpawn(TileSize, CentreX(c), CentreY(r))
  }

  /** The dots over the first rows of the board, row by row. */
  lemma DotsOverRows(tiles: seq<Tile>, rows: nat, d: Box)
    ensures d in DotsOver(Boxes(tiles), TileSize, BoardTiles(18 * rows)) <==>
      exists c, r :: OpenDotTile(tiles, rows, d, c, r)
  {
    var board := BoardTiles(18 * rows);
    DotsOverMembers(Boxes(tiles), TileSize, board, d);
    if d in DotsOver(Boxes(tiles), TileSize, board) {
      var k :| 0 <= k < |board| && DotSite(Boxes(tiles), TileSize, board[k]) && d == DotAt(board[k], TileSize);
      var c, r := k % 18, k / 18;
      assert board[k] == Tile(c, r);
      DotSiteOpen(tiles, c, r);
      assert OpenDotTile(tiles, rows, d, c, r);
    }
    if exists c, r :: OpenDotTile(tiles, rows, d, c, r) {
      var c, r :| OpenDotTile(tiles, rows, d, c, r);
      BoardIndex(c, r);
      var k := 18 * r + c;
      assert board[k] == Tile(c, r);
      DotSiteOpen(tiles, c, r);
    }
  }

  /** On a maze built from wall tiles, a dot sits on the centre of every board tile
      that is not a wall tile and not near a spawn position, and nowhere else. */
  lemma DotsOnOpenTiles(tiles: seq<Tile>, d: Box)
    ensures d in DotLayout(Boxes(tiles), TileSize) <==>
      exists c, r :: 0 <= c < TotalCols && 0 <= r < TotalRows && d == DotAt(Tile(c, r), TileSize) &&
        Tile(c, r) !in tiles && !NearSpawn(TileSize, CentreX(c), CentreY(r))
  {
    DotsOverRows(tiles, TotalRows, d);
    if exists c, r :: OpenDotTile(tiles, TotalRows, d, c, r) {
      var c, r :| OpenDotTile(tiles, TotalRows, d, c, r);
      assert 0 <= c < TotalCols && 0 <= r < TotalRows && d == DotAt(Tile(c, r), TileSize);
    }
    if exists c, r :: 0 <= c < TotalCols && 0 <= r < TotalRows && d == DotAt(Tile(c, r), TileSize) &&
        Tile(c, r) !in tiles && !NearSpawn(TileSize, CentreX(c), CentreY(r)) {
      var c, r :| 0 <= c < TotalCols && 0 <= r < TotalRows && d == DotAt(Tile(c, r), TileSize) &&
        Tile(c, r) !in tiles && !NearSpawn(TileSize, CentreX(c), CentreY(r));
      assert OpenDotTile(tiles, TotalRows, d, c, r);
    }
  }

  // ---------------------------------------------------------------- spawning

  /** The corner of a 20 x 20 item centred on the drawn tile. */
  function SpawnCorner(t: Tile, ts: real): (p: Vec)
    ensures p.x + 10.0 == t.col as real * ts + ts / 2.0 && p.y + 10.0 == t.row as real * ts + ts / 2.0
  {
    Vec(t.col as real * ts + ts / 2.0 - 10.0, t.row as real * ts + ts / 2.0 - 10.0)
  }

  /** The do-while test: the item's box meets a wall, or its centre is near a spawn position. */
  predicate Blocked(walls: seq<Box>, ts: real, p: Vec) {
    HitsWall(walls, Box(p.x, p.y, 20.0, 20.0)) || NearSpawn(ts, p.x + 10.0, p.y + 10.0)
  }

  /** The first of the draws k .. n - 1 whose spot is not blocked. */
  function FirstFree(walls: seq<Box>, ts: real, draws: seq<Tile>, k: nat, n: nat): (r: Option<nat>)
    requires k <= n <= |draws|
    decreases n - k
    ensures r.Some? ==> k <= r.value < n && !Blocked(walls, ts, SpawnCorner(draws[r.value], ts)) &&
                        (forall j :: k <= j < r.value ==> Blocked(walls, ts, SpawnCorner(draws[j], ts)))
    ensures r.None? <==> forall j :: k <= j < n ==> Blocked(walls, ts, SpawnCorner(draws[j], ts))
  {
    if k == n then None
    else if !Blocked(walls, ts, SpawnCorner(draws[k], ts)) then Some(k)
    else FirstFree(walls, ts, draws, k + 1, n)
  }

  /** A free draw with only blocked draws before it is the one FirstFree finds. */
  lemma {:induction false} FirstFreeIsFirst(walls: seq<Box>, ts: real, draws: seq<Tile>, k: nat, n: nat, m: nat)
    requires k <= m < n <= |draws|
    requires !Blocked(walls, ts, SpawnCorner(draws[m], ts))
    requires forall j :: k <= j < m ==> Blocked(walls, ts, SpawnCorner(draws[j], ts))
    ensures FirstFree(walls, ts, draws, k, n) == Some(m)
    decreases m - k
  {
    if k < m {
      FirstFreeIsFirst(walls, ts, draws, k + 1, n, m);
    }
  }

  /** Where spawnRandomPowerUp places an item: the first free draw among the first
      99, since the loop stops after its 100th draw and then adds only when fewer
      than 100 attempts were made. */
  function SpawnDraw(walls: seq<Box>, ts: real, draws: seq<Tile>): Option<nat>
    requires |draws| >= MaxAttempts
  {
    FirstFree(walls, ts, draws, 0, MaxAttempts - 1)
  }

  /** The 100th draw is never used: if only it is free, nothing is placed. */
  lemma HundredthDrawUnused(walls: seq<Box>, ts: real, draws: seq<Tile>)
    requires |draws| >= MaxAttempts
    requires forall j :: 0 <= j < MaxAttempts - 1 ==> Blocked(walls, ts, SpawnCorner(draws[j], ts))
    ensures SpawnDraw(walls, ts, draws) == None
  {
  }

  /** The item a spawn adds: its kind and its lower-left corner. */
  datatype Spawn = Spawn(kind: Kind, corner: Vec)

  /** What one spawnRandomPowerUp call adds: nothing once five items are active or when
      no draw among the first 99 is free, otherwise an item of the drawn kind at the
      first free draw. */
  function SpawnOutcome(views: seq<ItemView>, walls: seq<Box>, ts: real, draws: seq<Tile>, kindDraw: real): Option<Spawn>
    requires |draws| >= MaxAttempts
  {
    if ActiveCount(views) >= MaxActivePowerUps then None
    else match SpawnDraw(walls, ts, draws)
      case None => None
      case Some(k) => Some(Spawn(KindForDraw(kindDraw), SpawnCorner(draws[k], ts)))
  }

  // ---------------------------------------------------------------- the game screen

  class Game {
    const maze: Maze
    const pacman: Pacman
    const ghosts: seq<Ghost>
    var dots: seq<Box>
    var powerUps: seq<PowerUp>
    var score: int
    var lives: int
    var gameTime: real
    var powerUpSpawnTimer: real
    var currentState: GameState
    var respawnTimer: real
    var powerUpRemainingTime: real
    /** Whether the scared music is playing (musicScared != null). */
    var scaredMusic: bool

    /** The object graph the game keeps: one maze of the fixed size shared by every ghost, one
        Pacman chased by every ghost, and no ghost or power-up listed twice. */
    ghost predicate Valid()
      reads this, maze
    {
      maze.Sized() &&
      (forall i, j :: 0 <= i < j < |ghosts| ==> ghosts[i] != ghosts[j]) &&
      (forall i :: 0 <= i < |ghosts| ==> ghosts[i].maze == maze && ghosts[i].pacman == pacman) &&
      (forall i, j :: 0 <= i < j < |powerUps| ==> powerUps[i] != powerUps[j])
    }

    /** Every ghost heads along one of the four unit directions. */
    ghost predicate Headings()
      reads ghosts
    {
      forall i :: 0 <= i < |ghosts| ==> IsUnit(ghosts[i].currentDirection)
    }

    /** The item list is before, followed by the item s describes when there is one. */
    ghost predicate Added(before: seq<PowerUp>, s: Option<Spawn>)
      reads this
    {
      match s
      case None => powerUps == before
      case Some(sp) =>
        |powerUps| == |before| + 1 && powerUps[..|before|] == before &&
        powerUps[|before|].kind == sp.kind && powerUps[|before|].position == sp.corner
    }

    /** create followed by startGame: a fresh maze, Pacman on tile (9, 5), the four
        ghosts in the ghost house, the dots laid out, no power-up yet, 3 lives, the menu. */
    constructor ()
      ensures Valid() && maze.Valid()
      ensures pacman.position == Vec(9.0 * TileSize + 5.0, 5.0 * TileSize + 5.0)
      ensures |ghosts| == 4 && ghosts[0].ghostType == Red && ghosts[1].ghostType == Pink &&
              ghosts[2].ghostType == Blue && ghosts[3].ghostType == Orange
      ensures ghosts[0].position == Vec(9.0 * TileSize + 5.0, 11.0 * TileSize + 5.0)
      ensures ghosts[1].position == Vec(8.0 * TileSize + 5.0, 10.0 * TileSize + 5.0)
      ensures ghosts[2].position == Vec(10.0 * TileSize + 5.0, 10.0 * TileSize + 5.0)
      ensures ghosts[3].position == Vec(9.0 * TileSize + 5.0, 9.0 * TileSize + 5.0)
      ensures dots == DotLayout(Layout(), TileSize) && powerUps == []
      ensures powerUpSpawnTimer == FirstSpawnDelay && score == 0 && lives == StartingLives
      ensures currentState == Menu && gameTime == 0.0 && !scaredMusic
      ensures respawnTimer == 0.0 && powerUpRemainingTime == 0.0
      ensures pacman.startPosition == pacman.position && !pacman.poweredUp && pacman.powerUpTime == 0.0
      ensures pacman.speed == PacmanSpeed && pacman.sprite == FacingRight
      ensures forall i :: 0 <= i < |ghosts| ==>
        ghosts[i].startPosition == ghosts[i].position && !ghosts[i].isScared && ghosts[i].scaredTime == 0.0 &&
        ghosts[i].currentDirection == Down && ghosts[i].sprite == NormalSprite
      ensures Headings()
    {
      var m := new Maze(TotalCols as real * 40.0, TotalRows as real * 40.0);
      maze := m;
      var ts := m.GetTileSize();
      var p := new Pacman(Vec(9.0 * ts + 5.0, 5.0 * ts + 5.0));
      pacman := p;
      var red := new Ghost(Vec(9.0 * ts + 5.0, 11.0 * ts + 5.0), Red, p, m);
      var pink := new Ghost(Vec(8.0 * ts + 5.0, 10.0 * ts + 5.0), Pink, p, m);
      var blue := new Ghost(Vec(10.0 * ts + 5.0, 10.0 * ts + 5.0), Blue, p, m);
      var orange := new Ghost(Vec(9.0 * ts + 5.0, 9.0 * ts + 5.0), Orange, p, m);
      ghosts := [red, pink, blue, orange];
      dots := [];
      powerUps := [];
      powerUpSpawnTimer := 5.0;
      score := 0;
      lives := 3;
      currentState := Menu;
      gameTime := 0.0;
      respawnTimer := 0.0;
      powerUpRemainingTime := 0.0;
      scaredMusic := false;
      new;
      InitializeDots();
    }

    /** In the menu, ENTER starts the game; nothing else reacts to it. */
    method PressEnter(enter: bool)
      modifies this`currentState
      ensures currentState == if old(currentState) == Menu && enter then Playing else old(currentState)
    {
      if currentState == Menu && enter {
        currentState := Playing;
      }
    }

    function PacmanBounds(): (b: Box)
      reads pacman
      ensures b == BoxAt(pacman.position, pacman.size)
    {
      Box(pacman.position.x, pacman.position.y, pacman.size.x, pacman.size.y)
    }

    /** Removes, back to front, every dot Pacman's box overlaps; 10 points each. */
    method CheckDotCollisions()
      modifies this`dots, this`score
      ensures dots == Uneaten(old(dots), PacmanBounds())
      ensures score == old(score) + DotPoints * |Eaten(old(dots), PacmanBounds())|
    {
      var pacmanBounds := PacmanBounds();
      ghost var d0 := dots;
      var i := |dots|;
      while i > 0
        invariant 0 <= i <= |d0|
        invariant dots == d0[..i] + Uneaten(d0[i..], pacmanBounds)
        invariant score == old(score) + DotPoints * |Eaten(d0[i..], pacmanBounds)|
      {
        i := i - 1;
        assert d0[i..][1..] == d0[i + 1..];
        assert d0[..i + 1] == d0[..i] + [d0[i]];
        assert dots[i] == d0[i];
        if Overlaps(pacmanBounds, dots[i]) {
          dots := dots[..i] + dots[i + 1..];
          score := score + 10;
        }
      }
      assert d0[0..] == d0;
    }

    function ItemViews(): (vs: seq<ItemView>)
      reads this`powerUps, powerUps
      ensures |vs| == |powerUps|
      ensures forall i :: 0 <= i < |powerUps| ==>
        vs[i] == ItemView(powerUps[i].kind, powerUps[i].Bounds(), powerUps[i].active)
    {
      var items := powerUps;
      seq(|items|, i reads items requires 0 <= i < |items| =>
        ItemView(items[i].kind, items[i].Bounds(), items[i].active))
    }

    /** Sets every ghost's scared flag (the loops of checkPowerUpCollisions and update). */
    method SetAllScared(scared: bool)
      requires forall i, j :: 0 <= i < j < |ghosts| ==> ghosts[i] != ghosts[j]
      modifies ghosts`isScared, ghosts`scaredTime, ghosts`sprite
      ensures forall i :: 0 <= i < |ghosts| ==>
        ghosts[i].isScared == scared && ghosts[i].sprite == (if scared then ScaredSprite else NormalSprite) &&
        ghosts[i].scaredTime == (if scared then ScaredSpell else old(ghosts[i].scaredTime))
    {
      for i := 0 to |ghosts|
        invariant forall j :: 0 <= j < i ==>
          ghosts[j].isScared == scared && ghosts[j].sprite == (if scared then ScaredSprite else NormalSprite) &&
          ghosts[j].scaredTime == (if scared then ScaredSpell else old(ghosts[j].scaredTime))
        invariant forall j :: i <= j < |ghosts| ==> ghosts[j].scaredTime == old(ghosts[j].scaredTime)
      {
        ghosts[i].SetScared(scared);
      }
    }

    /** What eating a PowerFood does beyond the points: Pacman powered up for 5
        seconds, every ghost scared, and the scared music running for 5 seconds. */
    method EatPowerFood()
      requires Valid()
      modifies this`powerUpRemainingTime, this`scaredMusic
      modifies pacman`poweredUp, pacman`powerUpTime, pacman`sprite
      modifies ghosts`isScared, ghosts`scaredTime, ghosts`sprite
      ensures Effects() == FoodState(|ghosts|)
    {
      pacman.SetPoweredUp(true, 5.0);
      SetAllScared(true);
      scaredMusic := true;
      powerUpRemainingTime := 5.0;
    }

    /** The state a PowerFood changes: Pacman's power-up, each ghost's scared
        state, and the scared-music timer. */
    ghost function Effects(): EffectState
      reads this, pacman, ghosts
    {
      EffectState(pacman.poweredUp, pacman.powerUpTime, pacman.sprite, powerUpRemainingTime, scaredMusic, Moods())
    }

    /** Each ghost's scared state, in list order. */
    ghost function Moods(): (ms: seq<Mood>)
      reads ghosts
      ensures |ms| == |ghosts|
    {
      seq(|ghosts|, i reads ghosts requires 0 <= i < |ghosts| =>
        Mood(ghosts[i].isScared, ghosts[i].scaredTime, ghosts[i].sprite))
    }

    /** One step of checkPowerUpCollisions: item i is collected if it is active and
        Pacman's box overlaps it. */
    method CollectItem(i: nat, pacmanBounds: Box)
      requires Valid() && i < |powerUps| && pacmanBounds == PacmanBounds()
      modifies this`score, this`powerUpRemainingTime, this`scaredMusic
      modifies pacman`poweredUp, pacman`powerUpTime, pacman`sprite
      modifies ghosts`isScared, ghosts`scaredTime, ghosts`sprite
      modifies powerUps`active
      ensures Valid()
      ensures forall j :: 0 <= j < |powerUps| && j != i ==> powerUps[j].active == old(powerUps[j].active)
      ensures var v := old(ItemViews()[i]);
        score == old(score) + (if Grabbed(v, pacmanBounds) then ScoreValue(v.kind) else 0) &&
        powerUps[i].active == (v.active && !Overlaps(pacmanBounds, v.box)) &&
        Effects() == if Grabbed(v, pacmanBounds) && v.kind == PowerFood then FoodState(|ghosts|) else old(Effects())
    {
      var powerUp := powerUps[i];
      if powerUp.IsActive() && Overlaps(pacmanBounds, powerUp.Bounds()) {
        score := score + powerUp.GetScoreValue();
        if powerUp.kind == PowerFood {
          EatPowerFood();
        }
        powerUp.Collect();
      }
    }

    /** Collects, back to front, every active item Pacman's box overlaps: its score
        value is added, and a PowerFood also powers Pacman up for 5 seconds, scares
        every ghost and starts the 5-second scared music; without a PowerFood
        those stay as they were. */
    method CheckPowerUpCollisions()
      requires Valid()
      modifies this`score, this`powerUpRemainingTime, this`scaredMusic
      modifies pacman`poweredUp, pacman`powerUpTime, pacman`sprite
      modifies ghosts`isScared, ghosts`scaredTime, ghosts`sprite
      modifies powerUps`active
      ensures Valid()
      ensures score == old(score) + Gains(old(ItemViews()), PacmanBounds())
      ensures forall i :: 0 <= i < |powerUps| ==>
        powerUps[i].active == (old(powerUps[i].active) && !Overlaps(PacmanBounds(), powerUps[i].Bounds()))
      ensures Effects() == if FoodGrabbed(old(ItemViews()), PacmanBounds()) then FoodState(|ghosts|) else old(Effects())
    {
      var pacmanBounds := PacmanBounds();
      ghost var vs := ItemViews();
      var i := |powerUps|;
      while i > 0
        invariant 0 <= i <= |powerUps| && Valid()
        invariant score == old(score) + Gains(vs[i..], pacmanBounds)
        invariant forall j :: 0 <= j < |powerUps| ==>
          powerUps[j].active == (vs[j].active && (j < i || !Overlaps(pacmanBounds, vs[j].box)))
        invariant Effects() == if FoodGrabbed(vs[i..], pacmanBounds) then FoodState(|ghosts|) else old(Effects())
      {
        i := i - 1;
        assert vs[i..][1..] == vs[i + 1..];
        CollectItem(i, pacmanBounds);
      }
      assert vs[0..] == vs;
    }

    function GhostViews(): (vs: seq<GhostView>)
      reads ghosts
      ensures |vs| == |ghosts|
      ensures forall i :: 0 <= i < |ghosts| ==> vs[i] == GhostView(ghosts[i].Bounds(), ghosts[i].isScared)
    {
      seq(|ghosts|, i reads ghosts requires 0 <= i < |ghosts| => GhostView(ghosts[i].Bounds(), ghosts[i].isScared))
    }

    /** The part of each ghost a collision pass can change. */
    ghost function Poses(): (ps: seq<Pose>)
      reads ghosts
      ensures |ps| == |ghosts|
    {
      seq(|ghosts|, i reads ghosts requires 0 <= i < |ghosts| =>
        Pose(ghosts[i].position, ghosts[i].isScared, ghosts[i].scaredTime, ghosts[i].currentDirection, ghosts[i].sprite))
    }

    /** One step of checkGhostCollisions: ghost i, if it overlaps Pacman, is eaten
        when scared and otherwise catches him unless he is powered up. */
    method MeetGhost(i: nat, pacmanBounds: Box, powered: bool)
      requires Valid() && i < |ghosts|
      modifies this`score, this`lives, this`currentState, this`respawnTimer
      modifies ghosts`position, ghosts`isScared, ghosts`scaredTime, ghosts`sprite, ghosts`currentDirection
      ensures Valid()
      ensures var v := old(GhostViews()[i]);
        var lost := if Overlaps(pacmanBounds, v.box) && !v.scared && !powered then 1 else 0;
        score == old(score) + (if GhostEaten(v, pacmanBounds) then GhostPoints else 0) &&
        lives == old(lives) - lost &&
        currentState == (if lost == 0 then old(currentState) else StateAfterCatches(lost, lives)) &&
        respawnTimer == (if lost == 0 then old(respawnTimer) else TimerAfterCatches(lost, old(lives), old(respawnTimer))) &&
        Poses() == old(Poses())[i := if GhostEaten(v, pacmanBounds) then Respawned(old(Poses()[i]), ghosts[i].startPosition) else old(Poses()[i])]
    {
      var g := ghosts[i];
      if Overlaps(pacmanBounds, g.Bounds()) {
        if g.IsScared() {
          g.Respawn();
          score := score + 200;
        } else if !powered {
          lives := lives - 1;
          if lives <= 0 {
            currentState := GameOver;
          } else {
            currentState := Respawning;
            respawnTimer := 1.5;
          }
        }
      }
    }

    /** Only in PLAYING at entry: each overlapping ghost in turn either is eaten
        (respawned, 200 points) when scared, or catches Pacman when he is not powered
        up (one life; GAME_OVER when no life is left, otherwise RESPAWNING in 1.5 s). */
    method CheckGhostCollisions()
      requires Valid()
      modifies this`score, this`lives, this`currentState, this`respawnTimer
      modifies ghosts`position, ghosts`isScared, ghosts`scaredTime, ghosts`sprite, ghosts`currentDirection
      ensures Valid()
      ensures old(currentState) != Playing ==>
        score == old(score) && lives == old(lives) && currentState == old(currentState) &&
        respawnTimer == old(respawnTimer) && Poses() == old(Poses())
      ensures old(currentState) == Playing ==>
        var lost := LivesLost(old(GhostViews()), PacmanBounds(), pacman.poweredUp);
        score == old(score) + GhostPoints * ScaredHits(old(GhostViews()), PacmanBounds()) &&
        lives == old(lives) - lost &&
        currentState == StateAfterCatches(lost, lives) &&
        respawnTimer == TimerAfterCatches(lost, old(lives), old(respawnTimer))
      ensures old(currentState) == Playing ==>
        forall i :: 0 <= i < |ghosts| ==>
          Poses()[i] == if GhostEaten(old(GhostViews())[i], PacmanBounds())
                        then Respawned(old(Poses())[i], ghosts[i].startPosition)
                        else old(Poses())[i]
    {
      if currentState == Playing {
        MeetEveryGhost();
      }
    }

    /** The loop of checkGhostCollisions, entered in PLAYING. */
    method MeetEveryGhost()
      requires Valid() && currentState == Playing
      modifies this`score, this`lives, this`currentState, this`respawnTimer
      modifies ghosts`position, ghosts`isScared, ghosts`scaredTime, ghosts`sprite, ghosts`currentDirection
      ensures Valid()
      ensures var lost := LivesLost(old(GhostViews()), PacmanBounds(), pacman.poweredUp);
        score == old(score) + GhostPoints * ScaredHits(old(GhostViews()), PacmanBounds()) &&
        lives == old(lives) - lost &&
        currentState == StateAfterCatches(lost, lives) &&
        respawnTimer == TimerAfterCatches(lost, old(lives), old(respawnTimer))
      ensures forall i :: 0 <= i < |ghosts| ==>
        Poses()[i] == if GhostEaten(old(GhostViews())[i], PacmanBounds())
                      then Respawned(old(Poses())[i], ghosts[i].startPosition)
                      else old(Poses())[i]
    {
      var pacmanBounds := PacmanBounds();
      var powered := pacman.IsPoweredUp();
      ghost var vs := GhostViews();
      ghost var ps := Poses();
      ghost var starts := seq(|ghosts|, j requires 0 <= j < |ghosts| => ghosts[j].startPosition);
      for i := 0 to |ghosts|
        invariant Valid()
        invariant score == old(score) + GhostPoints * ScaredHits(vs[..i], pacmanBounds)
        invariant lives == old(lives) - LivesLost(vs[..i], pacmanBounds, powered)
        invariant currentState == StateAfterCatches(LivesLost(vs[..i], pacmanBounds, powered), lives)
        invariant respawnTimer == TimerAfterCatches(LivesLost(vs[..i], pacmanBounds, powered), old(lives), old(respawnTimer))
        invariant Poses() == Resolved(ps, vs, starts, pacmanBounds, i)
      {
        PassStep(vs, i, pacmanBounds, powered);
        ResolvedStep(ps, vs, starts, pacmanBounds, i);
        assert Poses()[i] == ps[i];
        assert GhostViews()[i] == vs[i];
        MeetGhost(i, pacmanBounds, powered);
      }
      assert vs[..|ghosts|] == vs;
    }

    /** isNearInitialEntityPosition, with the maze's tile size. */
    function IsNearInitialEntityPosition(x: real, y: real): bool
      reads maze
    {
      NearSpawn(maze.tileSize, x, y)
    }

    /** Clears the dots and puts one on every tile centre, row by row from the
        bottom and left to right, whose centre is neither in a wall nor near a
        spawn position. The loop bounds are the real quotients 760 / 40 and 720 / 40. */
    method InitializeDots()
      requires maze.Sized()
      modifies this`dots
      ensures dots == DotLayout(maze.walls, maze.tileSize)
    {
      dots := [];
      var tileSize := maze.GetTileSize();
      var rows := maze.GetHeight() / tileSize;
      var cols := maze.GetWidth() / tileSize;
      assert rows == TotalRows as real && cols == TotalCols as real;
      var y := 0;
      while y as real < rows
        invariant 0 <= y <= TotalRows
        invariant dots == DotsUpTo(maze.walls, tileSize, 18 * y)
        decreases TotalRows - y
      {
        PlaceRow(y, cols, tileSize);
        y := y + 1;
      }
      DotsUpToBoard(maze.walls, tileSize, 18 * y);
    }

    /** initializeDots' inner loop: row y, left to right. */
    method PlaceRow(y: nat, cols: real, tileSize: real)
      requires maze.Sized() && tileSize == maze.tileSize && cols == TotalCols as real
      requires dots == DotsUpTo(maze.walls, tileSize, 18 * y)
      modifies this`dots
      ensures dots == DotsUpTo(maze.walls, tileSize, 18 * y + 18)
    {
      var x := 0;
      ghost var n := 18 * y;
      while x as real < cols
        invariant 0 <= x <= TotalCols && n == 18 * y + x
        invariant dots == DotsUpTo(maze.walls, tileSize, n)
        decreases TotalCols - x
      {
        DotsUpToNextTile(maze.walls, tileSize, n, x, y);
        PlaceDot(x, y, tileSize);
        x := x + 1;
        n := n + 1;
      }
    }

    /** The body of initializeDots' inner loop: a dot at the centre of tile (x, y)
        if that centre is free. */
    method PlaceDot(x: int, y: int, tileSize: real)
      requires maze.Sized() && tileSize == maze.tileSize
      modifies this`dots
      ensures dots == old(dots) + DotsAt(maze.walls, tileSize, Tile(x, y))
    {
      var centerX := x as real * tileSize + tileSize / 2.0;
      var centerY := y as real * tileSize + tileSize / 2.0;
      var wall := maze.IsWallAt(centerX, centerY);
      if !wall && !IsNearInitialEntityPosition(centerX, centerY) {
        dots := dots + [Box(centerX - 5.0, centerY - 5.0, 10.0, 10.0)];
      }
    }

    /** One draw of the do-while of spawnRandomPowerUp: the item's corner for the
        drawn tile, and whether that spot is rejected. */
    method TryDraw(t: Tile) returns (p: Vec, blocked: bool)
      requires maze.Sized()
      ensures p == SpawnCorner(t, maze.tileSize)
      ensures blocked == Blocked(maze.walls, maze.tileSize, p)
    {
      var tileSize := maze.GetTileSize();
      var x := t.col as real * tileSize + (tileSize / 2.0) - 10.0;
      var y := t.row as real * tileSize + (tileSize / 2.0) - 10.0;
      p := Vec(x, y);
      var hits := maze.CollidesWithWall(Box(x, y, 20.0, 20.0));
      blocked := hits || IsNearInitialEntityPosition(x + 10.0, y + 10.0);
    }

    /** Adds at most one item: none while 5 or more are active, otherwise one of
        the kind the draw selects at the first free spot among the draws, unless the
        attempts run out. */
    method SpawnRandomPowerUp(draws: seq<Tile>, kindDraw: real)
      requires Valid() && |draws| >= MaxAttempts
      modifies this`powerUps
      ensures Valid()
      ensures ActiveCount(old(ItemViews())) >= MaxActivePowerUps ==> powerUps == old(powerUps)
      ensures SpawnDraw(maze.walls, maze.tileSize, draws).None? ==> powerUps == old(powerUps)
      ensures ActiveCount(old(ItemViews())) < MaxActivePowerUps && SpawnDraw(maze.walls, maze.tileSize, draws).Some? ==>
        var k := SpawnDraw(maze.walls, maze.tileSize, draws).value;
        |powerUps| == |old(powerUps)| + 1 && powerUps[..|old(powerUps)|] == old(powerUps) &&
        fresh(powerUps[|old(powerUps)|]) &&
        powerUps[|old(powerUps)|].kind == KindForDraw(kindDraw) &&
        powerUps[|old(powerUps)|].position == SpawnCorner(draws[k], maze.tileSize) &&
        powerUps[|old(powerUps)|].active
      ensures Added(old(powerUps), SpawnOutcome(old(ItemViews()), maze.walls, maze.tileSize, draws, kindDraw))
      ensures |powerUps| > |old(powerUps)| ==>
        var item := powerUps[|old(powerUps)|];
        fresh(item) && item.active && item.remainingTime == Duration(item.kind)
    {
      ghost var vs := ItemViews();
      var activePowerUpsCount := 0;
      for i := 0 to |powerUps|
        invariant powerUps == old(powerUps)
        invariant activePowerUpsCount == ActiveCount(vs[..i])
      {
        assert vs[..i + 1][..i] == vs[..i];
        if powerUps[i].IsActive() {
          activePowerUpsCount := activePowerUpsCount + 1;
        }
      }
      assert vs[..|powerUps|] == vs;
      if activePowerUpsCount >= 5 {
        return;
      }
      var attempts := 0;
      var p, blocked := TryDraw(draws[attempts]);
      attempts := attempts + 1;
      while blocked && attempts < 100
        invariant powerUps == old(powerUps)
        invariant 1 <= attempts <= MaxAttempts
        invariant p == SpawnCorner(draws[attempts - 1], maze.tileSize)
        invariant blocked == Blocked(maze.walls, maze.tileSize, p)
        invariant forall j :: 0 <= j < attempts - 1 ==> Blocked(maze.walls, maze.tileSize, SpawnCorner(draws[j], maze.tileSize))
        decreases MaxAttempts - attempts
      {
        p, blocked := TryDraw(draws[attempts]);
        attempts := attempts + 1;
      }
      ghost var slot := SpawnDraw(maze.walls, maze.tileSize, draws);
      if attempts < 100 {
        FirstFreeIsFirst(maze.walls, maze.tileSize, draws, 0, MaxAttempts - 1, attempts - 1);
        var kind := if kindDraw < 0.35 then Cherry else if kindDraw < 0.60 then Cherry2 else PowerFood;
        var item := new PowerUp(p, kind);
        assert forall j :: 0 <= j < |powerUps| ==> powerUps[j] != item;
        powerUps := powerUps + [item];
      } else {
        assert slot.None?;
      }
    }

    /** resetPositionsAfterDeath: Pacman and every ghost back to their start, Pacman
        no longer powered up. */
    method ResetPositionsAfterDeath()
      requires Valid()
      modifies pacman`position, pacman`poweredUp, pacman`powerUpTime, pacman`sprite
      modifies ghosts`position, ghosts`isScared, ghosts`scaredTime, ghosts`sprite, ghosts`currentDirection
      ensures pacman.position == pacman.startPosition && !pacman.poweredUp && pacman.powerUpTime == 0.0
      ensures pacman.sprite == FacingRight
      ensures forall i :: 0 <= i < |ghosts| ==>
        ghosts[i].position == ghosts[i].startPosition && !ghosts[i].isScared &&
        ghosts[i].currentDirection == Down && ghosts[i].sprite == NormalSprite
    {
      pacman.Respawn();
      for i := 0 to |ghosts|
        invariant Valid() && pacman.position == pacman.startPosition
        invariant forall j :: 0 <= j < i ==>
          ghosts[j].position == ghosts[j].startPosition && !ghosts[j].isScared &&
          ghosts[j].currentDirection == Down && ghosts[j].sprite == NormalSprite
      {
        ghosts[i].Respawn();
      }
      pacman.SetPoweredUp(false, 0.0);
    }

    /** The ghost has moved one step of its speed from p along its direction. */
    static ghost predicate Stepped(g: Ghost, p: Vec, delta: real)
      reads g
    {
      g.position == MulAdd(p, g.currentDirection, g.speed * delta)
    }

    /** One ghost's update, seen from the game loop: where it ends up. */
    static method StepGhost(g: Ghost, delta: real, pick: nat)
      requires g.maze.tileSize != 0.0
      modifies g`currentDirection, g`position, g`isScared, g`scaredTime, g`sprite
      ensures Stepped(g, old(g.position), delta)
      ensures IsUnit(old(g.currentDirection)) ==> IsUnit(g.currentDirection)
    {
      g.Update(delta, pick);
    }

    /** Each ghost's own update, in list order, with its own patrol draw. */
    method UpdateGhosts(delta: real, picks: seq<nat>)
      requires Valid() && Headings() && |picks| == |ghosts|
      modifies ghosts`currentDirection, ghosts`position, ghosts`isScared, ghosts`scaredTime, ghosts`sprite
      ensures forall i :: 0 <= i < |ghosts| ==>
        ghosts[i].position == MulAdd(old(ghosts[i].position), ghosts[i].currentDirection, ghosts[i].speed * delta)
      ensures Headings()
    {
      ghost var p0 := seq(|ghosts|, j requires 0 <= j < |ghosts| reads ghosts => ghosts[j].position);
      for i := 0 to |ghosts|
        invariant Valid()
        invariant Headings()
        invariant forall j :: 0 <= j < i ==> Stepped(ghosts[j], p0[j], delta)
        invariant forall j :: i <= j < |ghosts| ==> ghosts[j].position == p0[j]
      {
        label Before:
        StepGhost(ghosts[i], delta, picks[i]);
        forall j | 0 <= j < |ghosts| && j != i
          ensures ghosts[j].position == old@Before(ghosts[j].position)
          ensures ghosts[j].currentDirection == old@Before(ghosts[j].currentDirection)
        {
          assert ghosts[j] != ghosts[i];
        }
      }
    }

    /** Each item's own count-down. */
    method UpdatePowerUps(delta: real)
      requires forall i, j :: 0 <= i < j < |powerUps| ==> powerUps[i] != powerUps[j]
      modifies powerUps`remainingTime, powerUps`active
      ensures forall i :: 0 <= i < |powerUps| ==>
        Countdown(powerUps[i].active, powerUps[i].remainingTime) ==
        Tick(old(Countdown(powerUps[i].active, powerUps[i].remainingTime)), delta)
    {
      for i := 0 to |powerUps|
        invariant forall j :: 0 <= j < i ==>
          Countdown(powerUps[j].active, powerUps[j].remainingTime) ==
          Tick(old(Countdown(powerUps[j].active, powerUps[j].remainingTime)), delta)
        invariant forall j :: i <= j < |powerUps| ==>
          powerUps[j].active == old(powerUps[j].active) && powerUps[j].remainingTime == old(powerUps[j].remainingTime)
      {
        powerUps[i].Update(delta);
      }
    }

    /** What the game screen promises between frames: a running round has lives
        left, GAME_OVER has none, GAME_WON has no dot left. */
    ghost predicate Consistent()
      reads this
    {
      (currentState == Playing || currentState == Respawning ==> lives > 0) &&
      (currentState == GameOver ==> lives <= 0) &&
      (currentState == GameWon ==> |dots| == 0)
    }

    /** The PLAYING branch of update. The randomness is passed in: the 100 tile
        draws and the kind draw of a spawn, and the draw in [0, 1) that sets the next
        spawn delay. Pacman's keys and each ghost's patrol draw are passed in too. */
    method PlayingTick(delta: real, left: bool, right: bool, up: bool, down: bool,
                       picks: seq<nat>, draws: seq<Tile>, kindDraw: real, timerDraw: real)
      requires Valid() && Headings() && currentState == Playing && lives > 0
      requires |picks| == |ghosts| && |draws| >= MaxAttempts && 0.0 <= timerDraw < 1.0
      modifies this`gameTime, this`powerUpSpawnTimer, this`powerUps, this`dots, this`score, this`lives
      modifies this`currentState, this`respawnTimer, this`powerUpRemainingTime, this`scaredMusic
      modifies pacman, ghosts`currentDirection, ghosts`position, ghosts`isScared, ghosts`scaredTime, ghosts`sprite
      modifies powerUps`remainingTime, powerUps`active
      ensures Valid() && Consistent() && Headings()
      ensures gameTime == old(gameTime) + delta
      ensures old(powerUpSpawnTimer) - delta <= 0.0 ==> 8.0 <= powerUpSpawnTimer < 15.0
      ensures old(powerUpSpawnTimer) - delta > 0.0 ==> powerUpSpawnTimer == old(powerUpSpawnTimer) - delta
      ensures old(powerUpSpawnTimer) - delta > 0.0 ==> powerUps == old(powerUps)
      ensures |old(powerUps)| <= |powerUps| <= |old(powerUps)| + 1 && powerUps[..|old(powerUps)|] == old(powerUps)
      ensures |dots| <= |old(dots)| && forall d :: d in dots ==> d in old(dots)
      ensures score >= old(score)
      ensures old(lives) - |ghosts| <= lives <= old(lives)
      ensures currentState == GameWon <==> |dots| == 0
      ensures |dots| > 0 ==> (currentState == Playing <==> lives == old(lives))
      ensures currentState == Respawning ==> respawnTimer == RespawnDelay
    {
      Advance(delta, left, right, up, down, picks, draws, kindDraw, timerDraw);
      ResolveCollisions();
    }

    /** The first half of the PLAYING branch: the clocks, a possible spawn, and
        everyone's own update. */
    method Advance(delta: real, left: bool, right: bool, up: bool, down: bool,
                   picks: seq<nat>, draws: seq<Tile>, kindDraw: real, timerDraw: real)
      requires Valid() && Headings() && |picks| == |ghosts| && |draws| >= MaxAttempts && 0.0 <= timerDraw < 1.0
      modifies this`gameTime, this`powerUpSpawnTimer, this`powerUps
      modifies pacman, ghosts`currentDirection, ghosts`position, ghosts`isScared, ghosts`scaredTime, ghosts`sprite
      modifies powerUps`remainingTime, powerUps`active
      ensures Valid() && Headings()
      ensures gameTime == old(gameTime) + delta
      ensures old(powerUpSpawnTimer) - delta <= 0.0 ==> 8.0 <= powerUpSpawnTimer < 15.0
      ensures old(powerUpSpawnTimer) - delta <= 0.0 ==> powerUpSpawnTimer == 8.0 + timerDraw * 7.0
      ensures old(powerUpSpawnTimer) - delta > 0.0 ==>
        powerUpSpawnTimer == old(powerUpSpawnTimer) - delta && powerUps == old(powerUps)
      ensures |old(powerUps)| <= |powerUps| <= |old(powerUps)| + 1 && powerUps[..|old(powerUps)|] == old(powerUps)
      ensures forall j :: |old(powerUps)| <= j < |powerUps| ==> fresh(powerUps[j])
      ensures Added(old(powerUps), if old(powerUpSpawnTimer) - delta <= 0.0
                                   then SpawnOutcome(old(ItemViews()), maze.walls, maze.tileSize, draws, kindDraw)
                                   else None)
      // every item counts down once, the one spawned this frame from its full lifetime
      ensures forall i :: 0 <= i < |old(powerUps)| ==>
        Countdown(powerUps[i].active, powerUps[i].remainingTime) ==
        Tick(old(Countdown(powerUps[i].active, powerUps[i].remainingTime)), delta)
      ensures |powerUps| > |old(powerUps)| ==>
        var item := powerUps[|old(powerUps)|];
        Countdown(item.active, item.remainingTime) == Tick(Countdown(true, Duration(item.kind)), delta)
      // Pacman's own update
      ensures pacman.position == KeyStep(old(pacman.position), old(pacman.speed) * delta, left, right, up, down)
      ensures pacman.sprite == LastFacing(old(pacman.sprite), left, right, up, down)
      ensures Countdown(pacman.poweredUp, pacman.powerUpTime) ==
        Tick(old(Countdown(pacman.poweredUp, pacman.powerUpTime)), delta)
      // each ghost's own update
      ensures forall i :: 0 <= i < |ghosts| ==>
        ghosts[i].position == MulAdd(old(ghosts[i].position), ghosts[i].currentDirection, ghosts[i].speed * delta)
    {
      ghost var start := pacman.position;
      ghost var step := pacman.speed * delta;
      RunClocks(delta, draws, kindDraw, timerDraw);
      assert pacman.position == start && pacman.speed * delta == step;
      label Clocked:
      UpdateEntities(delta, left, right, up, down, picks);
      assert pacman.position == KeyStep(start, step, left, right, up, down);
      forall i | 0 <= i < |old(powerUps)|
        ensures old@Clocked(Countdown(powerUps[i].active, powerUps[i].remainingTime)) ==
                old(Countdown(powerUps[i].active, powerUps[i].remainingTime))
      {
        assert powerUps[i] == old(powerUps)[i];
      }
    }

    /** Pacman's, each ghost's and each item's own update, in that order. */
    method UpdateEntities(delta: real, left: bool, right: bool, up: bool, down: bool, picks: seq<nat>)
      requires Valid() && Headings() && |picks| == |ghosts|
      modifies pacman, ghosts`currentDirection, ghosts`position, ghosts`isScared, ghosts`scaredTime, ghosts`sprite
      modifies powerUps`remainingTime, powerUps`active
      ensures Headings()
      ensures forall i :: 0 <= i < |powerUps| ==>
        Countdown(powerUps[i].active, powerUps[i].remainingTime) ==
        Tick(old(Countdown(powerUps[i].active, powerUps[i].remainingTime)), delta)
      ensures pacman.position == KeyStep(old(pacman.position), old(pacman.speed) * delta, left, right, up, down)
      ensures pacman.sprite == LastFacing(old(pacman.sprite), left, right, up, down)
      ensures Countdown(pacman.poweredUp, pacman.powerUpTime) ==
        Tick(old(Countdown(pacman.poweredUp, pacman.powerUpTime)), delta)
      ensures forall i :: 0 <= i < |ghosts| ==>
        ghosts[i].position == MulAdd(old(ghosts[i].position), ghosts[i].currentDirection, ghosts[i].speed * delta)
    {
      pacman.Update(delta, left, right, up, down);
      UpdateGhosts(delta, picks);
      UpdatePowerUps(delta);
    }

    /** The game clock and the spawn timer: when the latter runs out, a spawn is
        tried and the next one is 8 to 15 seconds away. */
    method RunClocks(delta: real, draws: seq<Tile>, kindDraw: real, timerDraw: real)
      requires Valid() && |draws| >= MaxAttempts && 0.0 <= timerDraw < 1.0
      modifies this`gameTime, this`powerUpSpawnTimer, this`powerUps
      ensures Valid()
      ensures gameTime == old(gameTime) + delta
      ensures old(powerUpSpawnTimer) - delta <= 0.0 ==> 8.0 <= powerUpSpawnTimer < 15.0
      ensures old(powerUpSpawnTimer) - delta <= 0.0 ==> powerUpSpawnTimer == 8.0 + timerDraw * 7.0
      ensures old(powerUpSpawnTimer) - delta > 0.0 ==>
        powerUpSpawnTimer == old(powerUpSpawnTimer) - delta && powerUps == old(powerUps)
      ensures |old(powerUps)| <= |powerUps| <= |old(powerUps)| + 1 && powerUps[..|old(powerUps)|] == old(powerUps)
      ensures forall j :: |old(powerUps)| <= j < |powerUps| ==> fresh(powerUps[j])
      ensures Added(old(powerUps), if old(powerUpSpawnTimer) - delta <= 0.0
                                   then SpawnOutcome(old(ItemViews()), maze.walls, maze.tileSize, draws, kindDraw)
                                   else None)
      ensures |powerUps| > |old(powerUps)| ==>
        var item := powerUps[|old(powerUps)|];
        item.active && item.remainingTime == Duration(item.kind)
    {
      gameTime := gameTime + delta;
      powerUpSpawnTimer := powerUpSpawnTimer - delta;
      if powerUpSpawnTimer <= 0.0 {
        SpawnRandomPowerUp(draws, kindDraw);
        powerUpSpawnTimer := 8.0 + timerDraw * 7.0;
      }
    }

    /** The second half of the PLAYING branch: dots, items and ghosts Pacman
        touches, then GAME_WON once no dot is left. */
    method ResolveCollisions()
      requires Valid() && currentState == Playing && lives > 0
      modifies this`dots, this`score, this`lives, this`currentState, this`respawnTimer
      modifies this`powerUpRemainingTime, this`scaredMusic
      modifies pacman`poweredUp, pacman`powerUpTime, pacman`sprite
      modifies ghosts`position, ghosts`isScared, ghosts`scaredTime, ghosts`sprite, ghosts`currentDirection
      modifies powerUps`active
      ensures Valid() && Consistent()
      ensures old(Headings()) ==> Headings()
      ensures |dots| <= |old(dots)| && forall d :: d in dots ==> d in old(dots)
      ensures score >= old(score)
      ensures old(lives) - |ghosts| <= lives <= old(lives)
      ensures currentState == GameWon <==> |dots| == 0
      ensures |dots| > 0 ==> (currentState == Playing <==> lives == old(lives))
      ensures currentState == Respawning ==> respawnTimer == RespawnDelay
    {
      EatPass();
      GhostPass();
    }

    /** Dots and items Pacman touches: fewer dots, more points. */
    method EatPass()
      requires Valid()
      modifies this`dots, this`score, this`powerUpRemainingTime, this`scaredMusic
      modifies pacman`poweredUp, pacman`powerUpTime, pacman`sprite
      modifies ghosts`isScared, ghosts`scaredTime, ghosts`sprite
      modifies powerUps`active
      ensures Valid()
      ensures old(Headings()) ==> Headings()
      ensures |dots| <= |old(dots)| && forall d :: d in dots ==> d in old(dots)
      ensures score >= old(score)
    {
      ghost var pb := PacmanBounds();
      ghost var dotsBefore := dots;
      CheckDotCollisions();
      EatingPartitions(dotsBefore, pb);
      CheckPowerUpCollisions();
    }

    /** Ghosts Pacman touches, then GAME_WON once no dot is left. */
    method GhostPass()
      requires Valid() && currentState == Playing && lives > 0
      modifies this`score, this`lives, this`currentState, this`respawnTimer
      modifies ghosts`position, ghosts`isScared, ghosts`scaredTime, ghosts`sprite, ghosts`currentDirection
      ensures Valid() && Consistent()
      ensures old(Headings()) ==> Headings()
      ensures score >= old(score)
      ensures old(lives) - |ghosts| <= lives <= old(lives)
      ensures currentState == GameWon <==> |dots| == 0
      ensures |dots| > 0 ==> (currentState == Playing <==> lives == old(lives))
      ensures currentState == Respawning ==> respawnTimer == RespawnDelay
    {
      ghost var before := Poses();
      CheckGhostCollisions();
      forall i | 0 <= i < |ghosts| && IsUnit(before[i].direction)
        ensures IsUnit(ghosts[i].currentDirection)
      {
        assert ghosts[i].currentDirection == Poses()[i].direction;
      }
      if |dots| == 0 {
        currentState := GameWon;
      }
    }

    /** The RESPAWNING branch of update: once the delay has run out, everyone is
        back at the start and the round resumes. */
    method RespawningTick(delta: real)
      requires Valid() && currentState == Respawning
      modifies this`respawnTimer, this`currentState
      modifies pacman`position, pacman`poweredUp, pacman`powerUpTime, pacman`sprite
      modifies ghosts`position, ghosts`isScared, ghosts`scaredTime, ghosts`sprite, ghosts`currentDirection
      ensures Valid()
      ensures respawnTimer == old(respawnTimer) - delta
      ensures currentState == if respawnTimer <= 0.0 then Playing else Respawning
      ensures respawnTimer <= 0.0 ==>
        pacman.position == pacman.startPosition && !pacman.poweredUp &&
        forall i :: 0 <= i < |ghosts| ==> ghosts[i].position == ghosts[i].startPosition && !ghosts[i].isScared
      ensures respawnTimer <= 0.0 ==>
        pacman.powerUpTime == 0.0 && pacman.sprite == FacingRight &&
        forall i :: 0 <= i < |ghosts| ==> ghosts[i].currentDirection == Down && ghosts[i].sprite == NormalSprite
      ensures respawnTimer > 0.0 ==>
        pacman.position == old(pacman.position) && Poses() == old(Poses())
      ensures respawnTimer > 0.0 ==>
        pacman.poweredUp == old(pacman.poweredUp) && pacman.powerUpTime == old(pacman.powerUpTime) &&
        pacman.sprite == old(pacman.sprite)
      ensures old(Headings()) ==> Headings()
    {
      respawnTimer := respawnTimer - delta;
      if respawnTimer <= 0.0 {
        ResetPositionsAfterDeath();
        currentState := Playing;
      }
    }

    /** The tail of update, in every state: the scared-music timer runs down, and
        when it runs out with the music on, the music stops and every ghost is no
        longer scared. */
    method CountDownPowerUpTime(delta: real)
      requires forall i, j :: 0 <= i < j < |ghosts| ==> ghosts[i] != ghosts[j]
      modifies this`powerUpRemainingTime, this`scaredMusic, ghosts`isScared, ghosts`scaredTime, ghosts`sprite
      ensures old(powerUpRemainingTime) > 0.0 ==> powerUpRemainingTime == old(powerUpRemainingTime) - delta
      ensures old(powerUpRemainingTime) <= 0.0 ==> powerUpRemainingTime == old(powerUpRemainingTime)
      ensures var ends := old(powerUpRemainingTime) > 0.0 && powerUpRemainingTime <= 0.0 && old(scaredMusic);
        scaredMusic == (old(scaredMusic) && !ends) &&
        (ends ==> forall i :: 0 <= i < |ghosts| ==> !ghosts[i].isScared && ghosts[i].sprite == NormalSprite) &&
        (!ends ==> Moods() == old(Moods()))
    {
      if powerUpRemainingTime > 0.0 {
        powerUpRemainingTime := powerUpRemainingTime - delta;
        if powerUpRemainingTime <= 0.0 && scaredMusic {
          scaredMusic := false;
          SetAllScared(false);
        }
      }
    }

    /** update without the R key: the branch of the current state, then the
        scared-music count-down. */
    method Update(delta: real, left: bool, right: bool, up: bool, down: bool,
                  picks: seq<nat>, draws: seq<Tile>, kindDraw: real, timerDraw: real)
      requires Valid() && Consistent() && Headings() && currentState != Menu
      requires |picks| == |ghosts| && |draws| >= MaxAttempts && 0.0 <= timerDraw < 1.0
      modifies this`gameTime, this`powerUpSpawnTimer, this`powerUps, this`dots, this`score, this`lives
      modifies this`currentState, this`respawnTimer, this`powerUpRemainingTime, this`scaredMusic
      modifies pacman, ghosts`currentDirection, ghosts`position, ghosts`isScared, ghosts`scaredTime, ghosts`sprite
      modifies powerUps`remainingTime, powerUps`active
      ensures Valid() && Consistent() && Headings()
      ensures score >= old(score) && lives <= old(lives) && |dots| <= |old(dots)|
      ensures old(currentState) in {GameOver, GameWon} ==>
        currentState == old(currentState) && score == old(score) && lives == old(lives) && dots == old(dots) &&
        powerUps == old(powerUps) && pacman.position == old(pacman.position)
      ensures old(currentState) == Respawning ==> currentState in {Respawning, Playing} && lives == old(lives)
    {
      if currentState == Playing {
        PlayingTick(delta, left, right, up, down, picks, draws, kindDraw, timerDraw);
      } else if currentState == Respawning {
        RespawningTick(delta);
      }
      CountDownPowerUpTime(delta);
    }
  }
}
