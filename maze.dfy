/** The maze: a fixed 18 x 19 tile layout (a frame of walls round the edge and
    four U-shaped obstacles inside), held as a list of wall rectangles, and the
    two wall queries over that list. Tile (col, row) has its bottom-left corner
    at (col * 40, row * 40); row 0 is the bottom row. */
module Mazes {
  import opened Geometry

  const TileSize: real := 40.0
  const TotalCols: int := 18
  const TotalRows: int := 19

  datatype Tile = Tile(col: int, row: int)

  /** The world rectangle of one tile. */
  function TileBox(t: Tile): (b: Box)
    ensures b.w == TileSize && b.h == TileSize
  {
    Box(t.col as real * TileSize, t.row as real * TileSize, TileSize, TileSize)
  }

  function Boxes(ts: seq<Tile>): (r: seq<Box>)
    ensures |r| == |ts|
    ensures forall i :: 0 <= i < |ts| ==> r[i] == TileBox(ts[i])
  {
    seq(|ts|, i requires 0 <= i < |ts| => TileBox(ts[i]))
  }

  lemma BoxesAppend(a: seq<Tile>, b: seq<Tile>)
    ensures Boxes(a + b) == Boxes(a) + Boxes(b)
  {
    assert forall i :: 0 <= i < |a + b| ==> Boxes(a + b)[i] == (Boxes(a) + Boxes(b))[i];
  }

  /** Tiles (lo, row) .. (hi - 1, row), left to right. */
  function RowTiles(row: int, lo: int, hi: int): (r: seq<Tile>)
    requires lo <= hi
    ensures |r| == hi - lo && forall i :: 0 <= i < |r| ==> r[i] == Tile(lo + i, row)
  {
    seq(hi - lo, i requires 0 <= i < hi - lo => Tile(lo + i, row))
  }

  /** Tiles (col, lo) .. (col, hi - 1), bottom to top. */
  function ColTiles(col: int, lo: int, hi: int): (r: seq<Tile>)
    requires lo <= hi
    ensures |r| == hi - lo && forall i :: 0 <= i < |r| ==> r[i] == Tile(col, lo + i)
  {
    seq(hi - lo, i requires 0 <= i < hi - lo => Tile(col, lo + i))
  }

  lemma RowTilesMembers(row: int, lo: int, hi: int, t: Tile)
    requires lo <= hi
    ensures t in RowTiles(row, lo, hi) <==> t.row == row && lo <= t.col < hi
  {
    if t.row == row && lo <= t.col < hi {
      assert RowTiles(row, lo, hi)[t.col - lo] == t;
    }
  }

  lemma ColTilesMembers(col: int, lo: int, hi: int, t: Tile)
    requires lo <= hi
    ensures t in ColTiles(col, lo, hi) <==> t.col == col && lo <= t.row < hi
  {
    if t.col == col && lo <= t.row < hi {
      assert ColTiles(col, lo, hi)[t.row - lo] == t;
    }
  }

  /** The tiles addUObstacle walls in, in the order it adds them. */
  function UTiles(c: int, r: int, orientation: string): seq<Tile> {
    if orientation == "up" then
      [Tile(c, r), Tile(c + 1, r), Tile(c + 2, r), Tile(c, r + 1), Tile(c + 2, r + 1)]
    else if orientation == "down" then
      [Tile(c, r + 1), Tile(c + 1, r + 1), Tile(c + 2, r + 1), Tile(c, r), Tile(c + 2, r)]
    else if orientation == "left" then
      [Tile(c + 1, r), Tile(c + 1, r + 1), Tile(c + 1, r + 2), Tile(c, r), Tile(c, r + 2)]
    else if orientation == "right" then
      [Tile(c, r), Tile(c, r + 1), Tile(c, r + 2), Tile(c + 1, r), Tile(c + 1, r + 2)]
    else
      []
  }

  predicate Recognised(orientation: string) {
    orientation == "up" || orientation == "down" || orientation == "left" || orientation == "right"
  }

  /** The open cell of a U: the tile of its bounding block that is left free. */
  function Opening(c: int, r: int, orientation: string): Tile {
    if orientation == "up" then Tile(c + 1, r + 1)
    else if orientation == "down" then Tile(c + 1, r)
    else if orientation == "left" then Tile(c, r + 1)
    else Tile(c + 1, r + 1)
  }

  /** The bounding block of a U: 3 x 2 tiles when it opens up or down, 2 x 3 otherwise. */
  predicate InBlock(t: Tile, c: int, r: int, orientation: string) {
    if orientation == "up" || orientation == "down" then
      c <= t.col <= c + 2 && r <= t.row <= r + 1
    else
      c <= t.col <= c + 1 && r <= t.row <= r + 2
  }

  /** A recognised U is five distinct tiles: its bounding block without the
      opening on the named side; any other orientation adds nothing. */
  lemma UShape(c: int, r: int, orientation: string, t: Tile)
    ensures Recognised(orientation) ==> |UTiles(c, r, orientation)| == 5
    ensures Recognised(orientation) ==>
      (t in UTiles(c, r, orientation) <==> InBlock(t, c, r, orientation) && t != Opening(c, r, orientation))
    ensures Recognised(orientation) ==>
      forall i, j :: 0 <= i < j < 5 ==> UTiles(c, r, orientation)[i] != UTiles(c, r, orientation)[j]
    ensures !Recognised(orientation) ==> UTiles(c, r, orientation) == []
  {
  }

  function FrameTiles(): seq<Tile> {
    RowTiles(0, 0, TotalCols) + RowTiles(TotalRows - 1, 0, TotalCols) +
    ColTiles(0, 1, TotalRows - 1) + ColTiles(TotalCols - 1, 1, TotalRows - 1)
  }

  /** The four obstacles, as placed by initializeWalls. */
  function ObstacleTiles(): seq<Tile> {
    UTiles(5, 3, "up") + UTiles(TotalCols - 8, TotalRows - 5, "down") +
    UTiles(TotalCols - 4, 7, "left") + UTiles(3, TotalRows - 10, "right")
  }

  function LayoutTiles(): seq<Tile> {
    FrameTiles() + ObstacleTiles()
  }

  /** The wall list initializeWalls builds. */
  function Layout(): seq<Box> {
    Boxes(LayoutTiles())
  }

  /** The frame: a tile is a frame tile iff it lies in the bottom or top row or the
      leftmost or rightmost column of the 18 x 19 grid. */
  lemma FrameComplete(t: Tile)
    ensures t in FrameTiles() <==>
      (0 <= t.col < TotalCols && 0 <= t.row < TotalRows &&
       (t.row == 0 || t.row == TotalRows - 1 || t.col == 0 || t.col == TotalCols - 1))
  {
    RowTilesMembers(0, 0, TotalCols, t);
    RowTilesMembers(TotalRows - 1, 0, TotalCols, t);
    ColTilesMembers(0, 1, TotalRows - 1, t);
    ColTilesMembers(TotalCols - 1, 1, TotalRows - 1, t);
  }

  /** The obstacles lie strictly inside the frame, away from its tiles, and no
      two of them share a bounding block. */
  lemma ObstaclesInsideAndApart(t: Tile)
    ensures t in ObstacleTiles() ==> 1 <= t.col <= TotalCols - 2 && 1 <= t.row <= TotalRows - 2
    ensures t in ObstacleTiles() ==> t !in FrameTiles()
    ensures |ObstacleTiles()| == 20
    ensures !(InBlock(t, 5, 3, "up") && InBlock(t, 10, 14, "down"))
    ensures !(InBlock(t, 5, 3, "up") && InBlock(t, 14, 7, "left"))
    ensures !(InBlock(t, 5, 3, "up") && InBlock(t, 3, 9, "right"))
    ensures !(InBlock(t, 10, 14, "down") && InBlock(t, 14, 7, "left"))
    ensures !(InBlock(t, 10, 14, "down") && InBlock(t, 3, 9, "right"))
    ensures !(InBlock(t, 14, 7, "left") && InBlock(t, 3, 9, "right"))
  {
    UShape(5, 3, "up", t);
    UShape(10, 14, "down", t);
    UShape(14, 7, "left", t);
    UShape(3, 9, "right", t);
    FrameComplete(t);
  }

  /** Two tile squares overlap exactly when they are the same tile. */
  lemma TileBoxesOverlap(a: Tile, b: Tile)
    ensures Overlaps(TileBox(a), TileBox(b)) <==> a == b
  {
    if Overlaps(TileBox(a), TileBox(b)) {
      assert a.col as real * TileSize < b.col as real * TileSize + TileSize;
      assert a.col < b.col + 1;
      assert a.col + 1 > b.col;
      assert a.row < b.row + 1;
      assert a.row + 1 > b.row;
    }
  }

  /** The world centre of a tile. */
  function CentreX(col: int): real { col as real * TileSize + TileSize / 2.0 }
  function CentreY(row: int): real { row as real * TileSize + TileSize / 2.0 }

  /** Some wall rectangle overlaps the box. */
  predicate HitsWall(walls: seq<Box>, b: Box) {
    exists i :: 0 <= i < |walls| && Overlaps(b, walls[i])
  }

  /** The 1 x 1 probe isWallAt places at a tile centre meets only that tile's square. */
  lemma ProbeMeetsOnlyItsTile(c: int, r: int, t: Tile)
    ensures Overlaps(Box(CentreX(c), CentreY(r), 1.0, 1.0), TileBox(t)) <==> t == Tile(c, r)
  {
    if Overlaps(Box(CentreX(c), CentreY(r), 1.0, 1.0), TileBox(t)) {
      assert t.col as real * 40.0 < c as real * 40.0 + 21.0;
      assert t.col < c + 1;
      assert t.col as real * 40.0 + 40.0 > c as real * 40.0 + 20.0;
      assert t.col > c - 1;
      assert t.row < r + 1;
      assert t.row > r - 1;
    }
  }

  /** A tile-centre probe hits the walls of a tile list iff the tile is in the list. */
  lemma {:induction false} WallAtTileCentre(ts: seq<Tile>, c: int, r: int)
    ensures HitsWall(Boxes(ts), Box(CentreX(c), CentreY(r), 1.0, 1.0)) <==> Tile(c, r) in ts
  {
    var probe := Box(CentreX(c), CentreY(r), 1.0, 1.0);
    if HitsWall(Boxes(ts), probe) {
      var i :| 0 <= i < |ts| && Overlaps(probe, Boxes(ts)[i]);
      ProbeMeetsOnlyItsTile(c, r, ts[i]);
    }
    if Tile(c, r) in ts {
      var i :| 0 <= i < |ts| && ts[i] == Tile(c, r);
      ProbeMeetsOnlyItsTile(c, r, ts[i]);
      assert Overlaps(probe, Boxes(ts)[i]);
    }
  }

  class Maze {
    var walls: seq<Box>
    var width: real
    var height: real
    var tileSize: real

    /** The dimensions every constructed maze has. */
    ghost predicate Sized()
      reads this
    {
      tileSize == TileSize &&
      width == TotalCols as real * TileSize &&
      height == TotalRows as real * TileSize
    }

    /** The state every constructed maze is in. */
    ghost predicate Valid()
      reads this
    {
      Sized() && walls == Layout()
    }

    /** The two size arguments are ignored: the maze is always 18 x 19 tiles of 40. */
    constructor (initialWidth: real, initialHeight: real)
      ensures Valid()
      ensures tileSize == 40.0 && width == 720.0 && height == 760.0
    {
      tileSize := 40.0;
      walls := [];
      width := TotalCols as real * 40.0;
      height := TotalRows as real * 40.0;
      new;
      InitializeWalls();
    }

    /** Clears the list and rebuilds it: the result never depends on the old walls. */
    method InitializeWalls()
      requires tileSize == TileSize
      modifies this`walls
      ensures walls == Layout()
    {
      walls := [];
      // Bottom row, top row, then the left and right columns between them.
      AddRow(0);
      AddRow(TotalRows - 1);
      AddColumn(0);
      AddColumn(TotalCols - 1);
      ghost var r0, r1 := RowTiles(0, 0, TotalCols), RowTiles(TotalRows - 1, 0, TotalCols);
      ghost var c0, c1 := ColTiles(0, 1, TotalRows - 1), ColTiles(TotalCols - 1, 1, TotalRows - 1);
      BoxesAppend(r0, r1);
      BoxesAppend(r0 + r1, c0);
      BoxesAppend(r0 + r1 + c0, c1);
      AddObstacles(r0 + r1 + c0 + c1);
    }

    /** One loop of initializeWalls: a wall on every column of the given row. */
    method AddRow(row: int)
      modifies this`walls
      requires tileSize == TileSize
      ensures walls == old(walls) + Boxes(RowTiles(row, 0, TotalCols))
    {
      for x := 0 to TotalCols
        invariant walls == old(walls) + Boxes(RowTiles(row, 0, x))
      {
        AddWall(x as real * tileSize, row as real * tileSize);
        BoxesAppend(RowTiles(row, 0, x), [Tile(x, row)]);
        assert RowTiles(row, 0, x + 1) == RowTiles(row, 0, x) + [Tile(x, row)];
      }
    }

    /** One loop of initializeWalls: a wall on the given column of every row but the first and last. */
    method AddColumn(col: int)
      modifies this`walls
      requires tileSize == TileSize
      ensures walls == old(walls) + Boxes(ColTiles(col, 1, TotalRows - 1))
    {
      for y := 1 to TotalRows - 1
        invariant walls == old(walls) + Boxes(ColTiles(col, 1, y))
      {
        AddWall(col as real * tileSize, y as real * tileSize);
        BoxesAppend(ColTiles(col, 1, y), [Tile(col, y)]);
        assert ColTiles(col, 1, y + 1) == ColTiles(col, 1, y) + [Tile(col, y)];
      }
    }

    /** The four addUObstacle calls of initializeWalls. */
    method AddObstacles(ghost built: seq<Tile>)
      requires tileSize == TileSize && walls == Boxes(built)
      modifies this`walls
      ensures walls == Boxes(built + ObstacleTiles())
    {
      var u1, u2, u3, u4 := UTiles(5, 3, "up"), UTiles(TotalCols - 8, TotalRows - 5, "down"),
                            UTiles(TotalCols - 4, 7, "left"), UTiles(3, TotalRows - 10, "right");
      AddUObstacle(5, 3, "up");
      BoxesAppend(built, u1);
      AddUObstacle(TotalCols - 8, TotalRows - 5, "down");
      BoxesAppend(built + u1, u2);
      AddUObstacle(TotalCols - 4, 7, "left");
      BoxesAppend(built + u1 + u2, u3);
      AddUObstacle(3, TotalRows - 10, "right");
      BoxesAppend(built + u1 + u2 + u3, u4);
      assert built + u1 + u2 + u3 + u4 == built + ObstacleTiles();
    }

    /** Appends the walls of one U whose bottom-left block corner is tile (startCol, startRow). */
    method AddUObstacle(startCol: int, startRow: int, orientation: string)
      requires tileSize == TileSize
      modifies this`walls
      ensures walls == old(walls) + Boxes(UTiles(startCol, startRow, orientation))
    {
      var pixelX := startCol as real * tileSize;
      var pixelY := startRow as real * tileSize;
      if orientation == "up" {
        AddWall(pixelX, pixelY);
        AddWall(pixelX + tileSize, pixelY);
        AddWall(pixelX + 2.0 * tileSize, pixelY);
        AddWall(pixelX, pixelY + tileSize);
        AddWall(pixelX + 2.0 * tileSize, pixelY + tileSize);
      } else if orientation == "down" {
        AddWall(pixelX, pixelY + tileSize);
        AddWall(pixelX + tileSize, pixelY + tileSize);
        AddWall(pixelX + 2.0 * tileSize, pixelY + tileSize);
        AddWall(pixelX, pixelY);
        AddWall(pixelX + 2.0 * tileSize, pixelY);
      } else if orientation == "left" {
        AddWall(pixelX + tileSize, pixelY);
        AddWall(pixelX + tileSize, pixelY + tileSize);
        AddWall(pixelX + tileSize, pixelY + 2.0 * tileSize);
        AddWall(pixelX, pixelY);
        AddWall(pixelX, pixelY + 2.0 * tileSize);
      } else if orientation == "right" {
        AddWall(pixelX, pixelY);
        AddWall(pixelX, pixelY + tileSize);
        AddWall(pixelX, pixelY + 2.0 * tileSize);
        AddWall(pixelX + tileSize, pixelY);
        AddWall(pixelX + tileSize, pixelY + 2.0 * tileSize);
      }
    }

    method AddWall(x: real, y: real)
      modifies this`walls
      ensures walls == old(walls) + [Box(x, y, tileSize, tileSize)]
    {
      walls := walls + [Box(x, y, tileSize, tileSize)];
    }

    /** Linear scan with early return over the walls. */
    method CollidesWithWall(boundingBox: Box) returns (r: bool)
      ensures r == HitsWall(walls, boundingBox)
    {
      for i := 0 to |walls|
        invariant forall k :: 0 <= k < i ==> !Overlaps(boundingBox, walls[k])
      {
        if Overlaps(boundingBox, walls[i]) {
          return true;
        }
      }
      return false;
    }

    /** Tests a 1 x 1 probe at (x, y); the source asks wall.overlaps(probe). */
    method IsWallAt(x: real, y: real) returns (r: bool)
      ensures r == HitsWall(walls, Box(x, y, 1.0, 1.0))
    {
      var checkRect := Box(x, y, 1.0, 1.0);
      for i := 0 to |walls|
        invariant forall k :: 0 <= k < i ==> !Overlaps(walls[k], checkRect)
      {
        if Overlaps(walls[i], checkRect) {
          return true;
        }
      }
      OverlapsSymmetricAll(walls, checkRect);
      return false;
    }

    function GetWidth(): (w: real)
      reads this
      requires Sized()
      ensures w == TotalCols as real * GetTileSize()
    {
      width
    }

    function GetHeight(): (h: real)
      reads this
      requires Sized()
      ensures h == TotalRows as real * GetTileSize()
    {
      height
    }

    function GetTileSize(): (t: real)
      reads this
      requires Sized()
      ensures t == 40.0
    {
      tileSize
    }
  }

  lemma OverlapsSymmetricAll(walls: seq<Box>, b: Box)
    ensures (forall k :: 0 <= k < |walls| ==> !Overlaps(walls[k], b)) ==> !HitsWall(walls, b)
  {
  }
}
