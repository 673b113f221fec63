/** A ghost: its scared spell, its per-type detection range, and the movement that
    re-decides the direction at tile centres or in front of walls. The random
    index of a patrol choice arrives as a parameter. */
module Ghosts {
  import opened Geometry
  import opened GhostTypes
  import opened Timers
  import opened Mazes
  import opened Players
  import opened DirectionEngine

  const GhostSize: Vec := Vec(30.0, 30.0)
  /** The length of a scared spell set by setScared(true), in seconds. */
  const ScaredSpell: real := 10.0

  datatype GhostSprite = NormalSprite | ScaredSprite

  /** A decision point: at a tile centre, or about to hit a wall. */
  predicate DecisionPoint(walls: seq<Box>, pos: Vec, size: Vec, cur: Vec, speed: real, delta: real, tileSize: real)
    requires tileSize != 0.0
  {
    AtTileCenter(CenterOf(pos, size), speed, delta, tileSize) || AboutToHitWall(walls, pos, size, cur)
  }

  /** The direction move leaves: re-chosen towards (or away from) the target at a
      decision point with a non-empty valid list, kept otherwise. */
  function MoveDirection(walls: seq<Box>, pos: Vec, size: Vec, cur: Vec, speed: real, delta: real,
                         tileSize: real, target: Vec, fleeing: bool): Vec
    requires tileSize != 0.0
  {
    var valid := ValidDirections(walls, pos, size, cur);
    if DecisionPoint(walls, pos, size, cur, speed, delta, tileSize) && |valid| > 0
    then BestDirection(valid, CenterOf(pos, size), tileSize, target, fleeing)
    else cur
  }

  /** The direction patrol leaves: the valid direction at the drawn index. */
  function PatrolDirection(walls: seq<Box>, pos: Vec, size: Vec, cur: Vec, speed: real, delta: real,
                           tileSize: real, pick: nat): Vec
    requires tileSize != 0.0
  {
    var valid := ValidDirections(walls, pos, size, cur);
    if DecisionPoint(walls, pos, size, cur, speed, delta, tileSize) && |valid| > 0
    then valid[pick % |valid|]
    else cur
  }

  /** move and patrol change the direction only at a decision point and only to a
      clear direction of the valid list; with a unit direction and more than one
      exit the new direction is never the reverse of the old one. */
  lemma SteeringIsSafe(walls: seq<Box>, pos: Vec, size: Vec, cur: Vec, speed: real, delta: real,
                       tileSize: real, target: Vec, fleeing: bool, pick: nat)
    requires tileSize != 0.0
    ensures var d := MoveDirection(walls, pos, size, cur, speed, delta, tileSize, target, fleeing);
      d == cur || (DecisionPoint(walls, pos, size, cur, speed, delta, tileSize) &&
                   d in ValidDirections(walls, pos, size, cur) && PathClear(walls, pos, size, d))
    ensures var d := PatrolDirection(walls, pos, size, cur, speed, delta, tileSize, pick);
      d == cur || (DecisionPoint(walls, pos, size, cur, speed, delta, tileSize) &&
                   d in ValidDirections(walls, pos, size, cur) && PathClear(walls, pos, size, d))
    ensures ExitCount(walls, pos, size) > 1 && DecisionPoint(walls, pos, size, cur, speed, delta, tileSize) ==>
      MoveDirection(walls, pos, size, cur, speed, delta, tileSize, target, fleeing) != Neg(cur) &&
      PatrolDirection(walls, pos, size, cur, speed, delta, tileSize, pick) != Neg(cur)
  {
    var valid := ValidDirections(walls, pos, size, cur);
    if DecisionPoint(walls, pos, size, cur, speed, delta, tileSize) && |valid| > 0 {
      var m := BestDirection(valid, CenterOf(pos, size), tileSize, target, fleeing);
      ValidDirectionsClear(walls, pos, size, cur, m);
      ValidDirectionsClear(walls, pos, size, cur, valid[pick % |valid|]);
      if ExitCount(walls, pos, size) > 1 {
        NoNeedlessReversal(walls, pos, size, cur);
      }
    } else if DecisionPoint(walls, pos, size, cur, speed, delta, tileSize) && ExitCount(walls, pos, size) > 1 {
      ExitCountPositive(walls, pos, size);
      ValidDirectionsNonEmpty(walls, pos, size, cur);
    }
  }

  /** move and patrol keep the direction a unit vector: every direction they can pick
      is one of the four units, or the reverse of a unit direction. */
  lemma SteeringKeepsUnit(walls: seq<Box>, pos: Vec, size: Vec, cur: Vec, speed: real, delta: real,
                          tileSize: real, target: Vec, fleeing: bool, pick: nat)
    requires tileSize != 0.0 && IsUnit(cur)
    ensures IsUnit(MoveDirection(walls, pos, size, cur, speed, delta, tileSize, target, fleeing))
    ensures IsUnit(PatrolDirection(walls, pos, size, cur, speed, delta, tileSize, pick))
  {
    var valid := ValidDirections(walls, pos, size, cur);
    ValidDirectionsCharacterised(walls, pos, size, cur);
    if DecisionPoint(walls, pos, size, cur, speed, delta, tileSize) && |valid| > 0 {
      assert BestDirection(valid, CenterOf(pos, size), tileSize, target, fleeing) in valid;
      assert valid[pick % |valid|] in valid;
    }
  }

  /** A ghost placed 5 units into a tile, as the ghost house places them, has its centre
      on that tile's centre, so it re-decides on its first tick with any travel. */
  lemma StartTileIsDecisionPoint(col: int, row: int, walls: seq<Box>, cur: Vec, speed: real, delta: real)
    requires speed * delta > 0.0
    ensures DecisionPoint(walls, Vec(col as real * TileSize + 5.0, row as real * TileSize + 5.0), GhostSize,
                          cur, speed, delta, TileSize)
  {
    var pos := Vec(col as real * TileSize + 5.0, row as real * TileSize + 5.0);
    assert CenterOf(pos, GhostSize) == Vec(CentreX(col), CentreY(row));
    AtTileCenterTolerance(col, row, TileSize, speed, delta, pos);
  }

  /** Whatever the current direction, some direction is valid when more than one exit is clear. */
  lemma ValidDirectionsNonEmpty(walls: seq<Box>, pos: Vec, size: Vec, cur: Vec)
    requires ExitCount(walls, pos, size) > 1
    ensures |ValidDirections(walls, pos, size, cur)| > 0
  {
    var exits := ExitCount(walls, pos, size);
    var kept := Kept(walls, pos, size, cur, exits, Units);
    KeptUnits(walls, pos, size, cur, exits);
    ExitCountPositive(walls, pos, size);
    var d, e :| IsUnit(d) && IsUnit(e) && d != e && PathClear(walls, pos, size, d) && PathClear(walls, pos, size, e);
    if d == Neg(cur) { assert e in kept; } else { assert d in kept; }
  }

  /** getDetectionRange. */
  function DetectionRange(t: GhostType, tileSize: real): real {
    tileSize * DetectionTiles(t)
  }

  /** The chase test of update: the centre distance is strictly below the range
      (compared squared; no distance is below a range that is not positive). */
  predicate InRange(ghostCenter: Vec, pacmanCenter: Vec, range: real) {
    range > 0.0 && Dst2(ghostCenter, pacmanCenter) < range * range
  }

  /** With 40-unit tiles a ghost chases a Pacman whose centre is strictly closer than
      8, 6, 7 or 5 tiles for a red, pink, blue or orange ghost: exactly at the
      boundary it patrols. */
  lemma DetectionRanges(t: GhostType, g: Vec, p: Vec)
    ensures DetectionRange(t, TileSize) ==
      (match t case Red => 320.0 case Pink => 240.0 case Blue => 280.0 case Orange => 200.0)
    ensures Dst2(g, p) == DetectionRange(t, TileSize) * DetectionRange(t, TileSize) ==> !InRange(g, p, DetectionRange(t, TileSize))
    ensures InRange(g, p, DetectionRange(t, TileSize)) <==> Dst2(g, p) < DetectionRange(t, TileSize) * DetectionRange(t, TileSize)
  {
  }

  class Ghost {
    const ghostType: GhostType
    const speed: real
    /** A copy of the construction-time position. */
    const startPosition: Vec
    var position: Vec
    const size: Vec
    var isScared: bool
    var scaredTime: real
    const pacman: Pacman
    const maze: Maze
    var currentDirection: Vec
    var sprite: GhostSprite

    constructor (startPosition: Vec, t: GhostType, pacman: Pacman, maze: Maze)
      ensures position == startPosition && this.startPosition == startPosition
      ensures ghostType == t && speed == BaseSpeed(t) && size == GhostSize
      ensures this.pacman == pacman && this.maze == maze
      ensures currentDirection == Down && !isScared && scaredTime == 0.0 && sprite == NormalSprite
      ensures IsUnit(currentDirection)
    {
      ghostType := t;
      speed := BaseSpeed(t);
      this.startPosition := startPosition;
      position := startPosition;
      size := Vec(30.0, 30.0);
      isScared := false;
      scaredTime := 0.0;
      this.pacman := pacman;
      this.maze := maze;
      currentDirection := Vec(0.0, -1.0);
      sprite := NormalSprite;
    }

    function GetCenter(): (c: Vec)
      reads this
      ensures c == CenterOf(position, size)
    {
      Vec(position.x + size.x / 2.0, position.y + size.y / 2.0)
    }

    function Bounds(): (b: Box)
      reads this
      ensures b == BoxAt(position, size)
    {
      Box(position.x, position.y, size.x, size.y)
    }

    function IsPathClear(direction: Vec): (r: bool)
      reads this, maze
      ensures r == PathClear(maze.walls, position, size, direction)
    {
      if direction == Zero then false
      else !HitsWall(maze.walls, Box(position.x + direction.x * 2.0, position.y + direction.y * 2.0, size.x, size.y))
    }

    function GetDetectionRange(): (r: real)
      reads this, maze
      ensures r == DetectionRange(ghostType, maze.tileSize)
    {
      match ghostType
      case Red => maze.tileSize * 8.0
      case Pink => maze.tileSize * 6.0
      case Blue => maze.tileSize * 7.0
      case Orange => maze.tileSize * 5.0
    }

    /** countValidExits: one pass over the four directions. */
    method CountValidExits() returns (count: nat)
      ensures count == ExitCount(maze.walls, position, size)
    {
      var possibleDirections := Units;
      count := 0;
      for i := 0 to 4
        invariant count == ClearCount(maze.walls, position, size, possibleDirections[..i])
      {
        assert possibleDirections[..i + 1][..i] == possibleDirections[..i];
        if IsPathClear(possibleDirections[i]) {
          count := count + 1;
        }
      }
      assert possibleDirections[..4] == Units;
    }

    /** getValidDirections: one pass over the four directions, then the fallback. */
    method GetValidDirections() returns (validDirs: seq<Vec>)
      ensures validDirs == ValidDirections(maze.walls, position, size, currentDirection)
    {
      var possibleDirections := Units;
      var oppositeDirection := Vec(-currentDirection.x, -currentDirection.y);
      ghost var exits := ExitCount(maze.walls, position, size);
      validDirs := [];
      for i := 0 to 4
        invariant validDirs == Kept(maze.walls, position, size, currentDirection, exits, possibleDirections[..i])
      {
        assert possibleDirections[..i + 1][..i] == possibleDirections[..i];
        var dir := possibleDirections[i];
        var skip := false;
        if dir == oppositeDirection {
          var n := CountValidExits();
          skip := n > 1;
        }
        if !skip && IsPathClear(dir) {
          validDirs := validDirs + [dir];
        }
      }
      assert possibleDirections[..4] == Units;
      if validDirs == [] && IsPathClear(oppositeDirection) {
        validDirs := validDirs + [oppositeDirection];
      }
    }

    /** chooseBestDirection: the running best starts as the first candidate with
        metric -1 and is replaced only by a strictly better candidate. */
    method ChooseBestDirection(directions: seq<Vec>, target: Vec, isFleeing: bool) returns (bestDirection: Vec)
      requires |directions| > 0
      ensures bestDirection == BestDirection(directions, GetCenter(), maze.tileSize, target, isFleeing)
    {
      ghost var ms := Metrics(directions, GetCenter(), maze.tileSize, target);
      bestDirection := directions[0];
      var bestMetric: real := -1.0;
      ghost var k: nat := 0;
      for i := 0 to |directions|
        invariant i == 0 ==> bestDirection == directions[0] && bestMetric == -1.0
        invariant i > 0 ==> k == ArgBest(ms[..i], isFleeing) && bestDirection == directions[k] && bestMetric == ms[k]
      {
        var nextTilePos := MulAdd(GetCenter(), directions[i], maze.tileSize);
        var distanceToTarget := Dst2(nextTilePos, target);
        assert distanceToTarget == ms[i];
        if i > 0 {
          assert ms[..i + 1][..i] == ms[..i];
        }
        if isFleeing {
          if distanceToTarget > bestMetric {
            bestMetric := distanceToTarget;
            bestDirection := directions[i];
            k := i;
          }
        } else {
          if bestMetric == -1.0 || distanceToTarget < bestMetric {
            bestMetric := distanceToTarget;
            bestDirection := directions[i];
            k := i;
          }
        }
      }
      assert ms[..|directions|] == ms;
    }

    function IsAtTileCenter(delta: real): (r: bool)
      reads this, maze
      requires maze.tileSize != 0.0
      ensures r == AtTileCenter(GetCenter(), speed, delta, maze.tileSize)
    {
      var tolerance := speed * delta / 2.0;
      var tileSize := maze.tileSize;
      var center := GetCenter();
      var tileCenterX := (center.x / tileSize).Floor as real * tileSize + tileSize / 2.0;
      var tileCenterY := (center.y / tileSize).Floor as real * tileSize + tileSize / 2.0;
      // the distance is compared squared, so the tolerance must be positive
      tolerance > 0.0 && Dst2(center, Vec(tileCenterX, tileCenterY)) < tolerance * tolerance
    }

    function IsAboutToHitWall(): (r: bool)
      reads this, maze
      ensures r == AboutToHitWall(maze.walls, position, size, currentDirection)
    {
      currentDirection == Zero || !IsPathClear(currentDirection)
    }

    /** move: re-decide at a decision point, then advance by direction * speed * delta
        with no wall check. */
    method Move(delta: real, target: Vec, isFleeing: bool)
      requires maze.tileSize != 0.0
      modifies this`currentDirection, this`position
      ensures currentDirection == MoveDirection(maze.walls, old(position), size, old(currentDirection), speed, delta,
                                                maze.tileSize, target, isFleeing)
      ensures position == MulAdd(old(position), currentDirection, speed * delta)
      ensures IsUnit(old(currentDirection)) ==> IsUnit(currentDirection)
    {
      if IsUnit(currentDirection) {
        SteeringKeepsUnit(maze.walls, position, size, currentDirection, speed, delta, maze.tileSize, target, isFleeing, 0);
      }
      if IsAtTileCenter(delta) || IsAboutToHitWall() {
        var validDirections := GetValidDirections();
        if |validDirections| > 0 {
          currentDirection := ChooseBestDirection(validDirections, target, isFleeing);
        }
      }
      position := MulAdd(position, currentDirection, speed * delta);
    }

    /** patrol: as move, but the new direction is the valid one at the drawn index. */
    method Patrol(delta: real, pick: nat)
      requires maze.tileSize != 0.0
      modifies this`currentDirection, this`position
      ensures currentDirection == PatrolDirection(maze.walls, old(position), size, old(currentDirection), speed, delta,
                                                  maze.tileSize, pick)
      ensures position == MulAdd(old(position), currentDirection, speed * delta)
      ensures IsUnit(old(currentDirection)) ==> IsUnit(currentDirection)
    {
      if IsUnit(currentDirection) {
        SteeringKeepsUnit(maze.walls, position, size, currentDirection, speed, delta, maze.tileSize, startPosition, false, pick);
      }
      if IsAtTileCenter(delta) || IsAboutToHitWall() {
        var validDirections := GetValidDirections();
        if |validDirections| > 0 {
          currentDirection := validDirections[pick % |validDirections|];
        }
      }
      position := MulAdd(position, currentDirection, speed * delta);
    }

    /** update: a scared ghost counts its spell down and flees its start position;
        otherwise it chases Pacman's centre while within range and patrols beyond it. */
    method Update(delta: real, pick: nat)
      requires maze.tileSize != 0.0
      modifies this`currentDirection, this`position, this`isScared, this`scaredTime, this`sprite
      ensures old(isScared) ==>
        Countdown(isScared, scaredTime) == Tick(Countdown(true, old(scaredTime)), delta) &&
        sprite == (if isScared then old(sprite) else NormalSprite) &&
        currentDirection == MoveDirection(maze.walls, old(position), size, old(currentDirection), speed, delta,
                                          maze.tileSize, startPosition, true)
      ensures !old(isScared) ==>
        isScared == old(isScared) && scaredTime == old(scaredTime) && sprite == old(sprite) &&
        currentDirection ==
          if InRange(CenterOf(old(position), size), pacman.GetCenter(), DetectionRange(ghostType, maze.tileSize))
          then MoveDirection(maze.walls, old(position), size, old(currentDirection), speed, delta,
                             maze.tileSize, pacman.GetCenter(), false)
          else PatrolDirection(maze.walls, old(position), size, old(currentDirection), speed, delta,
                               maze.tileSize, pick)
      ensures position == MulAdd(old(position), currentDirection, speed * delta)
      ensures IsUnit(old(currentDirection)) ==> IsUnit(currentDirection)
    {
      if isScared {
        scaredTime := scaredTime - delta;
        if scaredTime <= 0.0 {
          SetScared(false);
        }
        Move(delta, startPosition, true);
      } else {
        var detectionRange := GetDetectionRange();
        if InRange(GetCenter(), pacman.GetCenter(), detectionRange) {
          Move(delta, pacman.GetCenter(), false);
        } else {
          Patrol(delta, pick);
        }
      }
    }

    /** setScared: the flag and the sprite follow the argument; only scaring restarts
        the spell at 10 seconds. */
    method SetScared(scared: bool)
      modifies this`isScared, this`scaredTime, this`sprite
      ensures isScared == scared
      ensures sprite == if scared then ScaredSprite else NormalSprite
      ensures scaredTime == if scared then ScaredSpell else old(scaredTime)
    {
      isScared := scared;
      sprite := if scared then ScaredSprite else NormalSprite;
      if scared {
        scaredTime := 10.0;
      }
    }

    function IsScared(): (s: bool)
      reads this
      ensures s == isScared
    {
      isScared
    }

    /** respawn: back to the start position, not scared, heading down, whatever the
        previous state; the spell's remaining time is left as it was. */
    method Respawn()
      modifies this`position, this`isScared, this`scaredTime, this`sprite, this`currentDirection
      ensures position == startPosition && !isScared && sprite == NormalSprite
      ensures currentDirection == Down && scaredTime == old(scaredTime)
      ensures IsUnit(currentDirection)
    {
      position := startPosition;
      SetScared(false);
      currentDirection := Vec(0.0, -1.0);
    }
  }
}
