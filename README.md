# Pac-Man game core in Dafny

This project models the game logic of a libGDX Pac-Man clone and proves properties of that logic. Coordinates are Dafny `real`s, and every box is axis-aligned. The model covers:

- **The maze** (`maze.dfy`, module `Mazes`). A fixed grid of 18 x 19 tiles of 40 units. `initializeWalls` builds the wall list: a frame round the edge plus four U-shaped obstacles. Two queries run over that list: box overlap and point-in-wall.
- **Entities** (`entity.dfy`, `geometry.dfy`). The strict axis-aligned overlap test that every game object shares.
- **Ghost types** (`ghost_type.dfy`). The speed multipliers, base speeds, sprite paths and detection ranges.
- **Pacman** (`pacman.dfy`, module `Players`). Movement driven by the held keys and the power-up count-down.
- **Power-ups** (`power_up.dfy`). An active/expired count-down, plus the lifetime and score value of each kind: PowerFood, Cherry and Cherry2.
- **The ghost** (`ghost_engine.dfy`, `ghost.dfy`). The direction engine, the scared spell, the per-type detection range and respawning:
  - the engine lists the clear directions in the order right, left, up, down;
  - it drops the reverse unless that is the only way out;
  - it then picks the candidate nearest the target when chasing, the farthest when fleeing, or a drawn one when patrolling.

  The engine is written twice: once as functions (module `DirectionEngine`), and once as the `Ghost` class's loops, which are proved equal to those functions.
- **The game screen** (`game.dfy`, module `GameLoop`). The non-graphical part of `Main`:
  - dot eating and power-up collection;
  - ghost collisions: lives, points and state changes;
  - the respawn delay and the win condition;
  - dot placement and power-up spawning;
  - the per-frame `update` state machine.

A shared count-down (`timers.dfy`) specifies the three timers that tick the same way: Pacman's power-up, an item's lifetime and a ghost's scared spell.

Keys, the frame's delta and every random draw are parameters:
- a ghost's patrol choice is an index taken modulo the number of valid directions;
- a spawn receives its tile draws, its kind draw and the draw that sets the next spawn delay.

Most methods name the single fields they change in their `modifies` frames. `Players.Pacman.Update` names the whole Pacman object, and so do the game-loop methods that call it. The methods are proved against the specification functions, with `ensures` clauses that tie each new state to the old one.

Where the sources disagree, the model takes one reading of each:
- `Main` builds a `Maze` with no arguments and a `Pacman` with two. The model uses the two-argument `Maze` constructor, whose arguments are ignored, and the one-argument `Pacman` constructor.
- `Pacman.getCenter`, `Pacman.respawn` and `Pacman.die` are called but never defined:
  - Pacman's centre is taken as position + size / 2, computed as `Ghost.getCenter` does;
  - `respawn` puts Pacman back at its start position and promises nothing else;
  - `die` is left out.

## Model

| member | source | states |
|---|---|---|
| Geometry.Neg | core/src/main/java/pacman/com/Ghost.java:130 | The opposite direction adds to the original to give zero on both axes. |
| Geometry.Dst2 | core/src/main/java/pacman/com/Ghost.java:109 | A squared distance is never negative. |
| Geometry.BoxAt | core/src/main/java/pacman/com/Ghost.java:160 | An entity's rectangle has its position as its corner and its size as its extent. |
| Geometry.CenterOf | core/src/main/java/pacman/com/Ghost.java:178-180 | The centre is the position plus half the size. |
| Entities.CollidesWith | core/src/main/java/pacman/com/Entity.java:36-41 | `collidesWith` holds exactly when the two boxes overlap strictly on both axes. |
| Entities.CollidesWithSymmetric | core/src/main/java/pacman/com/Entity.java:36-41 | Collision is symmetric. |
| Entities.TouchingDoNotCollide | core/src/main/java/pacman/com/Entity.java:37-40 | Boxes that only share an edge, side by side or one above the other, do not collide. |
| Entities.CollidesWithSelf | core/src/main/java/pacman/com/Entity.java:36-41 | An entity collides with itself exactly when its width and height are positive. |
| GhostTypes.SpeedMultiplier | core/src/main/java/pacman/com/GhostType.java:4-7 | The multiplier is 0.5 exactly for RED and BLUE, and 1.0 exactly for PINK and ORANGE. |
| GhostTypes.BaseSpeed | core/src/main/java/pacman/com/GhostType.java:15-17 | The base speed is 100 times the multiplier. |
| GhostTypes.BaseSpeedTable | core/src/main/java/pacman/com/GhostType.java:4-17 | The base speeds are 50, 100, 50 and 100, all positive. |
| GhostTypes.TexturePath | core/src/main/java/pacman/com/GhostType.java:19-27 | Every type has a non-empty sprite path. |
| GhostTypes.TexturePathInjective | core/src/main/java/pacman/com/GhostType.java:19-27 | Different types get different sprite paths. |
| GhostTypes.DetectionTiles | core/src/main/java/pacman/com/Ghost.java:94-99 | Every type's detection range spans at least 5 tiles. |
| Timers.Tick | core/src/main/java/pacman/com/PowerUp.java:19-26 | A stopped count-down is untouched. A running one loses delta and keeps running exactly while the remainder stays positive. |
| Timers.TicksStopOnce | core/src/main/java/pacman/com/Pacman.java:47-52 | Started at t and ticked n times by a positive delta, the count-down runs exactly while t - n * delta > 0, with that remainder. So it stops once, at the first tick that reaches zero or below. |
| Timers.StoppedStaysStopped | core/src/main/java/pacman/com/PowerUp.java:20 | Once stopped, any number of further ticks changes nothing. |
| Timers.EightSecondSpell | core/src/main/java/pacman/com/PowerUp.java:19-26 | Ticked every 0.1 s, an 8-second count-down still runs after 79 ticks and is stopped at the 80th and 81st. |
| Mazes.TileBox | core/src/main/java/pacman/com/Maze.java:118-120 | Every wall square is tileSize by tileSize. |
| Mazes.Boxes | core/src/main/java/pacman/com/Maze.java:80-81 | The wall list holds one tile-aligned square per listed tile, in order. |
| Mazes.BoxesAppend | core/src/main/java/pacman/com/Maze.java:118-120 | Building walls for two tile lists in sequence gives their concatenation. |
| Mazes.RowTiles | core/src/main/java/pacman/com/Maze.java:38-40 | The tiles of a row run left to right over the given columns. |
| Mazes.ColTiles | core/src/main/java/pacman/com/Maze.java:48-51 | The tiles of a column run bottom to top over the given rows. |
| Mazes.RowTilesMembers | core/src/main/java/pacman/com/Maze.java:37-46 | A tile is in a row range exactly when it has that row and a column inside the range. |
| Mazes.ColTilesMembers | core/src/main/java/pacman/com/Maze.java:48-55 | A tile is in a column range exactly when it has that column and a row inside the range. |
| Mazes.UShape | core/src/main/java/pacman/com/Maze.java:83-115 | Each recognised orientation adds five distinct tiles: its bounding block minus the opening on the named side. Any other orientation adds nothing. |
| Mazes.FrameComplete | core/src/main/java/pacman/com/Maze.java:36-55 | A tile is a frame tile exactly when it lies in the bottom or top row or the first or last column of the 18 x 19 grid. Row 0 is the bottom. |
| Mazes.ObstaclesInsideAndApart | core/src/main/java/pacman/com/Maze.java:57-71 | The 20 obstacle tiles lie strictly inside the frame. None is a frame tile. No two obstacles' bounding blocks share a tile. |
| Mazes.TileBoxesOverlap | core/src/main/java/pacman/com/Maze.java:118-120 | Two wall squares overlap exactly when they are the same tile. |
| Mazes.ProbeMeetsOnlyItsTile | core/src/main/java/pacman/com/Maze.java:138-147 | The 1 x 1 probe at a tile centre overlaps that tile's square and no other. |
| Mazes.WallAtTileCentre | core/src/main/java/pacman/com/Maze.java:138-147 | A tile-centre probe hits a wall list exactly when the tile is one of its wall tiles. |
| Mazes.OverlapsSymmetricAll | core/src/main/java/pacman/com/Maze.java:140-146 | Asking `wall.overlaps(probe)` for every wall and finding no hit means the probe hits no wall. |
| Mazes.Maze.constructor | core/src/main/java/pacman/com/Maze.java:21-31 | Whatever the arguments, the tile size is 40, the width 18 * 40, the height 19 * 40, and the walls are the full layout. |
| Mazes.Maze.InitializeWalls | core/src/main/java/pacman/com/Maze.java:33-72 | The list is cleared first, so the result is always the frame followed by the four obstacles, whatever the old walls were. |
| Mazes.Maze.AddRow | core/src/main/java/pacman/com/Maze.java:37-40 | Appends one wall per column of the row, left to right. |
| Mazes.Maze.AddColumn | core/src/main/java/pacman/com/Maze.java:48-51 | Appends one wall per row of the column, excluding the first and last rows, bottom to top. |
| Mazes.Maze.AddObstacles | core/src/main/java/pacman/com/Maze.java:57-71 | Appends the walls of the four U obstacles at their fixed positions and orientations. |
| Mazes.Maze.AddUObstacle | core/src/main/java/pacman/com/Maze.java:75-116 | Appends exactly the walls of the U with the given corner and orientation, in the source's order. |
| Mazes.Maze.AddWall | core/src/main/java/pacman/com/Maze.java:118-120 | Appends one tile-sized square at (x, y) and changes nothing else. |
| Mazes.Maze.CollidesWithWall | core/src/main/java/pacman/com/Maze.java:128-135 | True exactly when some wall overlaps the box. |
| Mazes.Maze.IsWallAt | core/src/main/java/pacman/com/Maze.java:138-147 | True exactly when some wall overlaps the 1 x 1 box at (x, y). |
| Mazes.Maze.GetWidth | core/src/main/java/pacman/com/Maze.java:149-151 | The width is 18 tiles. |
| Mazes.Maze.GetHeight | core/src/main/java/pacman/com/Maze.java:153-155 | The height is 19 tiles. |
| Mazes.Maze.GetTileSize | core/src/main/java/pacman/com/Maze.java:157-159 | The tile size is 40. |
| Players.KeyStepMoves | core/src/main/java/pacman/com/Pacman.java:30-45 | Opposite keys cancel. A lone LEFT or RIGHT moves x by the full step the way it points, and a lone UP or DOWN does the same for y. Keys of one axis never move the other. |
| Players.LastFacingRule | core/src/main/java/pacman/com/Pacman.java:30-45 | With no key held the facing is kept. DOWN, checked last, always wins. A lone LEFT faces left. |
| Players.Pacman.constructor | core/src/main/java/pacman/com/Pacman.java:17-26 | A new Pacman is at its start position, 30 x 30, faces right, has speed 150, is not powered up and has power-up time 0. |
| Players.Pacman.Update | core/src/main/java/pacman/com/Pacman.java:29-53 | The position is moved by the held keys, by speed * delta each, with no wall check. The facing is set by the last held key. A running power-up ticks as the shared count-down. The speed never changes. |
| Players.Pacman.SetPoweredUp | core/src/main/java/pacman/com/Pacman.java:55-63 | Both fields take their arguments exactly. The sprite is the dark one when powering up, and otherwise reset to face right. |
| Players.Pacman.IsPoweredUp | core/src/main/java/pacman/com/Pacman.java:65-67 | Returns the power-up flag. |
| Players.Pacman.Respawn | core/src/main/java/pacman/com/Main.java:278 | Pacman is back at its start position. |
| PowerUps.Duration | core/src/main/java/pacman/com/PowerFood.java:7 | Each kind has a positive lifetime: PowerFood 10, Cherry 20, Cherry2 8. |
| PowerUps.ScoreValue | core/src/main/java/pacman/com/PowerFood.java:11-13 | Each kind has a positive score value: PowerFood 50, Cherry 100, Cherry2 300. |
| PowerUps.KindForDrawRanges | core/src/main/java/pacman/com/Main.java:363-366 | The spawned kind is Cherry exactly for draws below 0.35, Cherry2 exactly from 0.35 to below 0.60, and PowerFood exactly from 0.60. |
| PowerUps.PowerUp.constructor | core/src/main/java/pacman/com/PowerUp.java:11-16 | A new item is active, 20 x 20, with the lifetime of its kind both as its duration and as its remaining time. |
| PowerUps.PowerUp.Update | core/src/main/java/pacman/com/PowerUp.java:19-26 | An active item ticks as the shared count-down and becomes inactive exactly when the remainder is no longer positive. An inactive item is left as it is. The duration is outside the frame, so it never changes. |
| PowerUps.PowerUp.IsActive | core/src/main/java/pacman/com/PowerUp.java:30-32 | Returns the active flag. |
| PowerUps.PowerUp.Collect | core/src/main/java/pacman/com/PowerUp.java:34-36 | Leaves the item inactive, so collecting twice is the same as collecting once. |
| PowerUps.PowerUp.GetScoreValue | core/src/main/java/pacman/com/Cherry.java:11-13 | The score value of the item's kind. |
| DirectionEngine.ClearCount | core/src/main/java/pacman/com/Ghost.java:146-155 | There are never more clear directions than candidates. |
| DirectionEngine.KeptPrefix | core/src/main/java/pacman/com/Ghost.java:132-139 | After the first n directions, a direction is in the kept list exactly when it is among those n and admitted. |
| DirectionEngine.KeptPrefixOrdered | core/src/main/java/pacman/com/Ghost.java:132-139 | The kept list after the first n directions holds unit directions only, in enumeration order, each once, all among the first n. |
| DirectionEngine.ClearCountPrefix | core/src/main/java/pacman/com/Ghost.java:146-155 | The exit count over the first n directions counts which of right, left, up and down are clear. |
| DirectionEngine.KeptUnits | core/src/main/java/pacman/com/Ghost.java:132-139 | The kept list is exactly the admitted unit directions, in the order right, left, up, down. |
| DirectionEngine.ExitCountPositive | core/src/main/java/pacman/com/Ghost.java:146-155 | There is an exit exactly when some unit direction is clear. More than one exit means two different clear directions. |
| DirectionEngine.FallbackUnused | core/src/main/java/pacman/com/Ghost.java:140-142 | With a unit current direction, the fallback never changes the result, and the kept list is non-empty whenever there is an exit. |
| DirectionEngine.ValidDirectionsCharacterised | core/src/main/java/pacman/com/Ghost.java:127-144 | For a unit current direction, both directions of an iff: a direction is returned exactly when it is a clear unit direction that is not the reverse, or is the reverse of a ghost with at most one exit. The list keeps enumeration order. It is non-empty exactly when some direction is clear, so a dead end yields the reverse. |
| DirectionEngine.NoNeedlessReversal | core/src/main/java/pacman/com/Ghost.java:130-135 | The reverse is never returned while more than one direction is clear. |
| DirectionEngine.ValidDirectionsClear | core/src/main/java/pacman/com/Ghost.java:127-144 | Every returned direction passes `isPathClear`, whatever the current direction. |
| DirectionEngine.ArgBest | core/src/main/java/pacman/com/Ghost.java:103-124 | The chosen index is one of the candidates. |
| DirectionEngine.ArgBestIsBest | core/src/main/java/pacman/com/Ghost.java:111-121 | No candidate is strictly better than the chosen one, so it is the minimum when chasing and the maximum when fleeing. Every earlier candidate is strictly worse, so ties go to the earliest. |
| DirectionEngine.Metrics | core/src/main/java/pacman/com/Ghost.java:108-109 | Each candidate's metric is the squared distance from centre + tileSize * direction to the target. |
| DirectionEngine.BestDirection | core/src/main/java/pacman/com/Ghost.java:103-124 | The chosen direction is a member of the non-empty input. |
| DirectionEngine.AtTileCenterTolerance | core/src/main/java/pacman/com/Ghost.java:164-171 | A centre lying exactly on a tile centre (c * ts + ts / 2, r * ts + ts / 2) is at the tile centre whenever speed * delta is positive. When speed * delta is zero or negative, no centre is. |
| Ghosts.SteeringIsSafe | core/src/main/java/pacman/com/Ghost.java:68-89 | `move` and `patrol` keep the direction unless the ghost is at a tile centre or about to hit a wall. Any new direction is a valid and clear one. At a decision point with more than one exit, neither returns the reverse. |
| Ghosts.SteeringKeepsUnit | core/src/main/java/pacman/com/Ghost.java:68-89 | From a unit direction, `move` and `patrol` always leave a unit direction. |
| Ghosts.StartTileIsDecisionPoint | core/src/main/java/pacman/com/Ghost.java:164-171 | A 30 x 30 ghost placed 5 units into a tile, as the ghost house places all four, is centred on that tile, so it re-decides its direction on any tick with positive travel. |
| Ghosts.ValidDirectionsNonEmpty | core/src/main/java/pacman/com/Ghost.java:132-139 | With more than one exit, some direction is valid, whatever the current direction. |
| Ghosts.DetectionRanges | core/src/main/java/pacman/com/Ghost.java:53-64 | With 40-unit tiles the ranges are 320, 240, 280 and 200. A ghost chases exactly when the centre distance is strictly below its range, so at the boundary it patrols. |
| Ghosts.Ghost.constructor | core/src/main/java/pacman/com/Ghost.java:26-40 | A new ghost keeps a copy of its start position. Its speed is its type's base speed, its size 30 x 30 and its direction the unit vector (0, -1). It is not scared and has the normal sprite. |
| Ghosts.Ghost.GetCenter | core/src/main/java/pacman/com/Ghost.java:178-180 | The centre is the position plus half the size. |
| Ghosts.Ghost.Bounds | core/src/main/java/pacman/com/Main.java:253 | The ghost's box is its position and size. |
| Ghosts.Ghost.IsPathClear | core/src/main/java/pacman/com/Ghost.java:157-162 | A direction is clear exactly when it is non-zero and the box moved two units along it meets no wall. |
| Ghosts.Ghost.GetDetectionRange | core/src/main/java/pacman/com/Ghost.java:91-101 | The range is tileSize times 8, 6, 7 or 5, by type. |
| Ghosts.Ghost.CountValidExits | core/src/main/java/pacman/com/Ghost.java:146-155 | The loop returns the number of clear unit directions. |
| Ghosts.Ghost.GetValidDirections | core/src/main/java/pacman/com/Ghost.java:127-144 | The loop returns the engine's valid-direction list. Its properties are the DirectionEngine lemmas above. |
| Ghosts.Ghost.ChooseBestDirection | core/src/main/java/pacman/com/Ghost.java:103-124 | The loop with the -1 sentinel returns the engine's best direction: optimal, with ties going to the first. |
| Ghosts.Ghost.IsAtTileCenter | core/src/main/java/pacman/com/Ghost.java:164-171 | The source's steps (half a tick's travel as tolerance, the tile centre found by flooring, a strict distance test) compute the predicate AtTileCenter, whose behaviour AtTileCenterTolerance states. |
| Ghosts.Ghost.IsAboutToHitWall | core/src/main/java/pacman/com/Ghost.java:173-176 | True for the zero direction or a blocked current direction. |
| Ghosts.Ghost.Move | core/src/main/java/pacman/com/Ghost.java:68-76 | The new direction is the engine's choice towards or away from the target at a decision point with valid directions, and the old one otherwise. A unit direction stays a unit direction. The position then advances by direction * speed * delta, with no rollback. |
| Ghosts.Ghost.Patrol | core/src/main/java/pacman/com/Ghost.java:79-89 | As `move`, but the new direction is the valid one at the drawn index. A unit direction stays a unit direction. |
| Ghosts.Ghost.Update | core/src/main/java/pacman/com/Ghost.java:43-66 | A scared ghost ticks its spell as the shared count-down, gets the normal sprite when the spell ends and flees its start position. Otherwise it chases Pacman's centre while strictly within range and patrols beyond it, with its scared state untouched. The position always advances along the final direction, which is a unit vector whenever the old one was. |
| Ghosts.Ghost.SetScared | core/src/main/java/pacman/com/Ghost.java:183-189 | The flag and the sprite follow the argument. Scaring restarts the spell at 10 s, and un-scaring keeps the old time. |
| Ghosts.Ghost.IsScared | core/src/main/java/pacman/com/Ghost.java:191-193 | Returns the scared flag. |
| Ghosts.Ghost.Respawn | core/src/main/java/pacman/com/Ghost.java:195-199 | Whatever the prior state, the ghost is back at its start, not scared, heading along the unit vector (0, -1), with the normal sprite. The spell's time is kept. |
| GameLoop.EatingPartitions | core/src/main/java/pacman/com/Main.java:370-378 | Each dot is either eaten or kept. The kept dots are exactly those not overlapping Pacman, the eaten ones exactly those overlapping, and the two counts add up. |
| GameLoop.UneatenIdempotent | core/src/main/java/pacman/com/Main.java:370-378 | A second pass at the same position eats nothing more. |
| GameLoop.Respawned | core/src/main/java/pacman/com/Ghost.java:195-199 | A respawned pose is at the start, not scared, heading down, with the normal sprite and the spell's time kept. |
| GameLoop.ScaredHits | core/src/main/java/pacman/com/Main.java:254-259 | There are never more eaten ghosts than ghosts. |
| GameLoop.Catches | core/src/main/java/pacman/com/Main.java:260-270 | There are never more catches than ghosts. |
| GameLoop.LivesLost | core/src/main/java/pacman/com/Main.java:260-266 | A pass costs lives exactly when Pacman is not powered up and some non-scared ghost overlaps him. |
| GameLoop.CatchesPositive | core/src/main/java/pacman/com/Main.java:254-270 | There is a catch exactly when some non-scared ghost overlaps Pacman. |
| GameLoop.PassStep | core/src/main/java/pacman/com/Main.java:250-272 | Taking one more ghost into the pass adds exactly that ghost's points and lost life. |
| GameLoop.Resolved | core/src/main/java/pacman/com/Main.java:250-272 | After the first i ghosts, each eaten one among them is respawned and every other ghost is as it was. |
| GameLoop.ResolvedStep | core/src/main/java/pacman/com/Main.java:250-272 | Dealing with ghost i changes that ghost's pose alone. |
| GameLoop.StateAfterCatches | core/src/main/java/pacman/com/Main.java:266-271 | The state stays PLAYING exactly when no life is lost. It is GAME_OVER exactly when a life is lost and none is left, and RESPAWNING exactly when a life is lost and some remain. |
| GameLoop.TimerAfterCatches | core/src/main/java/pacman/com/Main.java:268-271 | After a lost life with lives left over, the respawn timer is 1.5. Otherwise it is unchanged. |
| GameLoop.TwoCatchesCostTwoLives | core/src/main/java/pacman/com/Main.java:250-272 | The state is not re-checked inside the loop, so two non-scared ghosts on Pacman at once cost two lives. With three lives the round goes to RESPAWNING with the timer at 1.5. |
| GameLoop.FoodState | core/src/main/java/pacman/com/Main.java:386-392 | After a PowerFood there is one mood per ghost, and every ghost is scared. |
| GameLoop.Gains | core/src/main/java/pacman/com/Main.java:380-396 | The points are never negative, and are zero exactly when no active item overlaps Pacman. |
| GameLoop.FoodGrabbed | core/src/main/java/pacman/com/Main.java:386 | A pass grants power exactly when some active, overlapping item is a PowerFood. |
| GameLoop.SingleItemGains | core/src/main/java/pacman/com/Main.java:384-386 | A lone active item adds its own value and grants power exactly when it is a PowerFood. An inactive item adds nothing and grants nothing. |
| GameLoop.ActiveCount | core/src/main/java/pacman/com/Main.java:347-348 | There are never more active items than items. |
| GameLoop.StartTilesAreNearSpawn | core/src/main/java/pacman/com/Main.java:337-344 | The start tiles of Pacman and of the four ghosts count as near a spawn position, so no dot is placed on them. |
| GameLoop.DotAt | core/src/main/java/pacman/com/Main.java:328-331 | A dot is 10 x 10 and centred on its tile's centre. |
| GameLoop.BoardTiles | core/src/main/java/pacman/com/Main.java:326-327 | The board is visited row by row from the bottom, left to right. |
| GameLoop.DotsUpToBoard | core/src/main/java/pacman/com/Main.java:326-334 | Placing dots tile by tile gives the dots over the first n board tiles. |
| GameLoop.DotsUpToNextTile | core/src/main/java/pacman/com/Main.java:327-333 | Visiting the next tile adds its dot, if it has one. |
| GameLoop.DotsOverMembers | core/src/main/java/pacman/com/Main.java:328-332 | A dot is placed exactly on the centre of each visited tile that passes the test. |
| GameLoop.DotSiteOpen | core/src/main/java/pacman/com/Main.java:330 | On a wall layout built from tiles, a tile passes the dot test exactly when it is not a wall tile and its centre is not near a spawn position. |
| GameLoop.DotsOverRows | core/src/main/java/pacman/com/Main.java:323-335 | The dots over the first rows sit exactly on the open, non-spawn tiles of those rows. |
| GameLoop.DotsOnOpenTiles | core/src/main/java/pacman/com/Main.java:323-344 | On the board, a dot sits on the centre of every tile that is not a wall tile and not near a spawn position, and nowhere else. |
| GameLoop.SpawnCorner | core/src/main/java/pacman/com/Main.java:357-358 | A spawned item is centred on the drawn tile's centre. |
| GameLoop.FirstFree | core/src/main/java/pacman/com/Main.java:354-360 | The result is the first unblocked draw in the range, with every draw before it blocked. There is none exactly when every draw in the range is blocked. |
| GameLoop.FirstFreeIsFirst | core/src/main/java/pacman/com/Main.java:354-360 | A free draw preceded only by blocked draws is the one found. |
| GameLoop.HundredthDrawUnused | core/src/main/java/pacman/com/Main.java:359-362 | The loop exits after its 100th draw with attempts at 100, so a spot found on that draw is never used. |
| GameLoop.Game.constructor | core/src/main/java/pacman/com/Main.java:94-126 | `startGame` gives a fixed-size maze, Pacman on tile (9, 5), the four ghosts in the ghost house in the order RED, PINK, BLUE, ORANGE, and the full dot layout. There is no power-up yet, a 5 s spawn delay, score 0, 3 lives, time 0 and the MENU state; both the respawn timer and the power-up time are 0. Pacman starts unpowered, with time 0, speed 150 and facing right. Every ghost starts at its start position, unscared with time 0, heading (0, -1) with the normal sprite, so every heading is a unit vector. |
| GameLoop.Game.PressEnter | core/src/main/java/pacman/com/Main.java:138-146 | ENTER moves MENU to PLAYING, and changes nothing in any other state. |
| GameLoop.Game.PacmanBounds | core/src/main/java/pacman/com/Main.java:371 | Pacman's box is his position and size. |
| GameLoop.Game.CheckDotCollisions | core/src/main/java/pacman/com/Main.java:370-378 | Exactly the overlapped dots are removed, the others keep their order, and the score rises by 10 per removed dot. |
| GameLoop.Game.ItemViews | core/src/main/java/pacman/com/Main.java:383-384 | One view per item: its kind, its box and whether it is active. |
| GameLoop.Game.SetAllScared | core/src/main/java/pacman/com/Main.java:388 | Every ghost's flag and sprite follow the argument. Scaring sets every spell to 10 s, and un-scaring keeps each time. |
| GameLoop.Game.EatPowerFood | core/src/main/java/pacman/com/Main.java:387-392 | Pacman is powered up and darkened for 5 s, every ghost is scared for a full spell, and the scared music runs for 5 s. |
| GameLoop.Game.Moods | core/src/main/java/pacman/com/Main.java:388 | There is one mood per ghost, in list order. |
| GameLoop.Game.CollectItem | core/src/main/java/pacman/com/Main.java:383-395 | One loop step: an active item overlapping Pacman gives its value and is collected. A PowerFood also applies its effect. The other items are untouched. |
| GameLoop.Game.CheckPowerUpCollisions | core/src/main/java/pacman/com/Main.java:380-397 | The score rises by the value of every active item Pacman overlaps. Exactly those items become inactive, and inactive ones are ignored. Some PowerFood among them applies the effect; otherwise Pacman's power, the ghosts' scared state and the music are unchanged. |
| GameLoop.Game.GhostViews | core/src/main/java/pacman/com/Main.java:253 | One view per ghost: its box and whether it is scared. |
| GameLoop.Game.Poses | core/src/main/java/pacman/com/Main.java:253-257 | There is one pose per ghost. |
| GameLoop.Game.MeetGhost | core/src/main/java/pacman/com/Main.java:253-271 | One loop step: an overlapping scared ghost respawns for 200 points. An overlapping non-scared ghost costs a life unless Pacman is powered up, then setting GAME_OVER or RESPAWNING with the timer at 1.5. Only that ghost changes. |
| GameLoop.Game.CheckGhostCollisions | core/src/main/java/pacman/com/Main.java:245-275 | Outside PLAYING at entry, nothing changes. In PLAYING it is MeetEveryGhost. |
| GameLoop.Game.MeetEveryGhost | core/src/main/java/pacman/com/Main.java:250-272 | 200 points per eaten ghost, one life per catch while Pacman is not powered up, the state and timer set by the lives left, and exactly the eaten ghosts respawned. |
| GameLoop.Game.PlaceRow | core/src/main/java/pacman/com/Main.java:327-333 | One pass of the inner loop adds the dots of one row, left to right. |
| GameLoop.Game.PlaceDot | core/src/main/java/pacman/com/Main.java:328-332 | Adds the tile's dot exactly when its centre is neither in a wall nor near a spawn position. |
| GameLoop.Game.InitializeDots | core/src/main/java/pacman/com/Main.java:323-335 | The dots become the board's dot layout. Together with DotsOnOpenTiles: a dot on every open, non-spawn tile centre and nowhere else. |
| GameLoop.Game.TryDraw | core/src/main/java/pacman/com/Main.java:354-360 | One do-while pass gives the item's corner for the drawn tile, and whether its box meets a wall or its centre is near a spawn position. |
| GameLoop.Game.SpawnRandomPowerUp | core/src/main/java/pacman/com/Main.java:346-368 | Adds at most one item. None is added when 5 or more are active, or when none of the first 99 draws is free. Otherwise one fresh, active item with its full lifetime is appended at the first free draw, of the kind the draw selects, with the old items untouched. That outcome is the spawn SpawnOutcome describes. |
| GameLoop.Game.ResetPositionsAfterDeath | core/src/main/java/pacman/com/Main.java:277-283 | Pacman is back at his start, not powered up, with time 0 and facing right. Every ghost is respawned. |
| GameLoop.Game.StepGhost | core/src/main/java/pacman/com/Main.java:207 | One ghost's update advances it along its final direction, which is a unit vector whenever the old one was. |
| GameLoop.Game.UpdateGhosts | core/src/main/java/pacman/com/Main.java:207 | Every ghost advances by its own final direction * speed * delta, and every ghost still heads along a unit vector. |
| GameLoop.Game.UpdatePowerUps | core/src/main/java/pacman/com/Main.java:208 | Every item ticks its own lifetime once. |
| GameLoop.Game.PlayingTick | core/src/main/java/pacman/com/Main.java:193-216 | The PLAYING branch keeps the invariant and every unit heading, and adds delta to the game time. The spawn timer counts down and, once it runs out, is redrawn in [8, 15). At most one item is appended. Dots only disappear, the score never falls, and at most one life per ghost is lost. GAME_WON holds exactly when no dot is left. Otherwise the state stays PLAYING exactly when no life was lost, and RESPAWNING comes with the timer at 1.5. |
| GameLoop.Game.Advance | core/src/main/java/pacman/com/Main.java:195-208 | The game time grows by delta. When the spawn timer runs out it is redrawn as 8 + 7 * draw and the item SpawnOutcome describes is appended; otherwise the timer loses delta and no item is added. Every old item then ticks once, and a new one ticks from its full lifetime. Pacman moves by the held keys, takes the last key's facing and ticks his power-up. Every ghost advances along its final direction, which stays a unit vector. |
| GameLoop.Game.UpdateEntities | core/src/main/java/pacman/com/Main.java:206-208 | Pacman's update, each ghost's update and each item's tick, in that order: the keys move Pacman and set his facing, his power-up and every item tick once, every ghost advances along its final direction, and every ghost still heads along a unit vector. |
| GameLoop.Game.RunClocks | core/src/main/java/pacman/com/Main.java:195-204 | The game time grows by delta. When the spawn timer runs out, the timer becomes 8 + 7 * draw, in [8, 15), and the items become the old ones plus the spawn SpawnOutcome describes: nothing at the cap of 5 active items or with no free draw, otherwise an active item at its full lifetime, of the drawn kind, at the first free draw. Otherwise the timer loses delta and the items are untouched. |
| GameLoop.Game.ResolveCollisions | core/src/main/java/pacman/com/Main.java:210-216 | The dot, item and ghost checks and then the win test, with the bounds stated for PlayingTick. |
| GameLoop.Game.EatPass | core/src/main/java/pacman/com/Main.java:210-211 | Dots only disappear, and the score never falls. |
| GameLoop.Game.GhostPass | core/src/main/java/pacman/com/Main.java:212-216 | GAME_WON holds exactly when no dot is left. Otherwise a changed state means a lost life. |
| GameLoop.Game.RespawningTick | core/src/main/java/pacman/com/Main.java:218-225 | The timer loses delta. Once it is at or below zero, play resumes with Pacman back at his start, unpowered, with time 0 and facing right, and every ghost at its start, unscared, heading (0, -1) with the normal sprite. Before that, Pacman's position, power, time and sprite and every ghost's pose stay as they were. |
| GameLoop.Game.CountDownPowerUpTime | core/src/main/java/pacman/com/Main.java:228-241 | A running power-up time loses delta. When it runs out with the scared music on, the music stops and every ghost is un-scared with the normal sprite. Otherwise the ghosts' scared state is unchanged. |
| GameLoop.Game.Update | core/src/main/java/pacman/com/Main.java:185-243 | Called outside MENU, as render does. The invariant (a live round has lives, GAME_OVER has none, GAME_WON has no dot) is kept, and every ghost still heads along a unit vector. Score never falls, and lives and dots never grow. GAME_OVER and GAME_WON leave the state, score, lives, dots, items and Pacman where they were. RESPAWNING stays RESPAWNING or returns to PLAYING without losing a life. |

## Left out

- Rendering and resource lifetimes are not modelled: textures, SpriteBatch, font, camera, viewport, every `render` and `dispose`, and `create`, `resize`, `renderMenu` and `disposeCurrentGameAssets`. Sprites are kept only as a datatype naming the texture in use.
- Audio is not modelled. The background music and the death sound produce no state the game logic reads. The scared music is a boolean flag that stands for `musicScared != null`.
- `restartGame` and the R key are left out of `GameLoop.Game.Update`, because restarting only re-runs construction. ENTER in the menu is modelled separately, as `GameLoop.Game.PressEnter`.
- `Main.create` is not modelled. It builds a maze that `startGame` immediately replaces; the model's constructor starts from `startGame`.
- `Pacman.die`, `Pacman.respawn`, `Pacman.getCenter` and the two-argument `Pacman` constructor are not defined in the Pacman class. The model has no `die`. `respawn` resets only the position, and nothing more is promised. The centre is position + size / 2. The one-argument constructor is used.
- The no-argument `Maze` constructor that `Main` calls does not exist. The model uses the two-argument one, whose arguments are ignored anyway.
- Aliasing of `Vector2` objects is not modelled. `Entity` keeps the very vector it is given, but vectors here are values, and every caller in `Main` passes a fresh one.
- Floating point is not modelled. Coordinates are exact reals, with no IEEE rounding. Distances are compared squared instead of through `sqrt`. `Vector2.equals` compares bit patterns, so it tells 0.0 from -0.0, and here it is mathematical equality. That changes what the model says about the running program. Negating a unit direction at Ghost.java:130 turns its 0.0 component into -0.0, so `dir.equals(oppositeDirection)` at Ghost.java:133 is false for every candidate, and the program never skips the reverse. `DirectionEngine.NoNeedlessReversal` and `DirectionEngine.ValidDirectionsCharacterised` describe the comparison the code evidently intends, not the bit-level one.
- libGDX `Rectangle.overlaps` and `Rectangle.contains` are not part of this model. Both are assumed strict on every edge, as `Entity.collidesWith` is.
- Keyboard input, `Gdx.graphics.getDeltaTime()` inside `isAtTileCenter`, and `java.util.Random` are parameters: booleans, a delta, and caller-supplied indices and draws. Spawn draws are tiles that the caller is trusted to keep inside the 18 x 19 grid.
- Debug printing in `Ghost.update` is left out.
- `MainMenuScreen` and `MyGdxGame` are screen wiring with no game logic.
- `Entity.getPosition` and `Entity.getSize` are not separate members. The model reads the `position` and `size` fields directly.
- `GameLoop.Game.Update` takes a state other than MENU, because `render` returns before calling `update` in MENU (Main.java:137-145).
- `GameLoop.Game.PlayingTick`, `GameLoop.Game.ResolveCollisions`, `GameLoop.Game.EatPass`, `GameLoop.Game.GhostPass` and `GameLoop.Game.Update`: these summarise their steps with bounds and state facts rather than the full new state. The exact per-step effects are stated by the members they call.
- `GameLoop.Game.UpdateGhosts` and `GameLoop.Game.StepGhost` state only where each ghost ends up. The full per-ghost effect is in `Ghosts.Ghost.Update`.
- `Players.Pacman.Respawn` states only the position reset, because the source does not define the method.
