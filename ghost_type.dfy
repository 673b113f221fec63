/** The four ghost personalities and their per-type constants. */
module GhostTypes {

  datatype GhostType = Red | Pink | Blue | Orange

  /** The enum's constructor argument. */
  function SpeedMultiplier(t: GhostType): (m: real)
    ensures m == 0.5 <==> t == Red || t == Blue
    ensures m == 1.0 <==> t == Pink || t == Orange
  {
    match t
    case Red => 0.5
    case Pink => 1.0
    case Blue => 0.5
    case Orange => 1.0
  }

  /** getBaseSpeed: 100 world units per second scaled by the multiplier. */
  function BaseSpeed(t: GhostType): (s: real)
    ensures s == 100.0 * SpeedMultiplier(t)
  {
    100.0 * SpeedMultiplier(t)
  }

  /** The speed table the multipliers give: 50, 100, 50, 100, all positive. */
  lemma BaseSpeedTable(t: GhostType)
    ensures BaseSpeed(t) == (if t == Red || t == Blue then 50.0 else 100.0)
    ensures BaseSpeed(t) > 0.0
  {
  }

  /** getTexturePath: the sprite that identifies the type. */
  function TexturePath(t: GhostType): (p: string)
    ensures |p| > 0
  {
    match t
    case Red => "redGhost.png"
    case Pink => "pinkGhost.png"
    case Blue => "blueGhost.png"
    case Orange => "orangeGhost.png"
  }

  /** Different types are drawn with different sprites. */
  lemma TexturePathInjective(a: GhostType, b: GhostType)
    ensures TexturePath(a) == TexturePath(b) ==> a == b
  {
    if a != b {
      match a
      case Red => assert TexturePath(a)[0] == 'r';
      case Pink => assert TexturePath(a)[0] == 'p';
      case Blue => assert TexturePath(a)[0] == 'b';
      case Orange => assert TexturePath(a)[0] == 'o';
    }
  }

  /** getDetectionRange, in tiles: how close Pacman must be before the ghost chases. */
  function DetectionTiles(t: GhostType): (n: real)
    ensures n >= 5.0
  {
    match t
    case Red => 8.0
    case Pink => 6.0
    case Blue => 7.0
    case Orange => 5.0
  }
}
