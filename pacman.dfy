/** Pacman: keyboard-driven free movement (the maze is never consulted) and the
    power-up count-down. The four arrow keys arrive as booleans. */
module Players {
  import opened Geometry
  import opened Timers

  /** The texture Pacman is drawn with: one per facing, and the dark one while powered up. */
  datatype Sprite = FacingLeft | FacingRight | FacingUp | FacingDown | Darkened

  const PacmanSize: Vec := Vec(30.0, 30.0)
  const PacmanSpeed: real := 150.0

  /** Where the held keys take a position in one step of length step = speed * delta:
      LEFT and RIGHT act on x, UP and DOWN on y. */
  function KeyStep(p: Vec, step: real, left: bool, right: bool, up: bool, down: bool): Vec {
    Vec(p.x + (if right then step else 0.0) - (if left then step else 0.0),
        p.y + (if up then step else 0.0) - (if down then step else 0.0))
  }

  /** The facing set by the last held key in the order LEFT, RIGHT, UP, DOWN. */
  function LastFacing(s: Sprite, left: bool, right: bool, up: bool, down: bool): Sprite {
    if down then FacingDown
    else if up then FacingUp
    else if right then FacingRight
    else if left then FacingLeft
    else s
  }

  /** Opposite keys cancel, a lone key moves the full step the way it points, and
      keys of one axis never move the other. */
  lemma KeyStepMoves(p: Vec, step: real, left: bool, right: bool, up: bool, down: bool)
    ensures left == right ==> KeyStep(p, step, left, right, up, down).x == p.x
    ensures up == down ==> KeyStep(p, step, left, right, up, down).y == p.y
    ensures left && !right ==> KeyStep(p, step, left, right, up, down).x == p.x - step
    ensures right && !left ==> KeyStep(p, step, left, right, up, down).x == p.x + step
    ensures up && !down ==> KeyStep(p, step, left, right, up, down).y == p.y + step
    ensures down && !up ==> KeyStep(p, step, left, right, up, down).y == p.y - step
  {
  }

  /** With no key held the facing is kept; otherwise the last held key decides. */
  lemma LastFacingRule(s: Sprite, left: bool, right: bool, up: bool, down: bool)
    ensures !left && !right && !up && !down ==> LastFacing(s, left, right, up, down) == s
    ensures down ==> LastFacing(s, left, right, up, down) == FacingDown
    ensures left && !right && !up && !down ==> LastFacing(s, left, right, up, down) == FacingLeft
  {
  }

  class Pacman {
    var position: Vec
    const size: Vec
    var sprite: Sprite
    var speed: real
    var poweredUp: bool
    var powerUpTime: real
    /** Where respawn puts Pacman back: the position it was created with. */
    const startPosition: Vec

    constructor (startPosition: Vec)
      ensures position == startPosition && this.startPosition == startPosition
      ensures size == PacmanSize && sprite == FacingRight && speed == PacmanSpeed
      ensures !poweredUp && powerUpTime == 0.0
    {
      position := startPosition;
      this.startPosition := startPosition;
      size := Vec(30.0, 30.0);
      sprite := FacingRight;
      speed := 150.0;
      poweredUp := false;
      powerUpTime := 0.0;
    }

    /** The centre of Pacman's box, computed as for a ghost (an assumption: the
        method is called by Ghost but not defined by Pacman). */
    function GetCenter(): Vec
      reads this
    {
      CenterOf(position, size)
    }

    function Bounds(): Box
      reads this
    {
      BoxAt(position, size)
    }

    /** One frame: each held key moves Pacman by speed * delta (no wall check), the
        last held key sets the facing, and a running power-up counts down. */
    method Update(delta: real, left: bool, right: bool, up: bool, down: bool)
      modifies this
      ensures position == KeyStep(old(position), speed * delta, left, right, up, down)
      ensures sprite == LastFacing(old(sprite), left, right, up, down)
      ensures Countdown(poweredUp, powerUpTime) == Tick(old(Countdown(poweredUp, powerUpTime)), delta)
      ensures speed == old(speed)
    {
      var step := speed * delta;
      if left {
        position := position.(x := position.x - step);
        sprite := FacingLeft;
      }
      if right {
        position := position.(x := position.x + step);
        sprite := FacingRight;
      }
      if up {
        position := position.(y := position.y + step);
        sprite := FacingUp;
      }
      if down {
        position := position.(y := position.y - step);
        sprite := FacingDown;
      }
      if poweredUp {
        powerUpTime := powerUpTime - delta;
        if powerUpTime <= 0.0 {
          poweredUp := false;
        }
      }
    }

    /** Sets both fields exactly; switching the power off also resets the facing to right. */
    method SetPoweredUp(powered: bool, duration: real)
      modifies this`poweredUp, this`powerUpTime, this`sprite
      ensures poweredUp == powered && powerUpTime == duration
      ensures sprite == if powered then Darkened else FacingRight
    {
      poweredUp := powered;
      powerUpTime := duration;
      if powered {
        sprite := Darkened;
      } else {
        sprite := FacingRight;
      }
    }

    function IsPoweredUp(): (p: bool)
      reads this
      ensures p == poweredUp
    {
      poweredUp
    }

    /** Puts Pacman back where it started; nothing else is promised. */
    method Respawn()
      modifies this`position
      ensures position == startPosition
    {
      position := startPosition;
    }
  }
}
