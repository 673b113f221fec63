/** Collectable items: an active/expired lifetime plus, per kind (PowerFood,
    Cherry, Cherry2), a fixed lifetime and score value. */
module PowerUps {
  import opened Geometry
  import opened Timers

  datatype Kind = PowerFood | Cherry | Cherry2

  /** The lifetime each subclass passes to the PowerUp constructor, in seconds. */
  function Duration(k: Kind): (d: real)
    ensures d > 0.0
  {
    match k
    case PowerFood => 10.0
    case Cherry => 20.0
    case Cherry2 => 8.0
  }

  /** getScoreValue of each subclass. */
  function ScoreValue(k: Kind): (v: int)
    ensures v > 0
  {
    match k
    case PowerFood => 50
    case Cherry => 100
    case Cherry2 => 300
  }

  /** The kind spawnRandomPowerUp creates for a uniform draw in [0, 1). */
  function KindForDraw(draw: real): Kind {
    if draw < 0.35 then Cherry else if draw < 0.60 then Cherry2 else PowerFood
  }

  /** The draw thresholds: Cherry below 0.35, Cherry2 from 0.35 below 0.60, PowerFood from 0.60. */
  lemma KindForDrawRanges(draw: real)
    ensures KindForDraw(draw) == Cherry <==> draw < 0.35
    ensures KindForDraw(draw) == Cherry2 <==> 0.35 <= draw < 0.60
    ensures KindForDraw(draw) == PowerFood <==> draw >= 0.60
  {
  }

  const PowerUpSize: Vec := Vec(20.0, 20.0)

  class PowerUp {
    const kind: Kind
    const position: Vec
    const size: Vec
    var duration: real
    var remainingTime: real
    var active: bool

    /** new PowerFood / Cherry / Cherry2 at the given position. */
    constructor (position: Vec, kind: Kind)
      ensures this.kind == kind && this.position == position && size == PowerUpSize
      ensures duration == Duration(kind) && remainingTime == duration && active
    {
      this.kind := kind;
      this.position := position;
      size := Vec(20.0, 20.0);
      duration := Duration(kind);
      remainingTime := Duration(kind);
      active := true;
    }

    /** The lifetime count-down; an expired item is left as it is. */
    method Update(delta: real)
      modifies this`remainingTime, this`active
      ensures Countdown(active, remainingTime) == Tick(old(Countdown(active, remainingTime)), delta)
      ensures !old(active) ==> !active && remainingTime == old(remainingTime)
    {
      if active {
        remainingTime := remainingTime - delta;
        if remainingTime <= 0.0 {
          active := false;
        }
      }
    }

    function IsActive(): (a: bool)
      reads this
      ensures a == active
    {
      active
    }

    /** Collecting expires the item; collecting it again changes nothing. */
    method Collect()
      modifies this`active
      ensures !active
    {
      active := false;
    }

    function GetScoreValue(): (v: int)
      ensures v == ScoreValue(kind)
    {
      ScoreValue(kind)
    }

    function Bounds(): Box {
      BoxAt(position, size)
    }
  }
}
