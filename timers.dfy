/** The count-down shared by Pacman's power-up, a power-up item's lifetime and a
    ghost's scared spell: while running, each tick subtracts the elapsed time and
    the count-down stops once the remainder is no longer positive. */
module Timers {

  datatype Countdown = Countdown(running: bool, remaining: real)

  /** One tick of delta seconds. A stopped count-down is left exactly as it is. */
  function Tick(c: Countdown, delta: real): (r: Countdown)
    ensures !c.running ==> r == c
    ensures c.running ==> r.remaining == c.remaining - delta
    ensures c.running ==> (r.running <==> r.remaining > 0.0)
  {
    if c.running then Countdown(c.remaining - delta > 0.0, c.remaining - delta) else c
  }

  /** n ticks of the same length. */
  function Ticks(c: Countdown, delta: real, n: nat): Countdown {
    if n == 0 then c else Tick(Ticks(c, delta, n - 1), delta)
  }

  /** Started at t and ticked n times by a positive delta, the count-down is still
      running iff n ticks have not used up t; so it stops exactly once, at the first
      tick that brings the remainder to zero or below, and never before. */
  lemma {:induction false} TicksStopOnce(t: real, delta: real, n: nat)
    requires t > 0.0 && delta > 0.0
    ensures Ticks(Countdown(true, t), delta, n).running <==> t - n as real * delta > 0.0
    ensures Ticks(Countdown(true, t), delta, n).running ==>
      Ticks(Countdown(true, t), delta, n).remaining == t - n as real * delta
  {
    if n > 0 {
      TicksStopOnce(t, delta, n - 1);
      assert t - n as real * delta == t - (n - 1) as real * delta - delta;
    }
  }

  /** Once stopped, further ticks change nothing. */
  lemma {:induction false} StoppedStaysStopped(c: Countdown, delta: real, n: nat)
    requires !c.running
    ensures Ticks(c, delta, n) == c
  {
    if n > 0 {
      StoppedStaysStopped(c, delta, n - 1);
    }
  }

  /** The scenario of an 8 second spell ticked every 0.1 s: still running after 79
      ticks, stopped at the 80th (8.0 s elapsed) and still stopped at the 81st. */
  lemma EightSecondSpell()
    ensures Ticks(Countdown(true, 8.0), 0.1, 79).running
    ensures !Ticks(Countdown(true, 8.0), 0.1, 80).running
    ensures !Ticks(Countdown(true, 8.0), 0.1, 81).running
  {
    TicksStopOnce(8.0, 0.1, 79);
    TicksStopOnce(8.0, 0.1, 80);
    TicksStopOnce(8.0, 0.1, 81);
  }
}
