/** struct timeval and tv_sub of tool.cpp. */
module Timeval {

  datatype Time = Time(sec: int, usec: int) {
    predicate Normalised() { 0 <= usec < 1_000_000 }

    function Micros(): int { 1_000_000 * sec + usec }
  }

  /** A timeval that tv_sub overwrites. */
  class Clock {
    var sec: int
    var usec: int

    constructor (t: Time)
      ensures Value() == t
    {
      sec, usec := t.sec, t.usec;
    }

    function Value(): Time
      reads this
    {
      Time(sec, usec)
    }
  }

  function Minus(a: Time, b: Time): Time {
    if a.usec - b.usec < 0 then Time(a.sec - 1 - b.sec, a.usec - b.usec + 1_000_000)
    else Time(a.sec - b.sec, a.usec - b.usec)
  }

  /** One borrow suffices: the difference is exact, and normalised when both operands are. */
  lemma MinusIsExact(a: Time, b: Time)
    ensures Minus(a, b).Micros() == a.Micros() - b.Micros()
    ensures a.Normalised() && b.Normalised() ==> Minus(a, b).Normalised()
  {
  }

  /** out := out - in, in place; the arguments may be the same object. */
  method TvSub(out: Clock, in_: Clock)
    modifies out
    ensures out.Value() == Minus(old(out.Value()), old(in_.Value()))
    ensures out.Value().Micros() == old(out.Value().Micros()) - old(in_.Value().Micros())
  {
    MinusIsExact(out.Value(), in_.Value());
    out.usec := out.usec - in_.usec;
    if out.usec < 0 {
      out.sec := out.sec - 1;
      out.usec := out.usec + 1_000_000;
    }
    out.sec := out.sec - in_.sec;
  }
}
