/** The statistics of a PING round, in real arithmetic. */
module PingStats {

  function Sum(rs: seq<real>): real {
    if rs == [] then 0.0 else rs[0] + Sum(rs[1..])
  }

  function Square(x: real): real {
    x * x
  }

  function SumOfSquares(rs: seq<real>): real {
    if rs == [] then 0.0 else Square(rs[0]) + SumOfSquares(rs[1..])
  }

  /** The squared distances from a, summed. */
  function Deviation(rs: seq<real>, a: real): real {
    if rs == [] then 0.0 else Square(rs[0] - a) + Deviation(rs[1..], a)
  }

  function Mean(rs: seq<real>): real
    requires rs != []
  {
    Sum(rs) / |rs| as real
  }

  predicate IsMin(m: real, rs: seq<real>) {
    (exists i :: 0 <= i < |rs| && rs[i] == m) && forall i :: 0 <= i < |rs| ==> m <= rs[i]
  }

  predicate IsMax(m: real, rs: seq<real>) {
    (exists i :: 0 <= i < |rs| && rs[i] == m) && forall i :: 0 <= i < |rs| ==> rs[i] <= m
  }

  /** rtt_mdev is the square root of variance. */
  datatype Stats = Stats(min: real, avg: real, max: real, variance: real)

  ghost predicate StatsOf(s: Stats, rs: seq<real>)
    requires rs != []
  {
    IsMin(s.min, rs) && IsMax(s.max, rs) && s.avg == Mean(rs) && s.variance == Deviation(rs, s.avg) / |rs| as real
  }

  /** They are determined by the list. */
  lemma StatsAreUnique(s: Stats, t: Stats, rs: seq<real>)
    requires rs != [] && StatsOf(s, rs) && StatsOf(t, rs)
    ensures s == t
  {
  }

  function Min(rs: seq<real>): (m: real)
    requires rs != []
    ensures IsMin(m, rs)
  {
    if |rs| == 1 then rs[0]
    else
      var m := Min(rs[1..]);
      if m < rs[0] then m else rs[0]
  }

  function Max(rs: seq<real>): (m: real)
    requires rs != []
    ensures IsMax(m, rs)
  {
    if |rs| == 1 then rs[0]
    else
      var m := Max(rs[1..]);
      if m > rs[0] then m else rs[0]
  }

  function StatsFor(rs: seq<real>): (s: Stats)
    requires rs != []
    ensures StatsOf(s, rs)
  {
    Stats(Min(rs), Mean(rs), Max(rs), Deviation(rs, Mean(rs)) / |rs| as real)
  }

  lemma {:induction false} SumAppend(rs: seq<real>, x: real)
    ensures Sum(rs + [x]) == Sum(rs) + x
  {
    if rs == [] {
      assert rs + [x] == [x];
    } else {
      assert (rs + [x])[1..] == rs[1..] + [x];
      SumAppend(rs[1..], x);
    }
  }

  lemma {:induction false} DeviationAppend(rs: seq<real>, x: real, a: real)
    ensures Deviation(rs + [x], a) == Deviation(rs, a) + Square(x - a)
  {
    if rs == [] {
      assert rs + [x] == [x];
    } else {
      assert (rs + [x])[1..] == rs[1..] + [x];
      DeviationAppend(rs[1..], x, a);
    }
  }

  /** The two loops of finish; the accumulator of the second is meant to start at zero. */
  method Summarise(rtts: seq<real>) returns (s: Stats)
    requires rtts != []
    ensures StatsOf(s, rtts)
  {
    var n := |rtts|;
    var rttMin, rttMax, rttSum := 0.0, 0.0, 0.0;
    var it := 0;
    while it < n
      invariant 0 <= it <= n
      invariant rttSum == Sum(rtts[..it])
      invariant it > 0 ==> IsMin(rttMin, rtts[..it]) && IsMax(rttMax, rtts[..it])
    {
      ghost var seen := rtts[..it];
      var rtt := rtts[it];
      SumAppend(seen, rtt);
      Extend(seen, rttMin, rttMax, rtt);
      if it == 0 {
        rttMin, rttMax, rttSum := rtt, rtt, rtt;
      } else {
        if rtt < rttMin { rttMin := rtt; }
        if rtt > rttMax { rttMax := rtt; }
        rttSum := rttSum + rtt;
      }
      it := it + 1;
      assert rtts[..it] == seen + [rtt];
    }
    assert rtts[..n] == rtts;
    var rttAvg := rttSum / n as real;
    var accum := Accumulate(rtts, rttAvg);
    s := Stats(rttMin, rttAvg, rttMax, accum / n as real);
  }

  lemma Extend(seen: seq<real>, lo: real, hi: real, x: real)
    requires seen != [] ==> IsMin(lo, seen) && IsMax(hi, seen)
    ensures var all := seen + [x];
      if seen == [] then IsMin(x, all) && IsMax(x, all)
      else IsMin(if x < lo then x else lo, all) && IsMax(if x > hi then x else hi, all)
  {
    var all := seen + [x];
    assert all[|seen|] == x;
    if seen != [] {
      var i :| 0 <= i < |seen| && seen[i] == lo;
      var j :| 0 <= j < |seen| && seen[j] == hi;
      assert all[i] == lo && all[j] == hi;
    }
  }

  method Accumulate(rtts: seq<real>, avg: real) returns (accum: real)
    ensures accum == Deviation(rtts, avg)
  {
    accum := 0.0;
    var it := 0;
    while it < |rtts|
      invariant 0 <= it <= |rtts| && accum == Deviation(rtts[..it], avg)
    {
      DeviationAppend(rtts[..it], rtts[it], avg);
      assert rtts[..it + 1] == rtts[..it] + [rtts[it]];
      accum := accum + (rtts[it] - avg) * (rtts[it] - avg);
      it := it + 1;
    }
    assert rtts[..it] == rtts;
  }

  // ---- Products, kept apart from the proofs that use them ----

  function Times(x: real, y: real): real {
    x * y
  }

  lemma TimesAdds(a: real, x: real, y: real)
    ensures Times(a, x + y) == Times(a, x) + Times(a, y)
    ensures Times(x + y, a) == Times(x, a) + Times(y, a)
    ensures Times(1.0, a) == a && Times(0.0, a) == 0.0 && Times(a, 0.0) == 0.0
  {
  }

  lemma TimesSign(x: real, y: real)
    ensures x >= 0.0 && y >= 0.0 ==> Times(x, y) >= 0.0
    ensures x > 0.0 && y > 0.0 ==> Times(x, y) > 0.0
  {
  }

  lemma SquareOfDifference(x: real, a: real)
    ensures Square(x - a) == Square(x) - 2.0 * Times(a, x) + Square(a)
    ensures Square(x - a) >= 0.0
  {
    assert (x - a) * (x - a) == x * x - 2.0 * (a * x) + a * a;
    SquareNonNegative(x - a);
  }

  lemma SquareNonNegative(x: real)
    ensures Square(x) >= 0.0
  {
    if x >= 0.0 {
      TimesSign(x, x);
    } else {
      TimesSign(-x, -x);
      assert Times(-x, -x) == Square(x);
    }
  }

  lemma Cancel(n: real, a: real, b: real)
    requires n > 0.0 && Times(n, a) <= Times(n, b)
    ensures a <= b
  {
    TimesSign(n, a - b);
    TimesAdds(n, a - b, b);
  }

  lemma MeanTimesCount(rs: seq<real>)
    requires rs != []
    ensures Times(|rs| as real, Mean(rs)) == Sum(rs)
  {
    Divided(Sum(rs), |rs| as real);
  }

  lemma Divided(x: real, n: real)
    requires n > 0.0
    ensures Times(n, x / n) == x
  {
  }

  // ---- What the numbers mean ----

  lemma {:induction false} SumBounds(rs: seq<real>, lo: real, hi: real)
    requires forall i :: 0 <= i < |rs| ==> lo <= rs[i] <= hi
    ensures Times(|rs| as real, lo) <= Sum(rs) <= Times(|rs| as real, hi)
  {
    hide Times;
    TimesAdds(lo, 0.0, 0.0);
    TimesAdds(hi, 0.0, 0.0);
    if rs != [] {
      SumBounds(rs[1..], lo, hi);
      assert |rs| as real == |rs[1..]| as real + 1.0;
      TimesAdds(lo, |rs[1..]| as real, 1.0);
      TimesAdds(hi, |rs[1..]| as real, 1.0);
    }
  }

  /** The smallest, the average and the largest round-trip time are in order. */
  lemma MinMeanMax(s: Stats, rs: seq<real>)
    requires rs != [] && StatsOf(s, rs)
    ensures s.min <= s.avg <= s.max
  {
    hide Times, Mean, Deviation;
    SumBounds(rs, s.min, s.max);
    MeanTimesCount(rs);
    Cancel(|rs| as real, s.min, s.avg);
    Cancel(|rs| as real, s.avg, s.max);
  }

  lemma {:induction false} DeviationExpands(rs: seq<real>, a: real)
    ensures Deviation(rs, a) == SumOfSquares(rs) - 2.0 * Times(a, Sum(rs)) + Times(|rs| as real, Square(a))
  {
    hide Times, Square;
    TimesAdds(a, 0.0, 0.0);
    TimesAdds(Square(a), 0.0, 0.0);
    if rs != [] {
      DeviationExpands(rs[1..], a);
      assert |rs| as real == |rs[1..]| as real + 1.0;
      SquareOfDifference(rs[0], a);
      TimesAdds(a, rs[0], Sum(rs[1..]));
      TimesAdds(Square(a), |rs[1..]| as real, 1.0);
    }
  }

  /** The two-pass variance is the mean of the squares minus the square of the mean. */
  lemma VarianceIdentity(s: Stats, rs: seq<real>)
    requires rs != [] && StatsOf(s, rs)
    ensures s.variance == SumOfSquares(rs) / |rs| as real - Square(s.avg)
  {
    var n := |rs| as real;
    DeviationExpands(rs, s.avg);
    MeanTimesCount(rs);
    MeanOfDeviation(SumOfSquares(rs), s.avg, Sum(rs), n);
  }

  lemma MeanOfDeviation(q: real, a: real, sum: real, n: real)
    requires n > 0.0 && Times(n, a) == sum
    ensures (q - 2.0 * Times(a, sum) + Times(n, Square(a))) / n == q / n - Square(a)
  {
    Reassociate(n, a);
    assert (q - n * (a * a)) / n == q / n - a * a;
  }

  lemma Reassociate(n: real, a: real)
    ensures Times(a, Times(n, a)) == Times(n, Square(a))
  {
    assert a * (n * a) == n * (a * a);
  }

  lemma {:induction false} DeviationNonNegative(rs: seq<real>, a: real)
    ensures Deviation(rs, a) >= 0.0
  {
    if rs != [] {
      SquareNonNegative(rs[0] - a);
      DeviationNonNegative(rs[1..], a);
    }
  }

  lemma Between(x: real, lo: real, hi: real)
    requires lo <= x <= hi
    ensures Square(x) <= Times(lo + hi, x) - Times(lo, hi)
  {
    TimesSign(hi - x, x - lo);
    Factors(x, lo, hi);
  }

  lemma Factors(x: real, lo: real, hi: real)
    ensures Times(hi - x, x - lo) == Times(lo + hi, x) - Times(lo, hi) - Square(x)
  {
    assert (hi - x) * (x - lo) == (lo + hi) * x - lo * hi - x * x;
  }

  lemma {:induction false} SquaresBound(rs: seq<real>, lo: real, hi: real)
    requires forall i :: 0 <= i < |rs| ==> lo <= rs[i] <= hi
    ensures SumOfSquares(rs) <= Times(lo + hi, Sum(rs)) - Times(|rs| as real, Times(lo, hi))
  {
    hide Times, Square;
    TimesAdds(lo + hi, 0.0, 0.0);
    TimesAdds(Times(lo, hi), 0.0, 0.0);
    if rs != [] {
      SquaresBound(rs[1..], lo, hi);
      assert |rs| as real == |rs[1..]| as real + 1.0;
      Between(rs[0], lo, hi);
      TimesAdds(lo + hi, rs[0], Sum(rs[1..]));
      TimesAdds(Times(lo, hi), |rs[1..]| as real, 1.0);
    }
  }

  /** The spread is bounded by the extremes: the bounds of Bhatia and Davis, and of Popoviciu. */
  lemma VarianceBounds(s: Stats, rs: seq<real>)
    requires rs != [] && StatsOf(s, rs)
    ensures 0.0 <= s.variance <= Times(s.max - s.avg, s.avg - s.min) <= Square(s.max - s.min) / 4.0
  {
    var n := |rs| as real;
    VarianceNonNegative(s, rs);
    hide Times, Square, Mean, Deviation, Sum, SumOfSquares;
    VarianceIdentity(s, rs);
    SquaresBound(rs, s.min, s.max);
    MeanTimesCount(rs);
    MeanOfSquares(SumOfSquares(rs), s.avg, s.min, s.max, n);
    Complete(s.avg, s.min, s.max);
  }

  lemma VarianceNonNegative(s: Stats, rs: seq<real>)
    requires rs != [] && StatsOf(s, rs)
    ensures s.variance >= 0.0
  {
    hide Square, Deviation, Mean;
    DeviationNonNegative(rs, s.avg);
    NonNegativeQuotient(Deviation(rs, s.avg), |rs| as real);
  }

  lemma NonNegativeQuotient(x: real, n: real)
    requires x >= 0.0 && n > 0.0
    ensures x / n >= 0.0
  {
  }

  lemma MeanOfSquares(q: real, a: real, lo: real, hi: real, n: real)
    requires n > 0.0 && q <= Times(lo + hi, Times(n, a)) - Times(n, Times(lo, hi))
    ensures q / n - Square(a) <= Times(hi - a, a - lo)
  {
    var bound := Times(lo + hi, a) - Times(lo, hi);
    assert (lo + hi) * (n * a) == n * ((lo + hi) * a);
    TimesAdds(n, bound, Times(lo, hi));
    Divided(q, n);
    Cancel(n, q / n, bound);
    Factors(a, lo, hi);
  }

  lemma Complete(a: real, lo: real, hi: real)
    ensures Times(hi - a, a - lo) <= Square(hi - lo) / 4.0
  {
    var m := a - (lo + hi) / 2.0;
    SquareNonNegative(m);
    assert (hi - lo) * (hi - lo) / 4.0 - (hi - a) * (a - lo) == m * m;
  }
}
