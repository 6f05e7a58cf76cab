/** What a PING round reports, and when, in both modes. */
module PingLaws {
  import opened Bytes
  import opened PingWire
  import opened PingStats
  import opened PingRound

  // ---- The reported loss ----

  lemma PercentOfQuotient(n: int, r: int)
    requires n > 0
    ensures 100.0 - r as real * 100.0 / n as real == (100 * (n - r)) as real / n as real
  {
    var y, z := r as real * 100.0 / n as real, (100 * (n - r)) as real / n as real;
    Divided(r as real * 100.0, n as real);
    Divided((100 * (n - r)) as real, n as real);
    TimesAdds(n as real, 100.0 - y, y);
    assert Times(n as real, 100.0) == 100.0 * n as real;
    assert (100 * (n - r)) as real == 100.0 * n as real - r as real * 100.0;
    hide Times;
    Cancel(n as real, z, 100.0 - y);
    Cancel(n as real, 100.0 - y, z);
  }

  lemma NegatedQuotient(a: real, n: real)
    requires n > 0.0
    ensures -((0.0 - a) / n) == a / n
  {
  }

  lemma SignOfQuotient(a: int, n: int)
    requires n > 0
    ensures a as real / n as real >= 0.0 <==> a >= 0
  {
    Divided(a as real, n as real);
    if a >= 0 {
      NonNegativeQuotient(a as real, n as real);
    } else if a as real / n as real >= 0.0 {
      TimesSign(n as real, a as real / n as real);
    }
  }

  /**
   * The loss is the whole percentage of probes not answered; with more replies than probes it is
   * the negated surplus. So it lies in 0..100 iff the surplus is below one percent.
   */
  lemma LossExactly(n: int, r: int)
    requires n > 0 && r >= 0
    ensures Loss(n, r) == if r <= n then 100 * (n - r) / n else -(100 * (r - n) / n)
    ensures 0 <= Loss(n, r) <= 100 <==> 100 * (r - n) < n
  {
    PercentOfQuotient(n, r);
    var a := 100 * (n - r);
    SignOfQuotient(a, n);
    if r <= n {
      FloorOfQuotient(a, n);
      WholePercent(a, n);
    } else {
      NegatedQuotient((-a) as real, n as real);
      assert (-a) as real == 0.0 - a as real;
      NegatedQuotient(a as real, n as real);
      FloorOfQuotient(-a, n);
      SmallQuotient(-a, n);
    }
  }

  lemma WholePercent(a: nat, n: nat)
    requires n > 0 && a <= 100 * n
    ensures 0 <= a / n <= 100
  {
    var d := a / n - 100;
    MultipleBounds(n, d);
    assert n * (a / n) == n * d + 100 * n;
  }

  lemma SmallQuotient(a: nat, n: nat)
    requires n > 0
    ensures a / n == 0 <==> a < n
  {
    if a < n {
      DivisionIsUnique(a, n, 0, a);
    }
  }

  ghost predicate Reachable(r: Round, es: seq<Event>, times: int, timeout: int, interval: int) {
    Exec(Configured(times, timeout, interval), es) == Some(r) && forall i :: 0 <= i < |es| ==> Benign(es[i])
  }

  // ---- What a report is about ----

  /** The round-trip times that event e adds to those waiting for a report. */
  function NewTime(lost: bool, e: Event): seq<real> {
    if e.Read? && e.verdict.Accepted? && !lost then [e.verdict.data.rtt] else []
  }

  /** The round-trip times of the accepted replies handled since the last report, in order. */
  ghost function Waits(r0: Round, es: seq<Event>): seq<real>
    decreases |es|
  {
    if es == [] then []
    else
      var n := |es| - 1;
      match (Exec(r0, es[..n]), Exec(r0, es))
      case (Some(mid), Some(r)) =>
        if |r.reports| > |mid.reports| then [] else Waits(r0, es[..n]) + NewTime(r.lost, es[n])
      case _ => []
  }

  lemma RttsAppend(data: seq<PingData>, d: PingData)
    ensures Rtts(data + [d]) == Rtts(data) + [d.rtt]
  {
  }

  lemma StepWaits(r: Round, e: Event)
    requires Inv(r) && Enabled(r, e) && Benign(e)
    ensures var s := Step(r, e);
      if |s.reports| > |r.reports| then s.data == []
      else Rtts(s.data) == Rtts(r.data) + NewTime(s.lost, e)
  {
    assert Rtts(r.data) + [] == Rtts(r.data);
    if e.Read? && e.verdict.Accepted? {
      RttsAppend(r.data, e.verdict.data);
    }
    hide Rtts, ReportFor;
  }

  lemma {:induction false} DataIsWaiting(r0: Round, es: seq<Event>)
    requires Inv(r0) && r0.data == [] && Exec(r0, es).Some? && forall i :: 0 <= i < |es| ==> Benign(es[i])
    ensures Rtts(Exec(r0, es).value.data) == Waits(r0, es)
    decreases |es|
  {
    if es != [] {
      var n := |es| - 1;
      DataIsWaiting(r0, es[..n]);
      RunInv(r0, es[..n]);
      StepWaits(Exec(r0, es[..n]).value, es[n]);
    }
  }

  ghost predicate IsStatsOf(stats: Option<Stats>, rtts: seq<real>) {
    if rtts == [] then stats == None else stats.Some? && StatsOf(stats.value, rtts)
  }

  lemma ReportedStats(r: Round, e: Event)
    requires Inv(r) && Enabled(r, e) && Benign(e) && |Step(r, e).reports| > |r.reports|
    ensures IsStatsOf(Step(r, e).reports[|r.reports|].stats, Rtts(r.data) + NewTime(false, e))
  {
    var data := if e.Read? && e.verdict.Accepted? then r.data + [e.verdict.data] else r.data;
    assert Rtts(r.data) + [] == Rtts(r.data);
    if e.Read? && e.verdict.Accepted? {
      RttsAppend(r.data, e.verdict.data);
    }
    assert Rtts(data) == Rtts(r.data) + NewTime(false, e);
    assert data == [] <==> Rtts(data) == [];
    hide Rtts, StatsOf, Loss;
    assert Step(r, e).reports[|r.reports|] == ReportFor(Step(r, e).nowtimes, Step(r, e).nowrecvtimes, data);
  }

  /**
   * A report is made only once all configured probes are out, so its loss is always defined; with
   * no events left over from an earlier round it is the whole percentage lost, within 0..100. Its
   * statistics are those of the round-trip times of all replies accepted since the last report.
   */
  lemma ReportIsSound(r: Round, es: seq<Event>, times: int, timeout: int, interval: int, e: Event)
    requires Reachable(r, es, times, timeout, interval) && Enabled(r, e) && Benign(e)
    requires |Step(r, e).reports| > |r.reports|
    ensures var s := Step(r, e);
      var rep := s.reports[|r.reports|];
      && s.reports == r.reports + [rep]
      && rep.transmitted == r.times >= 1 && rep.received == s.nowrecvtimes <= r.times + s.tally.carried
      && rep.loss == Some(Loss(r.times, rep.received))
      && (s.tally.carried == 0 ==>
            rep.loss == Some(100 * (r.times - rep.received) / r.times) && 0 <= rep.loss.value <= 100)
      && IsStatsOf(rep.stats, Waits(Configured(times, timeout, interval), es) + NewTime(false, e))
  {
    ConfiguredInv(times, timeout, interval);
    RunInv(Configured(times, timeout, interval), es);
    BoundKeptExactly(r, e);
    var s := Step(r, e);
    NewReport(r, e);
    LossExactly(r.times, s.nowrecvtimes);
    DataIsWaiting(Configured(times, timeout, interval), es);
    ReportedStats(r, e);
    hide Waits, IsStatsOf, Rtts, Loss;
  }

  lemma NewReport(r: Round, e: Event)
    requires Inv(r) && Enabled(r, e) && Benign(e) && |Step(r, e).reports| > |r.reports|
    ensures var s := Step(r, e);
      && s.nowtimes == r.nowtimes == r.times
      && |s.reports| == |r.reports| + 1 && s.reports[..|r.reports|] == r.reports
      && s.reports[|r.reports|].transmitted == r.times
      && s.reports[|r.reports|].received == s.nowrecvtimes
      && s.reports[|r.reports|].loss == Some(Loss(r.times, s.nowrecvtimes))
  {
    hide Loss, StatsFor;
  }

  /** Two overlapping rounds of one probe each: both probes are out, both replies are awaited. */
  const OVERLAPPING := Round(
    1, 5, -1, 1, 0, 1, PROBE, [], 2, true, false, [], {1, 3}, {0, 2}, 4, [], Tally(0, 0, 0, 1, 0))

  lemma RoundsOverlap()
    ensures Exec(Configured(1, -1, 5), [Run(true), Tick(0, true), Run(true), Tick(2, true)]) == Some(OVERLAPPING)
  {
    var r0 := Configured(1, -1, 5);
    var r1 := r0.(status := INIT, sockfd := 1, servaddr := true, timers := {0}, nextEvent := 1);
    assert Step(r0, Run(true)) == r1;
    var r2 := r1.(nsent := 1, nowtimes := 1, status := PROBE, pending := {1}, nextEvent := 2);
    assert Step(r1, Tick(0, true)) == r2;
    var r3 := r2.(status := INIT, sockfd := 2, nsent := 0, nowtimes := 0, tally := Tally(0, 0, 0, 1, 0),
                  timers := {0, 2}, nextEvent := 3);
    assert Step(r2, Run(true)) == r3;
    assert Step(r3, Tick(2, true)) == OVERLAPPING;
    var r := RunFour(r0, Run(true), Tick(0, true), Run(true), Tick(2, true));
  }

  lemma BothReplies(d: PingData)
    ensures var a, b := Read(1, Rejected, 0, true), Read(3, Accepted(d), 0, true);
      && Enabled(OVERLAPPING, a) && Enabled(Step(OVERLAPPING, a), b)
      && var r := Step(Step(OVERLAPPING, a), b);
         !r.lost && |r.reports| == 1 && r.reports[0].received == 2 && r.reports[0].loss == Some(-100)
  {
    LossExactly(1, 2);
    hide StatsFor, Loss;
    var r5 := Step(OVERLAPPING, Read(1, Rejected, 0, true));
    assert r5.reports == [] && r5.nowrecvtimes == 1 && r5.pending == {3} && r5.nowtimes == 1 && r5.times == 1;
  }

  /**
   * Packets that answer the probe of an interrupted round are counted for the next one: here a
   * foreign packet and a reply make two answers to one probe.
   */
  lemma OverlappingRoundsLoseBelowZero(d: PingData)
    ensures exists es, r :: (Reachable(r, es, 1, -1, 5)
      && !r.lost && |r.reports| == 1 && r.reports[0].received == 2 && r.reports[0].loss == Some(-100))
  {
    RoundsOverlap();
    BothReplies(d);
    hide Exec, Step, Enabled;
    var r0 := Configured(1, -1, 5);
    var a, b := Read(1, Rejected, 0, true), Read(3, Accepted(d), 0, true);
    var es := [Run(true), Tick(0, true), Run(true), Tick(2, true)];
    ExecOne(r0, es, OVERLAPPING, a);
    ExecOne(r0, es + [a], Step(OVERLAPPING, a), b);
    assert Reachable(Step(Step(OVERLAPPING, a), b), es + [a] + [b], 1, -1, 5);
  }

  lemma ExecOne(r0: Round, es: seq<Event>, r: Round, e: Event)
    requires Exec(r0, es) == Some(r) && Enabled(r, e)
    ensures Exec(r0, es + [e]) == Some(Step(r, e))
  {
    assert (es + [e])[..|es|] == es;
  }

  lemma RunTwo(r: Round, a: Event, b: Event) returns (s: Round)
    requires Enabled(r, a) && Enabled(Step(r, a), b)
    ensures s == Step(Step(r, a), b) && Exec(r, [a, b]) == Some(s)
  {
    s := Step(Step(r, a), b);
    ExecOne(r, [], r, a);
    assert [] + [a] == [a] && [a] + [b] == [a, b];
    ExecOne(r, [a], Step(r, a), b);
  }

  lemma RunFour(r: Round, a: Event, b: Event, c: Event, d: Event) returns (s: Round)
    requires Enabled(r, a) && Enabled(Step(r, a), b) && Enabled(Step(Step(r, a), b), c)
    requires Enabled(Step(Step(Step(r, a), b), c), d)
    ensures s == Step(Step(Step(Step(r, a), b), c), d) && Exec(r, [a, b, c, d]) == Some(s)
  {
    var mid := RunTwo(r, a, b);
    s := Step(Step(mid, c), d);
    ExecOne(r, [a, b], mid, c);
    assert [a, b] + [c] == [a, b, c] && [a, b, c] + [d] == [a, b, c, d];
    ExecOne(r, [a, b, c], Step(mid, c), d);
  }

  // ---- When the process is lost ----

  /** No round has started yet, or a report has been made since the last one started. */
  ghost predicate Concluded(r0: Round, es: seq<Event>)
    decreases |es|
  {
    es == [] ||
      var n := |es| - 1;
      match (Exec(r0, es[..n]), Exec(r0, es))
      case (Some(mid), Some(r)) => !es[n].Run? && (|r.reports| > |mid.reports| || Concluded(r0, es[..n]))
      case _ => true
  }

  /** Only read events and timers of a test whose probes are all out outlive the address. */
  predicate Addressed(r: Round) {
    r.servaddr || r.nowtimes >= r.times || (r.pending == {} && r.timers == {})
  }

  lemma StepAddress(r: Round, e: Event)
    requires Inv(r) && Addressed(r) && Enabled(r, e) && Benign(e)
    ensures var s := Step(r, e);
      && Addressed(s)
      && (s.lost <==> e.Read? && !r.servaddr)
      && (s.servaddr <==> e.Run? || (r.servaddr && s.reports == r.reports))
      && (s.reports == r.reports || |s.reports| == |r.reports| + 1)
      && s.sockfd == (if e.Run? then r.sockfd + 1 else r.sockfd)
      && s.closed == (if s.reports == r.reports then r.closed else r.closed + [r.sockfd])
  {
    hide ReportFor;
  }

  lemma {:induction false} AddressGone(r: Round, es: seq<Event>, times: int, timeout: int, interval: int)
    requires Reachable(r, es, times, timeout, interval)
    ensures Inv(r) && Addressed(r) && (r.servaddr <==> !Concluded(Configured(times, timeout, interval), es))
    decreases |es|
  {
    var r0 := Configured(times, timeout, interval);
    ConfiguredInv(times, timeout, interval);
    RunInv(r0, es);
    if es != [] {
      var n := |es| - 1;
      var mid := Exec(r0, es[..n]).value;
      AddressGone(mid, es[..n], times, timeout, interval);
      StepAddress(mid, es[n]);
      hide Step, Inv, Addressed, Enabled;
    }
  }

  /**
   * In every reachable state, overlapping rounds included: a step loses the process iff it handles
   * a read event after the latest round has reported, when the address is gone.
   */
  lemma LostExactly(r: Round, es: seq<Event>, times: int, timeout: int, interval: int, e: Event)
    requires Reachable(r, es, times, timeout, interval) && Enabled(r, e) && Benign(e)
    ensures Step(r, e).lost <==> e.Read? && Concluded(Configured(times, timeout, interval), es)
  {
    AddressGone(r, es, times, timeout, interval);
    StepAddress(r, e);
  }

  // ---- Chained mode ----

  /** Probes still to send count double, events still pending once. */
  function Remaining(r: Round): int {
    2 * (r.times - r.nowtimes) + |r.pending|
  }

  /** Without a new round every callback of a chained test uses up some of what remains. */
  lemma CallbacksTerminate(r: Round, e: Event)
    requires Inv(r) && r.interval <= 0 && Enabled(r, e) && Benign(e) && (e.Timeout? || e.Read?)
    ensures 0 <= Remaining(Step(r, e)) < Remaining(r)
  {
    BoundKeptExactly(r, e);
    StepCounts(r, e);
  }

  /** A read event that lets a chained round go on: a timeout or an accepted reply. */
  predicate Good(e: Event) {
    e.Timeout? || (e.Read? && e.verdict.Accepted?)
  }

  predicate SendsNext(e: Event) {
    match e
    case Run(sent) => sent
    case Tick(_, sent) => sent
    case Timeout(_, sent) => sent
    case Read(_, _, _, sent) => sent
  }

  /** Nothing went wrong: every send worked and no reply was rejected. */
  ghost predicate Flawless(times: int, sent: bool, es: seq<Event>) {
    sent && forall i :: 0 <= i < |es| ==> Good(es[i]) && (i + 1 < times ==> SendsNext(es[i]))
  }

  ghost predicate FreshRound(r: Round) {
    Inv(r) && r.pending == {} && r.timers == {} && !r.lost
  }

  /** The events of one round: its callbacks, but no further start. */
  ghost predicate Callbacks(es: seq<Event>) {
    forall i :: 0 <= i < |es| ==> !es[i].Run? && Benign(es[i])
  }

  lemma {:induction false} ChainedState(r: Round, sent: bool, es: seq<Event>)
    requires FreshRound(r) && r.interval <= 0 && Callbacks(es) && Exec(Started(r, sent), es).Some?
    ensures var s := Exec(Started(r, sent), es).value;
      && |es| <= r.times && s.times == r.times && s.interval <= 0 && s.timers == {} && !s.lost
      && s.sockfd == r.sockfd + 1
      && s.closed == (if |s.reports| == |r.reports| then r.closed else r.closed + [r.sockfd + 1])
      && if !Flawless(r.times, sent, es) then s.pending == {} && s.reports == r.reports
         else if |es| < r.times then
           (exists ev :: s.pending == {ev}) && s.nowtimes == |es| + 1 && s.reports == r.reports && s.servaddr
         else s.pending == {} && s.nowtimes == r.times && |s.reports| == |r.reports| + 1
    decreases |es|
  {
    if es == [] {
      assert sent ==> Started(r, sent).pending == {r.nextEvent};
    } else {
      var n := |es| - 1;
      ChainedState(r, sent, es[..n]);
      ChainedStep(r, sent, es, Exec(Started(r, sent), es[..n]).value);
    }
  }

  lemma FlawlessStep(times: int, sent: bool, es: seq<Event>)
    requires es != []
    ensures var n := |es| - 1;
      Flawless(times, sent, es) <==>
        Flawless(times, sent, es[..n]) && Good(es[n]) && (n + 1 < times ==> SendsNext(es[n]))
  {
    var n := |es| - 1;
    assert forall i :: 0 <= i < n ==> es[..n][i] == es[i];
  }

  lemma ChainedStep(r: Round, sent: bool, es: seq<Event>, mid: Round)
    requires es != [] && Callbacks(es) && Enabled(mid, es[|es| - 1])
    requires mid.times == r.times && mid.interval <= 0 && mid.timers == {} && !mid.lost
    requires Flawless(r.times, sent, es[..|es| - 1]) && |es| - 1 < r.times
    requires (exists ev :: mid.pending == {ev}) && mid.nowtimes == |es| && mid.reports == r.reports && mid.servaddr
    ensures var s := Step(mid, es[|es| - 1]);
      && s.times == r.times && s.interval <= 0 && s.timers == {} && !s.lost
      && s.sockfd == mid.sockfd
      && s.closed == (if |s.reports| == |mid.reports| then mid.closed else mid.closed + [mid.sockfd])
      && if !Flawless(r.times, sent, es) then s.pending == {} && s.reports == r.reports
         else if |es| < r.times then
           (exists ev :: s.pending == {ev}) && s.nowtimes == |es| + 1 && s.reports == r.reports && s.servaddr
         else s.pending == {} && s.nowtimes == r.times && |s.reports| == |r.reports| + 1
  {
    FlawlessStep(r.times, sent, es);
    hide Flawless, ReportFor;
    var e := es[|es| - 1];
    var ev :| mid.pending == {ev};
    assert mid.pending - {ev} == {};
    var s := Step(mid, e);
    assert Good(e) && mid.nowtimes < mid.times && SendsNext(e) ==> s.pending == {mid.nextEvent};
  }

  /**
   * A chained round: at most one read event is ever pending, no more callbacks than configured
   * probes run, and it reports at most once, with all probes out and nothing pending, so the process
   * is never lost and its one socket is closed just when it reports. Once nothing is pending it has
   * reported iff every send worked and no reply was rejected.
   */
  lemma ChainedRound(r: Round, sent: bool, es: seq<Event>)
    requires FreshRound(r) && r.interval <= 0 && Callbacks(es) && Exec(Started(r, sent), es).Some?
    ensures var s := Exec(Started(r, sent), es).value;
      && |s.pending| <= 1 && |es| <= r.times && !s.lost
      && s.closed == (if |s.reports| == |r.reports| then r.closed else r.closed + [r.sockfd + 1])
      && |r.reports| <= |s.reports| <= |r.reports| + 1
      && (|s.reports| > |r.reports| ==> s.nowtimes == r.times && s.pending == {})
      && (s.pending == {} ==> (|s.reports| == |r.reports| + 1 <==> Flawless(r.times, sent, es)))
  {
    ChainedState(r, sent, es);
  }

  // ---- Timer mode ----

  /** A late event that reports: a timeout, or an accepted reply before anything else has reported. */
  predicate Reports(mid: Round, e: Event) {
    mid.nowtimes >= mid.times && (e.Timeout? || (Good(e) && mid.servaddr))
  }

  /** Read and timeout events that report, handled when all probes are already out. */
  ghost function Late(r: Round, es: seq<Event>): nat
    decreases |es|
  {
    if es == [] then 0
    else
      var n := |es| - 1;
      match Exec(r, es[..n])
      case None => 0
      case Some(mid) => Late(r, es[..n]) + if Reports(mid, es[n]) then 1 else 0
  }

  /** A round of one timer in progress. */
  ghost predicate Ticking(s: Round, timer: nat) {
    && s.interval > 0 && 0 <= s.nowtimes <= s.times
    && (s.timers == {timer} || (s.timers == {} && s.nowtimes == s.times && !s.servaddr))
    && (s.servaddr || s.nowtimes == s.times)
  }

  lemma TimerStep(mid: Round, e: Event, timer: nat)
    requires Enabled(mid, e) && !e.Run? && Benign(e) && Ticking(mid, timer)
    ensures var s := Step(mid, e);
      && Ticking(s, timer) && s.times == mid.times && s.timeout == mid.timeout && s.sockfd == mid.sockfd
      && |s.reports| - |mid.reports| == (if Reports(mid, e) then 1 else 0)
                                      + (if mid.timers != {} && s.timers == {} then 1 else 0)
      && (s.servaddr <==> mid.servaddr && |s.reports| == |mid.reports|)
      && (s.lost <==> e.Read? && !mid.servaddr)
      && s.closed == (if |s.reports| == |mid.reports| then mid.closed else mid.closed + [mid.sockfd])
  {
    hide ReportFor;
    if e.Tick? {
      assert mid.timers - {timer} == {};
    }
  }

  lemma {:induction false} TimerState(r: Round, sent: bool, es: seq<Event>)
    requires FreshRound(r) && r.interval > 0 && Callbacks(es) && Exec(Started(r, sent), es).Some?
    ensures var s := Exec(Started(r, sent), es).value;
      && Ticking(s, r.nextEvent) && s.times == r.times && s.timeout == r.timeout && s.sockfd == r.sockfd + 1
      && |s.reports| == |r.reports| + Late(Started(r, sent), es) + (if s.timers == {} then 1 else 0)
      && (s.servaddr <==> |s.reports| == |r.reports|)
      && s.closed == r.closed + seq(|s.reports| - |r.reports|, _ => r.sockfd + 1)
    decreases |es|
  {
    if es == [] {
      assert Started(r, sent).timers == {r.nextEvent};
    } else {
      var n := |es| - 1;
      TimerState(r, sent, es[..n]);
      var mid := Exec(Started(r, sent), es[..n]).value;
      TimerStep(mid, es[n], r.nextEvent);
    }
  }

  /**
   * A timer round reports, and closes its one socket, when its timer ends, for an accepted reply
   * that comes after the last probe but before any report, and for every late timeout. A read
   * handled after any of these loses the process.
   */
  lemma TimerReports(r: Round, sent: bool, es: seq<Event>)
    requires FreshRound(r) && r.interval > 0 && Callbacks(es) && Exec(Started(r, sent), es).Some?
    ensures var s := Exec(Started(r, sent), es).value;
      && |s.reports| == |r.reports| + Late(Started(r, sent), es) + (if s.timers == {} then 1 else 0)
      && s.closed == r.closed + seq(|s.reports| - |r.reports|, _ => r.sockfd + 1)
      && (s.lost <==> (es != [] && es[|es| - 1].Read?
                       && |Exec(Started(r, sent), es[..|es| - 1]).value.reports| > |r.reports|))
  {
    TimerState(r, sent, es);
    if es != [] {
      var n := |es| - 1;
      TimerState(r, sent, es[..n]);
      TimerStep(Exec(Started(r, sent), es[..n]).value, es[n], r.nextEvent);
    }
  }

  /** The i-th event is an accepted reply after the last probe and before any report of the round. */
  ghost predicate ReportingReply(r: Round, es: seq<Event>, i: nat)
    requires i < |es|
  {
    es[i].Read? && es[i].verdict.Accepted? &&
    match Exec(r, es[..i])
    case None => false
    case Some(mid) => mid.servaddr && mid.nowtimes >= mid.times
  }

  ghost predicate ReplyReported(r: Round, es: seq<Event>) {
    exists i :: 0 <= i < |es| && ReportingReply(r, es, i)
  }

  lemma ReplyReportedLast(r: Round, es: seq<Event>)
    requires es != []
    ensures var n := |es| - 1; ReplyReported(r, es) <==> ReplyReported(r, es[..n]) || ReportingReply(r, es, n)
  {
    var n := |es| - 1;
    forall i | 0 <= i < n ensures ReportingReply(r, es, i) <==> ReportingReply(r, es[..n], i) {
      assert es[..n][..i] == es[..i];
    }
    if i :| 0 <= i < n && ReportingReply(r, es[..n], i) {
      assert ReportingReply(r, es, i);
    }
  }

  lemma {:induction false} LateReplies(r: Round, sent: bool, es: seq<Event>)
    requires FreshRound(r) && r.interval > 0 && r.timeout <= 0 && Callbacks(es) && Exec(Started(r, sent), es).Some?
    ensures Late(Started(r, sent), es) == if ReplyReported(Started(r, sent), es) then 1 else 0
    decreases |es|
  {
    if es != [] {
      var n, r0 := |es| - 1, Started(r, sent);
      LateReplies(r, sent, es[..n]);
      TimerState(r, sent, es[..n]);
      ReplyReportedLast(r0, es);
      var mid := Exec(r0, es[..n]).value;
      assert Enabled(mid, es[n]);
      hide Step, ReplyReported, Ticking, FreshRound, Started;
      assert Reports(mid, es[n]) <==> ReportingReply(r0, es, n);
    }
  }

  /**
   * Without timeouts, as the prober configures PING tests, a round whose timer has ended has
   * reported twice if an accepted reply came after the last probe and before the timer ended, and
   * once otherwise.
   */
  lemma TwiceExactly(r: Round, sent: bool, es: seq<Event>)
    requires FreshRound(r) && r.interval > 0 && r.timeout <= 0 && Callbacks(es) && Exec(Started(r, sent), es).Some?
    requires Exec(Started(r, sent), es).value.timers == {}
    ensures |Exec(Started(r, sent), es).value.reports| == |r.reports|
      + if ReplyReported(Started(r, sent), es) then 2 else 1
  {
    TimerState(r, sent, es);
    LateReplies(r, sent, es);
  }

  /**
   * When every reply is accepted or times out, a timer round with nothing left to wait for has
   * lost the process or reported at least twice.
   */
  lemma HealthyTimerRoundReportsTwice(r: Round, sent: bool, es: seq<Event>)
    requires FreshRound(r) && r.interval > 0 && Callbacks(es) && Exec(Started(r, sent), es).Some?
    requires forall i :: 0 <= i < |es| ==> es[i].Tick? || Good(es[i])
    requires Exec(Started(r, sent), es).value.pending == {} && Exec(Started(r, sent), es).value.timers == {}
    ensures var s := Exec(Started(r, sent), es).value; s.lost || |s.reports| >= |r.reports| + 2
  {
    TimerState(r, sent, es);
    LastProbeIsLate(r, sent, es);
  }

  lemma HealthyStep(mid: Round, e: Event)
    requires Enabled(mid, e) && (e.Tick? || Good(e)) && mid.interval > 0
    requires mid.nowtimes == mid.times ==> mid.pending != {}
    ensures var s := Step(mid, e);
      s.nowtimes == s.times && !s.lost && !Reports(mid, e) ==> s.pending != {}
  {
    hide ReportFor;
    assert mid.nextEvent in mid.pending + {mid.nextEvent};
  }

  /** The last probe's own read event can only be handled late. */
  lemma {:induction false} LastProbeIsLate(r: Round, sent: bool, es: seq<Event>)
    requires FreshRound(r) && r.interval > 0 && Callbacks(es) && Exec(Started(r, sent), es).Some?
    requires forall i :: 0 <= i < |es| ==> es[i].Tick? || Good(es[i])
    ensures var s := Exec(Started(r, sent), es).value;
      s.nowtimes == s.times && !s.lost && Late(Started(r, sent), es) == 0 ==> s.pending != {}
    decreases |es|
  {
    if es != [] {
      var n := |es| - 1;
      var mid := Exec(Started(r, sent), es[..n]).value;
      LastProbeIsLate(r, sent, es[..n]);
      TimerState(r, sent, es[..n]);
      if Late(Started(r, sent), es) == 0 {
        HealthyStep(mid, es[n]);
      }
    }
  }
}
