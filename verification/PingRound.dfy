/**
 * A PING test as ping_test.cpp runs it: rounds of probes, the events that wait for replies, and
 * the report at the end. The environment chooses which event fires and whether a send succeeds.
 */
module PingRound {
  import opened Bytes
  import opened Timeval
  import opened PingWire
  import opened PingStats

  const INIT := 1
  const PROBE := 2
  const RECV := 3
  const PROCESS := 4
  const NOLAST := 5
  const LAST := 6
  const DONE := 7
  const FAIL := 8

  /** What finish sends; loss is unspecified with no probe, the statistics with no reply. */
  datatype Report = Report(transmitted: int, received: int, loss: Option<int>, stats: Option<Stats>)

  /**
   * History of the current round: replies and timeouts handled, reads that were lost, and the
   * events and data that were left over when it started.
   */
  datatype Tally = Tally(replies: nat, timeouts: nat, unread: nat, carried: nat, carriedData: nat)

  /**
   * The fields of a test, the read events (pending) and interval timers it has armed, what it has
   * reported and which sockets it has closed; sockets are numbered apart. servaddr says whether the
   * address is there, and lost that the process dereferenced one that is not.
   */
  datatype Round = Round(
    times: int, interval: int, timeout: int,
    nowtimes: int, nowrecvtimes: int, nsent: int, status: int, data: seq<PingData>,
    sockfd: nat, servaddr: bool, lost: bool, closed: seq<nat>,
    pending: set<nat>, timers: set<nat>, nextEvent: nat, reports: seq<Report>,
    tally: Tally)

  /** Conversion to int in C++ drops the fraction. */
  function Trunc(x: real): int {
    if x >= 0.0 then x.Floor else -(-x).Floor
  }

  function Loss(transmitted: int, received: int): int
    requires transmitted > 0
  {
    Trunc(100.0 - received as real * 100.0 / transmitted as real)
  }

  function Rtts(data: seq<PingData>): seq<real> {
    seq(|data|, i requires 0 <= i < |data| => data[i].rtt)
  }

  function ReportFor(nowtimes: int, nowrecvtimes: int, data: seq<PingData>): Report {
    Report(nowtimes, nowrecvtimes,
           if nowtimes > 0 then Some(Loss(nowtimes, nowrecvtimes)) else None,
           if data != [] then Some(StatsFor(Rtts(data))) else None)
  }

  // ---- The steps ----

  /** config: defaults for values that are not positive. */
  function Configured(times: int, timeout: int, interval: int): Round {
    Round(if times <= 0 then 4 else times, if interval <= 0 then -1 else interval, if timeout <= 0 then -1 else timeout,
          0, 0, 0, 0, [], 0, false, false, [], {}, {}, 0, [], Tally(0, 0, 0, 0, 0))
  }

  function Probed(r: Round, sent: bool): Round {
    var r := r.(nsent := r.nsent + 1);
    if !r.servaddr then r.(lost := true)
    else if sent
    then r.(nowtimes := r.nowtimes + 1, status := PROBE,
            pending := r.pending + {r.nextEvent}, nextEvent := r.nextEvent + 1)
    else r
  }

  function Initialised(r: Round): Round {
    r.(status := INIT, nsent := 0, nowrecvtimes := 0, nowtimes := 0, sockfd := r.sockfd + 1, servaddr := true,
       tally := Tally(0, 0, 0, |r.pending|, |r.data|))
  }

  function Started(r: Round, sent: bool): Round {
    var r := Initialised(r);
    if r.interval > 0 then r.(timers := r.timers + {r.nextEvent}, nextEvent := r.nextEvent + 1)
    else Probed(r, sent)
  }

  function Finished(r: Round): Round {
    r.(status := DONE, data := [], servaddr := false, closed := r.closed + [r.sockfd],
       reports := r.reports + [ReportFor(r.nowtimes, r.nowrecvtimes, r.data)])
  }

  /** ping_timeout_callback_fn. */
  function Ticked(r: Round, timer: nat, sent: bool): Round {
    if r.nowtimes >= r.times then Finished(r).(timers := r.timers - {timer})
    else Probed(r, sent)
  }

  /** The timeout branch of ping_socket_callback_fn. */
  function TimedOut(r: Round, ev: nat, sent: bool): Round {
    var r := r.(pending := r.pending - {ev}, tally := r.tally.(timeouts := r.tally.timeouts + 1));
    if r.nowtimes >= r.times then Finished(r)
    else if r.interval <= 0 then Probed(r, sent)
    else r
  }

  /** receive and process: the new state and the value process returns (junk where it returns none). */
  function Processed(r: Round, verdict: Verdict, junk: int): (Round, int) {
    var tally := r.tally.(replies := r.tally.replies + 1);
    var r := r.(nowrecvtimes := r.nowrecvtimes + 1, tally := tally, status := PROCESS);
    match verdict
    case Rejected => (r, FAIL)
    case NoValue => (r, junk)
    case Accepted(data) =>
      (r.(data := r.data + [data]),
       if r.nowtimes >= r.times then LAST else if r.interval <= 0 then NOLAST else PROCESS)
  }

  function Reacted(r: Round, result: int, sent: bool): Round {
    if result == NOLAST then Probed(r, sent) else if result == LAST then Finished(r) else r
  }

  /** The read branch of ping_socket_callback_fn; receive needs the address. */
  function Received(r: Round, ev: nat, verdict: Verdict, junk: int, sent: bool): Round {
    var r := r.(pending := r.pending - {ev});
    if !r.servaddr then r.(lost := true, tally := r.tally.(unread := r.tally.unread + 1))
    else
      var (r, result) := Processed(r, verdict, junk);
      Reacted(r, result, sent)
  }

  datatype Event =
    | Run(sent: bool)
    | Tick(timer: nat, sent: bool)
    | Timeout(ev: nat, sent: bool)
    | Read(ev: nat, verdict: Verdict, junk: int, sent: bool)

  /** A read event may still fire after its socket was closed: whether it does is up to the event library. */
  predicate Enabled(r: Round, e: Event) {
    !r.lost &&
    match e
    case Run(_) => true
    case Tick(timer, _) => timer in r.timers
    case Timeout(ev, _) => ev in r.pending && r.timeout > 0
    case Read(ev, _, _, _) => ev in r.pending
  }

  function Step(r: Round, e: Event): Round {
    match e
    case Run(sent) => Started(r, sent)
    case Tick(timer, sent) => Ticked(r, timer, sent)
    case Timeout(ev, sent) => TimedOut(r, ev, sent)
    case Read(ev, verdict, junk, sent) => Received(r, ev, verdict, junk, sent)
  }

  function Exec(r: Round, es: seq<Event>): Option<Round>
    decreases |es|
  {
    if es == [] then Some(r)
    else match Exec(r, es[..|es| - 1])
      case None => None
      case Some(mid) => if Enabled(mid, es[|es| - 1]) then Some(Step(mid, es[|es| - 1])) else None
  }

  // ---- The test object ----

  class PingTest {
    const pid: int
    var times: int
    var interval: int
    var timeout: int
    var nowtimes: int
    var nowrecvtimes: int
    var nsent: int
    var status: int
    var dataVec: seq<PingData>
    const sendbuf: array<byte>
    const recvbuf: array<byte>
    var recvlen: int
    var recvtime: Time
    var sockfd: nat
    var servaddr: bool
    var lost: bool
    var closed: seq<nat>
    var pending: set<nat>
    var timers: set<nat>
    var nextEvent: nat
    var reports: seq<Report>
    ghost var tally: Tally

    ghost function View(): Round
      reads this
    {
      Round(times, interval, timeout, nowtimes, nowrecvtimes, nsent, status, dataVec, sockfd, servaddr, lost, closed,
            pending, timers, nextEvent, reports, tally)
    }

    ghost predicate Valid()
      reads this
    {
      sendbuf.Length == BUF_LEN && recvbuf.Length == BUF_LEN && sendbuf != recvbuf
    }

    constructor (pid: int, confTimes: int, confTimeout: int, confInterval: int)
      ensures Valid() && this.pid == pid && View() == Configured(confTimes, confTimeout, confInterval)
    {
      this.pid := pid;
      times := if confTimes <= 0 then 4 else confTimes;
      timeout := if confTimeout <= 0 then -1 else confTimeout;
      interval := if confInterval <= 0 then -1 else confInterval;
      nowtimes, nowrecvtimes, nsent, status, dataVec := 0, 0, 0, 0, [];
      sendbuf, recvbuf := new byte[BUF_LEN](_ => 0), new byte[BUF_LEN](_ => 0);
      recvlen, recvtime := 0, Time(0, 0);
      sockfd, servaddr, lost, closed := 0, false, false, [];
      pending, timers, nextEvent, reports := {}, {}, 0, [];
      tally := Tally(0, 0, 0, 0, 0);
    }

    method Init()
      modifies this
      ensures View() == Initialised(old(View()))
    {
      tally := Tally(0, 0, 0, |pending|, |dataVec|);
      sockfd := sockfd + 1;
      servaddr := true;
      ResetCounters();
    }

    /** The second half of init. */
    method ResetCounters()
      modifies `status, `nsent, `nowrecvtimes, `nowtimes
      ensures View() == old(View()).(status := INIT, nsent := 0, nowrecvtimes := 0, nowtimes := 0)
    {
      status := INIT;
      nsent := 0;
      nowrecvtimes := 0;
      nowtimes := 0;
    }

    /** probe: build the packet, send it, and wait for its reply. */
    method Probe(now: Time, sent: bool)
      requires Valid()
      modifies this, sendbuf
      ensures View() == Probed(old(View()), sent)
      ensures sendbuf[..ECHO_LEN] == EchoRequest(pid, old(nsent), now)
    {
      FillProbe(sendbuf, pid, nsent, now);
      nsent := nsent + 1;
      if !servaddr {
        lost := true;
        return;
      }
      if !sent {
        return;
      }
      nowtimes := nowtimes + 1;
      status := PROBE;
      pending := pending + {nextEvent};
      nextEvent := nextEvent + 1;
    }

    method Start(now: Time, sent: bool)
      requires Valid()
      modifies this, sendbuf
      ensures View() == Started(old(View()), sent)
    {
      Init();
      if interval > 0 {
        timers := timers + {nextEvent};
        nextEvent := nextEvent + 1;
      } else {
        Probe(now, sent);
      }
    }

    method Finish()
      modifies this
      ensures View() == Finished(old(View()))
    {
      servaddr := false;
      closed := closed + [sockfd];
      var stats := None;
      if dataVec != [] {
        var rtts := Rtts(dataVec);
        var s := Summarise(rtts);
        StatsAreUnique(s, StatsFor(rtts), rtts);
        stats := Some(s);
      }
      var loss := if nowtimes > 0 then Some(Loss(nowtimes, nowrecvtimes)) else None;
      reports := reports + [Report(nowtimes, nowrecvtimes, loss, stats)];
      status := DONE;
      dataVec := [];
    }

    method TimerCallback(timer: nat, now: Time, sent: bool)
      requires Valid()
      modifies this, sendbuf
      ensures View() == Ticked(old(View()), timer, sent)
    {
      if nowtimes >= times {
        Finish();
        timers := timers - {timer};
        return;
      }
      Probe(now, sent);
    }

    method SocketTimeout(ev: nat, now: Time, sent: bool)
      requires Valid()
      modifies this, sendbuf
      ensures View() == TimedOut(old(View()), ev, sent)
    {
      pending := pending - {ev};
      tally := tally.(timeouts := tally.timeouts + 1);
      if nowtimes >= times {
        Finish();
      } else if interval <= 0 {
        Probe(now, sent);
      }
    }

    /** recvmsg into the buffer; what it held beyond the packet stays, and all of it when it fails. */
    method Receive(packet: Option<seq<byte>>, now: Time)
      requires Valid() && (packet.Some? ==> |packet.value| <= BUF_LEN)
      modifies this, recvbuf
      ensures if !old(servaddr) then View() == old(View()).(lost := true)
        else
          && View() == old(View()).(nowrecvtimes := old(nowrecvtimes) + 1, status := RECV,
               tally := old(tally).(replies := old(tally).replies + 1))
          && recvbuf[..] == Filled(old(recvbuf[..]), packet) && recvlen == Length(packet) && recvtime == now
    {
      hide Filled;
      if !servaddr {
        lost := true;
        return;
      }
      Fill(packet);
      recvlen := Length(packet);
      recvtime := now;
      CountReply();
    }

    method CountReply()
      modifies `status, `nowrecvtimes, `tally
      ensures View() == old(View()).(nowrecvtimes := old(nowrecvtimes) + 1, status := RECV,
               tally := old(tally).(replies := old(tally).replies + 1))
    {
      status := RECV;
      nowrecvtimes := nowrecvtimes + 1;
      tally := tally.(replies := tally.replies + 1);
    }

    method Fill(packet: Option<seq<byte>>)
      requires packet.Some? ==> |packet.value| <= recvbuf.Length
      modifies recvbuf
      ensures recvbuf[..] == Filled(old(recvbuf[..]), packet)
    {
      if packet.Some? {
        Put(recvbuf, 0, packet.value);
        assert recvbuf[..] == packet.value + old(recvbuf[..])[|packet.value|..];
      }
    }

    method Process(junk: int) returns (result: int)
      requires Valid()
      modifies this
      ensures var verdict := Inspect(recvbuf[..], old(recvlen), pid, old(recvtime));
        && View() == old(View()).(status := PROCESS,
             data := if verdict.Accepted? then old(dataVec) + [verdict.data] else old(dataVec))
        && result == (match verdict
             case Rejected => FAIL
             case NoValue => junk
             case Accepted(_) => if nowtimes >= times then LAST else if interval <= 0 then NOLAST else PROCESS)
        && recvtime == (if verdict.Accepted? then Minus(old(recvtime), CarriedTime(recvbuf[..])) else old(recvtime))
    {
      hide Inspect, CarriedTime, Minus;
      status := PROCESS;
      var verdict := Inspect(recvbuf[..], recvlen, pid, recvtime);
      match verdict {
        case Rejected => return FAIL;
        case NoValue => return junk;
        case Accepted(data) =>
          var out := new Clock(recvtime);
          var tvsend := new Clock(CarriedTime(recvbuf[..]));
          TvSub(out, tvsend);
          recvtime := out.Value();
          dataVec := dataVec + [data];
          if nowtimes >= times {
            return LAST;
          }
          return if interval <= 0 then NOLAST else PROCESS;
      }
    }

    method SocketRead(ev: nat, packet: Option<seq<byte>>, now: Time, junk: int, sent: bool)
      requires Valid() && (packet.Some? ==> |packet.value| <= BUF_LEN)
      modifies this, sendbuf, recvbuf
      ensures View() == Received(old(View()), ev,
        Inspect(Filled(old(recvbuf[..]), packet), Length(packet), pid, now), junk, sent)
    {
      hide Inspect, Filled;
      ghost var verdict := Inspect(Filled(recvbuf[..], packet), Length(packet), pid, now);
      pending := pending - {ev};
      ghost var before := View();
      Receive(packet, now);
      if !servaddr {
        tally := tally.(unread := tally.unread + 1);
        return;
      }
      var result := Process(junk);
      assert (View(), result) == Processed(before, verdict, junk);
      if result == NOLAST {
        Probe(now, sent);
      } else if result == LAST {
        Finish();
      }
    }
  }

  // ---- What every step keeps ----

  /** An unassigned return value that is not mistaken for a status the callback acts on. */
  predicate Benign(e: Event) {
    e.Read? && e.verdict.NoValue? ==> e.junk != NOLAST && e.junk != LAST
  }

  ghost predicate Counts(r: Round) {
    && r.times >= 1 && 0 <= r.nowtimes && r.nowrecvtimes == r.tally.replies
    && r.tally.replies + r.tally.timeouts + r.tally.unread + |r.pending| == r.nowtimes + r.tally.carried
    && (r.tally.unread > 0 ==> r.lost)
    && |r.data| <= r.nowrecvtimes + r.tally.carriedData
    && (forall ev :: ev in r.pending ==> ev < r.nextEvent)
    && (forall timer :: timer in r.timers ==> timer < r.nextEvent)
  }

  ghost predicate Inv(r: Round) {
    Counts(r) && r.nowtimes <= r.times
  }

  lemma ConfiguredInv(times: int, timeout: int, interval: int)
    ensures Inv(Configured(times, timeout, interval))
  {
  }

  lemma ProbedCounts(r: Round, sent: bool)
    requires Counts(r)
    ensures Counts(Probed(r, sent))
  {
    assert r.nextEvent !in r.pending;
  }

  lemma FinishedCounts(r: Round)
    requires Counts(r)
    ensures Counts(Finished(r))
  {
  }

  lemma StartedCounts(r: Round, sent: bool)
    requires Counts(r)
    ensures Counts(Started(r, sent))
  {
    assert Counts(Initialised(r));
    ProbedCounts(Initialised(r), sent);
  }

  lemma TimedOutCounts(r: Round, ev: nat, sent: bool)
    requires Counts(r) && ev in r.pending
    ensures Counts(TimedOut(r, ev, sent))
  {
    var mid := r.(pending := r.pending - {ev}, tally := r.tally.(timeouts := r.tally.timeouts + 1));
    assert Counts(mid);
    hide Counts;
    FinishedCounts(mid);
    ProbedCounts(mid, sent);
  }

  /** Removing a read event that is then counted as handled or as lost. */
  lemma ReadCounts(r: Round, ev: nat, verdict: Verdict, junk: int)
    requires Counts(r) && ev in r.pending
    ensures var mid := r.(pending := r.pending - {ev});
      && Counts(Processed(mid, verdict, junk).0)
      && Counts(mid.(lost := true, tally := r.tally.(unread := r.tally.unread + 1)))
  {
  }

  lemma ReceivedCounts(r: Round, ev: nat, verdict: Verdict, junk: int, sent: bool)
    requires Counts(r) && ev in r.pending
    ensures Counts(Received(r, ev, verdict, junk, sent))
  {
    var mid := Processed(r.(pending := r.pending - {ev}), verdict, junk).0;
    ReadCounts(r, ev, verdict, junk);
    hide Processed, Counts;
    FinishedCounts(mid);
    ProbedCounts(mid, sent);
  }

  /** Every read event is a probe answered, timed out, lost or pending; that holds across rounds. */
  lemma StepCounts(r: Round, e: Event)
    requires Counts(r) && Enabled(r, e)
    ensures Counts(Step(r, e))
  {
    match e
    case Run(sent) => StartedCounts(r, sent);
    case Tick(timer, sent) =>
      FinishedCounts(r);
      ProbedCounts(r, sent);
    case Timeout(ev, sent) => TimedOutCounts(r, ev, sent);
    case Read(ev, verdict, junk, sent) => ReceivedCounts(r, ev, verdict, junk, sent);
  }

  /** The bound on probes is kept by every step except one driven by an unassigned return value. */
  lemma BoundKeptExactly(r: Round, e: Event)
    requires Inv(r) && Enabled(r, e)
    ensures Inv(Step(r, e))
      <==> !(e.Read? && e.verdict.NoValue? && e.junk == NOLAST && e.sent && r.servaddr && r.nowtimes == r.times)
  {
    StepCounts(r, e);
  }

  lemma ConfigStays(r: Round, e: Event)
    requires Enabled(r, e)
    ensures var s := Step(r, e); s.times == r.times && s.interval == r.interval && s.timeout == r.timeout
  {
    hide ReportFor;
  }

  lemma {:induction false} RunConfig(r: Round, es: seq<Event>)
    requires Exec(r, es).Some?
    ensures var s := Exec(r, es).value; s.times == r.times && s.interval == r.interval && s.timeout == r.timeout
    decreases |es|
  {
    if es != [] {
      RunConfig(r, es[..|es| - 1]);
      ConfigStays(Exec(r, es[..|es| - 1]).value, es[|es| - 1]);
    }
  }

  lemma {:induction false} RunInv(r: Round, es: seq<Event>)
    requires Inv(r) && Exec(r, es).Some? && forall i :: 0 <= i < |es| ==> Benign(es[i])
    ensures Inv(Exec(r, es).value)
    decreases |es|
  {
    if es != [] {
      RunInv(r, es[..|es| - 1]);
      BoundKeptExactly(Exec(r, es[..|es| - 1]).value, es[|es| - 1]);
    }
  }

  /**
   * In every reachable state, overlapping rounds included: no more probes than configured, and the
   * probes of the round plus the events left over from before it are exactly the replies handled,
   * the timeouts handled and the events still pending, but for the read that loses the process.
   */
  lemma EventsAreConserved(times: int, timeout: int, interval: int, es: seq<Event>, r: Round)
    requires Exec(Configured(times, timeout, interval), es) == Some(r) && forall i :: 0 <= i < |es| ==> Benign(es[i])
    ensures 0 <= r.nowtimes <= if times > 0 then times else 4
    ensures r.tally.replies + r.tally.timeouts + r.tally.unread + |r.pending| == r.nowtimes + r.tally.carried
    ensures r.nowrecvtimes == r.tally.replies && (r.tally.unread > 0 ==> r.lost)
    ensures |r.data| <= r.nowrecvtimes + r.tally.carriedData
    ensures r.tally.carried == 0 && r.tally.carriedData == 0 ==> |r.data| <= r.nowrecvtimes <= r.nowtimes
  {
    ConfiguredInv(times, timeout, interval);
    RunInv(Configured(times, timeout, interval), es);
    RunConfig(Configured(times, timeout, interval), es);
  }

  // ---- The reported loss ----

  lemma FloorOfQuotient(a: nat, n: nat)
    requires n > 0
    ensures (a as real / n as real).Floor == a / n
  {
    var q, t := a / n, a % n;
    var x := a as real / n as real;
    RealProduct(n, q);
    assert a as real == (n * q) as real + t as real;
    Divided(a as real, n as real);
    TimesAdds(n as real, q as real, 1.0);
    TimesAdds(n as real, 1.0, 0.0);
    hide Times;
    Cancel(n as real, q as real, x);
    if x >= q as real + 1.0 {
      TimesGrows(n as real, q as real + 1.0, x);
    }
  }

  lemma RealProduct(n: int, q: int)
    ensures (n * q) as real == Times(n as real, q as real)
  {
  }

  lemma TimesGrows(n: real, x: real, y: real)
    requires n > 0.0 && x <= y
    ensures Times(n, x) <= Times(n, y)
  {
    TimesSign(n, y - x);
    TimesAdds(n, x, y - x);
  }
}
