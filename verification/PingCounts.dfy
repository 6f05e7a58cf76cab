/** Which events of a PING test send probes and what its counters are, told from the events alone. */
module PingCounts {
  import opened Bytes
  import opened Timeval
  import opened PingWire
  import opened PingRound
  import opened PingLaws

  /** The number of probes of a round, as configured. */
  function Wanted(times: int): int {
    if times > 0 then times else 4
  }

  /**
   * Whether an event asks for a probe, when sent are already out: a timer's tick where there is an
   * interval, else the start of the round, a timeout or an accepted reply.
   */
  predicate Asks(times: int, interval: int, sent: int, e: Event) {
    match e
    case Run(_) => interval <= 0
    case Tick(_, _) => interval > 0 && sent < Wanted(times)
    case Timeout(_, _) => interval <= 0 && sent < Wanted(times)
    case Read(_, verdict, _, _) => interval <= 0 && verdict.Accepted? && sent < Wanted(times)
  }

  /** The probes sent since the latest start of a round. */
  function Sent(times: int, interval: int, es: seq<Event>): nat
    decreases |es|
  {
    if es == [] then 0
    else
      var e, before := es[|es| - 1], Sent(times, interval, es[..|es| - 1]);
      (if e.Run? then 0 else before) + if Asks(times, interval, before, e) && SendsNext(e) then 1 else 0
  }

  /** The probes tried since then, whether or not the send worked. */
  function Tried(times: int, interval: int, es: seq<Event>): nat
    decreases |es|
  {
    if es == [] then 0
    else
      var e, before := es[|es| - 1], es[..|es| - 1];
      (if e.Run? then 0 else Tried(times, interval, before))
      + if Asks(times, interval, Sent(times, interval, before), e) then 1 else 0
  }

  /** The packets received since then. */
  function Heard(es: seq<Event>): nat
    decreases |es|
  {
    if es == [] || es[|es| - 1].Run? then 0
    else Heard(es[..|es| - 1]) + if es[|es| - 1].Read? then 1 else 0
  }

  /** A test without an interval arms no timer. */
  predicate Mode(r: Round) {
    r.interval <= 0 ==> r.timers == {}
  }

  lemma ModeStays(r: Round, e: Event)
    requires Mode(r) && Enabled(r, e)
    ensures Mode(Step(r, e))
  {
    hide ReportFor;
  }

  lemma StepSends(r: Round, e: Event, times: int)
    requires Inv(r) && Addressed(r) && Mode(r) && Enabled(r, e) && Benign(e) && r.times == Wanted(times)
    ensures var s, asks := Step(r, e), Asks(times, r.interval, r.nowtimes, e);
      && s.nowtimes == (if e.Run? then 0 else r.nowtimes) + (if asks && SendsNext(e) then 1 else 0)
      && s.nsent == (if e.Run? then 0 else r.nsent) + (if asks then 1 else 0)
      && (!s.lost ==> s.nowrecvtimes == if e.Run? then 0 else r.nowrecvtimes + if e.Read? then 1 else 0)
  {
    hide ReportFor;
  }

  /**
   * In every reachable state: the settings are the configured ones or their defaults, and the
   * probes sent and tried and the packets received are what the events since the latest start say.
   */
  lemma {:induction false} CountsAreTold(r: Round, es: seq<Event>, times: int, timeout: int, interval: int)
    requires Reachable(r, es, times, timeout, interval)
    ensures r.times == (if times > 0 then times else 4)
    ensures (r.interval > 0 <==> interval > 0) && (r.timeout > 0 <==> timeout > 0)
    ensures r.nowtimes == Sent(times, interval, es) <= r.times && r.nsent == Tried(times, interval, es)
    ensures !r.lost ==> r.nowrecvtimes == Heard(es)
    ensures Mode(r)
    decreases |es|
  {
    AddressGone(r, es, times, timeout, interval);
    if es != [] {
      var n := |es| - 1;
      var mid := Exec(Configured(times, timeout, interval), es[..n]).value;
      CountsAreTold(mid, es[..n], times, timeout, interval);
      AddressGone(mid, es[..n], times, timeout, interval);
      ConfigStays(mid, es[n]);
      ModeStays(mid, es[n]);
      StepSends(mid, es[n], times);
      hide Step, Inv, Addressed, Mode, Concluded;
      assert Asks(times, interval, mid.nowtimes, es[n]) == Asks(times, mid.interval, mid.nowtimes, es[n]);
    }
  }

  /** Where there is an interval, a reply or timeout takes its event away and sends nothing. */
  lemma OnlyTicksSend(r: Round, es: seq<Event>, times: int, timeout: int, interval: int, e: Event)
    requires Reachable(r, es, times, timeout, interval) && interval > 0
    requires Enabled(r, e) && Benign(e) && (e.Timeout? || e.Read?)
    ensures var s := Step(r, e);
      && s.nsent == r.nsent && s.nowtimes == r.nowtimes && s.timers == r.timers
      && s.pending == r.pending - {e.ev}
  {
    CountsAreTold(r, es, times, timeout, interval);
    hide ReportFor;
  }

  /**
   * Events and timers come and go one at a time: a probe that leaves adds its read event, a reply
   * or timeout takes its own, a round with an interval adds a timer, and the tick that finds all
   * probes out takes its own.
   */
  lemma EventsComeAndGo(r: Round, es: seq<Event>, times: int, timeout: int, interval: int, e: Event)
    requires Reachable(r, es, times, timeout, interval) && Enabled(r, e) && Benign(e)
    ensures var s, sent := Step(r, e), Sent(times, interval, es);
      && (var kept := if e.Timeout? || e.Read? then r.pending - {e.ev} else r.pending;
          s.pending == if Asks(times, interval, sent, e) && SendsNext(e) then kept + {r.nextEvent} else kept)
      && s.timers == (if e.Run? && interval > 0 then r.timers + {r.nextEvent}
                      else if e.Tick? && sent >= Wanted(times) then r.timers - {e.timer} else r.timers)
  {
    CountsAreTold(r, es, times, timeout, interval);
    AddressGone(r, es, times, timeout, interval);
    StepPending(r, e, times);
    StepTimers(r, e);
    hide Step, Sent, Concluded, Inv, Addressed, Mode, Enabled;
    assert Asks(times, interval, r.nowtimes, e) == Asks(times, r.interval, r.nowtimes, e);
  }

  lemma StepPending(r: Round, e: Event, times: int)
    requires Inv(r) && Addressed(r) && Mode(r) && Enabled(r, e) && Benign(e) && r.times == Wanted(times)
    ensures var kept := if e.Timeout? || e.Read? then r.pending - {e.ev} else r.pending;
      Step(r, e).pending
      == if Asks(times, r.interval, r.nowtimes, e) && SendsNext(e) then kept + {r.nextEvent} else kept
  {
    hide ReportFor, Counts;
  }

  lemma StepTimers(r: Round, e: Event)
    requires Enabled(r, e)
    ensures Step(r, e).timers
         == if e.Run? && r.interval > 0 then r.timers + {r.nextEvent}
            else if e.Tick? && r.nowtimes >= r.times then r.timers - {e.timer} else r.timers
  {
    hide ReportFor;
  }

  /** What the test says it is doing: initialised, probing, processing or done. */
  lemma StatusTells(r: Round, e: Event)
    requires Enabled(r, e) && Benign(e) && !Step(r, e).lost
    ensures var s := Step(r, e);
      s.status == if |s.reports| > |r.reports| then 7
                  else if s.nowtimes > (if e.Run? then 0 else r.nowtimes) then 2
                  else if e.Run? then 1 else if e.Read? then 4 else r.status
  {
    hide ReportFor;
  }

  /** The k-th probe tried in a round carries sequence number k, from 0 and modulo 65536. */
  lemma SequenceNumbers(r: Round, es: seq<Event>, times: int, timeout: int, interval: int, pid: int, now: Time)
    requires Reachable(r, es, times, timeout, interval)
    ensures Decode(EchoRequest(pid, r.nsent, now)[6..8]) == Tried(times, interval, es) % 0x1_0000
  {
    CountsAreTold(r, es, times, timeout, interval);
    EchoRequestFields(pid, r.nsent, now);
  }
}
