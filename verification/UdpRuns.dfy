/**
 * The UDP tests of a worker in time: every interleaving of runs, reads, timeouts, errors and the
 * passing of time. What holds here needs no assumption on errors or targets.
 */
module UdpRuns {
  import opened Bytes
  import opened Channel
  import opened UdpVerdict

  /**
   * The tests in time (milliseconds): when each live event times out and each test runs next.
   * answered is history: the tests whose latest datagram an error has already answered.
   */
  datatype Timed = Timed(s: UdpState, now: int, deadline: map<nat, int>, nextRun: map<int, int>, answered: set<int>)

  /** An error answers the latest datagram of a test, or is about an address that no test has. */
  datatype Action = Run(t: int) | Fire(e: nat) | Unreachable(t: int) | Stray(key: Text) | Wait(d: nat)

  /** Seconds between the runs of each test. */
  type Periods = map<int, int>

  /** Events belong to tests and every test has a timer: what the step functions rely on. */
  ghost predicate Shape(p: Periods, x: Timed) {
    && x.s.tests.Keys == x.nextRun.Keys && x.s.tests.Keys <= p.Keys
    && (forall e :: e in x.s.events ==> e < x.s.nextEvent && x.s.events[e] in x.s.tests && e in x.deadline)
  }

  /** Timers fire when they are due: time does not pass over one. */
  ghost predicate Possible(p: Periods, x: Timed, a: Action) {
    Shape(p, x) &&
    match a
    case Run(t) => t in x.s.tests && x.nextRun[t] == x.now
    case Fire(e) => e in x.s.events
    case Unreachable(t) => t in x.s.tests
    case Stray(key) => forall t :: t in x.s.tests ==> KeyOf(x.s, t) != key
    case Wait(d) =>
      && (forall e :: e in x.s.events ==> x.now + d <= x.deadline[e])
      && (forall t :: t in x.nextRun ==> x.now + d <= x.nextRun[t])
  }

  ghost function Apply(p: Periods, x: Timed, a: Action): Timed
    requires Possible(p, x, a)
  {
    match a
    case Run(t) =>
      x.(s := Ran(x.s, t), answered := x.answered - {t},
         deadline := x.deadline[x.s.nextEvent := x.now + x.s.tests[t].timeout],
         nextRun := x.nextRun[t := x.now + 1000 * p[t]])
    case Fire(e) => x.(s := Fired(x.s, e))
    case Unreachable(t) => x.(s := Hit(x.s, KeyOf(x.s, t)), answered := x.answered + {t})
    case Stray(key) => x.(s := Hit(x.s, key))
    case Wait(d) => x.(now := x.now + d)
  }

  /** The latest run of t was reported unreachable. */
  predicate Refused(s: UdpState, t: int)
    requires t in s.tests
  {
    Report(t, s.tests[t].runs, 0) in s.reports
  }

  /**
   * At most one port-unreachable error answers each datagram before the next run of its test; more
   * may come only while no test of the target has been reported unreachable in its latest run.
   */
  ghost predicate Restrained(x: Timed, a: Action) {
    a.Unreachable? && a.t in x.s.tests ==>
      || (x.s.tests[a.t].runs > 0 && a.t !in x.answered)
      || forall u :: u in x.s.tests && KeyOf(x.s, u) == KeyOf(x.s, a.t) ==> !Refused(x.s, u)
  }

  /** The run of a list of actions; None where one is not possible, or not restrained if strict. */
  ghost function Exec(p: Periods, x: Timed, actions: seq<Action>, strict: bool): Option<Timed>
    decreases |actions|
  {
    if actions == [] then Some(x)
    else
      var n := |actions| - 1;
      match Exec(p, x, actions[..n], strict)
      case None => None
      case Some(mid) =>
        if Possible(p, mid, actions[n]) && (strict ==> Restrained(mid, actions[n]))
        then Some(Apply(p, mid, actions[n])) else None
  }

  ghost predicate Start(p: Periods, x: Timed) {
    && Shape(p, x) && (forall t :: t in x.s.tests ==> p[t] > 0 && x.s.tests[t].runs == 0 && x.now <= x.nextRun[t])
    && x.s.events == map[] && x.s.index == map[] && x.s.open == {} && x.s.closed == [] && x.s.reports == []
    && !x.s.fault && x.s.nextSocket == 0 && x.answered == {}
  }

  /** No test is given longer to wait for an outcome than the time between its runs. */
  ghost predicate Paced(p: Periods, tests: map<int, Udp>) {
    forall t :: t in tests ==> t in p && tests[t].timeout < 1000 * p[t]
  }

  /** Every run waits for an outcome. */
  predicate Timely(tests: map<int, Udp>) {
    forall t :: t in tests ==> tests[t].timeout > 0
  }

  /** How often run n of test t has been reported. */
  function Count(reports: seq<Report>, t: int, n: nat): nat
    decreases |reports|
  {
    if reports == [] then 0
    else
      var last := reports[|reports| - 1];
      Count(reports[..|reports| - 1], t, n) + if last.test == t && last.run == n then 1 else 0
  }

  lemma CountAppend(reports: seq<Report>, r: Report, t: int, n: nat)
    ensures Count(reports + [r], t, n) == Count(reports, t, n) + if r.test == t && r.run == n then 1 else 0
  {
    assert (reports + [r])[..|reports|] == reports;
  }

  // ---- The invariant ----

  /** The latest run of t still waits for its outcome. */
  ghost predicate Waiting(s: UdpState, t: int) {
    exists e :: e in s.events && s.events[e] == t
  }

  ghost predicate EventOk(x: Timed, e: nat) {
    e in x.s.events ==>
      var t := x.s.events[e];
      && t in x.s.tests && t in x.nextRun && e in x.deadline && e < x.s.nextEvent
      && x.now <= x.deadline[e] < x.nextRun[t]
      && x.s.tests[t].sockfd in x.s.open && x.s.tests[t].runs > 0 && x.s.tests[t].timeout > 0
  }

  /** No test waits twice, and no two tests share a socket. */
  ghost predicate PairOk(s: UdpState, e: nat, f: nat) {
    e in s.events && f in s.events && e != f && s.events[e] in s.tests && s.events[f] in s.tests ==>
      s.events[e] != s.events[f] && s.tests[s.events[e]].sockfd != s.tests[s.events[f]].sockfd
  }

  ghost predicate TimerOk(x: Timed, t: int) {
    t in x.nextRun ==> x.now <= x.nextRun[t]
  }

  /** Run n of t is over. */
  ghost predicate Resolved(s: UdpState, t: int, n: nat)
    requires t in s.tests
  {
    1 <= n <= s.tests[t].runs && !(n == s.tests[t].runs && Waiting(s, t))
  }

  ghost predicate ReportsOk(s: UdpState, t: int, n: nat) {
    t in s.tests ==> Count(s.reports, t, n) == if s.tests[t].timeout > 0 && Resolved(s, t, n) then 1 else 0
  }

  ghost predicate Holds(s: UdpState, fd: int) {
    exists e :: e in s.events && s.events[e] in s.tests && s.tests[s.events[e]].sockfd == fd
  }

  ghost predicate OpenOk(s: UdpState, fd: int) {
    fd in s.open ==> 0 <= fd < s.nextSocket && (Timely(s.tests) ==> Holds(s, fd))
  }

  /** Every socket made is open or closed, never both, and none is closed twice. */
  ghost predicate ClosedOk(s: UdpState) {
    && (forall fd :: 0 <= fd < s.nextSocket ==> fd in s.open || fd in s.closed)
    && (forall i :: 0 <= i < |s.closed| ==> 0 <= s.closed[i] < s.nextSocket && s.closed[i] !in s.open)
    && (forall i, j :: 0 <= i < j < |s.closed| ==> s.closed[i] != s.closed[j])
  }

  ghost predicate Inv(p: Periods, x: Timed) {
    && Shape(p, x) && Paced(p, x.s.tests) && (forall t :: t in x.s.tests ==> p[t] > 0)
    && (forall e :: EventOk(x, e)) && (forall e, f :: PairOk(x.s, e, f))
    && (forall t :: TimerOk(x, t)) && (forall t, n :: ReportsOk(x.s, t, n))
    && (forall fd :: OpenOk(x.s, fd)) && ClosedOk(x.s)
  }

  lemma StartInv(p: Periods, x: Timed)
    requires Start(p, x) && Paced(p, x.s.tests)
    ensures Inv(p, x)
  {
  }

  lemma OverBeforeNextRun(p: Periods, x: Timed, e: nat)
    requires Inv(p, x) && e in x.s.events
    ensures x.s.events[e] in x.nextRun && x.now < x.nextRun[x.s.events[e]]
  {
    assert EventOk(x, e);
  }

  /** When a test runs, its previous run is over: its deadline lies before this moment. */
  lemma NotWaitingWhenRun(p: Periods, x: Timed, t: int)
    requires Inv(p, x) && Possible(p, x, Run(t))
    ensures !Waiting(x.s, t)
  {
    if e :| e in x.s.events && x.s.events[e] == t {
      OverBeforeNextRun(p, x, e);
    }
  }

  // ---- An outcome ----

  /** Finishing the test of e and deleting e; idx is the index afterwards. */
  function Resolve(s: UdpState, e: nat, status: int, idx: map<Text, nat>): UdpState
    requires e in s.events && s.events[e] in s.tests
  {
    Finished(s.(index := idx), s.events[e], status).(events := s.events - {e})
  }

  ghost predicate CanResolve(p: Periods, x: Timed, e: nat) {
    Inv(p, x) && e in x.s.events && x.s.events[e] in x.s.tests
  }

  lemma ResolveWaiting(p: Periods, x: Timed, e: nat, status: int, idx: map<Text, nat>, u: int)
    requires CanResolve(p, x, e)
    ensures Waiting(x.s, x.s.events[e])
    ensures Waiting(Resolve(x.s, e, status, idx), u) <==> Waiting(x.s, u) && u != x.s.events[e]
  {
    var s' := Resolve(x.s, e, status, idx);
    if f :| f in x.s.events && x.s.events[f] == u && u != x.s.events[e] {
      assert f in s'.events;
    }
    if f :| f in s'.events && s'.events[f] == u {
      assert PairOk(x.s, e, f) && EventOk(x, f);
    }
  }

  lemma ResolveEvents(p: Periods, x: Timed, e: nat, status: int, idx: map<Text, nat>, f: nat, g: nat)
    requires CanResolve(p, x, e)
    ensures EventOk(x.(s := Resolve(x.s, e, status, idx)), f) && PairOk(Resolve(x.s, e, status, idx), f, g)
  {
    assert EventOk(x, f) && EventOk(x, g) && PairOk(x.s, e, f) && PairOk(x.s, e, g) && PairOk(x.s, f, g);
  }

  lemma ResolveReports(p: Periods, x: Timed, e: nat, status: int, idx: map<Text, nat>, u: int, n: nat)
    requires CanResolve(p, x, e)
    ensures ReportsOk(Resolve(x.s, e, status, idx), u, n)
  {
    var t := x.s.events[e];
    assert ReportsOk(x.s, u, n) && EventOk(x, e);
    CountAppend(x.s.reports, Report(t, x.s.tests[t].runs, status), u, n);
    ResolveWaiting(p, x, e, status, idx, u);
  }

  lemma ResolveOpen(p: Periods, x: Timed, e: nat, status: int, idx: map<Text, nat>, fd: int)
    requires CanResolve(p, x, e)
    ensures OpenOk(Resolve(x.s, e, status, idx), fd)
  {
    var s' := Resolve(x.s, e, status, idx);
    assert OpenOk(x.s, fd);
    if fd in s'.open && Timely(s'.tests) {
      SameTimeouts(x.s, e, status, idx);
      var f :| f in x.s.events && x.s.events[f] in x.s.tests && x.s.tests[x.s.events[f]].sockfd == fd;
      assert PairOk(x.s, e, f);
      assert f in s'.events && s'.tests[s'.events[f]].sockfd == fd;
    }
  }

  lemma SameTimeouts(s: UdpState, e: nat, status: int, idx: map<Text, nat>)
    requires e in s.events && s.events[e] in s.tests
    ensures var s' := Resolve(s, e, status, idx);
      && s'.tests.Keys == s.tests.Keys
      && forall t :: t in s.tests ==> s'.tests[t].timeout == s.tests[t].timeout && s'.tests[t].addr == s.tests[t].addr
  {
  }

  lemma ResolveClosed(p: Periods, x: Timed, e: nat, status: int, idx: map<Text, nat>)
    requires CanResolve(p, x, e)
    ensures ClosedOk(Resolve(x.s, e, status, idx))
  {
    var fd := x.s.tests[x.s.events[e]].sockfd;
    assert EventOk(x, e) && OpenOk(x.s, fd) && ClosedOk(x.s);
    hide Inv, EventOk, OpenOk;
    var s' := Resolve(x.s, e, status, idx);
    assert s'.closed == x.s.closed + [fd] && s'.open == x.s.open - {fd};
    forall k | 0 <= k < s'.nextSocket ensures k in s'.open || k in s'.closed {
      assert s'.closed[|x.s.closed|] == fd;
      if i :| 0 <= i < |x.s.closed| && x.s.closed[i] == k {
        assert s'.closed[i] == k;
      }
    }
  }

  lemma ResolveInv(p: Periods, x: Timed, e: nat, status: int, idx: map<Text, nat>)
    requires CanResolve(p, x, e)
    ensures Inv(p, x.(s := Resolve(x.s, e, status, idx)))
  {
    var x' := x.(s := Resolve(x.s, e, status, idx));
    SameTimeouts(x.s, e, status, idx);
    ResolveClosed(p, x, e, status, idx);
    forall f ensures EventOk(x', f) {
      ResolveEvents(p, x, e, status, idx, f, f);
    }
    forall f, g ensures PairOk(x'.s, f, g) {
      ResolveEvents(p, x, e, status, idx, f, g);
    }
    forall t ensures TimerOk(x', t) {
      assert TimerOk(x, t);
    }
    forall u, n ensures ReportsOk(x'.s, u, n) {
      ResolveReports(p, x, e, status, idx, u, n);
    }
    forall fd ensures OpenOk(x'.s, fd) {
      ResolveOpen(p, x, e, status, idx, fd);
    }
    hide EventOk, PairOk, TimerOk, ReportsOk, OpenOk, ClosedOk;
  }

  // ---- A run ----

  ghost predicate CanRun(p: Periods, x: Timed, t: int) {
    Inv(p, x) && Possible(p, x, Run(t)) && !Waiting(x.s, t)
  }

  lemma RunParts(p: Periods, x: Timed, t: int)
    requires Possible(p, x, Run(t))
    ensures var s, s' := x.s, Ran(x.s, t);
      && s'.tests == s.tests[t := s.tests[t].(sockfd := s.nextSocket, status := PROBE, runs := s.tests[t].runs + 1)]
      && s'.open == s.open + {s.nextSocket} && s'.nextSocket == s.nextSocket + 1
      && s'.closed == s.closed && s'.reports == s.reports && s'.fault == s.fault
      && s'.nextEvent == (if s.tests[t].timeout > 0 then s.nextEvent + 1 else s.nextEvent)
      && s'.events == (if s.tests[t].timeout > 0 then s.events[s.nextEvent := t] else s.events)
      && s'.index == (if s.tests[t].timeout > 0 then s.index[KeyOf(s, t) := s.nextEvent] else s.index)
  {
  }

  lemma RunWaiting(p: Periods, x: Timed, t: int, u: int)
    requires Possible(p, x, Run(t))
    ensures Waiting(Ran(x.s, t), u) <==> Waiting(x.s, u) || (u == t && x.s.tests[t].timeout > 0)
  {
    RunParts(p, x, t);
    hide Ran;
    var s' := Ran(x.s, t);
    if f :| f in x.s.events && x.s.events[f] == u {
      assert f in s'.events && s'.events[f] == u;
    }
    if x.s.tests[t].timeout > 0 {
      assert s'.events[x.s.nextEvent] == t;
    }
  }

  lemma RunEvents(p: Periods, x: Timed, t: int, f: nat, g: nat)
    requires CanRun(p, x, t)
    ensures EventOk(Apply(p, x, Run(t)), f) && PairOk(Ran(x.s, t), f, g)
  {
    RunParts(p, x, t);
    hide Ran;
    assert EventOk(x, f) && EventOk(x, g) && PairOk(x.s, f, g);
    if f in x.s.events {
      assert x.s.events[f] != t && OpenOk(x.s, x.s.tests[x.s.events[f]].sockfd);
    }
    if g in x.s.events {
      assert x.s.events[g] != t && OpenOk(x.s, x.s.tests[x.s.events[g]].sockfd);
    }
  }

  lemma RunReports(p: Periods, x: Timed, t: int, u: int, n: nat)
    requires CanRun(p, x, t)
    ensures ReportsOk(Ran(x.s, t), u, n)
  {
    assert ReportsOk(x.s, u, n);
    RunParts(p, x, t);
    RunWaiting(p, x, t, u);
    hide Ran, Waiting;
  }

  lemma RunOpen(p: Periods, x: Timed, t: int, fd: int)
    requires CanRun(p, x, t)
    ensures OpenOk(Ran(x.s, t), fd)
  {
    RunParts(p, x, t);
    hide Ran;
    assert OpenOk(x.s, fd);
    var s' := Ran(x.s, t);
    if fd in s'.open && Timely(s'.tests) {
      assert s'.tests[t].timeout > 0;
      if fd in x.s.open {
        TimelyBefore(x.s, s', t);
        var f :| f in x.s.events && x.s.events[f] in x.s.tests && x.s.tests[x.s.events[f]].sockfd == fd;
        assert f in s'.events && s'.tests[s'.events[f]].sockfd == fd;
      } else {
        assert x.s.nextEvent in s'.events && s'.tests[s'.events[x.s.nextEvent]].sockfd == fd;
      }
    }
  }

  lemma TimelyBefore(s: UdpState, s': UdpState, t: int)
    requires t in s.tests && s'.tests.Keys == s.tests.Keys && Timely(s'.tests)
    requires forall u :: u in s.tests ==> s'.tests[u].timeout == s.tests[u].timeout
    ensures Timely(s.tests)
  {
  }

  lemma RunClosed(p: Periods, x: Timed, t: int)
    requires CanRun(p, x, t)
    ensures ClosedOk(Ran(x.s, t))
  {
    RunParts(p, x, t);
    assert ClosedOk(x.s);
    hide Ran, Inv;
  }

  lemma RunInv(p: Periods, x: Timed, t: int)
    requires CanRun(p, x, t)
    ensures Inv(p, Apply(p, x, Run(t)))
  {
    var x' := Apply(p, x, Run(t));
    RunParts(p, x, t);
    RunClosed(p, x, t);
    hide Ran;
    forall f ensures EventOk(x', f) {
      RunEvents(p, x, t, f, f);
    }
    forall f, g ensures PairOk(x'.s, f, g) {
      RunEvents(p, x, t, f, g);
    }
    forall u ensures TimerOk(x', u) {
      assert TimerOk(x, u);
    }
    forall u, n ensures ReportsOk(x'.s, u, n) {
      RunReports(p, x, t, u, n);
    }
    forall fd ensures OpenOk(x'.s, fd) {
      RunOpen(p, x, t, fd);
    }
    hide EventOk, PairOk, TimerOk, ReportsOk, OpenOk, ClosedOk;
  }

  // ---- Every step ----

  lemma WaitInv(p: Periods, x: Timed, d: nat)
    requires Inv(p, x) && Possible(p, x, Wait(d))
    ensures Inv(p, Apply(p, x, Wait(d)))
  {
    var x' := Apply(p, x, Wait(d));
    forall e ensures EventOk(x', e) {
      assert EventOk(x, e);
    }
    forall t ensures TimerOk(x', t) {
      assert TimerOk(x, t);
    }
  }

  /** The use of a deleted event, and which datagrams errors have answered, show nowhere here. */
  lemma UnseenInv(p: Periods, x: Timed, fault: bool, answered: set<int>)
    requires Inv(p, x)
    ensures Inv(p, x.(s := x.s.(fault := fault), answered := answered))
  {
    var x' := x.(s := x.s.(fault := fault), answered := answered);
    forall e ensures EventOk(x', e) {
      assert EventOk(x, e);
    }
    forall e, f ensures PairOk(x'.s, e, f) {
      assert PairOk(x.s, e, f);
    }
    forall t ensures TimerOk(x', t) {
      assert TimerOk(x, t);
    }
    forall t, n ensures ReportsOk(x'.s, t, n) {
      assert ReportsOk(x.s, t, n);
    }
    forall fd ensures OpenOk(x'.s, fd) {
      assert OpenOk(x.s, fd);
    }
  }

  lemma HitInv(p: Periods, x: Timed, key: Text, answered: set<int>)
    requires Inv(p, x)
    ensures Inv(p, x.(s := Hit(x.s, key), answered := answered))
  {
    var s' := Hit(x.s, key);
    if key !in x.s.index || x.s.index[key] !in x.s.events {
      UnseenInv(p, x, s'.fault, answered);
    } else {
      ResolveInv(p, x, x.s.index[key], 0, x.s.index);
      UnseenInv(p, x.(s := Resolve(x.s, x.s.index[key], 0, x.s.index)), s'.fault, answered);
    }
  }

  lemma StepInv(p: Periods, x: Timed, a: Action)
    requires Inv(p, x) && Possible(p, x, a)
    ensures Inv(p, Apply(p, x, a))
  {
    match a
    case Run(t) =>
      NotWaitingWhenRun(p, x, t);
      RunInv(p, x, t);
    case Fire(e) => ResolveInv(p, x, e, 1, x.s.index - {KeyOf(x.s, x.s.events[e])});
    case Unreachable(t) => HitInv(p, x, KeyOf(x.s, t), x.answered + {t});
    case Stray(key) => HitInv(p, x, key, x.answered);
    case Wait(d) => WaitInv(p, x, d);
  }

  lemma {:induction false} ExecInv(p: Periods, x: Timed, actions: seq<Action>, strict: bool)
    requires Start(p, x) && Paced(p, x.s.tests) && Exec(p, x, actions, strict).Some?
    ensures Inv(p, Exec(p, x, actions, strict).value)
    decreases |actions|
  {
    if actions == [] {
      StartInv(p, x);
    } else {
      var n := |actions| - 1;
      ExecInv(p, x, actions[..n], strict);
      StepInv(p, Exec(p, x, actions[..n], strict).value, actions[n]);
    }
  }

  // ---- The laws ----

  /**
   * Whatever errors arrive, and whichever targets coincide: each run of a test with a timeout is
   * reported once when it is over and not before, and no run of another test ever is.
   */
  lemma OneVerdictPerRun(p: Periods, x0: Timed, actions: seq<Action>, t: int, n: nat)
    requires Start(p, x0) && Paced(p, x0.s.tests) && Exec(p, x0, actions, false).Some?
    ensures var s := Exec(p, x0, actions, false).value.s;
      t in s.tests ==> Count(s.reports, t, n) == if s.tests[t].timeout > 0 && Resolved(s, t, n) then 1 else 0
  {
    ExecInv(p, x0, actions, false);
    assert ReportsOk(Exec(p, x0, actions, false).value.s, t, n);
  }

  /**
   * Every socket made is open or was closed, and closed once only; a waiting test has its own, and
   * where every test has a timeout no other socket is open.
   */
  lemma SocketsAccounted(p: Periods, x0: Timed, actions: seq<Action>, fd: int, strict: bool)
    requires Start(p, x0) && Paced(p, x0.s.tests) && Exec(p, x0, actions, strict).Some?
    ensures var s := Exec(p, x0, actions, strict).value.s;
      && (0 <= fd < s.nextSocket <==> fd in s.open || fd in s.closed)
      && !(fd in s.open && fd in s.closed)
      && (Holds(s, fd) ==> fd in s.open) && (Timely(s.tests) && fd in s.open ==> Holds(s, fd))
      && (forall i, j :: 0 <= i < j < |s.closed| ==> s.closed[i] != s.closed[j])
  {
    var x := Exec(p, x0, actions, strict).value;
    ExecInv(p, x0, actions, strict);
    assert OpenOk(x.s, fd) && ClosedOk(x.s);
    if e :| e in x.s.events && x.s.events[e] in x.s.tests && x.s.tests[x.s.events[e]].sockfd == fd {
      assert EventOk(x, e);
    }
  }
}
