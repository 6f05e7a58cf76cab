/** The conditions of the UDP laws are exactly right, for any number of tests and any schedule. */
module UdpLimits {
  import opened Bytes
  import opened UdpVerdict
  import opened UdpRuns
  import opened UdpLaws

  /** Some restrained run leads from x to y. */
  ghost predicate Reaches(p: Periods, x: Timed, y: Timed) {
    exists actions :: Exec(p, x, actions, true) == Some(y)
  }

  lemma ReachesSelf(p: Periods, x: Timed)
    ensures Reaches(p, x, x)
  {
    assert Exec(p, x, [], true) == Some(x);
  }

  lemma ExecSnoc(p: Periods, x: Timed, actions: seq<Action>, y: Timed, a: Action)
    requires Exec(p, x, actions, true) == Some(y) && Possible(p, y, a) && Restrained(y, a)
    ensures Exec(p, x, actions + [a], true) == Some(Apply(p, y, a))
  {
    assert (actions + [a])[..|actions|] == actions;
  }

  lemma ReachesStep(p: Periods, x: Timed, y: Timed, a: Action)
    requires Reaches(p, x, y) && Possible(p, y, a) && Restrained(y, a)
    ensures Reaches(p, x, Apply(p, y, a))
  {
    var actions :| Exec(p, x, actions, true) == Some(y);
    ExecSnoc(p, x, actions, y, a);
  }

  // ---- Letting time pass until a test is due ----

  /** Only v may wait for an outcome, and then until its next turn at least. */
  ghost predicate Rested(p: Periods, x: Timed, v: int) {
    && Shape(p, x) && v in x.s.tests
    && (forall t :: t in x.s.tests ==> p[t] > 0 && x.now <= x.nextRun[t])
    && (forall e :: e in x.s.events ==> x.s.events[e] == v && x.deadline[e] >= x.nextRun[v])
  }

  /** Configurations stay, and nothing happens to v. */
  ghost predicate Onward(x: Timed, y: Timed, v: int) {
    && x.s.tests.Keys == y.s.tests.Keys && v in x.s.tests && v in x.nextRun && v in y.nextRun
    && (forall t :: t in x.s.tests ==> y.s.tests[t].runs >= x.s.tests[t].runs)
    && (forall t :: t in x.s.tests ==> y.s.tests[t].addr == x.s.tests[t].addr)
    && (forall t :: t in x.s.tests ==> y.s.tests[t].timeout == x.s.tests[t].timeout)
    && y.s.tests[v] == x.s.tests[v] && y.nextRun[v] == x.nextRun[v] && y.s.events == x.s.events
    && y.answered <= x.answered
  }

  lemma OnwardOn(x: Timed, y: Timed, z: Timed, v: int)
    requires Onward(x, y, v) && Onward(y, z, v)
    ensures Onward(x, z, v)
  {
    forall t | t in x.s.tests
      ensures z.s.tests[t].addr == x.s.tests[t].addr
      ensures z.s.tests[t].timeout == x.s.tests[t].timeout && z.s.tests[t].runs >= x.s.tests[t].runs
    {
      assert t in y.s.tests;
    }
  }

  ghost function Due(x: Timed): set<int> {
    set t | t in x.nextRun && x.nextRun[t] == x.now
  }

  /** A run of m whose outcome, if it waits for one, comes at once. */
  ghost function Brief(p: Periods, x: Timed, m: int): Timed
    requires Possible(p, x, Run(m))
  {
    RunShape(p, x, m);
    RunParts(p, x, m);
    var x1 := Apply(p, x, Run(m));
    if x.s.tests[m].timeout > 0 then Apply(p, x1, Fire(x.s.nextEvent)) else x1
  }

  lemma BriefReached(p: Periods, x0: Timed, x: Timed, m: int)
    requires Reaches(p, x0, x) && Possible(p, x, Run(m))
    ensures Reaches(p, x0, Brief(p, x, m))
  {
    RunShape(p, x, m);
    RunParts(p, x, m);
    hide Ran, Reaches;
    ReachesStep(p, x0, x, Run(m));
    if x.s.tests[m].timeout > 0 {
      ReachesStep(p, x0, Apply(p, x, Run(m)), Fire(x.s.nextEvent));
    }
  }

  lemma BriefParts(p: Periods, x: Timed, m: int)
    requires Possible(p, x, Run(m))
    ensures var y := Brief(p, x, m);
      && y.s.events == x.s.events && y.now == x.now && y.nextRun == x.nextRun[m := x.now + 1000 * p[m]]
      && y.answered == x.answered - {m} && x.s.nextEvent <= y.s.nextEvent
      && (forall e :: e in x.s.events ==> e in y.deadline && y.deadline[e] == x.deadline[e])
      && y.s.tests.Keys == x.s.tests.Keys
      && (forall t :: t in x.s.tests && t != m ==> y.s.tests[t] == x.s.tests[t])
      && y.s.tests[m].addr == x.s.tests[m].addr && y.s.tests[m].timeout == x.s.tests[m].timeout
      && y.s.tests[m].runs == x.s.tests[m].runs + 1
  {
    RunShape(p, x, m);
    RunParts(p, x, m);
    hide Ran;
    var e := x.s.nextEvent;
    assert e !in x.s.events;
    assert x.s.events[e := m] - {e} == x.s.events;
  }

  lemma BriefRests(p: Periods, x: Timed, m: int, v: int)
    requires Rested(p, x, v) && Possible(p, x, Run(m)) && m != v
    ensures Rested(p, Brief(p, x, m), v) && Onward(x, Brief(p, x, m), v) && Due(Brief(p, x, m)) == Due(x) - {m}
  {
    BriefParts(p, x, m);
    hide Brief;
    assert p[m] > 0;
  }

  lemma WaitRests(p: Periods, x: Timed, v: int)
    requires Rested(p, x, v) && Due(x) == {}
    ensures Possible(p, x, Wait(1)) && Rested(p, Apply(p, x, Wait(1)), v) && Onward(x, Apply(p, x, Wait(1)), v)
    ensures x.now < x.nextRun[v]
  {
    forall t | t in x.nextRun ensures x.now + 1 <= x.nextRun[t] {
      assert t !in Due(x);
    }
  }

  /** Whatever the other tests do, a restrained run leads to the next turn of v. */
  lemma {:induction false} ReachTurn(p: Periods, x0: Timed, x: Timed, v: int) returns (y: Timed)
    requires Reaches(p, x0, x) && Rested(p, x, v)
    ensures Reaches(p, x0, y) && Rested(p, y, v) && Onward(x, y, v) && Possible(p, y, Run(v))
    decreases x.nextRun[v] - x.now, |Due(x)|
  {
    if x.nextRun[v] == x.now {
      y := x;
    } else if Due(x) == {} {
      WaitRests(p, x, v);
      ReachesStep(p, x0, x, Wait(1));
      y := ReachTurn(p, x0, Apply(p, x, Wait(1)), v);
      OnwardOn(x, Apply(p, x, Wait(1)), y, v);
    } else {
      assert (forall t :: t !in Due(x)) ==> Due(x) == {};
      var m :| m in Due(x);
      BriefReached(p, x0, x, m);
      BriefRests(p, x, m, v);
      BriefParts(p, x, m);
      hide Brief, Onward, Reaches;
      y := ReachTurn(p, x0, Brief(p, x, m), v);
      OnwardOn(x, Brief(p, x, m), y, v);
    }
  }

  // ---- Two tests of one target ----

  /** t is due and will wait; u, of the same target, has sent a datagram that nothing answered. */
  ghost predicate Primed(p: Periods, x: Timed, t: int, u: int) {
    && Possible(p, x, Run(t)) && u in x.s.tests && t != u && x.s.tests[t].addr == x.s.tests[u].addr
    && x.s.tests[t].timeout > 0 && x.s.tests[u].runs > 0 && x.s.events == map[] && x.answered == {}
  }

  lemma ReachPrimed(p: Periods, x0: Timed, t: int, u: int) returns (x: Timed)
    requires Start(p, x0) && t in x0.s.tests && u in x0.s.tests && t != u
    requires x0.s.tests[t].addr == x0.s.tests[u].addr && x0.s.tests[t].timeout > 0
    ensures Reaches(p, x0, x) && Primed(p, x, t, u)
  {
    ReachesSelf(p, x0);
    var y := ReachTurn(p, x0, x0, u);
    BriefReached(p, x0, y, u);
    BriefParts(p, y, u);
    BriefAgain(p, y, u, t);
    hide Brief, Reaches;
    x := ReachTurn(p, x0, Brief(p, y, u), t);
  }

  lemma BriefAgain(p: Periods, x: Timed, m: int, v: int)
    requires Rested(p, x, m) && Possible(p, x, Run(m)) && x.s.events == map[] && v in x.s.tests
    ensures Rested(p, Brief(p, x, m), v)
  {
    BriefParts(p, x, m);
    hide Brief;
    assert p[m] > 0;
  }

  /** The error for the datagram of u settles t, which waits at that address. */
  lemma PrimedBlames(p: Periods, x: Timed, t: int, u: int)
    requires Primed(p, x, t, u)
    ensures var y := Apply(p, x, Run(t));
      && Possible(p, y, Unreachable(u)) && Restrained(y, Unreachable(u))
      && Possible(p, y, Unreachable(t)) && Restrained(y, Unreachable(t))
      && KeyOf(y.s, u) == KeyOf(y.s, t)
      && Hit(y.s, KeyOf(y.s, u)) == Resolve(y.s, x.s.nextEvent, 0, y.s.index)
      && y.s.events == map[x.s.nextEvent := t] && y.s.index[KeyOf(y.s, t)] == x.s.nextEvent
  {
    RunShape(p, x, t);
    RunParts(p, x, t);
    hide Ran;
  }

  lemma PrimedFaults(p: Periods, x: Timed, t: int, u: int)
    requires Primed(p, x, t, u)
    ensures var y := Apply(p, x, Run(t));
      && Possible(p, y, Unreachable(t)) && Restrained(y, Unreachable(t))
      && var z := Apply(p, y, Unreachable(t));
      && Possible(p, z, Unreachable(u)) && Restrained(z, Unreachable(u)) && Apply(p, z, Unreachable(u)).s.fault
  {
    PrimedBlames(p, x, t, u);
    RunShape(p, x, t);
    RunParts(p, x, t);
    hide Ran;
    var y := Apply(p, x, Run(t));
    ResolveShape(p, y, x.s.nextEvent, 0, y.s.index, y.answered + {t});
    SameTimeouts(y.s, x.s.nextEvent, 0, y.s.index);
  }

  /** The error for the datagram of t is reported against another test. */
  ghost predicate Blames(p: Periods, x: Timed, t: int) {
    && Possible(p, x, Unreachable(t)) && Restrained(x, Unreachable(t))
    && exists r :: Apply(p, x, Unreachable(t)).s.reports == x.s.reports + [r] && r.test != t
  }

  lemma NotApart(tests: map<int, Udp>) returns (t: int, u: int)
    requires !Apart(tests)
    ensures t in tests && u in tests && t != u && tests[t].addr == tests[u].addr && tests[t].timeout > 0
  {
    t, u :| t in tests && u in tests && t != u && tests[t].addr == tests[u].addr
            && !(tests[t].timeout <= 0 && tests[u].timeout <= 0);
    if tests[t].timeout <= 0 {
      t, u := u, t;
    }
  }

  /**
   * Some restrained run uses a deleted event if and only if two tests share a target and one of
   * them waits for outcomes.
   */
  lemma SharedTargetsFaultExactly(p: Periods, x0: Timed)
    requires Start(p, x0)
    ensures (exists z :: Reaches(p, x0, z) && z.s.fault) <==> !Apart(x0.s.tests)
  {
    if !Apart(x0.s.tests) {
      var t, u := NotApart(x0.s.tests);
      var x := ReachPrimed(p, x0, t, u);
      PrimedFaults(p, x, t, u);
      hide Reaches, Apply, Primed;
      var y := Apply(p, x, Run(t));
      RunDue(p, x, t, u);
      ReachesStep(p, x0, x, Run(t));
      ReachesStep(p, x0, y, Unreachable(t));
      ReachesStep(p, x0, Apply(p, y, Unreachable(t)), Unreachable(u));
    } else if z :| Reaches(p, x0, z) && z.s.fault {
      NoFault(p, x0, z);
    }
  }

  lemma RunDue(p: Periods, x: Timed, t: int, u: int)
    requires Primed(p, x, t, u)
    ensures Possible(p, x, Run(t)) && Restrained(x, Run(t))
  {
  }

  lemma NoFault(p: Periods, x0: Timed, z: Timed)
    requires Start(p, x0) && Apart(x0.s.tests) && Reaches(p, x0, z)
    ensures IndexInv(p, z)
  {
    var actions :| Exec(p, x0, actions, true) == Some(z);
    ExecIndex(p, x0, actions);
  }

  /** And some restrained run reports an error against a test it was not about, in the same case. */
  lemma SharedTargetsBlameExactly(p: Periods, x0: Timed)
    requires Start(p, x0)
    ensures (exists x, t :: Reaches(p, x0, x) && Blames(p, x, t)) <==> !Apart(x0.s.tests)
  {
    if !Apart(x0.s.tests) {
      var t, u := NotApart(x0.s.tests);
      var x := ReachPrimed(p, x0, t, u);
      RunDue(p, x, t, u);
      ReachesStep(p, x0, x, Run(t));
      PrimedBlames(p, x, t, u);
      BlamesOther(p, x, t, u);
    } else if x, t :| Reaches(p, x0, x) && Blames(p, x, t) {
      NoFault(p, x0, x);
      NeverBlames(p, x, t);
    }
  }

  lemma BlamesOther(p: Periods, x: Timed, t: int, u: int)
    requires Primed(p, x, t, u)
    ensures Blames(p, Apply(p, x, Run(t)), u)
  {
    PrimedBlames(p, x, t, u);
    var y := Apply(p, x, Run(t));
    RunShape(p, x, t);
    hide Ran;
    assert Apply(p, y, Unreachable(u)).s.reports == y.s.reports + [Report(t, y.s.tests[t].runs, 0)];
  }

  lemma NeverBlames(p: Periods, x: Timed, t: int)
    requires IndexInv(p, x)
    ensures !Blames(p, x, t)
  {
    if Possible(p, x, Unreachable(t)) && Restrained(x, Unreachable(t)) {
      ErrorFindsOwn(p, x, t);
      var after := Apply(p, x, Unreachable(t)).s.reports;
      forall r | after == x.s.reports + [r] ensures r.test == t {
        assert after[|x.s.reports|] == r;
      }
    }
  }

  /** While two tests of one target wait, the outcome of the first hides the error of the second. */
  lemma SharedTargetHidesError(p: Periods, x0: Timed, actions: seq<Action>, x: Timed, e: nat, f: nat)
    requires Start(p, x0) && Paced(p, x0.s.tests) && Exec(p, x0, actions, true) == Some(x)
    requires e in x.s.events && f in x.s.events && x.s.events[e] in x.s.tests && x.s.events[f] in x.s.tests
    requires x.s.events[e] != x.s.events[f] && x.s.events[f] !in x.answered
    requires x.s.tests[x.s.events[e]].addr == x.s.tests[x.s.events[f]].addr
    ensures Exec(p, x0, actions + [Fire(e)] + [Unreachable(x.s.events[f])], true).Some?
    ensures var z := Exec(p, x0, actions + [Fire(e)] + [Unreachable(x.s.events[f])], true).value;
      z.s == Fired(x.s, e) && Waiting(z.s, x.s.events[f])
  {
    ExecInv(p, x0, actions, true);
    assert EventOk(x, f);
    ExecSnoc(p, x0, actions, x, Fire(e));
    var y := Apply(p, x, Fire(e));
    SameTimeouts(x.s, e, 1, x.s.index - {KeyOf(x.s, x.s.events[e])});
    ResolveShape(p, x, e, 1, x.s.index - {KeyOf(x.s, x.s.events[e])}, x.answered);
    assert y.s.events[f] == x.s.events[f];
    ExecSnoc(p, x0, actions + [Fire(e)], y, Unreachable(x.s.events[f]));
  }

  // ---- Timeouts of a period or more ----

  predicate Repeats(closed: seq<int>) {
    exists i, j :: 0 <= i < j < |closed| && closed[i] == closed[j]
  }

  /** v has run while its last run still waits: the two events share the newer socket. */
  lemma OverlapClosesTwice(p: Periods, x: Timed, e: nat, f: nat)
    requires Shape(p, x) && e in x.s.events && f in x.s.events && e != f && x.s.events[e] == x.s.events[f]
    ensures Possible(p, x, Fire(e))
    ensures var y := Apply(p, x, Fire(e)); Possible(p, y, Fire(f)) && Repeats(Apply(p, y, Fire(f)).s.closed)
  {
    var idx := x.s.index - {KeyOf(x.s, x.s.events[e])};
    ResolveShape(p, x, e, 1, idx, x.answered);
    var y := Apply(p, x, Fire(e));
    var z, n := Apply(p, y, Fire(f)), |x.s.closed|;
    assert z.s.closed[n] == z.s.closed[n + 1];
  }

  lemma ReachOverlap(p: Periods, x0: Timed, v: int) returns (x: Timed, e: nat, f: nat)
    requires Start(p, x0) && v in x0.s.tests && x0.s.tests[v].timeout >= 1000 * p[v]
    ensures Reaches(p, x0, x) && Shape(p, x)
    ensures e in x.s.events && f in x.s.events && e != f && x.s.events[e] == x.s.events[f]
  {
    ReachesSelf(p, x0);
    var y := ReachTurn(p, x0, x0, v);
    ReachesStep(p, x0, y, Run(v));
    LongRunRests(p, y, v);
    var w := Apply(p, y, Run(v));
    e := y.s.nextEvent;
    hide Apply;
    x := ReachTurn(p, x0, w, v);
    f := x.s.nextEvent;
    ReachesStep(p, x0, x, Run(v));
    SecondRun(p, x, v, e);
    x := Apply(p, x, Run(v));
  }

  lemma LongRunRests(p: Periods, x: Timed, v: int)
    requires Rested(p, x, v) && Possible(p, x, Run(v)) && x.s.events == map[] && x.s.tests[v].timeout >= 1000 * p[v]
    ensures Rested(p, Apply(p, x, Run(v)), v) && Apply(p, x, Run(v)).s.events == map[x.s.nextEvent := v]
    ensures Apply(p, x, Run(v)).s.tests[v].timeout == x.s.tests[v].timeout
  {
    RunShape(p, x, v);
    RunParts(p, x, v);
    hide Ran;
    assert p[v] > 0;
  }

  lemma SecondRun(p: Periods, x: Timed, v: int, e: nat)
    requires Possible(p, x, Run(v)) && e in x.s.events && x.s.events[e] == v && x.s.tests[v].timeout > 0
    ensures var y, f := Apply(p, x, Run(v)), x.s.nextEvent;
      Shape(p, y) && e in y.s.events && f in y.s.events && e != f && y.s.events[e] == y.s.events[f] == v
  {
    RunShape(p, x, v);
    RunParts(p, x, v);
    hide Ran;
  }

  lemma {:induction false} ExecWeakens(p: Periods, x: Timed, actions: seq<Action>)
    requires Exec(p, x, actions, true).Some?
    ensures Exec(p, x, actions, false) == Exec(p, x, actions, true)
    decreases |actions|
  {
    hide Apply, Possible, Restrained;
    if actions != [] {
      ExecWeakens(p, x, actions[..|actions| - 1]);
    }
  }

  /**
   * Some run closes a socket twice, with or without restraint on errors, if and only if the timeout
   * of some test reaches the time between its runs.
   */
  lemma ClosesTwiceExactly(p: Periods, x0: Timed, strict: bool)
    requires Start(p, x0)
    ensures (exists actions ::
               Exec(p, x0, actions, strict).Some? && Repeats(Exec(p, x0, actions, strict).value.s.closed))
      <==> !Paced(p, x0.s.tests)
  {
    if !Paced(p, x0.s.tests) {
      var actions := SomeRunRepeats(p, x0);
      ExecWeakens(p, x0, actions);
    } else if actions :| Exec(p, x0, actions, strict).Some? && Repeats(Exec(p, x0, actions, strict).value.s.closed) {
      SocketsAccounted(p, x0, actions, 0, strict);
    }
  }

  lemma SomeRunRepeats(p: Periods, x0: Timed) returns (actions: seq<Action>)
    requires Start(p, x0) && !Paced(p, x0.s.tests)
    ensures Exec(p, x0, actions, true).Some? && Repeats(Exec(p, x0, actions, true).value.s.closed)
  {
    var v :| v in x0.s.tests && !(v in p && x0.s.tests[v].timeout < 1000 * p[v]);
    var x, e, f := ReachOverlap(p, x0, v);
    OverlapClosesTwice(p, x, e, f);
    var y := Apply(p, x, Fire(e));
    hide Apply, Repeats, Start;
    ReachesStep(p, x0, x, Fire(e));
    ReachesStep(p, x0, y, Fire(f));
    actions :| Exec(p, x0, actions, true) == Some(Apply(p, y, Fire(f)));
  }
}
