/** Which run an error settles: the unreachable index over all restrained interleavings. */
module UdpLaws {
  import opened Channel
  import opened AddrKey
  import opened UdpVerdict
  import opened UdpRuns

  /** Tests of one target never wait for an outcome. */
  ghost predicate Apart(tests: map<int, Udp>) {
    forall t, u :: t in tests && u in tests && t != u && tests[t].addr == tests[u].addr
      ==> tests[t].timeout <= 0 && tests[u].timeout <= 0
  }

  lemma KeysDiffer(s: UdpState, t: int, u: int)
    requires Apart(s.tests) && t in s.tests && u in s.tests && t != u && s.tests[t].timeout > 0
    ensures KeyOf(s, t) != KeyOf(s, u)
  {
    KeyInjective(s.tests[t].addr, s.tests[u].addr);
  }

  // ---- The index ----

  /** The entry for key is of t: its event, or an event that an error has deleted. */
  ghost predicate Owns(x: Timed, key: Text, t: int)
    requires key in x.s.index
  {
    && t in x.s.tests && x.s.tests[t].timeout > 0 && KeyOf(x.s, t) == key
    && if x.s.index[key] in x.s.events then x.s.events[x.s.index[key]] == t
       else Refused(x.s, t) && t in x.answered
  }

  ghost predicate IndexOk(x: Timed, key: Text) {
    key in x.s.index ==> x.s.index[key] < x.s.nextEvent && exists t :: Owns(x, key, t)
  }

  ghost predicate IndexInv(p: Periods, x: Timed) {
    Shape(p, x) && Apart(x.s.tests) && !x.s.fault && forall key :: IndexOk(x, key)
  }

  lemma RunIndex(p: Periods, x: Timed, t: int, key: Text)
    requires IndexInv(p, x) && Possible(p, x, Run(t))
    ensures IndexOk(Apply(p, x, Run(t)), key)
  {
    RunParts(p, x, t);
    hide Ran;
    var x' := Apply(p, x, Run(t));
    assert KeyOf(x'.s, t) == KeyOf(x.s, t);
    if x.s.tests[t].timeout > 0 && key == KeyOf(x.s, t) {
      assert Owns(x', key, t);
    } else if key in x.s.index {
      assert IndexOk(x, key);
      var u :| Owns(x, key, u);
      assert Owns(x', key, u);
    }
  }

  /** Entries of other tests do not see an outcome of e. */
  lemma OtherEntry(x: Timed, e: nat, status: int, idx: map<Text, nat>, answered: set<int>, key: Text)
    requires e in x.s.events && x.s.events[e] in x.s.tests && IndexOk(x, key) && x.answered <= answered
    requires key in idx ==> key in x.s.index && idx[key] == x.s.index[key]
    requires key != KeyOf(x.s, x.s.events[e])
    ensures IndexOk(x.(s := Resolve(x.s, e, status, idx), answered := answered), key)
  {
    if key in idx {
      var u :| Owns(x, key, u);
      assert Owns(x.(s := Resolve(x.s, e, status, idx), answered := answered), key, u);
    }
  }

  lemma RefusedNow(s: UdpState, e: nat, idx: map<Text, nat>)
    requires e in s.events && s.events[e] in s.tests
    ensures Refused(Resolve(s, e, 0, idx), s.events[e])
  {
    var r := Report(s.events[e], s.tests[s.events[e]].runs, 0);
    assert (s.reports + [r])[|s.reports|] == r;
  }

  /** Where an error for t finds an entry, it is the live event of t. */
  lemma ErrorFindsOwn(p: Periods, x: Timed, t: int)
    requires IndexInv(p, x) && Possible(p, x, Unreachable(t)) && Restrained(x, Unreachable(t))
    ensures var key := KeyOf(x.s, t);
      key in x.s.index ==> x.s.index[key] in x.s.events && x.s.events[x.s.index[key]] == t && Owns(x, key, t)
  {
    var key := KeyOf(x.s, t);
    assert IndexOk(x, key);
    if key in x.s.index {
      var u :| Owns(x, key, u);
      if u != t {
        KeysDiffer(x.s, u, t);
      }
    }
  }

  lemma UnreachableIndex(p: Periods, x: Timed, t: int, key: Text)
    requires IndexInv(p, x) && Possible(p, x, Unreachable(t)) && Restrained(x, Unreachable(t))
    ensures IndexOk(Apply(p, x, Unreachable(t)), key) && !Apply(p, x, Unreachable(t)).s.fault
  {
    var own, answered := KeyOf(x.s, t), x.answered + {t};
    ErrorFindsOwn(p, x, t);
    assert IndexOk(x, key);
    if own !in x.s.index {
      if key in x.s.index {
        var u :| Owns(x, key, u);
        assert Owns(x.(answered := answered), key, u);
      }
    } else {
      var e := x.s.index[own];
      var x' := x.(s := Resolve(x.s, e, 0, x.s.index), answered := answered);
      if key == own {
        RefusedNow(x.s, e, x.s.index);
        assert Owns(x', key, t);
      } else {
        OtherEntry(x, e, 0, x.s.index, answered, key);
      }
    }
  }

  lemma FireIndex(p: Periods, x: Timed, e: nat, key: Text)
    requires IndexInv(p, x) && e in x.s.events
    ensures IndexOk(x.(s := Fired(x.s, e)), key)
  {
    assert IndexOk(x, key);
    var own := KeyOf(x.s, x.s.events[e]);
    if key != own {
      OtherEntry(x, e, 1, x.s.index - {own}, x.answered, key);
    }
  }

  lemma StrayIndex(p: Periods, x: Timed, key: Text)
    requires IndexInv(p, x) && Possible(p, x, Stray(key))
    ensures Apply(p, x, Stray(key)) == x
  {
    if key in x.s.index {
      OwnerHasKey(p, x, key);
    }
  }

  lemma OwnerHasKey(p: Periods, x: Timed, key: Text)
    requires IndexInv(p, x) && key in x.s.index
    ensures exists t :: t in x.s.tests && KeyOf(x.s, t) == key
  {
    assert IndexOk(x, key);
    var t :| Owns(x, key, t);
  }

  lemma RunShape(p: Periods, x: Timed, t: int)
    requires Possible(p, x, Run(t))
    ensures var x' := Apply(p, x, Run(t)); Shape(p, x') && x'.s.fault == x.s.fault
    ensures Apart(x.s.tests) ==> Apart(Ran(x.s, t).tests)
  {
    RunParts(p, x, t);
    hide Ran;
  }

  lemma ResolveShape(p: Periods, x: Timed, e: nat, status: int, idx: map<Text, nat>, answered: set<int>)
    requires Shape(p, x) && e in x.s.events
    ensures var x' := x.(s := Resolve(x.s, e, status, idx), answered := answered);
      Shape(p, x') && x'.s.fault == x.s.fault
    ensures Apart(x.s.tests) ==> Apart(Resolve(x.s, e, status, idx).tests)
  {
    SameTimeouts(x.s, e, status, idx);
  }

  lemma StepIndex(p: Periods, x: Timed, a: Action)
    requires IndexInv(p, x) && Possible(p, x, a) && Restrained(x, a)
    ensures IndexInv(p, Apply(p, x, a))
  {
    var x' := Apply(p, x, a);
    match a
    case Run(t) =>
      RunShape(p, x, t);
      forall key ensures IndexOk(x', key) {
        RunIndex(p, x, t, key);
      }
    case Fire(e) =>
      ResolveShape(p, x, e, 1, x.s.index - {KeyOf(x.s, x.s.events[e])}, x.answered);
      forall key ensures IndexOk(x', key) {
        FireIndex(p, x, e, key);
      }
    case Unreachable(t) =>
      ErrorFindsOwn(p, x, t);
      if KeyOf(x.s, t) in x.s.index {
        ResolveShape(p, x, x.s.index[KeyOf(x.s, t)], 0, x.s.index, x.answered + {t});
      }
      forall key ensures IndexOk(x', key) {
        UnreachableIndex(p, x, t, key);
      }
    case Stray(key) => StrayIndex(p, x, key);
    case Wait(_) =>
      forall key ensures IndexOk(x', key) {
        WaitIndex(x, x'.now, key);
      }
  }

  lemma WaitIndex(x: Timed, now: int, key: Text)
    requires IndexOk(x, key)
    ensures IndexOk(x.(now := now), key)
  {
    if key in x.s.index {
      var u :| Owns(x, key, u);
      assert Owns(x.(now := now), key, u);
    }
  }

  /** With targets apart no restrained run uses a deleted event, however long the timeouts are. */
  lemma {:induction false} ExecIndex(p: Periods, x: Timed, actions: seq<Action>)
    requires Start(p, x) && Apart(x.s.tests) && Exec(p, x, actions, true).Some?
    ensures IndexInv(p, Exec(p, x, actions, true).value)
    decreases |actions|
  {
    if actions != [] {
      var n := |actions| - 1;
      ExecIndex(p, x, actions[..n]);
      StepIndex(p, Exec(p, x, actions[..n], true).value, actions[n]);
    }
  }

  // ---- Entries of waiting and of refused tests ----

  ghost predicate EntryOk(s: UdpState, e: nat) {
    e in s.events ==>
      s.events[e] in s.tests && KeyOf(s, s.events[e]) in s.index && s.index[KeyOf(s, s.events[e])] == e
  }

  ghost predicate RefusedOk(s: UdpState, t: int) {
    t in s.tests && Refused(s, t) ==> KeyOf(s, t) in s.index && s.index[KeyOf(s, t)] !in s.events
  }

  ghost predicate BoardInv(p: Periods, x: Timed) {
    Inv(p, x) && IndexInv(p, x) && (forall e :: EntryOk(x.s, e)) && (forall t :: RefusedOk(x.s, t))
  }

  lemma RunEntry(p: Periods, x: Timed, t: int, f: nat)
    requires BoardInv(p, x) && Possible(p, x, Run(t))
    ensures EntryOk(Ran(x.s, t), f)
  {
    RunParts(p, x, t);
    NotWaitingWhenRun(p, x, t);
    hide Ran;
    assert EntryOk(x.s, f);
    if f in x.s.events {
      assert x.s.events[f] != t;
      if x.s.tests[t].timeout > 0 {
        KeysDiffer(x.s, t, x.s.events[f]);
      }
    }
  }

  lemma {:induction false} Uncounted(reports: seq<Report>, r: Report)
    requires Count(reports, r.test, r.run) == 0
    ensures r !in reports
    decreases |reports|
  {
    if reports != [] {
      var n := |reports| - 1;
      Uncounted(reports[..n], r);
      assert reports == reports[..n] + [reports[n]];
    }
  }

  lemma RunRefused(p: Periods, x: Timed, t: int, u: int)
    requires BoardInv(p, x) && Possible(p, x, Run(t))
    ensures RefusedOk(Ran(x.s, t), u)
  {
    RunParts(p, x, t);
    hide Ran;
    if u == t {
      assert ReportsOk(x.s, t, x.s.tests[t].runs + 1);
      Uncounted(x.s.reports, Report(t, x.s.tests[t].runs + 1, 0));
    } else if u in x.s.tests {
      assert RefusedOk(x.s, u) && IndexOk(x, KeyOf(x.s, u));
      if x.s.tests[t].timeout > 0 {
        KeysDiffer(x.s, t, u);
      }
    }
  }

  lemma ResolveEntry(p: Periods, x: Timed, e: nat, status: int, idx: map<Text, nat>, f: nat)
    requires BoardInv(p, x) && e in x.s.events
    requires idx == x.s.index || idx == x.s.index - {KeyOf(x.s, x.s.events[e])}
    ensures EntryOk(Resolve(x.s, e, status, idx), f)
  {
    assert EntryOk(x.s, f) && EventOk(x, e) && PairOk(x.s, e, f);
    if f in x.s.events && f != e {
      KeysDiffer(x.s, x.s.events[e], x.s.events[f]);
    }
  }

  lemma ResolveRefused(p: Periods, x: Timed, e: nat, status: int, u: int)
    requires BoardInv(p, x) && e in x.s.events && 0 <= status <= 1
    ensures var idx := if status == 0 then x.s.index else x.s.index - {KeyOf(x.s, x.s.events[e])};
      RefusedOk(Resolve(x.s, e, status, idx), u)
  {
    var t := x.s.events[e];
    var r := Report(t, x.s.tests[t].runs, status);
    assert EntryOk(x.s, e) && EventOk(x, e) && RefusedOk(x.s, u);
    assert forall q :: q in x.s.reports + [r] <==> q in x.s.reports || q == r;
    if u in x.s.tests && u != t {
      KeysDiffer(x.s, t, u);
    }
  }

  lemma ResolveBoard(p: Periods, x: Timed, e: nat, status: int)
    requires BoardInv(p, x) && e in x.s.events && 0 <= status <= 1
    ensures var idx := if status == 0 then x.s.index else x.s.index - {KeyOf(x.s, x.s.events[e])};
      var s' := Resolve(x.s, e, status, idx);
      (forall f :: EntryOk(s', f)) && (forall u :: RefusedOk(s', u))
  {
    var idx := if status == 0 then x.s.index else x.s.index - {KeyOf(x.s, x.s.events[e])};
    forall f ensures EntryOk(Resolve(x.s, e, status, idx), f) {
      ResolveEntry(p, x, e, status, idx, f);
    }
    forall u ensures RefusedOk(Resolve(x.s, e, status, idx), u) {
      ResolveRefused(p, x, e, status, u);
    }
  }

  lemma StepBoardInv(p: Periods, x: Timed, a: Action)
    requires BoardInv(p, x) && Possible(p, x, a) && Restrained(x, a)
    ensures BoardInv(p, Apply(p, x, a))
  {
    StepInv(p, x, a);
    StepIndex(p, x, a);
    hide Inv, IndexInv, EntryOk, RefusedOk;
    match a
    case Run(t) =>
      forall f ensures EntryOk(Ran(x.s, t), f) {
        RunEntry(p, x, t, f);
      }
      forall u ensures RefusedOk(Ran(x.s, t), u) {
        RunRefused(p, x, t, u);
      }
    case Fire(e) =>
      ResolveBoard(p, x, e, 1);
      assert Fired(x.s, e) == Resolve(x.s, e, 1, x.s.index - {KeyOf(x.s, x.s.events[e])});
    case Unreachable(t) =>
      ErrorFindsOwn(p, x, t);
      if KeyOf(x.s, t) in x.s.index {
        var e := x.s.index[KeyOf(x.s, t)];
        ResolveBoard(p, x, e, 0);
        assert Hit(x.s, KeyOf(x.s, t)) == Resolve(x.s, e, 0, x.s.index);
      }
    case Stray(key) => StrayIndex(p, x, key);
    case Wait(_) =>
  }

  lemma StartBoardInv(p: Periods, x: Timed)
    requires Start(p, x) && Paced(p, x.s.tests) && Apart(x.s.tests)
    ensures BoardInv(p, x)
  {
    StartInv(p, x);
  }

  lemma {:induction false} ExecBoardInv(p: Periods, x: Timed, actions: seq<Action>)
    requires Start(p, x) && Paced(p, x.s.tests) && Apart(x.s.tests) && Exec(p, x, actions, true).Some?
    ensures BoardInv(p, Exec(p, x, actions, true).value)
    decreases |actions|
  {
    hide BoardInv;
    if actions == [] {
      StartBoardInv(p, x);
    } else {
      var n := |actions| - 1;
      ExecBoardInv(p, x, actions[..n]);
      StepBoardInv(p, Exec(p, x, actions[..n], true).value, actions[n]);
    }
  }

  // ---- The laws ----

  /**
   * What a run of worker_icmp_cb, the tests and their timers should come to, seen from outside: no
   * events, sockets or index, only the tests that wait for an outcome.
   */
  datatype Board = Board(pending: set<int>, runs: map<int, nat>, reports: seq<Report>)

  datatype Happening = Began(t: int) | Answer(t: int) | Refusal(t: int) | Nothing

  ghost function BoardOf(s: UdpState): Board {
    Board(set t | t in s.tests && Waiting(s, t), map t | t in s.tests :: s.tests[t].runs, s.reports)
  }

  ghost function Seen(p: Periods, x: Timed, a: Action): Happening
    requires Possible(p, x, a)
  {
    match a
    case Run(t) => Began(t)
    case Fire(e) => Answer(x.s.events[e])
    case Unreachable(t) => Refusal(t)
    case Stray(_) => Nothing
    case Wait(_) => Nothing
  }

  ghost function Settle(b: Board, t: int, status: int): Board
    requires t in b.runs
  {
    Board(b.pending - {t}, b.runs, b.reports + [Report(t, b.runs[t], status)])
  }

  /**
   * A test starts only when no run of it is pending. A read or timeout settles a pending test as
   * reachable; an error settles the test whose datagram it answers as unreachable if it is pending,
   * and does nothing otherwise.
   */
  ghost predicate Moves(tests: map<int, Udp>, b: Board, h: Happening, b': Board)
    requires b.pending <= b.runs.Keys <= tests.Keys
  {
    match h
    case Began(t) =>
      && t in b.runs && t !in b.pending
      && b' == Board(if tests[t].timeout > 0 then b.pending + {t} else b.pending, b.runs[t := b.runs[t] + 1], b.reports)
    case Answer(t) => t in b.pending && b' == Settle(b, t, 1)
    case Refusal(t) => b' == if t in b.pending then Settle(b, t, 0) else b
    case Nothing => b' == b
  }

  lemma BoardAfterResolve(p: Periods, x: Timed, e: nat, status: int, idx: map<Text, nat>)
    requires CanResolve(p, x, e)
    ensures var t := x.s.events[e];
      Waiting(x.s, t) && BoardOf(Resolve(x.s, e, status, idx)) == Settle(BoardOf(x.s), t, status)
  {
    var s', t := Resolve(x.s, e, status, idx), x.s.events[e];
    forall u | u in x.s.tests ensures Waiting(s', u) <==> Waiting(x.s, u) && u != t {
      ResolveWaiting(p, x, e, status, idx, u);
    }
    ResolveWaiting(p, x, e, status, idx, t);
    hide Waiting, Inv;
    assert BoardOf(s').pending == BoardOf(x.s).pending - {t};
    assert BoardOf(s').runs == BoardOf(x.s).runs;
  }

  lemma BoardAfterRun(p: Periods, x: Timed, t: int)
    requires Possible(p, x, Run(t)) && !Waiting(x.s, t)
    ensures Moves(x.s.tests, BoardOf(x.s), Began(t), BoardOf(Ran(x.s, t)))
  {
    var s' := Ran(x.s, t);
    RunParts(p, x, t);
    forall u | u in x.s.tests ensures Waiting(s', u) <==> Waiting(x.s, u) || (u == t && x.s.tests[t].timeout > 0) {
      RunWaiting(p, x, t, u);
    }
    hide Ran, Waiting;
    var b := BoardOf(x.s);
    assert BoardOf(s').pending == if x.s.tests[t].timeout > 0 then b.pending + {t} else b.pending;
    assert BoardOf(s').runs == b.runs[t := b.runs[t] + 1];
  }

  lemma BoardAfterError(p: Periods, x: Timed, t: int)
    requires BoardInv(p, x) && Possible(p, x, Unreachable(t)) && Restrained(x, Unreachable(t))
    ensures Moves(x.s.tests, BoardOf(x.s), Refusal(t), BoardOf(Hit(x.s, KeyOf(x.s, t))))
  {
    ErrorFindsOwn(p, x, t);
    if KeyOf(x.s, t) in x.s.index {
      BoardAfterResolve(p, x, x.s.index[KeyOf(x.s, t)], 0, x.s.index);
    } else if e :| e in x.s.events && x.s.events[e] == t {
      EntryThere(p, x, e);
    }
  }

  lemma EntryThere(p: Periods, x: Timed, e: nat)
    requires BoardInv(p, x) && e in x.s.events
    ensures x.s.events[e] in x.s.tests && KeyOf(x.s, x.s.events[e]) in x.s.index
  {
    assert EntryOk(x.s, e);
  }

  /** Every step of the code is the step of the board that its event calls for. */
  lemma StepSettles(p: Periods, x: Timed, a: Action)
    requires BoardInv(p, x) && Possible(p, x, a) && Restrained(x, a)
    ensures Moves(x.s.tests, BoardOf(x.s), Seen(p, x, a), BoardOf(Apply(p, x, a).s))
  {
    match a
    case Run(t) =>
      NotWaitingWhenRun(p, x, t);
      BoardAfterRun(p, x, t);
    case Fire(e) => BoardAfterResolve(p, x, e, 1, x.s.index - {KeyOf(x.s, x.s.events[e])});
    case Unreachable(t) => BoardAfterError(p, x, t);
    case Stray(key) => StrayIndex(p, x, key);
    case Wait(_) =>
  }

  /** The same for every restrained run from the start. */
  lemma EveryStepSettles(p: Periods, x0: Timed, actions: seq<Action>)
    requires Start(p, x0) && Paced(p, x0.s.tests) && Apart(x0.s.tests)
    requires actions != [] && Exec(p, x0, actions, true).Some?
    ensures var n := |actions| - 1;
      Exec(p, x0, actions[..n], true).Some? &&
      var x := Exec(p, x0, actions[..n], true).value;
      && Possible(p, x, actions[n])
      && Moves(x.s.tests, BoardOf(x.s), Seen(p, x, actions[n]), BoardOf(Exec(p, x0, actions, true).value.s))
  {
    var n := |actions| - 1;
    ExecBoardInv(p, x0, actions[..n]);
    StepSettles(p, Exec(p, x0, actions[..n], true).value, actions[n]);
  }

  /** An error uses a deleted event exactly when its target was already reported unreachable. */
  lemma FaultsExactly(p: Periods, x0: Timed, actions: seq<Action>, key: Text)
    requires Start(p, x0) && Paced(p, x0.s.tests) && Apart(x0.s.tests) && Exec(p, x0, actions, true).Some?
    ensures var s := Exec(p, x0, actions, true).value.s;
      && (forall e :: e in s.events ==> s.events[e] in s.tests)
      && (Hit(s, key).fault <==> exists t :: t in s.tests && KeyOf(s, t) == key && Refused(s, t))
  {
    var x := Exec(p, x0, actions, true).value;
    ExecBoardInv(p, x0, actions);
    assert IndexOk(x, key);
    if key in x.s.index && x.s.index[key] !in x.s.events {
      var t :| Owns(x, key, t);
    }
    if t :| t in x.s.tests && KeyOf(x.s, t) == key && Refused(x.s, t) {
      assert RefusedOk(x.s, t);
    }
  }
}
