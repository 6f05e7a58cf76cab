/** Concrete runs showing that the assumptions of the distribution protocol are needed. */
module Incidents {
  import opened Bytes
  import opened Channel
  import opened Metric
  import opened Ordered
  import opened Master
  import opened Worker
  import opened Distribution
  import opened Agreement

  /** A one-byte text is a PING metric whose id is that byte. */
  const PARSE: Parser := (t: Text) => if |t| == 1 then Some(Json(Some(t[0]), Some(Ping))) else None

  const SETUP := Setup(PARSE, [3, 4], [])
  const SEVEN: Text := [7]

  /** Worker 3 and worker 4 side by side. */
  datatype Pair<T> = Pair(three: T, four: T)

  function Both<T>(p: Pair<T>): (m: map<int, T>)
    ensures m.Keys == {3, 4} && m.Keys != {}
  {
    assert 3 in map[3 := p.three, 4 := p.four];
    map[3 := p.three, 4 := p.four]
  }

  function State(conf: map<int, Text>, route: map<int, int>, load: Pair<seq<int>>, down: Pair<seq<Message>>,
                 workers: Pair<WorkerState>, up: Pair<seq<int>>, added: map<int, Text>, distributed: bool): System {
    System(MasterState(conf, route, Both(load), Both(down)), Both(workers), Both(up), added, distributed)
  }

  const ADD7 := Message(ADDCONF, SEVEN)
  const DEL7 := Message(DELCONF, SEVEN)
  const PORT := Message(REDISPORT, [])
  const HOLDS7 := WorkerState(map[7 := SEVEN], multiset{7}, true)
  const CONF7: map<int, Text> := map[7 := SEVEN]

  lemma Sorted7()
    ensures Sorted({7}) == [7]
  {
    hide *;
    var q := Sorted({7});
    assert |q| == 1 && q[0] in q;
  }

  lemma Sorted34()
    ensures Sorted({3, 4}) == [3, 4]
  {
    hide *;
    var q := Sorted({3, 4});
    assert |q| == 2 && q[0] in q && q[1] in q;
  }

  lemma LeastOfTwo(load: map<int, seq<int>>)
    requires 3 in load && 4 in load && |load[3]| < 1000000
    ensures LeastFrom(load, [3, 4], 1000000, 3) == if |load[4]| < |load[3]| then 4 else 3
  {
    assert [3, 4][1..] == [4] && [4][1..] == [];
    assert LeastFrom(load, [3, 4], 1000000, 3) == LeastFrom(load, [4], |load[3]|, 3);
  }

  lemma Least(load: Pair<seq<int>>)
    requires |load.three| < 1000000
    ensures LeastLoaded(Both(load)) == if |load.four| < |load.three| then 4 else 3
  {
    Sorted34();
    LeastOfTwo(Both(load));
  }

  lemma Update<T>(p: Pair<T>, x: T)
    ensures Both(p)[3 := x] == Both(p.(three := x))
    ensures Both(p)[4 := x] == Both(p.(four := x))
  {
  }

  lemma ExecNothing(s0: System)
    ensures Exec(SETUP, s0, [], false) == Some(s0)
  {
  }

  lemma ExecStep(s0: System, actions: seq<Action>, mid: System, a: Action)
    requires Exec(SETUP, s0, actions, false) == Some(mid) && Possible(SETUP, mid, a)
    ensures Exec(SETUP, s0, actions + [a], false) == Some(Distribution.Apply(SETUP, mid, a))
  {
    assert (actions + [a])[..|actions|] == actions;
  }

  lemma StateShape(s: System)
    requires s.master.load.Keys == s.master.down.Keys == s.workers.Keys == s.up.Keys == {3, 4}
    ensures Shape(SETUP, s)
  {
  }

  /** The initial state with the one configuration 7. */
  const START := State(CONF7, map[], Pair([], []), Pair([], []), Pair(FRESH, FRESH), Pair([], []), map[], false)

  const SERVING := State(CONF7, map[7 := 3], Pair([7], []), Pair([ADD7, PORT], []),
                         Pair(FRESH, FRESH), Pair([], []), CONF7, true)

  lemma DistributeSeven(m: MasterState)
    requires m.conf == CONF7 && Channels(m, [3, 4])
    ensures 3 in m.load && Distribute(m, [3, 4], []) == Announce(Assign(m, 7, SEVEN, 3), 3, [])
  {
    Sorted7();
    assert CONF7.Keys == {7} && [7][1..] == [];
    assert [3, 4][0] == 3;
    var m' := Announce(Assign(m, 7, SEVEN, 3), 3, []);
    hide Assign, Announce, Sorted, Channels;
    assert DistributeFrom(m, [3, 4], [7], 0, []) == DistributeFrom(m', [3, 4], [], 1, []) == m';
  }

  lemma StartDistributes()
    ensures Channels(START.master, [3, 4]) && Distribute(START.master, [3, 4], []) == SERVING.master
  {
    hide Distribute;
    DistributeSeven(START.master);
    assert CONF7[7 := SEVEN] == CONF7;
    Update<seq<int>>(Pair([], []), [7]);
    Update<seq<Message>>(Pair([], []), [ADD7]);
    Update<seq<Message>>(Pair([ADD7], []), [ADD7, PORT]);
    assert [] + [7] == [7] && [] + [ADD7] == [ADD7] && [ADD7] + [PORT] == [ADD7, PORT];
    assert map[][7 := 3] == map[7 := 3];
  }

  lemma StartServes()
    ensures Init(SETUP, START) && Possible(SETUP, START, Distribution)
    ensures Distribution.Apply(SETUP, START, Distribution) == SERVING
  {
    StateShape(START);
    StartDistributes();
    hide Distribute;
  }

  const HELD := State(CONF7, map[7 := 3], Pair([7], []), Pair([PORT], []),
                      Pair(HOLDS7, FRESH), Pair([7], []), CONF7, true)

  const DELETED := State(map[], map[7 := 3], Pair([7], []), Pair([PORT, DEL7], []),
                         Pair(HOLDS7, FRESH), Pair([7], []), CONF7, true)

  const READDED := State(CONF7, map[7 := 4], Pair([7], [7]), Pair([PORT, DEL7], [ADD7]),
                         Pair(HOLDS7, FRESH), Pair([7], []), CONF7, true)

  const MISROUTED := State(CONF7, map[7 := 3], Pair([7], [7]), Pair([PORT, DEL7], [ADD7]),
                           Pair(HOLDS7, FRESH), Pair([], []), CONF7, true)

  const ORPHANED := State(map[], map[7 := 3], Pair([7], [7]), Pair([PORT, DEL7, DEL7], [ADD7]),
                          Pair(HOLDS7, FRESH), Pair([], []), CONF7, true)

  lemma FreshAdds()
    ensures Handle(PARSE, FRESH, ADD7) == (HOLDS7, [7])
  {
    assert PARSE(SEVEN) == Some(Json(Some(7), Some(Ping)));
    assert map[][7 := SEVEN] == CONF7;
    assert multiset{} + multiset{7} == multiset{7};
  }

  lemma WorkerReceives()
    ensures Possible(SETUP, SERVING, Receive(3)) && Distribution.Apply(SETUP, SERVING, Receive(3)) == HELD
  {
    StateShape(SERVING);
    ReadsBack(ADD7);
    var q := [ADD7, PORT];
    assert q[1..] == [PORT] && [] + [7] == [7];
    assert map[][7 := SEVEN] == CONF7;
    FreshAdds();
    Update<seq<Message>>(Pair(q, []), [PORT]);
    Update<WorkerState>(Pair(FRESH, FRESH), HOLDS7);
    Update<seq<int>>(Pair([], []), [7]);
  }

  lemma MasterDeletes()
    ensures Possible(SETUP, HELD, Action.Remove(SEVEN))
    ensures Distribution.Apply(SETUP, HELD, Action.Remove(SEVEN)) == DELETED
  {
    StateShape(HELD);
    assert CONF7 - {7} == map[] && map[7 := 3][7 := 3] == map[7 := 3];
    Update<seq<Message>>(Pair([PORT], []), [PORT, DEL7]);
    assert [PORT] + [DEL7] == [PORT, DEL7];
  }

  lemma PostsAgain()
    ensures DELETED.master.load.Keys != {} && Post(DELETED.master, PARSE, SEVEN) == READDED.master
  {
    hide LeastLoaded;
    Least(Pair([7], []));
    assert PARSE(SEVEN) == Some(Json(Some(7), Some(Ping)));
    assert map[][7 := SEVEN] == CONF7 && map[7 := 3][7 := 4] == map[7 := 4];
    Update<seq<Message>>(Pair([PORT, DEL7], []), [ADD7]);
    Update<seq<int>>(Pair([7], []), [7]);
    assert [] + [ADD7] == [ADD7] && [] + [7] == [7];
  }

  lemma MasterAddsAgain()
    ensures Possible(SETUP, DELETED, Action.Add(SEVEN))
    ensures Distribution.Apply(SETUP, DELETED, Action.Add(SEVEN)) == READDED
  {
    hide Post;
    StateShape(DELETED);
    PostsAgain();
    assert PARSE(SEVEN) == Some(Json(Some(7), Some(Ping)));
    assert CONF7[7 := SEVEN] == CONF7;
  }

  lemma LateAckArrives()
    ensures Possible(SETUP, READDED, Ack(3)) && Distribution.Apply(SETUP, READDED, Ack(3)) == MISROUTED
  {
    StateShape(READDED);
    assert map[7 := 4][7 := 3] == map[7 := 3];
    assert [7][1..] == [];
    Update<seq<int>>(Pair([7], []), []);
    assert Acknowledged(READDED.master, 3, [7]) == Acknowledged(MISROUTED.master, 3, []) == MISROUTED.master;
  }

  lemma MasterDeletesAgain()
    ensures Possible(SETUP, MISROUTED, Action.Remove(SEVEN))
    ensures Distribution.Apply(SETUP, MISROUTED, Action.Remove(SEVEN)) == ORPHANED
  {
    StateShape(MISROUTED);
    assert CONF7 - {7} == map[] && map[7 := 3][7 := 3] == map[7 := 3];
    Update<seq<Message>>(Pair([PORT, DEL7], [ADD7]), [PORT, DEL7, DEL7]);
    assert [PORT, DEL7] + [DEL7] == [PORT, DEL7, DEL7];
  }

  lemma WorkerKeepsOrphan()
    ensures Shape(SETUP, ORPHANED) && Drained(SETUP, ORPHANED, 4).tests == CONF7
  {
    StateShape(ORPHANED);
    ReadsBack(ADD7);
    FreshAdds();
    assert [ADD7][1..] == [];
    assert Drain(PARSE, FRESH, [ADD7]) == Drain(PARSE, HOLDS7, []) == HOLDS7;
  }

  /** The first steps: distribution, receipt, deletion. */
  lemma RunToDeleted()
    ensures Exec(SETUP, START, [] + [Distribution] + [Receive(3)] + [Action.Remove(SEVEN)], false) == Some(DELETED)
  {
    StartServes();
    ExecStep(START, [], START, Distribution);
    WorkerReceives();
    ExecStep(START, [] + [Distribution], SERVING, Receive(3));
    MasterDeletes();
    ExecStep(START, [] + [Distribution] + [Receive(3)], HELD, Action.Remove(SEVEN));
  }

  lemma RunOn(run: seq<Action>)
    requires Exec(SETUP, START, run, false) == Some(DELETED)
    ensures Exec(SETUP, START, run + [Action.Add(SEVEN)] + [Ack(3)] + [Action.Remove(SEVEN)], false) == Some(ORPHANED)
  {
    MasterAddsAgain();
    ExecStep(START, run, DELETED, Action.Add(SEVEN));
    LateAckArrives();
    ExecStep(START, run + [Action.Add(SEVEN)], READDED, Ack(3));
    MasterDeletesAgain();
    ExecStep(START, run + [Action.Add(SEVEN)] + [Ack(3)], MISROUTED, Action.Remove(SEVEN));
  }

  /**
   * Adding an id again while an old worker's acknowledgement is still in flight: the late
   * acknowledgement moves the route back to the old worker, so the next delete goes there. The
   * master then has no configuration left, but worker 4 runs test 7 for good.
   */
  lemma LateAckOrphansATest()
    ensures Init(SETUP, START) && Fits(SETUP.port)
    ensures exists actions :: Exec(SETUP, START, actions, false) == Some(ORPHANED)
    ensures ORPHANED.master.conf == map[] && Shape(SETUP, ORPHANED) && 7 in Drained(SETUP, ORPHANED, 4).tests
  {
    hide Exec, Init;
    StartServes();
    RunToDeleted();
    RunOn([] + [Distribution] + [Receive(3)] + [Action.Remove(SEVEN)]);
    WorkerKeepsOrphan();
  }

  // ---- A request that overtakes the distribution ----

  const UNSERVED := State(map[], map[], Pair([], []), Pair([], []), Pair(FRESH, FRESH), Pair([], []), map[], false)

  const EARLY := State(CONF7, map[7 := 3], Pair([7], []), Pair([ADD7], []),
                       Pair(FRESH, FRESH), Pair([], []), CONF7, false)

  const TWICE := State(CONF7, map[7 := 3], Pair([7, 7], []), Pair([ADD7, ADD7, PORT], []),
                       Pair(FRESH, FRESH), Pair([], []), CONF7, true)

  lemma PostsEarly()
    ensures UNSERVED.master.load.Keys != {} && Post(UNSERVED.master, PARSE, SEVEN) == EARLY.master
  {
    hide LeastLoaded;
    Least(Pair([], []));
    assert PARSE(SEVEN) == Some(Json(Some(7), Some(Ping)));
    assert map[][7 := SEVEN] == CONF7 && map[][7 := 3] == map[7 := 3];
    Update<seq<Message>>(Pair([], []), [ADD7]);
    Update<seq<int>>(Pair([], []), [7]);
    assert [] + [ADD7] == [ADD7] && [] + [7] == [7];
  }

  lemma MasterAddsEarly()
    ensures Init(SETUP, UNSERVED) && Possible(SETUP, UNSERVED, Action.Add(SEVEN))
    ensures Distribution.Apply(SETUP, UNSERVED, Action.Add(SEVEN)) == EARLY
  {
    hide Post;
    StateShape(UNSERVED);
    PostsEarly();
    assert PARSE(SEVEN) == Some(Json(Some(7), Some(Ping)));
    assert map[][7 := SEVEN] == CONF7;
  }

  const REASSIGNED := MasterState(CONF7, map[7 := 3], Both(Pair([7, 7], [])), Both(Pair([ADD7, ADD7], [])))

  lemma EarlyReassigns()
    ensures Assign(EARLY.master, 7, SEVEN, 3) == REASSIGNED
  {
    assert CONF7[7 := SEVEN] == CONF7 && map[7 := 3][7 := 3] == map[7 := 3];
    Update<seq<int>>(Pair([7], []), [7, 7]);
    Update<seq<Message>>(Pair([ADD7], []), [ADD7, ADD7]);
    assert [7] + [7] == [7, 7] && [ADD7] + [ADD7] == [ADD7, ADD7];
  }

  lemma EarlyDistributes()
    ensures Channels(EARLY.master, [3, 4]) && Distribute(EARLY.master, [3, 4], []) == TWICE.master
  {
    hide Distribute, Assign;
    DistributeSeven(EARLY.master);
    EarlyReassigns();
    Update<seq<Message>>(Pair([ADD7, ADD7], []), [ADD7, ADD7, PORT]);
    assert [ADD7, ADD7] + [PORT] == [ADD7, ADD7, PORT];
  }

  lemma EarlyServes()
    ensures Possible(SETUP, EARLY, Distribution) && Distribution.Apply(SETUP, EARLY, Distribution) == TWICE
  {
    hide Distribute;
    StateShape(EARLY);
    EarlyDistributes();
  }

  lemma WorkerArmsTwice()
    ensures Drain(PARSE, FRESH, [ADD7, ADD7, PORT]).armed == multiset{7, 7}
  {
    ReadsBack(ADD7);
    ReadsBack(PORT);
    FreshAdds();
    var again := DrainOne(PARSE, HOLDS7, ADD7);
    assert again.armed == multiset{7, 7};
    var q := [ADD7, ADD7, PORT];
    assert q[1..] == [ADD7, PORT] && [ADD7, PORT][1..] == [PORT] && [PORT][1..] == [];
    assert Drain(PARSE, FRESH, q) == Drain(PARSE, HOLDS7, [ADD7, PORT]);
    assert Drain(PARSE, HOLDS7, [ADD7, PORT]) == Drain(PARSE, again, [PORT]);
    assert PARSE([]) == None;
    assert Drain(PARSE, again, [PORT]) == Drain(PARSE, again, []);
  }

  /** Its id is distributed a second time, and its worker runs it on two timers at once. */
  lemma EarlyRequestArmsTwice()
    ensures Init(SETUP, UNSERVED)
    ensures exists actions :: Exec(SETUP, UNSERVED, actions, false) == Some(TWICE)
    ensures Shape(SETUP, TWICE) && Drained(SETUP, TWICE, 3).armed[7] == 2
  {
    hide Exec, Init, Drain, Distribution.Apply, Possible;
    ExecNothing(UNSERVED);
    MasterAddsEarly();
    ExecStep(UNSERVED, [], UNSERVED, Action.Add(SEVEN));
    EarlyServes();
    ExecStep(UNSERVED, [] + [Action.Add(SEVEN)], EARLY, Distribution);
    StateShape(TWICE);
    WorkerArmsTwice();
  }
}
