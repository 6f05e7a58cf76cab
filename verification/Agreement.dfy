/** What the invariant of the whole system means: where every configuration ends up. */
module Agreement {
  import opened Bytes
  import opened Channel
  import opened Metric
  import opened Master
  import opened Worker
  import opened Distribution

  // ---- Letting a worker read everything on its way ----

  function DrainOne(parse: Parser, w: WorkerState, m: Message): WorkerState {
    match Read(m)
    case None => w.(alive := false)
    case Some(read) => Handle(parse, w, read).0
  }

  function Drain(parse: Parser, w: WorkerState, q: seq<Message>): WorkerState
    decreases |q|
  {
    if q == [] then w else Drain(parse, DrainOne(parse, w, q[0]), q[1..])
  }

  lemma {:induction false} DrainAppend(parse: Parser, w: WorkerState, q: seq<Message>, m: Message)
    ensures Drain(parse, w, q + [m]) == DrainOne(parse, Drain(parse, w, q), m)
    decreases |q|
  {
    if q == [] {
      assert q + [m] == [m] && [m][1..] == [];
    } else {
      assert (q + [m])[1..] == q[1..] + [m];
      DrainAppend(parse, DrainOne(parse, w, q[0]), q[1..], m);
    }
  }

  /** The frames of a queue. */
  function Frames(q: seq<Message>): (fs: seq<Frame>)
    ensures |fs| == |q|
  {
    if q == [] then [] else [Pack(q[0])] + Frames(q[1..])
  }

  /** Draining is what deal_channel_data does to the frames of the queue. */
  lemma {:induction false} DrainIsTakeFrames(parse: Parser, w: WorkerState, q: seq<Message>)
    ensures Drain(parse, w, q) == TakeFrames(parse, w, Frames(q)).0
    decreases |q|
  {
    if q != [] {
      hide Pack, CString, Handle;
      assert TakeFrame(parse, w, Pack(q[0])).0 == DrainOne(parse, w, q[0]) by {
        PackKind(q[0]);
      }
      DrainIsTakeFrames(parse, DrainOne(parse, w, q[0]), q[1..]);
      assert Frames(q)[1..] == Frames(q[1..]);
    }
  }

  lemma PackKind(m: Message)
    ensures Pack(m).kind == m.kind
  {
  }

  ghost predicate Trackable(parse: Parser, w: WorkerState, q: seq<Message>) {
    Healthy(w) && QueueOk(parse, q) && forall id :: Track(parse, Get(w.tests, id), q, id).Some?
  }

  lemma DrainOneTracks(parse: Parser, w: WorkerState, q: seq<Message>)
    requires q != [] && Trackable(parse, w, q)
    ensures var w' := DrainOne(parse, w, q[0]);
      && Trackable(parse, w', q[1..])
      && forall id :: Track(parse, Get(w'.tests, id), q[1..], id) == Track(parse, Get(w.tests, id), q, id)
  {
    assert MessageOk(parse, q[0]);
    ReadsBack(q[0]);
    var w' := DrainOne(parse, w, q[0]);
    forall id
      ensures TrackOne(parse, Get(w.tests, id), q[0], id).Some?
      ensures Track(parse, Get(w'.tests, id), q[1..], id) == Track(parse, Get(w.tests, id), q, id)
    {
      assert Track(parse, Get(w.tests, id), q, id).Some?;
      TrackFirst(parse, Get(w.tests, id), q, id);
      HandleTracks(parse, w, q[0], id);
    }
    HandleHealthy(parse, w, q[0]);
  }

  lemma {:induction false} DrainTracks(parse: Parser, w: WorkerState, q: seq<Message>)
    requires Trackable(parse, w, q)
    ensures Healthy(Drain(parse, w, q))
    ensures forall id :: Track(parse, Get(w.tests, id), q, id) == Some(Get(Drain(parse, w, q).tests, id))
    decreases |q|
  {
    if q != [] {
      DrainOneTracks(parse, w, q);
      DrainTracks(parse, DrainOne(parse, w, q[0]), q[1..]);
    }
  }

  // ---- Agreement in every reachable state ----

  ghost function Drained(c: Setup, s: System, fd: int): WorkerState
    requires Shape(c, s) && fd in s.workers
  {
    Drain(c.parse, s.workers[fd], s.master.down[fd])
  }

  /** Every worker will hold exactly what the master routes to it, with one timer for each test. */
  ghost predicate Agrees(c: Setup, s: System)
    requires Shape(c, s)
  {
    forall fd :: fd in s.workers ==>
      Healthy(Drained(c, s, fd)) && forall id :: Get(Drained(c, s, fd).tests, id) == Expected(s, fd, id)
  }

  lemma InvAgrees(c: Setup, s: System)
    requires Inv(c, s)
    ensures Agrees(c, s)
  {
    forall fd | fd in s.workers
      ensures Healthy(Drained(c, s, fd)) && forall id :: Get(Drained(c, s, fd).tests, id) == Expected(s, fd, id)
    {
      forall id
        ensures Track(c.parse, Get(s.workers[fd].tests, id), s.master.down[fd], id) == Some(Expected(s, fd, id))
      {
        assert Tracks(c, s, fd, id);
      }
      DrainTracks(c.parse, s.workers[fd], s.master.down[fd]);
    }
  }

  ghost predicate Reached(c: Setup, s0: System, actions: seq<Action>, s: System) {
    Init(c, s0) && Fits(c.port) && Exec(c, s0, actions, true) == Some(s)
  }

  /**
   * In every reachable state, letting worker fd handle its pending messages leaves in test_map
   * exactly the ids of configid_map routed to fd, each with the text it was added with; once
   * distribution has run, every live id is routed to a worker, hence ends on exactly one.
   */
  lemma EventualAgreement(c: Setup, s0: System, actions: seq<Action>, s: System, fd: int)
    requires Reached(c, s0, actions, s) && Shape(c, s) && fd in s.workers
    ensures forall id :: (id in Drained(c, s, fd).tests
      <==> id in s.master.conf && id in s.master.route && s.master.route[id] == fd)
    ensures forall id :: id in Drained(c, s, fd).tests ==> Get(s.added, id) == Some(Drained(c, s, fd).tests[id])
    ensures s.distributed ==>
      forall id :: id in s.master.conf ==> id in s.master.route && s.master.route[id] in s.workers
  {
    RunInv(c, s0, actions);
    InvAgrees(c, s);
    forall id
      ensures id in Drained(c, s, fd).tests
        <==> id in s.master.conf && id in s.master.route && s.master.route[id] == fd
      ensures id in Drained(c, s, fd).tests ==> Get(s.added, id) == Some(Drained(c, s, fd).tests[id])
    {
      assert Get(Drained(c, s, fd).tests, id) == Expected(s, fd, id);
    }
  }

  /** With nothing in flight the workers already hold it. */
  lemma QuietAgreement(c: Setup, s0: System, actions: seq<Action>, s: System, fd: int)
    requires Reached(c, s0, actions, s) && Shape(c, s) && fd in s.workers && s.master.down[fd] == []
    ensures forall id :: (id in s.workers[fd].tests
      <==> id in s.master.conf && id in s.master.route && s.master.route[id] == fd)
    ensures s.workers[fd].alive && s.workers[fd].armed == multiset(s.workers[fd].tests.Keys)
  {
    EventualAgreement(c, s0, actions, s, fd);
    RunInv(c, s0, actions);
    assert Drained(c, s, fd) == s.workers[fd];
  }

  /**
   * The next message never clashes with test_map: an ADDCONF finds no live test to overwrite, a
   * DELCONF finds its test, and the armed timers stay in bijection with test_map.
   */
  lemma MessagesAlternate(c: Setup, s0: System, actions: seq<Action>, s: System, fd: int)
    requires Reached(c, s0, actions, s) && Shape(c, s) && fd in s.workers && s.master.down[fd] != []
    ensures var m, w := s.master.down[fd][0], s.workers[fd];
      && w.alive && w.armed == multiset(w.tests.Keys)
      && (m.kind == ADDCONF ==> Ident(c.parse, m.text).Some? && Ident(c.parse, m.text).value !in w.tests)
      && (m.kind == DELCONF ==>
            && Ident(c.parse, m.text).Some? && Ident(c.parse, m.text).value in w.tests
            && DeleteTest(w, Ident(c.parse, m.text).value).1 == 0)
  {
    RunInv(c, s0, actions);
    var m := s.master.down[fd][0];
    HeadFits(c, s, fd, 0);
    var ident := Ident(c.parse, m.text);
    if ident.Some? {
      HeadFits(c, s, fd, ident.value);
    }
  }

  /** Handling an acknowledgement never changes the master. */
  lemma AcksAreHarmless(c: Setup, s0: System, actions: seq<Action>, s: System, fd: int)
    requires Reached(c, s0, actions, s) && Possible(c, s, Ack(fd))
    ensures Apply(c, s, Ack(fd)).master == s.master
  {
    RunInv(c, s0, actions);
    AckKeepsRoute(c, s, fd);
  }

  /** An edit changes configid_map, but not what any worker will hold once it has read its queue. */
  lemma EditsNeverReachTests(c: Setup, s0: System, actions: seq<Action>, s: System, text: Text, id: int, fd: int)
    requires Reached(c, s0, actions, s) && Shape(c, s) && fd in s.workers
    requires Ident(c.parse, text) == Some(id) && id in s.master.conf && Given(s, id) && Fits(text)
    ensures var s' := Apply(c, s, Action.Add(text));
      && Shape(c, s')
      && s'.master.conf == s.master.conf[id := text]
      && Drained(c, s', fd).tests == Drained(c, s, fd).tests
  {
    hide Exec, Init;
    var s' := Apply(c, s, Action.Add(text));
    RunInv(c, s0, actions);
    assert Forward(Rewritten(s, id, text).master, id, EDITCONF, text).route == s.master.route;
    StepInv(c, s, Action.Add(text));
    InvAgrees(c, s);
    InvAgrees(c, s');
    hide Inv;
    SameTests(Drained(c, s', fd).tests, Drained(c, s, fd).tests, s', s, fd);
  }

  /** A deleted id is gone for good from the master, and from every worker that reads its queue. */
  lemma DeleteIsFinal(c: Setup, s0: System, actions: seq<Action>, s: System, text: Text, id: int, fd: int)
    requires Reached(c, s0, actions, s) && Shape(c, s) && fd in s.workers
    requires Ident(c.parse, text) == Some(id) && id in s.master.conf && Fits(text)
    ensures var s' := Apply(c, s, Action.Remove(text));
      && Shape(c, s') && s'.master.conf == s.master.conf - {id}
      && id !in Drained(c, s', fd).tests
      && forall other :: other != id && other in Drained(c, s, fd).tests ==> other in Drained(c, s', fd).tests
  {
    hide Exec, Init;
    var s' := Apply(c, s, Action.Remove(text));
    RunInv(c, s0, actions);
    StepInv(c, s, Action.Remove(text));
    InvAgrees(c, s);
    InvAgrees(c, s');
    ExpectedAfterRemove(c, s, text, id, fd);
    hide Inv, Fits, Apply, Drained, Expected, Shape;
    assert Get(Drained(c, s', fd).tests, id) == Expected(s', fd, id);
    forall other | other != id && other in Drained(c, s, fd).tests ensures other in Drained(c, s', fd).tests {
      assert Get(Drained(c, s, fd).tests, other) == Expected(s, fd, other);
      assert Get(Drained(c, s', fd).tests, other) == Expected(s', fd, other);
    }
  }

  lemma ExpectedAfterRemove(c: Setup, s: System, text: Text, id: int, fd: int)
    requires Shape(c, s) && Ident(c.parse, text) == Some(id) && id in s.master.conf
    ensures var s' := Apply(c, s, Action.Remove(text));
      && s'.master.conf == s.master.conf - {id} && Expected(s', fd, id) == None
      && forall other :: other != id ==> Expected(s', fd, other) == Expected(s, fd, other)
  {
    hide Channels;
  }

  lemma SameTests(a: map<int, Text>, b: map<int, Text>, s': System, s: System, fd: int)
    requires forall id :: Get(a, id) == Expected(s', fd, id)
    requires forall id :: Get(b, id) == Expected(s, fd, id)
    requires s'.added == s.added && s.master.conf.Keys == s'.master.conf.Keys && s'.master.route == s.master.route
    ensures a == b
  {
    forall id ensures Get(a, id) == Get(b, id) {
    }
    forall id ensures id in a <==> id in b {
      assert Get(a, id) == Get(b, id);
    }
    forall id | id in a ensures a[id] == b[id] {
      assert Get(a, id) == Get(b, id);
    }
  }
}
