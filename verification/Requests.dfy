/** The assumptions on requests are exactly right: where one fails, agreement fails. */
module Requests {
  import opened Bytes
  import opened Channel
  import opened Metric
  import opened Ordered
  import opened Master
  import opened Worker
  import opened Distribution
  import opened Agreement

  /** Only messages and acknowledgements already under way are handled. */
  predicate Delivers(run: seq<Action>) {
    forall i :: 0 <= i < |run| ==> run[i].Receive? || run[i].Ack?
  }

  /** Agreement holds, and goes on to hold however what is under way arrives. */
  ghost predicate StaysAgreed(c: Setup, s: System) {
    forall run :: Delivers(run) && Exec(c, s, run, false).Some?
      ==> Shape(c, Exec(c, s, run, false).value) && Agrees(c, Exec(c, s, run, false).value)
  }

  lemma {:induction false} DeliveriesKeepInv(c: Setup, s: System, run: seq<Action>)
    requires Inv(c, s) && Delivers(run) && Exec(c, s, run, false).Some?
    ensures Inv(c, Exec(c, s, run, false).value)
    decreases |run|
  {
    if run != [] {
      var n := |run| - 1;
      DeliveriesKeepInv(c, s, run[..n]);
      StepInv(c, Exec(c, s, run[..n], false).value, run[n]);
    }
  }

  lemma InvStaysAgreed(c: Setup, s: System)
    requires Inv(c, s)
    ensures StaysAgreed(c, s)
  {
    forall run | Delivers(run) && Exec(c, s, run, false).Some?
      ensures Shape(c, Exec(c, s, run, false).value) && Agrees(c, Exec(c, s, run, false).value)
    {
      DeliveriesKeepInv(c, s, run);
      InvAgrees(c, Exec(c, s, run, false).value);
    }
  }

  lemma StaysAgreedNow(c: Setup, s: System)
    requires StaysAgreed(c, s)
    ensures Shape(c, s) && Agrees(c, s)
  {
    assert Exec(c, s, [], false) == Some(s);
  }

  lemma {:induction false} ExecCons(c: Setup, s: System, a: Action, run: seq<Action>)
    requires Possible(c, s, a)
    ensures Exec(c, s, [a] + run, false) == Exec(c, Apply(c, s, a), run, false)
    decreases |run|
  {
    hide Apply, Possible, Restrained;
    var all := [a] + run;
    if run == [] {
      assert all == [a] && all[..0] == [];
      assert Exec(c, s, all[..0], false) == Some(s);
    } else {
      var n := |run| - 1;
      ExecCons(c, s, a, run[..n]);
      assert all[..n + 1] == [a] + run[..n] && all[n + 1] == run[n];
    }
  }

  // ---- Additions ----

  lemma UnreadableAddIsLost(parse: Parser, w: WorkerState, text: Text, id: int)
    requires w.alive && id !in w.tests && Ident(parse, text) == Some(id)
    requires !(Fits(text) && Probeable(parse, text))
    ensures var w' := DrainOne(parse, w, Message(ADDCONF, text));
      !w'.alive || Get(w'.tests, id) != Some(text)
  {
    ReadsBack(Message(ADDCONF, text));
  }

  lemma AddingDrains(c: Setup, s: System, id: int, text: Text, fd: int)
    requires Inv(c, s) && fd in s.workers && id !in s.master.conf
    ensures var s' := Adding(s, id, text, fd);
      && Shape(c, s') && Drained(c, s', fd) == DrainOne(c.parse, Drained(c, s, fd), Message(ADDCONF, text))
      && Drained(c, s, fd).alive && id !in Drained(c, s, fd).tests
  {
    InvAgrees(c, s);
    assert Get(Drained(c, s, fd).tests, id) == Expected(s, fd, id) == None;
    DrainAppend(c.parse, s.workers[fd], s.master.down[fd], Message(ADDCONF, text));
  }

  lemma LostAddDisagrees(c: Setup, s: System, id: int, text: Text, fd: int)
    requires Inv(c, s) && fd in s.workers && Ident(c.parse, text) == Some(id) && id !in s.master.conf
    requires !(Fits(text) && Probeable(c.parse, text))
    ensures Shape(c, Adding(s, id, text, fd)) && !Agrees(c, Adding(s, id, text, fd))
  {
    AddingDrains(c, s, id, text, fd);
    UnreadableAddIsLost(c.parse, Drained(c, s, fd), text, id);
    hide Inv, Fits, Probeable, DrainOne, Drained, Shape;
    assert Expected(Adding(s, id, text, fd), fd, id) == Some(text);
  }

  /** Worker fd is to hold a live id that another worker is still to receive or acknowledge. */
  ghost predicate Rival(c: Setup, s: System, id: int, other: int, fd: int) {
    && Shape(c, s) && other in s.workers && fd in s.workers && other != fd && id in s.master.conf
    && id in Drained(c, s, fd).tests
    && Trackable(c.parse, s.workers[other], s.master.down[other])
    && (id in s.up[other] || PendingAdd(c.parse, s.master.down[other], id))
  }

  lemma PendingHead(parse: Parser, q: seq<Message>, id: int)
    requires PendingAdd(parse, q, id)
    ensures q != [] && (Effect(parse, q[0], id) == Adds || PendingAdd(parse, q[1..], id))
  {
    var i :| 0 <= i < |q| && Effect(parse, q[i], id) == Adds;
    if i > 0 {
      assert q[1..][i - 1] == q[i];
    }
  }

  /** A receive of a message that fits its frame. */
  lemma ReceiveParts(c: Setup, s: System, fd: int)
    requires Possible(c, s, Receive(fd)) && Fits(s.master.down[fd][0].text)
    ensures var q := s.master.down[fd];
      Apply(c, s, Receive(fd)) == s.(
        master := s.master.(down := s.master.down[fd := q[1..]]),
        workers := s.workers[fd := DrainOne(c.parse, s.workers[fd], q[0])],
        up := s.up[fd := s.up[fd] + Handle(c.parse, s.workers[fd], q[0]).1])
  {
    ReadsBack(s.master.down[fd][0]);
    hide Handle, Post, Delete, Distribute, Acknowledged, Fits;
  }

  lemma HeadIsOk(c: Setup, s: System, id: int, other: int, fd: int)
    requires Rival(c, s, id, other, fd) && id !in s.up[other]
    ensures var q, w := s.master.down[other], s.workers[other];
      && q != [] && Fits(q[0].text) && Trackable(c.parse, DrainOne(c.parse, w, q[0]), q[1..])
      && (id in Handle(c.parse, w, q[0]).1 || PendingAdd(c.parse, q[1..], id))
  {
    var q := s.master.down[other];
    PendingHead(c.parse, q, id);
    assert MessageOk(c.parse, q[0]);
    DrainOneTracks(c.parse, s.workers[other], q);
    assert Track(c.parse, Get(s.workers[other].tests, id), q, id).Some?;
    TrackFirst(c.parse, Get(s.workers[other].tests, id), q, id);
    HandleTracks(c.parse, s.workers[other], q[0], id);
  }

  lemma RivalReceives(c: Setup, s: System, id: int, other: int, fd: int)
    requires Rival(c, s, id, other, fd) && id !in s.up[other]
    ensures Possible(c, s, Receive(other))
    ensures var t := Apply(c, s, Receive(other));
      Rival(c, t, id, other, fd) && |t.master.down[other]| < |s.master.down[other]|
  {
    HeadIsOk(c, s, id, other, fd);
    hide Trackable, Drain, DrainOne, Handle, Fits, PendingAdd;
    ReceiveParts(c, s, other);
    hide Apply;
    var t := Apply(c, s, Receive(other));
    ReceiveShape(c, s, other, t);
    hide Shape;
    assert t.workers[fd] == s.workers[fd] && t.master.down[fd] == s.master.down[fd];
  }

  lemma ReceiveShape(c: Setup, s: System, fd: int, t: System)
    requires Shape(c, s) && t.master == s.master.(down := t.master.down) && t.master.down.Keys == s.master.down.Keys
    requires t.workers.Keys == s.workers.Keys && t.up.Keys == s.up.Keys
    ensures Shape(c, t)
  {
  }

  lemma RivalAcks(c: Setup, s: System, id: int, other: int, fd: int)
    requires Rival(c, s, id, other, fd) && id in s.up[other]
    ensures Possible(c, s, Ack(other))
    ensures var t := Apply(c, s, Ack(other));
      if s.up[other][0] == id then Shape(c, t) && !Agrees(c, t)
      else
        && Rival(c, t, id, other, fd) && id in t.up[other]
        && t.master.down == s.master.down && |t.up[other]| < |s.up[other]|
  {
    AcknowledgedOne(s.master, other, s.up[other][0]);
    var t := Apply(c, s, Ack(other));
    assert Drained(c, t, fd) == Drained(c, s, fd);
    if s.up[other][0] == id {
      assert Expected(t, fd, id) == None;
      assert Get(Drained(c, t, fd).tests, id) != Expected(t, fd, id);
    } else {
      assert s.up[other] == [s.up[other][0]] + s.up[other][1..];
    }
  }

  /** The rival's acknowledgement can arrive, and then the route no longer names the worker. */
  lemma {:induction false} RivalBreaks(c: Setup, s: System, id: int, other: int, fd: int) returns (run: seq<Action>)
    requires Rival(c, s, id, other, fd)
    ensures Delivers(run) && Exec(c, s, run, false).Some?
    ensures Shape(c, Exec(c, s, run, false).value) && !Agrees(c, Exec(c, s, run, false).value)
    decreases |s.master.down[other]|, |s.up[other]|
  {
    hide Agrees, Trackable, Drain, Exec, Apply;
    if id !in s.up[other] {
      RivalReceives(c, s, id, other, fd);
      var rest := RivalBreaks(c, Apply(c, s, Receive(other)), id, other, fd);
      ExecCons(c, s, Receive(other), rest);
      run := [Receive(other)] + rest;
    } else {
      RivalAcks(c, s, id, other, fd);
      var rest := [];
      if s.up[other][0] == id {
        ExecNothing(c, Apply(c, s, Ack(other)));
      } else {
        rest := RivalBreaks(c, Apply(c, s, Ack(other)), id, other, fd);
      }
      ExecCons(c, s, Ack(other), rest);
      run := [Ack(other)] + rest;
    }
  }

  lemma ExecNothing(c: Setup, s: System)
    ensures Exec(c, s, [], false) == Some(s)
  {
  }

  lemma NewIsHeld(c: Setup, s: System, id: int, text: Text, fd: int)
    requires Inv(c, s) && Ident(c.parse, text) == Some(id) && id !in s.master.conf && fd in s.workers
    requires Fits(text) && Probeable(c.parse, text)
    ensures Shape(c, Adding(s, id, text, fd)) && id in Drained(c, Adding(s, id, text, fd), fd).tests
  {
    AddingDrains(c, s, id, text, fd);
    ReadsBack(Message(ADDCONF, text));
    hide Inv, Drained, Shape, Fits;
  }

  lemma RivalAfterAdding(c: Setup, s: System, id: int, text: Text, other: int, fd: int)
    requires Inv(c, s) && Ident(c.parse, text) == Some(id) && id !in s.master.conf && fd in s.workers
    requires Fits(text) && Probeable(c.parse, text) && other in s.workers && other != fd
    requires id in s.up[other] || PendingAdd(c.parse, s.master.down[other], id)
    ensures Rival(c, Adding(s, id, text, fd), id, other, fd)
  {
    NewIsHeld(c, s, id, text, fd);
    forall k ensures Track(c.parse, Get(s.workers[other].tests, k), s.master.down[other], k).Some? {
      assert Tracks(c, s, other, k);
    }
    assert Trackable(c.parse, s.workers[other], s.master.down[other]);
    hide Track, Drained, Trackable, Inv, PendingAdd, Fits;
    var s' := Adding(s, id, text, fd);
    assert s'.workers[other] == s.workers[other] && s'.master.down[other] == s.master.down[other];
  }

  lemma RivalDisagrees(c: Setup, s: System, id: int, text: Text, fd: int)
    requires Inv(c, s) && Ident(c.parse, text) == Some(id) && id !in s.master.conf
    requires Fits(text) && Probeable(c.parse, text)
    requires Shape(c, s) && fd in s.workers && fd in s.master.load && !NoRival(c, s, id, fd)
    ensures !StaysAgreed(c, Adding(s, id, text, fd))
  {
    var other :|
      other in s.workers && other != fd && !(id !in s.up[other] && !PendingAdd(c.parse, s.master.down[other], id));
    RivalAfterAdding(c, s, id, text, other, fd);
    var run := RivalBreaks(c, Adding(s, id, text, fd), id, other, fd);
  }

  lemma AddingIsSafeExactly(c: Setup, s: System, id: int, text: Text, fd: int)
    requires Inv(c, s) && Shape(c, s) && fd in s.workers && fd in s.master.load
    requires Ident(c.parse, text) == Some(id) && id !in s.master.conf
    ensures StaysAgreed(c, Adding(s, id, text, fd)) <==> Fits(text) && Probeable(c.parse, text) && NoRival(c, s, id, fd)
  {
    if !(Fits(text) && Probeable(c.parse, text)) {
      LostAddDisagrees(c, s, id, text, fd);
      hide *;
      if StaysAgreed(c, Adding(s, id, text, fd)) {
        StaysAgreedNow(c, Adding(s, id, text, fd));
      }
    } else if NoRival(c, s, id, fd) {
      NewIdStep(c, s, id, text, fd);
      InvStaysAgreed(c, Adding(s, id, text, fd));
    } else {
      RivalDisagrees(c, s, id, text, fd);
    }
  }

  /**
   * Adding a new id in a reachable state keeps agreement, then and however messages and
   * acknowledgements arrive later, if and only if its text fits a frame, has a known type, and no
   * other worker is still to receive or acknowledge the id.
   */
  lemma AddIsSafeExactly(c: Setup, s0: System, actions: seq<Action>, s: System, text: Text, id: int)
    requires Reached(c, s0, actions, s) && Shape(c, s)
    requires Ident(c.parse, text) == Some(id) && id !in s.master.conf
    ensures StaysAgreed(c, Apply(c, s, Action.Add(text)))
      <==> Fits(text) && Probeable(c.parse, text) && NoRival(c, s, id, LeastLoaded(s.master.load))
  {
    hide Exec, Init, Inv, StaysAgreed, LeastLoaded, NoRival, Fits, Probeable;
    RunInv(c, s0, actions);
    assert Apply(c, s, Action.Add(text)) == Adding(s, id, text, LeastLoaded(s.master.load));
    AddingIsSafeExactly(c, s, id, text, LeastLoaded(s.master.load));
  }

  // ---- The distribution ----

  /** Messages that take no test away. */
  predicate AddsOnly(q: seq<Message>) {
    forall i :: 0 <= i < |q| ==> q[i].kind == ADDCONF || q[i].kind == REDISPORT
  }

  lemma DrainOneAdds(parse: Parser, w: WorkerState, m: Message, id: int)
    requires m.kind == ADDCONF || m.kind == REDISPORT
    ensures var w' := DrainOne(parse, w, m);
      && (id in w.tests ==> id in w'.tests) && w'.armed[id] >= w.armed[id] && (w'.alive ==> w.alive)
      && (w'.alive && m.kind == ADDCONF && Ident(parse, m.text) == Some(id) && Fits(m.text) ==>
            w'.armed[id] > w.armed[id])
  {
    ReadsBack(m);
  }

  ghost predicate Announces(parse: Parser, q: seq<Message>, id: int) {
    exists i :: 0 <= i < |q| && q[i].kind == ADDCONF && Ident(parse, q[i].text) == Some(id) && Fits(q[i].text)
  }

  /** Such messages keep every test and timer, and an ADDCONF arms one more. */
  lemma {:induction false} DrainAdds(parse: Parser, w: WorkerState, q: seq<Message>, id: int)
    requires AddsOnly(q)
    ensures var w' := Drain(parse, w, q);
      && (id in w.tests ==> id in w'.tests) && w'.armed[id] >= w.armed[id] && (w'.alive ==> w.alive)
      && (w'.alive && Announces(parse, q, id) ==> w'.armed[id] > w.armed[id])
    decreases |q|
  {
    if q != [] {
      DrainOneAdds(parse, w, q[0], id);
      DrainAdds(parse, DrainOne(parse, w, q[0]), q[1..], id);
      if i :| 0 < i < |q| && q[i].kind == ADDCONF && Ident(parse, q[i].text) == Some(id) && Fits(q[i].text) {
        assert q[1..][i - 1] == q[i];
        assert Announces(parse, q[1..], id);
      }
    }
  }

  lemma {:induction false} DrainConcat(parse: Parser, w: WorkerState, p: seq<Message>, q: seq<Message>)
    ensures Drain(parse, w, p + q) == Drain(parse, Drain(parse, w, p), q)
    decreases |p|
  {
    if p == [] {
      assert p + q == q;
    } else {
      assert (p + q)[1..] == p[1..] + q;
      DrainConcat(parse, DrainOne(parse, w, p[0]), p[1..], q);
    }
  }

  lemma AnnouncesMore(parse: Parser, p: seq<Message>, q: seq<Message>, id: int)
    requires Announces(parse, p, id) || Announces(parse, q, id)
    ensures Announces(parse, p + q, id)
  {
    if Announces(parse, p, id) {
      var i :| 0 <= i < |p| && p[i].kind == ADDCONF && Ident(parse, p[i].text) == Some(id) && Fits(p[i].text);
      assert (p + q)[i] == p[i];
    } else {
      var i :| 0 <= i < |q| && q[i].kind == ADDCONF && Ident(parse, q[i].text) == Some(id) && Fits(q[i].text);
      assert (p + q)[|p| + i] == q[i];
    }
  }

  /** What the distribution puts on the queue of worker at. */
  function Posted(c: Setup, conf: map<int, Text>, ids: seq<int>, i: nat, at: int): seq<Message>
    requires c.channels != [] && forall k :: 0 <= k < |ids| ==> ids[k] in conf
    decreases |ids|
  {
    if ids == [] then []
    else
      (if at == c.channels[i % |c.channels|] then [Message(ADDCONF, conf[ids[0]]), Message(REDISPORT, c.port)] else [])
      + Posted(c, conf, ids[1..], i + 1, at)
  }

  lemma {:induction false} PostedAddsOnly(c: Setup, conf: map<int, Text>, ids: seq<int>, i: nat, at: int)
    requires c.channels != [] && forall k :: 0 <= k < |ids| ==> ids[k] in conf
    ensures AddsOnly(Posted(c, conf, ids, i, at))
    decreases |ids|
  {
    if ids != [] {
      PostedAddsOnly(c, conf, ids[1..], i + 1, at);
    }
  }

  lemma RoundQueue(c: Setup, s: System, id: int, fd: int, at: int)
    requires Shape(c, s) && id in s.master.conf && fd in s.workers && at in s.workers
    ensures var t := Round(c, s, id, fd);
      && at in t.master.down
      && t.master.down[at] == s.master.down[at]
           + if at == fd then [Message(ADDCONF, s.master.conf[id]), Message(REDISPORT, c.port)] else []
  {
  }

  lemma TurnExists(c: Setup, s: System, i: nat)
    requires Shape(c, s)
    ensures c.channels != [] && var fd := c.channels[i % |c.channels|]; fd in s.workers && fd in s.master.load
  {
  }

  lemma RoundsStep(c: Setup, s: System, ids: seq<int>, i: nat) returns (fd: int, s': System)
    requires Shape(c, s) && ids != [] && forall k :: 0 <= k < |ids| ==> ids[k] in s.master.conf
    ensures c.channels != [] && fd == c.channels[i % |c.channels|] && fd in s.workers && fd in s.master.load
    ensures s' == Round(c, s, ids[0], fd) && Shape(c, s') && s'.workers == s.workers && s'.master.conf == s.master.conf
    ensures s'.master.route == s.master.route[ids[0] := fd]
    ensures Rounds(c, s, ids, i) == Rounds(c, s', ids[1..], i + 1)
  {
    TurnExists(c, s, i);
    fd := c.channels[i % |c.channels|];
    RoundIsAssignment(c, s, ids[0], fd);
    s' := Round(c, s, ids[0], fd);
    hide Shape, Round, Assign, Announce;
  }

  lemma {:induction false} RoundsQueue(c: Setup, s: System, ids: seq<int>, i: nat, at: int)
    requires Shape(c, s) && at in s.workers && forall k :: 0 <= k < |ids| ==> ids[k] in s.master.conf
    ensures var t := Rounds(c, s, ids, i);
      && at in t.master.down && c.channels != []
      && t.master.down[at] == s.master.down[at] + Posted(c, s.master.conf, ids, i, at)
    decreases |ids|
  {
    if ids != [] {
      var fd, s' := RoundsStep(c, s, ids, i);
      RoundQueue(c, s, ids[0], fd, at);
      var first := if at == fd then [Message(ADDCONF, s.master.conf[ids[0]]), Message(REDISPORT, c.port)] else [];
      hide Round, Rounds, Shape;
      RoundsQueue(c, s', ids[1..], i + 1, at);
      Associate(s.master.down[at], first, Posted(c, s.master.conf, ids[1..], i + 1, at));
    } else {
      TurnExists(c, s, i);
    }
  }

  lemma FirstAnnounced(parse: Parser, text: Text, port: Text, id: int)
    requires Ident(parse, text) == Some(id) && Fits(text)
    ensures Announces(parse, [Message(ADDCONF, text), Message(REDISPORT, port)], id)
  {
    assert [Message(ADDCONF, text), Message(REDISPORT, port)][0].text == text;
  }

  /** The worker that the route of a distributed id names is sent the id. */
  lemma {:induction false} RoundsAnnounce(c: Setup, s: System, ids: seq<int>, i: nat, id: int)
    requires Shape(c, s) && forall k :: 0 <= k < |ids| ==> ids[k] in s.master.conf
    requires id in s.master.route
    requires id in ids ==> Ident(c.parse, s.master.conf[id]) == Some(id) && Fits(s.master.conf[id])
    ensures var t := Rounds(c, s, ids, i);
      && id in t.master.route
      && if id in ids then Announces(c.parse, Posted(c, s.master.conf, ids, i, t.master.route[id]), id)
         else t.master.route[id] == s.master.route[id]
    decreases |ids|
  {
    if ids != [] {
      var fd, s' := RoundsStep(c, s, ids, i);
      hide Round, Rounds, Shape, Announces, Fits, Posted;
      RoundsAnnounce(c, s', ids[1..], i + 1, id);
      if id in ids {
        RoundAnnounces(c, s, ids, i, id, Rounds(c, s', ids[1..], i + 1).master.route[id]);
      }
    }
  }

  lemma RoundAnnounces(c: Setup, s: System, ids: seq<int>, i: nat, id: int, at: int)
    requires c.channels != [] && ids != [] && forall k :: 0 <= k < |ids| ==> ids[k] in s.master.conf
    requires id in ids && Ident(c.parse, s.master.conf[id]) == Some(id) && Fits(s.master.conf[id])
    requires id in ids[1..] ==> Announces(c.parse, Posted(c, s.master.conf, ids[1..], i + 1, at), id)
    requires id !in ids[1..] ==> at == c.channels[i % |c.channels|]
    ensures Announces(c.parse, Posted(c, s.master.conf, ids, i, at), id)
  {
    var text := s.master.conf[ids[0]];
    var rest := Posted(c, s.master.conf, ids[1..], i + 1, at);
    var turn := at == c.channels[i % |c.channels|];
    var first := if turn then [Message(ADDCONF, text), Message(REDISPORT, c.port)] else [];
    hide Announces, Fits;
    if id !in ids[1..] {
      assert ids[0] == id;
      FirstAnnounced(c.parse, text, c.port, id);
    }
    AnnouncesMore(c.parse, first, rest, id);
  }

  /** A worker that was given the id before and is, or is no longer, the one the route names. */
  lemma GivenTwiceDisagrees(c: Setup, s: System, id: int)
    requires Inv(c, s) && id in s.master.conf && Given(s, id)
    ensures var t := Rounds(c, s, Sorted(s.master.conf.Keys), 0); Shape(c, t) && !Agrees(c, t)
  {
    var ids, at := Sorted(s.master.conf.Keys), s.master.route[id];
    var t := Rounds(c, s, ids, 0);
    RoundsAreDistribution(c, s, ids, 0);
    RoundsShape(c, s, ids, 0);
    InvAgrees(c, s);
    RoundsQueue(c, s, ids, 0, at);
    RoundsAnnounce(c, s, ids, 0, id);
    PostedAddsOnly(c, s.master.conf, ids, 0, at);
    var extra := Posted(c, s.master.conf, ids, 0, at);
    DrainConcat(c.parse, s.workers[at], s.master.down[at], extra);
    DrainAdds(c.parse, Drained(c, s, at), extra, id);
    assert Get(Drained(c, s, at).tests, id) == Expected(s, at, id);
    TwiceIsNoAgreement(c, t, Drained(c, s, at), extra, at, id);
  }

  lemma TwiceIsNoAgreement(c: Setup, t: System, w: WorkerState, extra: seq<Message>, at: int, id: int)
    requires Shape(c, t) && at in t.workers && Drained(c, t, at) == Drain(c.parse, w, extra)
    requires Healthy(w) && id in w.tests && id in t.master.route
    requires t.master.route[id] == at ==> Announces(c.parse, extra, id)
    requires var w' := Drain(c.parse, w, extra);
      id in w'.tests && (w'.alive && Announces(c.parse, extra, id) ==> w'.armed[id] > w.armed[id])
    ensures !Agrees(c, t)
  {
    hide Drain, Announces;
    var w' := Drained(c, t, at);
    if t.master.route[id] == at {
      assert w.armed[id] == 1;
      assert w'.alive ==> w'.armed[id] > multiset(w'.tests.Keys)[id];
      assert !Healthy(w');
    } else {
      assert Expected(t, at, id) == None && Get(w'.tests, id).Some?;
    }
  }

  lemma {:induction false} RoundsShape(c: Setup, s: System, ids: seq<int>, i: nat)
    requires Shape(c, s) && forall k :: 0 <= k < |ids| ==> ids[k] in s.master.conf
    ensures Shape(c, Rounds(c, s, ids, i))
    decreases |ids|
  {
    if ids != [] {
      var fd, s' := RoundsStep(c, s, ids, i);
      hide Round, Rounds, Shape;
      RoundsShape(c, s', ids[1..], i + 1);
    }
  }

  lemma DistributedFlag(c: Setup, s: System)
    requires Shape(c, s)
    ensures Agrees(c, s) <==> Agrees(c, s.(distributed := true))
  {
    var t := s.(distributed := true);
    assert forall fd :: fd in s.workers ==> Drained(c, t, fd) == Drained(c, s, fd);
    assert forall fd, id :: Expected(t, fd, id) == Expected(s, fd, id);
  }

  lemma CleanDistribution(c: Setup, s: System)
    requires Inv(c, s) && Possible(c, s, Distribution) && forall id :: id in s.master.conf ==> !Given(s, id)
    ensures var t := Apply(c, s, Distribution); Shape(c, t) && Agrees(c, t) && StaysAgreed(c, t)
  {
    StepInv(c, s, Distribution);
    hide Apply;
    InvStaysAgreed(c, Apply(c, s, Distribution));
    hide *;
    StaysAgreedNow(c, Apply(c, s, Distribution));
  }

  lemma SecondDistribution(c: Setup, s: System, id: int)
    requires Inv(c, s) && Possible(c, s, Distribution) && id in s.master.conf && Given(s, id)
    ensures var t := Apply(c, s, Distribution); Shape(c, t) && !Agrees(c, t) && !StaysAgreed(c, t)
  {
    var u := Rounds(c, s, Sorted(s.master.conf.Keys), 0);
    GivenTwiceDisagrees(c, s, id);
    DistributionIsRounds(c, s);
    hide *;
    DistributedFlag(c, u);
    if StaysAgreed(c, u.(distributed := true)) {
      StaysAgreedNow(c, u.(distributed := true));
    }
  }

  /**
   * The distribution keeps agreement in a reachable state if and only if no id still in
   * configid_map was given to a worker by a request that came before it; then agreement stays.
   */
  lemma DistributionIsSafeExactly(c: Setup, s0: System, actions: seq<Action>, s: System)
    requires Reached(c, s0, actions, s) && Possible(c, s, Distribution)
    ensures var t := Apply(c, s, Distribution);
      && Shape(c, t)
      && (Agrees(c, t) <==> forall id :: id in s.master.conf ==> !Given(s, id))
      && (Agrees(c, t) <==> StaysAgreed(c, t))
  {
    hide Exec, Init, Inv, StaysAgreed, Agrees, Apply, Possible;
    RunInv(c, s0, actions);
    if forall id :: id in s.master.conf ==> !Given(s, id) {
      CleanDistribution(c, s);
    } else {
      var id :| id in s.master.conf && Given(s, id);
      SecondDistribution(c, s, id);
    }
  }
}
