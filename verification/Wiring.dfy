/**
 * The system as it runs: two byte streams between the master and each worker, whose bytes arrive
 * in any pieces. It refines the system of message queues.
 */
module Wiring {
  import opened Bytes
  import opened Channel
  import opened Metric
  import opened Ordered
  import opened ByteStream
  import opened Master
  import opened Worker
  import opened Agreement
  import D = Distribution

  /** The books of the master hold no queues: down and up are the two streams of each worker. */
  datatype Wired = Wired(
    books: MasterState, workers: map<int, WorkerState>, down: map<int, Stream>, up: map<int, Stream>,
    distributed: bool)

  datatype Act =
    | Request(a: D.Action)
    | DownArrive(fd: int, n: nat)
    | WorkerCallback(fd: int)
    | UpArrive(fd: int, n: nat)
    | MasterCallback(fd: int)

  /** The books with empty queues. */
  ghost function Idle(books: MasterState): MasterState {
    books.(down := map fd | fd in books.load :: [])
  }

  ghost predicate Able(c: D.Setup, w: Wired, act: Act) {
    && Channels(Idle(w.books), c.channels) && w.workers.Keys == w.down.Keys == w.up.Keys == w.books.load.Keys
    && match act
       case Request(a) => (a.Distribution? && !w.distributed) || a.Add? || a.Remove?
       case DownArrive(fd, _) => fd in w.workers
       case WorkerCallback(fd) => fd in w.workers
       case UpArrive(fd, _) => fd in w.workers
       case MasterCallback(fd) => fd in w.workers
  }

  /** Frames written one after the other. */
  function Written(s: Stream, fs: seq<Frame>): Stream {
    Stream(s.sent + fs, s.wire + Flatten(fs), s.input, s.handled)
  }

  /** The books after a request, with the messages it sends left in otherwise empty queues. */
  ghost function Served(c: D.Setup, books: MasterState, a: D.Action): MasterState
    requires Channels(Idle(books), c.channels)
  {
    var idle := Idle(books);
    match a
    case Distribution => Distribute(idle, c.channels, c.port)
    case Add(text) => Post(idle, c.parse, text)
    case Remove(text) => Delete(idle, c.parse, text)
    case _ => idle
  }

  function Sent(books: MasterState, fd: int): seq<Message> {
    if fd in books.down then books.down[fd] else []
  }

  /** The messages of a request go onto the streams. */
  function WriteAll(down: map<int, Stream>, books: MasterState): (all: map<int, Stream>)
    ensures all.Keys == down.Keys
  {
    map fd | fd in down :: Written(down[fd], Frames(Sent(books, fd)))
  }

  ghost function Perform(c: D.Setup, w: Wired, act: Act): Wired
    requires Able(c, w, act)
  {
    match act
    case Request(a) =>
      var books := Served(c, w.books, a);
      w.(books := books.(down := w.books.down), distributed := w.distributed || a.Distribution?,
         down := WriteAll(w.down, books))
    case DownArrive(fd, n) => w.(down := w.down[fd := ByteStream.Apply(w.down[fd], Arrive(n), StopsOf(c.parse))])
    case WorkerCallback(fd) =>
      var fs := Cut(w.down[fd].input, StopsOf(c.parse)).0;
      var (worker, acks) := TakeFrames(c.parse, w.workers[fd], fs);
      w.(workers := w.workers[fd := worker],
         down := w.down[fd := ByteStream.Apply(w.down[fd], Callback, StopsOf(c.parse))],
         up := w.up[fd := Written(w.up[fd], AckFrames(acks))])
    case UpArrive(fd, n) => w.(up := w.up[fd := ByteStream.Apply(w.up[fd], Arrive(n), Never())])
    case MasterCallback(fd) =>
      var fs := Cut(w.up[fd].input, Never()).0;
      w.(books := Acknowledged(w.books, fd, AckIds(fs)),
         up := w.up[fd := ByteStream.Apply(w.up[fd], Callback, Never())])
  }

  function AckFrames(ids: seq<int>): (fs: seq<Frame>)
    ensures |fs| == |ids|
  {
    if ids == [] then [] else [AckFrame(ids[0])] + AckFrames(ids[1..])
  }

  // ---- The queues of the abstract system ----

  predicate Ints(ids: seq<int>) {
    forall i :: 0 <= i < |ids| ==> -0x8000_0000 <= ids[i] < 0x8000_0000
  }

  /** A stream carries what a queue holds. */
  ghost predicate DownOk(st: Stream, q: seq<Message>) {
    Conserved(st) && Queue(st) == Frames(q)
  }

  ghost predicate UpOk(st: Stream, ids: seq<int>) {
    Conserved(st) && Queue(st) == AckFrames(ids) && Ints(ids)
  }

  ghost predicate Downs(down: map<int, Stream>, queues: map<int, seq<Message>>) {
    forall fd :: fd in down && fd in queues ==> DownOk(down[fd], queues[fd])
  }

  ghost predicate Ups(up: map<int, Stream>, queues: map<int, seq<int>>) {
    forall fd :: fd in up && fd in queues ==> UpOk(up[fd], queues[fd])
  }

  /** Everything but the streams is the same. */
  ghost predicate Control(c: D.Setup, w: Wired, s: D.System) {
    && D.Shape(c, s)
    && s.master == w.books.(down := s.master.down) && s.workers == w.workers && s.distributed == w.distributed
    && w.down.Keys == w.up.Keys == w.workers.Keys
  }

  ghost predicate Refines(c: D.Setup, w: Wired, s: D.System) {
    Control(c, w, s) && Downs(w.down, s.master.down) && Ups(w.up, s.up)
  }

  lemma {:induction false} FramesAppend(p: seq<Message>, q: seq<Message>)
    ensures Frames(p + q) == Frames(p) + Frames(q)
  {
    hide Pack;
    if p == [] {
      assert p + q == q;
    } else {
      FramesAppend(p[1..], q);
      assert (p + q)[1..] == p[1..] + q;
      Associate([Pack(p[0])], Frames(p[1..]), Frames(q));
    }
  }

  lemma {:induction false} AckFramesAppend(p: seq<int>, q: seq<int>)
    ensures AckFrames(p + q) == AckFrames(p) + AckFrames(q)
  {
    hide AckFrame;
    if p == [] {
      assert p + q == q;
    } else {
      AckFramesAppend(p[1..], q);
      assert (p + q)[1..] == p[1..] + q;
      Associate([AckFrame(p[0])], AckFrames(p[1..]), AckFrames(q));
    }
  }

  lemma SplitIsUnique(a: seq<Frame>, b: seq<Frame>, p: seq<Frame>, q: seq<Frame>)
    requires a + b == p + q && |a| == |p|
    ensures a == p && b == q
  {
    assert a == (a + b)[..|a|] && b == (a + b)[|a|..];
  }

  /** What was taken off the front of a queue of frames are the frames of its first messages. */
  lemma FramesTaken(q: seq<Message>, took: seq<Frame>, rest: seq<Frame>)
    requires Frames(q) == took + rest
    ensures |took| <= |q| && Frames(q[..|took|]) == took && Frames(q[|took|..]) == rest
  {
    hide Frames;
    var n := |took|;
    assert q == q[..n] + q[n..];
    FramesAppend(q[..n], q[n..]);
    SplitIsUnique(Frames(q[..n]), Frames(q[n..]), took, rest);
  }

  lemma AckFramesTaken(q: seq<int>, took: seq<Frame>, rest: seq<Frame>)
    requires AckFrames(q) == took + rest
    ensures |took| <= |q| && AckFrames(q[..|took|]) == took && AckFrames(q[|took|..]) == rest
  {
    hide AckFrames;
    var n := |took|;
    assert q == q[..n] + q[n..];
    AckFramesAppend(q[..n], q[n..]);
    SplitIsUnique(AckFrames(q[..n]), AckFrames(q[n..]), took, rest);
  }

  lemma {:induction false} AckIdsOfFrames(ids: seq<int>)
    requires Ints(ids)
    ensures AckIds(AckFrames(ids)) == ids
  {
    if ids != [] {
      AckRoundTrip(ids[0]);
      AckIdsOfFrames(ids[1..]);
    }
  }

  lemma {:induction false} WrittenFifo(s: Stream, fs: seq<Frame>)
    requires Conserved(s)
    ensures Conserved(Written(s, fs)) && Queue(Written(s, fs)) == Queue(s) + fs
  {
    var s' := Written(s, fs);
    JoinAppend(FrameBytes, s.sent, fs);
    Associate(Flatten(s.handled), s.input + s.wire, Flatten(fs));
    Associate(s.input, s.wire, Flatten(fs));
    FlattenPrefix(s.sent, s.handled, s.input + s.wire);
    assert Queue(s') == Queue(s) + fs;
  }

  // ---- One stream ----

  lemma DownWritten(st: Stream, q: seq<Message>, ms: seq<Message>)
    requires DownOk(st, q)
    ensures DownOk(Written(st, Frames(ms)), q + ms)
  {
    hide Frames, Written, Queue, Conserved;
    FramesAppend(q, ms);
    WrittenFifo(st, Frames(ms));
  }

  lemma UpWritten(st: Stream, ids: seq<int>, more: seq<int>)
    requires UpOk(st, ids) && Ints(more)
    ensures UpOk(Written(st, AckFrames(more)), ids + more)
  {
    hide AckFrames, Written, Queue, Conserved;
    AckFramesAppend(ids, more);
    WrittenFifo(st, AckFrames(more));
  }

  lemma Arrived(st: Stream, n: nat, stops: Frame -> bool)
    ensures forall q :: DownOk(st, q) ==> DownOk(ByteStream.Apply(st, Arrive(n), stops), q)
    ensures forall ids :: UpOk(st, ids) ==> UpOk(ByteStream.Apply(st, Arrive(n), stops), ids)
  {
    if Conserved(st) {
      ConservedStep(st, Arrive(n), stops);
      hide ByteStream.Apply, Queue, Conserved;
    }
  }

  lemma DownCallback(st: Stream, q: seq<Message>, stops: Frame -> bool)
    requires DownOk(st, q)
    ensures var fs := Cut(st.input, stops).0;
      |fs| <= |q| && Frames(q[..|fs|]) == fs && DownOk(ByteStream.Apply(st, Callback, stops), q[|fs|..])
  {
    ConservedStep(st, Callback, stops);
    hide ByteStream.Apply, Queue, Conserved, Frames, Cut;
    FramesTaken(q, Cut(st.input, stops).0, Queue(ByteStream.Apply(st, Callback, stops)));
  }

  lemma UpCallback(st: Stream, ids: seq<int>, stops: Frame -> bool)
    requires UpOk(st, ids)
    ensures var fs := Cut(st.input, stops).0;
      |fs| <= |ids| && AckIds(fs) == ids[..|fs|] && UpOk(ByteStream.Apply(st, Callback, stops), ids[|fs|..])
  {
    ConservedStep(st, Callback, stops);
    hide ByteStream.Apply, Queue, Conserved, AckFrames, Cut, AckIds;
    var fs := Cut(st.input, stops).0;
    AckFramesTaken(ids, fs, Queue(ByteStream.Apply(st, Callback, stops)));
    AckIdsOfFrames(ids[..|fs|]);
  }

  // ---- Requests ----

  /** The messages in more, queued behind those in base. */
  function Behind(base: map<int, seq<Message>>, more: map<int, seq<Message>>): map<int, seq<Message>>
    requires base.Keys == more.Keys
  {
    map fd | fd in base :: base[fd] + more[fd]
  }

  /** The same books with their messages queued behind base. */
  function Over(m: MasterState, base: map<int, seq<Message>>): MasterState
    requires base.Keys == m.down.Keys
  {
    m.(down := Behind(base, m.down))
  }

  lemma SendOver(base: map<int, seq<Message>>, down: map<int, seq<Message>>, fd: int, m: Message)
    requires base.Keys == down.Keys
    ensures Send(down, fd, m).Keys == down.Keys
    ensures Send(Behind(base, down), fd, m) == Behind(base, Send(down, fd, m))
  {
    if fd in down {
      assert (base[fd] + down[fd]) + [m] == base[fd] + (down[fd] + [m]);
    }
  }

  lemma AssignOver(m: MasterState, base: map<int, seq<Message>>, id: int, text: Text, fd: int)
    requires base.Keys == m.down.Keys && fd in m.load
    ensures Assign(m, id, text, fd).down.Keys == m.down.Keys
    ensures Assign(Over(m, base), id, text, fd) == Over(Assign(m, id, text, fd), base)
  {
    SendOver(base, m.down, fd, Message(ADDCONF, text));
  }

  lemma ForwardOver(m: MasterState, base: map<int, seq<Message>>, id: int, kind: int32, text: Text)
    requires base.Keys == m.down.Keys
    ensures Forward(m, id, kind, text).down.Keys == m.down.Keys
    ensures Forward(Over(m, base), id, kind, text) == Over(Forward(m, id, kind, text), base)
  {
    SendOver(base, m.down, RouteOf(m, id), Message(kind, text));
  }

  lemma PostOver(m: MasterState, base: map<int, seq<Message>>, parse: Parser, text: Text)
    requires base.Keys == m.down.Keys && m.load.Keys != {}
    ensures Post(m, parse, text).down.Keys == m.down.Keys
    ensures Post(Over(m, base), parse, text) == Over(Post(m, parse, text), base)
  {
    hide LeastLoaded;
    match Ident(parse, text)
    case None =>
    case Some(id) =>
      if id !in m.conf {
        AssignOver(m, base, id, text, LeastLoaded(m.load));
      } else {
        ForwardOver(m.(conf := m.conf[id := text]), base, id, EDITCONF, text);
      }
  }

  lemma DeleteOver(m: MasterState, base: map<int, seq<Message>>, parse: Parser, text: Text)
    requires base.Keys == m.down.Keys
    ensures Delete(m, parse, text).down.Keys == m.down.Keys
    ensures Delete(Over(m, base), parse, text) == Over(Delete(m, parse, text), base)
  {
    match Ident(parse, text)
    case None =>
    case Some(id) =>
      if id in m.conf {
        ForwardOver(m.(conf := m.conf - {id}), base, id, DELCONF, text);
      }
  }

  lemma TurnOver(m: MasterState, base: map<int, seq<Message>>, id: int, text: Text, fd: int, port: Text)
    requires base.Keys == m.down.Keys && fd in m.load
    ensures var next := Announce(Assign(m, id, text, fd), fd, port);
      && next.down.Keys == m.down.Keys && next.load.Keys == m.load.Keys && next.conf == m.conf[id := text]
      && Announce(Assign(Over(m, base), id, text, fd), fd, port) == Over(next, base)
  {
    AssignOver(m, base, id, text, fd);
    SendOver(base, Assign(m, id, text, fd).down, fd, Message(REDISPORT, port));
  }

  lemma {:induction false} DistributeOver(
    m: MasterState, base: map<int, seq<Message>>, channels: seq<int>, ids: seq<int>, i: nat, port: Text)
    requires base.Keys == m.down.Keys && channels != [] && (forall fd :: fd in channels ==> fd in m.load)
    requires forall id :: id in ids ==> id in m.conf
    ensures DistributeFrom(m, channels, ids, i, port).down.Keys == m.down.Keys
    ensures DistributeFrom(Over(m, base), channels, ids, i, port)
         == Over(DistributeFrom(m, channels, ids, i, port), base)
    decreases |ids|
  {
    if ids != [] {
      var fd := channels[i % |channels|];
      TurnOver(m, base, ids[0], m.conf[ids[0]], fd, port);
      hide Assign, Announce, Over;
      DistributeOver(Announce(Assign(m, ids[0], m.conf[ids[0]], fd), fd, port), base, channels, ids[1..], i + 1, port);
    }
  }

  lemma {:induction false} DistributeLoads(m: MasterState, channels: seq<int>, ids: seq<int>, i: nat, port: Text)
    requires channels != [] && (forall fd :: fd in channels ==> fd in m.load)
    requires forall id :: id in ids ==> id in m.conf
    ensures DistributeFrom(m, channels, ids, i, port).load.Keys == m.load.Keys
    decreases |ids|
  {
    if ids != [] {
      var fd := channels[i % |channels|];
      var next := Announce(Assign(m, ids[0], m.conf[ids[0]], fd), fd, port);
      assert next.load.Keys == m.load.Keys && next.conf.Keys == m.conf.Keys;
      DistributeLoads(next, channels, ids[1..], i + 1, port);
    }
  }

  lemma IdleOver(m: MasterState, books: MasterState)
    requires m == books.(down := m.down) && m.down.Keys == m.load.Keys
    ensures Idle(books).down.Keys == m.down.Keys && Over(Idle(books), m.down) == m
  {
    assert forall fd :: fd in m.down ==> m.down[fd] + [] == m.down[fd];
    assert Behind(m.down, Idle(books).down) == m.down;
  }

  lemma IdleChannels(m: MasterState, books: MasterState, channels: seq<int>)
    requires m == books.(down := m.down) && Channels(m, channels)
    ensures Channels(Idle(books), channels) && channels != []
    ensures forall fd :: fd in channels ==> fd in Idle(books).load
  {
  }

  lemma DistributionOver(m: MasterState, books: MasterState, channels: seq<int>, port: Text)
    requires m == books.(down := m.down) && Channels(m, channels)
    ensures Channels(Idle(books), channels)
    ensures var served := Distribute(Idle(books), channels, port);
      && served.down.Keys == m.down.Keys && served.load.Keys == m.load.Keys
      && Distribute(m, channels, port) == Over(served, m.down)
  {
    IdleChannels(m, books, channels);
    IdleOver(m, books);
    hide Over, DistributeFrom, Channels;
    DistributeOver(Idle(books), m.down, channels, Sorted(m.conf.Keys), 0, port);
    DistributeLoads(Idle(books), channels, Sorted(m.conf.Keys), 0, port);
  }

  lemma PostKeys(m: MasterState, parse: Parser, text: Text)
    requires m.load.Keys != {}
    ensures Post(m, parse, text).load.Keys == m.load.Keys && Delete(m, parse, text).load.Keys == m.load.Keys
  {
    hide LeastLoaded;
  }

  lemma ServedOver(c: D.Setup, w: Wired, s: D.System, a: D.Action)
    requires Refines(c, w, s) && Able(c, w, Request(a))
    ensures var books := Served(c, w.books, a);
      && D.Possible(c, s, a) && s.master.down.Keys == books.down.Keys && books.load.Keys == w.books.load.Keys
      && D.Apply(c, s, a).master == Over(books, s.master.down)
      && D.Apply(c, s, a).workers == s.workers && D.Apply(c, s, a).up == s.up
      && D.Apply(c, s, a).distributed == (s.distributed || a.Distribution?)
  {
    IdleOver(s.master, w.books);
    assert Channels(s.master, c.channels);
    DistributionOver(s.master, w.books, c.channels, c.port);
    var idle := Idle(w.books);
    hide Post, Delete, Distribute, Over, Downs, Ups;
    match a
    case Distribution =>
    case Add(text) =>
      PostOver(idle, s.master.down, c.parse, text);
      PostKeys(idle, c.parse, text);
    case Remove(text) =>
      DeleteOver(idle, s.master.down, c.parse, text);
      PostKeys(idle, c.parse, text);
  }

  lemma RequestWrites(down: map<int, Stream>, queues: map<int, seq<Message>>, books: MasterState)
    requires Downs(down, queues) && down.Keys == queues.Keys == books.down.Keys
    ensures Downs(WriteAll(down, books), Behind(queues, books.down))
  {
    var all, behind := WriteAll(down, books), Behind(queues, books.down);
    hide DownOk, Written, Frames;
    forall fd | fd in all && fd in behind ensures DownOk(all[fd], behind[fd]) {
      DownWritten(down[fd], queues[fd], books.down[fd]);
    }
  }

  lemma RequestControl(c: D.Setup, w: Wired, s: D.System, a: D.Action)
    requires Control(c, w, s) && Able(c, w, Request(a)) && D.Possible(c, s, a)
    requires var books, t := Served(c, w.books, a), D.Apply(c, s, a);
      && s.master.down.Keys == books.down.Keys && books.load.Keys == w.books.load.Keys
      && t.master == Over(books, s.master.down)
      && t.workers == s.workers && t.up == s.up && t.distributed == (s.distributed || a.Distribution?)
    ensures var w', t := Perform(c, w, Request(a)), D.Apply(c, s, a);
      && Control(c, w', t) && w'.up == w.up && w'.down == WriteAll(w.down, Served(c, w.books, a))
  {
    hide Served, D.Apply, WriteAll;
  }

  lemma RequestRefines(c: D.Setup, w: Wired, s: D.System, a: D.Action)
    requires Refines(c, w, s) && Able(c, w, Request(a))
    ensures D.Possible(c, s, a) && Refines(c, Perform(c, w, Request(a)), D.Apply(c, s, a))
  {
    ServedOver(c, w, s, a);
    RequestControl(c, w, s, a);
    var books := Served(c, w.books, a);
    RequestWrites(w.down, s.master.down, books);
    hide Served, D.Apply, Perform, Downs, Ups, WriteAll, Behind, Control, Able, D.Possible, D.Shape;
  }

  // ---- Callbacks ----

  function Repeat<T>(x: T, n: nat): seq<T> {
    seq(n, _ => x)
  }

  /** One receive is the loop body on the frame of the first message. */
  lemma ReceiveIsTakeFrame(c: D.Setup, s: D.System, fd: int)
    requires D.Possible(c, s, D.Receive(fd))
    ensures var q, taken := s.master.down[fd], TakeFrame(c.parse, s.workers[fd], Pack(s.master.down[fd][0]));
      D.Apply(c, s, D.Receive(fd)) == s.(
        master := s.master.(down := s.master.down[fd := q[1..]]),
        workers := s.workers[fd := taken.0], up := s.up[fd := s.up[fd] + taken.1])
  {
    var m := s.master.down[fd][0];
    PackKind(m);
    hide Handle, CString, Pack, Distribute, Post, Delete, Acknowledged;
    if D.Read(m).None? {
      assert s.up[fd] + [] == s.up[fd] && s.up[fd := s.up[fd]] == s.up;
    }
  }

  /** The system after worker fd has received n messages. */
  ghost function AfterReceives(c: D.Setup, s: D.System, fd: int, n: nat): D.System
    requires fd in s.workers && fd in s.up && fd in s.master.down && n <= |s.master.down[fd]|
  {
    var (worker, acks) := TakeFrames(c.parse, s.workers[fd], Frames(s.master.down[fd][..n]));
    s.(master := s.master.(down := s.master.down[fd := s.master.down[fd][n..]]),
       workers := s.workers[fd := worker], up := s.up[fd := s.up[fd] + acks])
  }

  lemma NextOf<T>(q: seq<T>, n: nat)
    requires n < |q|
    ensures q[..n + 1] == q[..n] + [q[n]] && q[n..] != [] && q[n..][0] == q[n] && q[n..][1..] == q[n + 1..]
  {
  }

  lemma UpdateTwice<V>(m: map<int, V>, k: int, a: V, b: V)
    ensures m[k := a][k := b] == m[k := b]
  {
  }

  lemma TakeFramesNext(parse: Parser, w: WorkerState, q: seq<Message>, n: nat)
    requires n < |q|
    ensures var (mid, acks) := TakeFrames(parse, w, Frames(q[..n]));
      var (next, more) := TakeFrame(parse, mid, Pack(q[n]));
      TakeFrames(parse, w, Frames(q[..n + 1])) == (next, acks + more)
  {
    NextOf(q, n);
    FramesAppend(q[..n], [q[n]]);
    assert Frames([q[n]]) == [Pack(q[n])];
    TakeFramesLast(parse, w, Frames(q[..n]), Pack(q[n]));
  }

  lemma AfterReceivesShape(c: D.Setup, s: D.System, fd: int, n: nat)
    requires D.Shape(c, s) && fd in s.workers && n <= |s.master.down[fd]|
    ensures D.Shape(c, AfterReceives(c, s, fd, n))
  {
    hide TakeFrames, Frames;
  }

  lemma OneMoreReceive(c: D.Setup, s: D.System, fd: int, n: nat)
    requires D.Shape(c, s) && fd in s.workers && n < |s.master.down[fd]|
    ensures var t := AfterReceives(c, s, fd, n);
      D.Possible(c, t, D.Receive(fd)) && D.Apply(c, t, D.Receive(fd)) == AfterReceives(c, s, fd, n + 1)
  {
    var q, t := s.master.down[fd], AfterReceives(c, s, fd, n);
    AfterReceivesShape(c, s, fd, n);
    NextOf(q, n);
    TakeFramesNext(c.parse, s.workers[fd], q, n);
    hide D.Apply, D.Shape, TakeFrames, TakeFrame, Frames, Pack;
    ReceiveIsTakeFrame(c, t, fd);
    var (mid, acks) := TakeFrames(c.parse, s.workers[fd], Frames(q[..n]));
    var (next, more) := TakeFrame(c.parse, mid, Pack(q[n]));
    assert (s.up[fd] + acks) + more == s.up[fd] + (acks + more);
    UpdateTwice(s.master.down, fd, q[n..], q[n + 1..]);
    UpdateTwice(s.workers, fd, mid, next);
    UpdateTwice(s.up, fd, s.up[fd] + acks, s.up[fd] + (acks + more));
  }

  lemma {:induction false} ReceiveMany(c: D.Setup, s: D.System, fd: int, n: nat)
    requires D.Shape(c, s) && fd in s.workers && n <= |s.master.down[fd]|
    ensures D.Exec(c, s, Repeat(D.Receive(fd), n), false) == Some(AfterReceives(c, s, fd, n))
    decreases n
  {
    var q := s.master.down[fd];
    if n == 0 {
      assert q[..0] == [] && q[0..] == q && s.up[fd] + [] == s.up[fd];
      assert s.workers[fd := s.workers[fd]] == s.workers && s.up[fd := s.up[fd]] == s.up;
      assert s.master.down[fd := q] == s.master.down;
    } else {
      ReceiveMany(c, s, fd, n - 1);
      OneMoreReceive(c, s, fd, n - 1);
      hide AfterReceives, D.Apply, D.Possible;
      assert Repeat(D.Receive(fd), n)[..n - 1] == Repeat(D.Receive(fd), n - 1);
    }
  }

  /** The system after the master has handled n acknowledgements of worker fd. */
  ghost function AfterAcks(s: D.System, fd: int, n: nat): D.System
    requires fd in s.up && n <= |s.up[fd]|
  {
    s.(master := Acknowledged(s.master, fd, s.up[fd][..n]), up := s.up[fd := s.up[fd][n..]])
  }

  lemma {:induction false} AcknowledgedRoute(m: MasterState, fd: int, acks: seq<int>)
    ensures Acknowledged(m, fd, acks) == m.(route := Acknowledged(m, fd, acks).route)
    decreases |acks|
  {
    if acks != [] {
      AcknowledgedRoute(m.(route := m.route[acks[0] := fd]), fd, acks[1..]);
    }
  }

  lemma OneMoreAck(c: D.Setup, s: D.System, fd: int, n: nat)
    requires D.Shape(c, s) && fd in s.workers && n < |s.up[fd]|
    ensures var t := AfterAcks(s, fd, n);
      D.Possible(c, t, D.Ack(fd)) && D.Apply(c, t, D.Ack(fd)) == AfterAcks(s, fd, n + 1)
  {
    var q, t := s.up[fd], AfterAcks(s, fd, n);
    AcknowledgedRoute(s.master, fd, q[..n]);
    hide Acknowledged;
    assert D.Shape(c, t);
    assert q[..n + 1] == q[..n] + [q[n]] && q[n..][1..] == q[n + 1..] && q[n..][0] == q[n];
    AcknowledgedLast(s.master, fd, q[..n], q[n]);
    AcknowledgedOne(t.master, fd, q[n]);
  }

  lemma {:induction false} AckMany(c: D.Setup, s: D.System, fd: int, n: nat)
    requires D.Shape(c, s) && fd in s.workers && n <= |s.up[fd]|
    ensures D.Exec(c, s, Repeat(D.Ack(fd), n), false) == Some(AfterAcks(s, fd, n))
    decreases n
  {
    if n == 0 {
      assert s.up[fd][..0] == [] && s.up[fd][0..] == s.up[fd] && s.up[fd := s.up[fd]] == s.up;
    } else {
      AckMany(c, s, fd, n - 1);
      OneMoreAck(c, s, fd, n - 1);
      hide AfterAcks, D.Apply, D.Possible;
      assert Repeat(D.Ack(fd), n)[..n - 1] == Repeat(D.Ack(fd), n - 1);
    }
  }

  lemma {:induction false} AcksAreInts(parse: Parser, w: WorkerState, fs: seq<Frame>)
    ensures Ints(TakeFrames(parse, w, fs).1)
    decreases |fs|
  {
    hide CString;
    if fs != [] {
      AcksAreInts(parse, TakeFrame(parse, w, fs[0]).0, fs[1..]);
    }
  }

  lemma DownsUpdate(down: map<int, Stream>, queues: map<int, seq<Message>>, fd: int, st: Stream, q: seq<Message>)
    requires Downs(down, queues) && DownOk(st, q)
    ensures Downs(down[fd := st], queues[fd := q])
  {
    hide DownOk;
  }

  lemma UpsUpdate(up: map<int, Stream>, queues: map<int, seq<int>>, fd: int, st: Stream, ids: seq<int>)
    requires Ups(up, queues) && UpOk(st, ids)
    ensures Ups(up[fd := st], queues[fd := ids])
  {
    hide UpOk;
  }

  lemma WorkerControl(c: D.Setup, w: Wired, s: D.System, fd: int, n: nat)
    requires Control(c, w, s) && Able(c, w, WorkerCallback(fd)) && n <= |s.master.down[fd]|
    requires Cut(w.down[fd].input, StopsOf(c.parse)).0 == Frames(s.master.down[fd][..n])
    ensures var w', t := Perform(c, w, WorkerCallback(fd)), AfterReceives(c, s, fd, n);
      var acks := TakeFrames(c.parse, w.workers[fd], Frames(s.master.down[fd][..n])).1;
      && Control(c, w', t)
      && w'.down == w.down[fd := ByteStream.Apply(w.down[fd], Callback, StopsOf(c.parse))]
      && t.master.down == s.master.down[fd := s.master.down[fd][n..]]
      && w'.up == w.up[fd := Written(w.up[fd], AckFrames(acks))] && t.up == s.up[fd := s.up[fd] + acks]
  {
    hide Cut, Written, TakeFrames, ByteStream.Apply, StopsOf, Frames, AckFrames, Channels;
    AfterReceivesShape(c, s, fd, n);
    hide D.Shape;
  }

  lemma WorkerRefines(c: D.Setup, w: Wired, s: D.System, fd: int) returns (n: nat)
    requires Refines(c, w, s) && Able(c, w, WorkerCallback(fd))
    ensures D.Shape(c, s) && n <= |s.master.down[fd]|
    ensures Refines(c, Perform(c, w, WorkerCallback(fd)), AfterReceives(c, s, fd, n))
  {
    var took := Cut(w.down[fd].input, StopsOf(c.parse)).0;
    n := |took|;
    DownCallback(w.down[fd], s.master.down[fd], StopsOf(c.parse));
    WorkerControl(c, w, s, fd, n);
    var acks := TakeFrames(c.parse, w.workers[fd], took).1;
    AcksAreInts(c.parse, w.workers[fd], took);
    UpWritten(w.up[fd], s.up[fd], acks);
    hide Perform, AfterReceives, Able, Control, Cut, DownOk;
    hide UpOk, Written, TakeFrames, ByteStream.Apply, StopsOf, Frames;
    var st := ByteStream.Apply(w.down[fd], Callback, StopsOf(c.parse));
    DownsUpdate(w.down, s.master.down, fd, st, s.master.down[fd][n..]);
    UpsUpdate(w.up, s.up, fd, Written(w.up[fd], AckFrames(acks)), s.up[fd] + acks);
  }

  lemma RoutesShape(c: D.Setup, s: D.System, route: map<int, int>, up: map<int, seq<int>>)
    requires D.Shape(c, s) && up.Keys == s.up.Keys
    ensures D.Shape(c, s.(master := s.master.(route := route), up := up))
  {
  }

  lemma MasterControl(c: D.Setup, w: Wired, s: D.System, fd: int, n: nat)
    requires Control(c, w, s) && Able(c, w, MasterCallback(fd)) && n <= |s.up[fd]|
    requires AckIds(Cut(w.up[fd].input, Never()).0) == s.up[fd][..n]
    ensures var w', t := Perform(c, w, MasterCallback(fd)), AfterAcks(s, fd, n);
      && Control(c, w', t) && w'.down == w.down && t.master.down == s.master.down
      && w'.up == w.up[fd := ByteStream.Apply(w.up[fd], Callback, Never())] && t.up == s.up[fd := s.up[fd][n..]]
  {
    var ids := s.up[fd][..n];
    AcknowledgedRoute(s.master, fd, ids);
    AcknowledgedRoute(w.books, fd, ids);
    AcknowledgedSame(w.books, s.master, fd, ids);
    RoutesShape(c, s, Acknowledged(s.master, fd, ids).route, s.up[fd := s.up[fd][n..]]);
    hide Cut, Acknowledged, ByteStream.Apply, AckIds, Never, D.Shape, Channels;
  }

  lemma MasterRefines(c: D.Setup, w: Wired, s: D.System, fd: int) returns (n: nat)
    requires Refines(c, w, s) && Able(c, w, MasterCallback(fd))
    ensures D.Shape(c, s) && n <= |s.up[fd]| && Refines(c, Perform(c, w, MasterCallback(fd)), AfterAcks(s, fd, n))
  {
    n := |Cut(w.up[fd].input, Never()).0|;
    UpCallback(w.up[fd], s.up[fd], Never());
    MasterControl(c, w, s, fd, n);
    hide Perform, AfterAcks, Able, Control, Cut, DownOk, UpOk, ByteStream.Apply, AckIds, Never;
    UpsUpdate(w.up, s.up, fd, ByteStream.Apply(w.up[fd], Callback, Never()), s.up[fd][n..]);
  }

  lemma {:induction false} AcknowledgedSame(m: MasterState, n: MasterState, fd: int, acks: seq<int>)
    requires m.route == n.route
    ensures Acknowledged(m, fd, acks).route == Acknowledged(n, fd, acks).route
    decreases |acks|
  {
    if acks != [] {
      AcknowledgedSame(m.(route := m.route[acks[0] := fd]), n.(route := n.route[acks[0] := fd]), fd, acks[1..]);
    }
  }

  lemma ArrivalRefines(c: D.Setup, w: Wired, s: D.System, act: Act)
    requires Refines(c, w, s) && Able(c, w, act) && (act.DownArrive? || act.UpArrive?)
    ensures Refines(c, Perform(c, w, act), s)
  {
    hide DownOk, UpOk, ByteStream.Apply, StopsOf, Never, D.Shape;
    if act.DownArrive? {
      Arrived(w.down[act.fd], act.n, StopsOf(c.parse));
    } else {
      Arrived(w.up[act.fd], act.n, Never());
    }
  }

  // ---- The refinement ----

  /** What a step of the streams is in the system of queues. */
  ghost predicate Matches(act: Act, run: seq<D.Action>) {
    match act
    case Request(a) => run == [a]
    case DownArrive(_, _) => run == []
    case WorkerCallback(fd) => run == Repeat(D.Receive(fd), |run|)
    case UpArrive(_, _) => run == []
    case MasterCallback(fd) => run == Repeat(D.Ack(fd), |run|)
  }

  lemma ExecNone(c: D.Setup, s: D.System)
    ensures D.Exec(c, s, [], false) == Some(s)
  {
  }

  lemma ExecSingle(c: D.Setup, s: D.System, a: D.Action)
    requires D.Possible(c, s, a)
    ensures D.Exec(c, s, [a], false) == Some(D.Apply(c, s, a))
  {
    assert [a][..0] == [];
    ExecNone(c, s);
  }

  /**
   * Every step of the streams is a request, nothing, or a number of receives or acknowledgements
   * of one worker: the bytes in transit never show.
   */
  lemma StepRefines(c: D.Setup, w: Wired, s: D.System, act: Act) returns (run: seq<D.Action>)
    requires Refines(c, w, s) && Able(c, w, act)
    ensures Matches(act, run) && D.Exec(c, s, run, false).Some?
    ensures Refines(c, Perform(c, w, act), D.Exec(c, s, run, false).value)
  {
    hide Refines, Perform, D.Apply, D.Possible, AfterReceives, AfterAcks;
    match act
    case Request(a) =>
      RequestRefines(c, w, s, a);
      run := [a];
      ExecSingle(c, s, a);
    case WorkerCallback(fd) =>
      var n := WorkerRefines(c, w, s, fd);
      ReceiveMany(c, s, fd, n);
      run := Repeat(D.Receive(fd), n);
    case MasterCallback(fd) =>
      var n := MasterRefines(c, w, s, fd);
      AckMany(c, s, fd, n);
      run := Repeat(D.Ack(fd), n);
    case _ =>
      ArrivalRefines(c, w, s, act);
      run := [];
      ExecNone(c, s);
  }

  // ---- Whole runs ----

  ghost function WiredExec(c: D.Setup, w: Wired, acts: seq<Act>): Option<Wired>
    decreases |acts|
  {
    if acts == [] then Some(w)
    else
      var n := |acts| - 1;
      match WiredExec(c, w, acts[..n])
      case None => None
      case Some(mid) => if Able(c, mid, acts[n]) then Some(Perform(c, mid, acts[n])) else None
  }

  /** The requests of a run, in order. */
  function Asked(run: seq<D.Action>): seq<D.Action> {
    if run == [] then []
    else (if run[0].Receive? || run[0].Ack? then [] else [run[0]]) + Asked(run[1..])
  }

  function AskedOf(acts: seq<Act>): seq<D.Action>
    decreases |acts|
  {
    if acts == [] then []
    else AskedOf(acts[..|acts| - 1]) + if acts[|acts| - 1].Request? then [acts[|acts| - 1].a] else []
  }

  lemma {:induction false} AskedAppend(p: seq<D.Action>, q: seq<D.Action>)
    ensures Asked(p + q) == Asked(p) + Asked(q)
  {
    if p == [] {
      assert p + q == q;
    } else {
      AskedAppend(p[1..], q);
      assert (p + q)[1..] == p[1..] + q && (p + q)[0] == p[0];
      Associate(if p[0].Receive? || p[0].Ack? then [] else [p[0]], Asked(p[1..]), Asked(q));
    }
  }

  lemma {:induction false} AskedNothing(run: seq<D.Action>)
    requires forall i :: 0 <= i < |run| ==> run[i].Receive? || run[i].Ack?
    ensures Asked(run) == []
  {
    if run != [] {
      AskedNothing(run[1..]);
    }
  }

  lemma AskedMatches(c: D.Setup, w: Wired, act: Act, run: seq<D.Action>)
    requires Able(c, w, act) && Matches(act, run)
    ensures Asked(run) == if act.Request? then [act.a] else []
  {
    if act.Request? {
      assert Asked([act.a][1..]) == [];
    } else {
      AskedNothing(run);
    }
  }

  lemma {:induction false} ExecConcat(c: D.Setup, s: D.System, p: seq<D.Action>, q: seq<D.Action>)
    requires D.Exec(c, s, p, false).Some?
    ensures D.Exec(c, s, p + q, false) == D.Exec(c, D.Exec(c, s, p, false).value, q, false)
    decreases |q|
  {
    hide D.Apply, D.Possible;
    if q == [] {
      assert p + q == p;
    } else {
      var n := |q| - 1;
      ExecConcat(c, s, p, q[..n]);
      assert (p + q)[..|p| + n] == p + q[..n];
    }
  }

  /**
   * Under every interleaving of requests, arrivals of any number of bytes and callbacks, the
   * streams do what some run of the system of queues does with the same requests in the same order.
   */
  lemma {:induction false} RunRefines(c: D.Setup, w: Wired, s: D.System, acts: seq<Act>) returns (run: seq<D.Action>)
    requires Refines(c, w, s) && WiredExec(c, w, acts).Some?
    ensures D.Exec(c, s, run, false).Some? && Asked(run) == AskedOf(acts)
    ensures Refines(c, WiredExec(c, w, acts).value, D.Exec(c, s, run, false).value)
    decreases |acts|
  {
    hide Refines, Perform, Able, Matches, D.Exec;
    if acts == [] {
      run := [];
      ExecNone(c, s);
    } else {
      var n := |acts| - 1;
      var first := RunRefines(c, w, s, acts[..n]);
      var mid, t := WiredExec(c, w, acts[..n]).value, D.Exec(c, s, first, false).value;
      var more := StepRefines(c, mid, t, acts[n]);
      AskedMatches(c, mid, acts[n], more);
      ExecConcat(c, s, first, more);
      AskedAppend(first, more);
      run := first + more;
    }
  }

  /** Streams on which nothing has been written refine the state in which the master starts. */
  lemma BootRefines(c: D.Setup, s: D.System)
    requires D.Boot(c, s)
    ensures var none := map fd | fd in s.workers :: EMPTY;
      Refines(c, Wired(s.master, s.workers, none, none, false), s)
  {
    hide FrameBytes;
  }

  /**
   * Where a restrained run of requests has led, a worker that handles every frame still on its way
   * to it holds exactly the live ids routed to it.
   */
  lemma WiredAgreement(c: D.Setup, s0: D.System, actions: seq<D.Action>, s: D.System, w: Wired, fd: int)
    requires Reached(c, s0, actions, s) && Refines(c, w, s) && fd in w.workers
    ensures fd in w.down
    ensures forall id :: (id in TakeFrames(c.parse, w.workers[fd], Queue(w.down[fd])).0.tests
      <==> id in w.books.conf && id in w.books.route && w.books.route[id] == fd)
  {
    EventualAgreement(c, s0, actions, s, fd);
    DrainIsTakeFrames(c.parse, s.workers[fd], s.master.down[fd]);
    hide Reached, TakeFrames, Drain, Conserved, D.Shape;
  }

  // ---- When the loop of a worker returns ----

  /** An ADDCONF (0) or DELCONF (1) whose text is not JSON. */
  predicate Malformed(parse: Parser, m: Message) {
    (m.kind == 0 || m.kind == 1) && parse(m.text) == None
  }

  /** n messages of the queue are handled: all, or those up to the first malformed one. */
  predicate Handles(parse: Parser, q: seq<Message>, n: nat) {
    && n <= |q| && (forall i :: 0 <= i < n - 1 ==> !Malformed(parse, q[i]))
    && (n == |q| || (n > 0 && Malformed(parse, q[n - 1])))
  }

  predicate AllFit(q: seq<Message>) {
    forall i :: 0 <= i < |q| ==> Fits(q[i].text)
  }

  lemma StopsAtMalformed(parse: Parser, m: Message)
    requires Fits(m.text)
    ensures StopsOf(parse)(Pack(m)) <==> Malformed(parse, m)
  {
    PackKind(m);
    DeliveredExactlyWhenFits(m);
  }

  lemma {:induction false} CutHandles(parse: Parser, q: seq<Message>) returns (n: nat)
    requires AllFit(q)
    ensures Handles(parse, q, n)
    ensures Cut(Flatten(Frames(q)), StopsOf(parse)) == (Frames(q[..n]), Flatten(Frames(q[n..])))
  {
    if q == [] {
      n := 0;
      assert q[..0] == [] && q[0..] == [];
    } else {
      var fs := Frames(q);
      FlattenStep(fs);
      FrameRoundTrip(fs[0]);
      CutOne(Flatten(fs), StopsOf(parse));
      StopsAtMalformed(parse, q[0]);
      assert fs[1..] == Frames(q[1..]);
      hide Cut, Flatten, Pack, FrameOf, FrameBytes, StopsOf, Malformed;
      if Malformed(parse, q[0]) {
        n := 1;
        assert q[..1] == [q[0]] && Frames(q[..1]) == [Pack(q[0])] by {
          assert [q[0]][1..] == [];
        }
      } else {
        var k := CutHandles(parse, q[1..]);
        n := k + 1;
        assert q[1..][..k] == q[..n][1..] && q[1..][k..] == q[n..];
        HandlesOneMore(parse, q, k);
      }
    }
  }

  lemma HandlesOneMore(parse: Parser, q: seq<Message>, k: nat)
    requires q != [] && !Malformed(parse, q[0]) && Handles(parse, q[1..], k)
    ensures Handles(parse, q, k + 1)
  {
    hide Malformed;
    forall i | 0 <= i < k ensures !Malformed(parse, q[i]) {
      if i > 0 {
        assert q[i] == q[1..][i - 1];
      }
    }
    if k > 0 {
      assert q[k] == q[1..][k - 1];
    }
  }

  /**
   * Once all bytes written have arrived, a callback handles every message, in order, if none is
   * malformed; else those up to the first malformed one, and the later ones stay in the buffer.
   */
  lemma CallbackExactly(parse: Parser, st: Stream, q: seq<Message>) returns (n: nat)
    requires DownOk(st, q) && st.wire == [] && AllFit(q)
    ensures Handles(parse, q, n)
    ensures var st' := ByteStream.Apply(st, Callback, StopsOf(parse));
      Cut(st.input, StopsOf(parse)).0 == Frames(q[..n]) && st'.input == Flatten(Frames(q[n..])) && DownOk(st', q[n..])
  {
    FlattenPrefix(st.sent, st.handled, st.input + st.wire);
    assert st.input + st.wire == st.input;
    n := CutHandles(parse, q);
    assert st.input == Flatten(Frames(q));
    FramesLength(q, n);
    DownCallback(st, q, StopsOf(parse));
    hide Cut, Flatten, Frames, StopsOf, DownOk;
  }

  lemma FramesLength(q: seq<Message>, n: nat)
    requires n <= |q|
    ensures |Frames(q[..n])| == n
  {
  }

  /** A malformed message changes no test, so what came before it is all that the callback does. */
  lemma MalformedStays(parse: Parser, st: Stream, p: seq<Message>, m: Message, later: seq<Message>, w: WorkerState)
    requires DownOk(st, p + [m] + later) && st.wire == [] && AllFit(p + [m] + later) && w.alive
    requires Malformed(parse, m) && forall i :: 0 <= i < |p| ==> !Malformed(parse, p[i])
    requires TakeFrames(parse, w, Frames(p)).0.alive
    ensures ByteStream.Apply(st, Callback, StopsOf(parse)).input == Flatten(Frames(later))
    ensures TakeFrames(parse, w, Cut(st.input, StopsOf(parse)).0) == TakeFrames(parse, w, Frames(p))
  {
    var q := p + [m] + later;
    var n := CallbackExactly(parse, st, q);
    HandledThrough(parse, p, m, later, n);
    assert q[..|p| + 1] == p + [m] && q[|p| + 1..] == later;
    FramesAppend(p, [m]);
    assert Frames([m]) == [Pack(m)] by {
      assert [m][1..] == [];
    }
    TakeFramesLast(parse, w, Frames(p), Pack(m));
    assert Fits(q[|p|].text);
    DeliveredExactlyWhenFits(m);
    PackKind(m);
    var (mid, acks) := TakeFrames(parse, w, Frames(p));
    assert TakeFrame(parse, mid, Pack(m)) == (mid, []);
    assert acks + [] == acks;
    hide *;
  }

  lemma HandledThrough(parse: Parser, p: seq<Message>, m: Message, later: seq<Message>, n: nat)
    requires Handles(parse, p + [m] + later, n) && Malformed(parse, m)
    requires forall i :: 0 <= i < |p| ==> !Malformed(parse, p[i])
    ensures n == |p| + 1
  {
    hide Malformed;
    var q := p + [m] + later;
    assert q[|p|] == m;
    assert forall i :: 0 <= i < |p| ==> q[i] == p[i];
  }

  lemma {:induction false} NothingMalformed(c: D.Setup, q: seq<Message>)
    requires D.QueueOk(c.parse, q)
    ensures AllFit(q) && forall i :: 0 <= i < |q| ==> !Malformed(c.parse, q[i])
  {
    forall i | 0 <= i < |q| ensures Fits(q[i].text) && !Malformed(c.parse, q[i]) {
      assert D.MessageOk(c.parse, q[i]);
    }
  }

  /** A callback on a queue without malformed messages empties the buffer. */
  lemma CallbackEmpties(c: D.Setup, st: Stream, q: seq<Message>)
    requires DownOk(st, q) && st.wire == [] && D.QueueOk(c.parse, q)
    ensures ByteStream.Apply(st, Callback, StopsOf(c.parse)).input == []
    ensures Cut(st.input, StopsOf(c.parse)).0 == Frames(q)
  {
    NothingMalformed(c, q);
    var n := CallbackExactly(c.parse, st, q);
    assert n == |q|;
    assert q[..n] == q && q[n..] == [];
    hide Cut, StopsOf, DownOk, Malformed, ByteStream.Apply;
  }

  lemma QueueIsOk(c: D.Setup, s0: D.System, actions: seq<D.Action>, s: D.System, fd: int)
    requires Reached(c, s0, actions, s) && fd in s.workers
    ensures fd in s.master.down && D.QueueOk(c.parse, s.master.down[fd])
  {
    hide D.Exec, D.Init;
    D.RunInv(c, s0, actions);
  }

  lemma RefinedStream(c: D.Setup, w: Wired, s: D.System, fd: int)
    requires Refines(c, w, s) && fd in w.workers
    ensures fd in s.workers && fd in w.down && fd in s.master.down && DownOk(w.down[fd], s.master.down[fd])
    ensures Able(c, w, WorkerCallback(fd))
  {
    hide DownOk, UpOk;
  }

  lemma CallbackParts(c: D.Setup, w: Wired, fd: int)
    requires Able(c, w, WorkerCallback(fd))
    ensures var w' := Perform(c, w, WorkerCallback(fd));
      && fd in w'.down && fd in w'.workers && w'.books == w.books
      && w'.down[fd] == ByteStream.Apply(w.down[fd], Callback, StopsOf(c.parse))
      && w'.workers[fd] == TakeFrames(c.parse, w.workers[fd], Cut(w.down[fd].input, StopsOf(c.parse)).0).0
  {
    hide Cut, StopsOf, TakeFrames, ByteStream.Apply;
  }

  /**
   * Where a restrained run has led and all bytes have arrived, one callback empties the buffer and
   * leaves the worker with exactly the live ids routed to it.
   */
  lemma OneCallbackDelivers(c: D.Setup, s0: D.System, actions: seq<D.Action>, s: D.System, w: Wired, fd: int)
    requires Reached(c, s0, actions, s) && Refines(c, w, s) && fd in w.workers && fd in w.down && w.down[fd].wire == []
    ensures Able(c, w, WorkerCallback(fd))
    ensures var w' := Perform(c, w, WorkerCallback(fd));
      && fd in w'.down && fd in w'.workers && w'.down[fd].input == []
      && forall id :: (id in w'.workers[fd].tests
           <==> id in w.books.conf && id in w.books.route && w.books.route[id] == fd)
  {
    RefinedStream(c, w, s, fd);
    QueueIsOk(c, s0, actions, s, fd);
    WiredAgreement(c, s0, actions, s, w, fd);
    CallbackParts(c, w, fd);
    CallbackEmpties(c, w.down[fd], s.master.down[fd]);
    assert Queue(w.down[fd]) == Frames(s.master.down[fd]);
    hide *;
  }
}
