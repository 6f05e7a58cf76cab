/**
 * The whole system: one master, its workers and the queues between them, under every
 * interleaving of distribution, requests, worker receives and acknowledgements.
 */
module Distribution {
  import opened Bytes
  import opened Channel
  import opened Metric
  import opened Ordered
  import opened Master
  import opened Worker

  datatype Setup = Setup(parse: Parser, channels: seq<int>, port: Text)

  /**
   * up holds the acknowledgements on their way to the master. added is a history variable: the
   * text each id was last added with.
   */
  datatype System = System(
    master: MasterState, workers: map<int, WorkerState>, up: map<int, seq<int>>,
    added: map<int, Text>, distributed: bool)

  datatype Action = Distribution | Add(text: Text) | Remove(text: Text) | Receive(fd: int) | Ack(fd: int)

  ghost predicate Shape(c: Setup, s: System) {
    && Channels(s.master, c.channels)
    && s.workers.Keys == s.up.Keys == s.master.load.Keys
  }

  /** What a worker reads from a frame; None when the text is not terminated inside it. */
  function Read(m: Message): Option<Message> {
    match CString(Pack(m).msg)
    case None => None
    case Some(text) => Some(Message(m.kind, text))
  }

  /** What the environment can do at all. */
  ghost predicate Possible(c: Setup, s: System, a: Action) {
    && Shape(c, s)
    && match a
       case Distribution => !s.distributed
       case Add(_) => true
       case Remove(_) => true
       case Receive(fd) => fd in s.workers && s.master.down[fd] != []
       case Ack(fd) => fd in s.workers && s.up[fd] != []
  }

  ghost function Apply(c: Setup, s: System, a: Action): System
    requires Possible(c, s, a)
  {
    match a
    case Distribution =>
      s.(master := Distribute(s.master, c.channels, c.port), added := s.added + s.master.conf, distributed := true)
    case Add(text) =>
      var id := Ident(c.parse, text);
      s.(master := Post(s.master, c.parse, text),
         added := if id.Some? && id.value !in s.master.conf then s.added[id.value := text] else s.added)
    case Remove(text) => s.(master := Delete(s.master, c.parse, text))
    case Receive(fd) =>
      var m := s.master.down[fd][0];
      var s' := s.(master := s.master.(down := s.master.down[fd := s.master.down[fd][1..]]));
      (match Read(m)
       case None => s'.(workers := s.workers[fd := s.workers[fd].(alive := false)])
       case Some(read) =>
         var (w, acks) := Handle(c.parse, s.workers[fd], read);
         s'.(workers := s.workers[fd := w], up := s.up[fd := s.up[fd] + acks]))
    case Ack(fd) =>
      s.(master := Acknowledged(s.master, fd, [s.up[fd][0]]), up := s.up[fd := s.up[fd][1..]])
  }

  // ---- The assumptions on requests ----

  /** An ADDCONF for the id waits in the queue. */
  ghost predicate PendingAdd(parse: Parser, q: seq<Message>, id: int) {
    exists i :: 0 <= i < |q| && Effect(parse, q[i], id) == Adds
  }

  /** No worker but fd is still to receive, or to be heard acknowledging, an earlier ADDCONF. */
  ghost predicate NoRival(c: Setup, s: System, id: int, fd: int)
    requires Shape(c, s)
  {
    forall other :: other in s.workers && other != fd
      ==> id !in s.up[other] && !PendingAdd(c.parse, s.master.down[other], id)
  }

  /** The id has been given to a worker. */
  predicate Given(s: System, id: int) {
    id in s.master.route && s.master.route[id] in s.master.load
  }

  /**
   * Texts that are sent fit a frame, those that become tests are probeable, an added id has no
   * rival, and no configuration that is distributed was given to a worker by an earlier request.
   */
  ghost predicate Restrained(c: Setup, s: System, a: Action)
    requires Possible(c, s, a)
  {
    match a
    case Distribution => forall id :: id in s.master.conf ==> !Given(s, id)
    case Add(text) =>
      (match Ident(c.parse, text)
       case None => true
       case Some(id) =>
         && Fits(text)
         && (id !in s.master.conf || !Given(s, id) ==> Probeable(c.parse, text))
         && (id !in s.master.conf ==> NoRival(c, s, id, LeastLoaded(s.master.load))))
    case Remove(text) =>
      (match Ident(c.parse, text)
       case None => true
       case Some(id) => id in s.master.conf ==> Fits(text))
    case _ => true
  }

  /** The run of a list of actions; None where one is not possible, or not restrained if strict. */
  ghost function Exec(c: Setup, s: System, actions: seq<Action>, strict: bool): Option<System>
    decreases |actions|
  {
    if actions == [] then Some(s)
    else
      var n := |actions| - 1;
      match Exec(c, s, actions[..n], strict)
      case None => None
      case Some(mid) =>
        if Possible(c, mid, actions[n]) && (strict ==> Restrained(c, mid, actions[n]))
        then Some(Apply(c, mid, actions[n])) else None
  }

  /** The state in which the master starts to serve: get_test_conf and generate_worker are done. */
  ghost predicate Boot(c: Setup, s: System) {
    && Shape(c, s)
    && !s.distributed && s.master.route == map[] && s.added == map[]
    && (forall id :: id in s.master.conf ==> Ident(c.parse, s.master.conf[id]) == Some(id))
    && (forall fd :: fd in s.workers
          ==> s.workers[fd] == FRESH && s.master.load[fd] == [] && s.master.down[fd] == [] && s.up[fd] == [])
  }

  /** The same with texts that can be sent and probed, and descriptor 0 left to standard input. */
  ghost predicate Init(c: Setup, s: System) {
    && Boot(c, s) && 0 !in c.channels
    && forall id :: id in s.master.conf ==> Fits(s.master.conf[id]) && Probeable(c.parse, s.master.conf[id])
  }

  // ---- The invariant ----

  datatype Change = Adds | Deletes | Neither

  function Effect(parse: Parser, m: Message, id: int): Change {
    if Ident(parse, m.text) != Some(id) then Neither
    else if m.kind == ADDCONF then Adds
    else if m.kind == DELCONF then Deletes
    else Neither
  }

  /** What a worker will hold for id after m, given what it holds now; None if m clashes with it. */
  function TrackOne(parse: Parser, has: Option<Text>, m: Message, id: int): Option<Option<Text>> {
    match Effect(parse, m, id)
    case Adds => if has.Some? then None else Some(Some(m.text))
    case Deletes => if has.None? then None else Some(None)
    case Neither => Some(has)
  }

  /** Replaying a queue: None unless ADDCONF and DELCONF for the id alternate as they should. */
  function Track(parse: Parser, has: Option<Text>, q: seq<Message>, id: int): Option<Option<Text>>
    decreases |q|
  {
    if q == [] then Some(has)
    else match TrackOne(parse, has, q[0], id)
      case None => None
      case Some(now) => Track(parse, now, q[1..], id)
  }

  function Get<V>(m: map<int, V>, id: int): Option<V> {
    if id in m then Some(m[id]) else None
  }

  /** What worker fd is to hold for id: the text it was added with, if id lives and is routed there. */
  function Expected(s: System, fd: int, id: int): Option<Text> {
    if id in s.master.conf && id in s.master.route && s.master.route[id] == fd then Get(s.added, id) else None
  }

  ghost predicate Tracks(c: Setup, s: System, fd: int, id: int)
    requires Shape(c, s) && fd in s.workers
  {
    Track(c.parse, Get(s.workers[fd].tests, id), s.master.down[fd], id) == Some(Expected(s, fd, id))
  }

  ghost predicate Routed(c: Setup, s: System, fd: int, id: int)
    requires Shape(c, s) && fd in s.workers
  {
    (id in s.up[fd] || PendingAdd(c.parse, s.master.down[fd], id)) ==>
      id in s.master.route && s.master.route[id] == fd
  }

  ghost predicate MessageOk(parse: Parser, m: Message) {
    && Fits(m.text)
    && (m.kind == ADDCONF ==> Probeable(parse, m.text))
    && (m.kind == DELCONF ==> Ident(parse, m.text).Some?)
  }

  ghost predicate QueueOk(parse: Parser, q: seq<Message>) {
    forall i :: 0 <= i < |q| ==> MessageOk(parse, q[i])
  }

  /** Armed timers are in bijection with test_map. */
  ghost predicate Healthy(w: WorkerState) {
    w.alive && w.armed == multiset(w.tests.Keys)
  }

  ghost predicate ConfOk(c: Setup, s: System) {
    forall id :: id in s.master.conf
      ==> Ident(c.parse, s.master.conf[id]) == Some(id) && Fits(s.master.conf[id]) && (Given(s, id) ==> id in s.added)
  }

  /** Routes lead to workers, or to descriptor 0, which an early request inserts and no worker has. */
  ghost predicate RoutesOk(s: System) {
    0 !in s.master.load && forall id :: id in s.master.route ==> s.master.route[id] == 0 || Given(s, id)
  }

  ghost predicate Core(c: Setup, s: System) {
    && Shape(c, s) && ConfOk(c, s) && RoutesOk(s) && Fits(c.port)
    && (forall fd :: fd in s.workers ==> Healthy(s.workers[fd]))
    && (forall fd :: fd in s.workers ==> QueueOk(c.parse, s.master.down[fd]))
    && (forall fd, id :: fd in s.workers ==> Tracks(c, s, fd, id))
    && (forall fd, id :: fd in s.workers ==> Routed(c, s, fd, id))
  }

  /** A configuration that no worker has been given still waits for the distribution. */
  ghost predicate WaitsOk(c: Setup, s: System) {
    forall id :: id in s.master.conf && !Given(s, id) ==> !s.distributed && Probeable(c.parse, s.master.conf[id])
  }

  ghost predicate Inv(c: Setup, s: System) {
    Core(c, s) && WaitsOk(c, s)
  }

  lemma InitInv(c: Setup, s: System)
    requires Init(c, s) && Fits(c.port)
    ensures Inv(c, s)
  {
  }

  lemma {:induction false} TrackAppend(parse: Parser, has: Option<Text>, q: seq<Message>, m: Message, id: int)
    ensures Track(parse, has, q + [m], id)
      == match Track(parse, has, q, id)
         case None => None
         case Some(now) => TrackOne(parse, now, m, id)
    decreases |q|
  {
    if q == [] {
      assert q + [m] == [m] && [m][1..] == [];
    } else {
      assert (q + [m])[1..] == q[1..] + [m];
      match TrackOne(parse, has, q[0], id)
      case None =>
      case Some(now) => TrackAppend(parse, now, q[1..], m, id);
    }
  }

  lemma PendingAppend(parse: Parser, q: seq<Message>, m: Message, id: int)
    ensures PendingAdd(parse, q + [m], id) <==> PendingAdd(parse, q, id) || Effect(parse, m, id) == Adds
  {
    if PendingAdd(parse, q, id) {
      var i :| 0 <= i < |q| && Effect(parse, q[i], id) == Adds;
      assert (q + [m])[i] == q[i];
    }
    assert (q + [m])[|q|] == m;
  }

  // ---- A message put on a queue ----

  /** s with one more message for fd. */
  function Queued(s: System, fd: int, m: Message): System {
    s.(master := s.master.(down := Send(s.master.down, fd, m)))
  }

  lemma QueuedTracks(c: Setup, s: System, fd: int, m: Message, at: int, id: int)
    requires Shape(c, s) && at in s.workers && fd in s.workers
    ensures Shape(c, Queued(s, fd, m))
    ensures Track(c.parse, Get(s.workers[at].tests, id), Queued(s, fd, m).master.down[at], id)
      == match Track(c.parse, Get(s.workers[at].tests, id), s.master.down[at], id)
         case None => None
         case Some(now) => if at == fd then TrackOne(c.parse, now, m, id) else Some(now)
    ensures PendingAdd(c.parse, Queued(s, fd, m).master.down[at], id)
      <==> PendingAdd(c.parse, s.master.down[at], id) || (at == fd && Effect(c.parse, m, id) == Adds)
  {
    TrackAppend(c.parse, Get(s.workers[at].tests, id), s.master.down[fd], m, id);
    PendingAppend(c.parse, s.master.down[fd], m, id);
  }

  lemma QueuedOk(c: Setup, s: System, fd: int, m: Message)
    requires Shape(c, s) && fd in s.workers && MessageOk(c.parse, m)
    requires forall at :: at in s.workers ==> QueueOk(c.parse, s.master.down[at])
    ensures forall at :: at in s.workers ==> QueueOk(c.parse, Queued(s, fd, m).master.down[at])
  {
  }

  // ---- Adding an id that no worker is to hold ----

  ghost function Adding(s: System, id: int, text: Text, fd: int): System
    requires fd in s.master.load
  {
    s.(master := Assign(s.master, id, text, fd), added := s.added[id := text])
  }

  ghost predicate CanAdd(c: Setup, s: System, id: int, text: Text, fd: int) {
    && Core(c, s) && fd in s.workers
    && Ident(c.parse, text) == Some(id) && Fits(text) && Probeable(c.parse, text)
    && (id in s.master.conf ==> !Given(s, id))
  }

  lemma AddingTracks(c: Setup, s: System, id: int, text: Text, fd: int, at: int, other: int)
    requires Shape(c, s) && fd in s.workers && at in s.workers && Tracks(c, s, at, other)
    requires Ident(c.parse, text) == Some(id) && (other == id && id in s.master.conf ==> !Given(s, id))
    ensures Shape(c, Adding(s, id, text, fd)) && Tracks(c, Adding(s, id, text, fd), at, other)
  {
    QueuedTracks(c, s, fd, Message(ADDCONF, text), at, other);
  }

  lemma AddingRouted(c: Setup, s: System, id: int, text: Text, fd: int, at: int, other: int)
    requires Shape(c, s) && fd in s.workers && at in s.workers && Routed(c, s, at, other)
    requires Ident(c.parse, text) == Some(id) && NoRival(c, s, id, fd)
    ensures Shape(c, Adding(s, id, text, fd)) && Routed(c, Adding(s, id, text, fd), at, other)
  {
    QueuedTracks(c, s, fd, Message(ADDCONF, text), at, other);
  }

  lemma AddingKeepsTracks(c: Setup, s: System, id: int, text: Text, fd: int)
    requires CanAdd(c, s, id, text, fd)
    ensures Shape(c, Adding(s, id, text, fd))
    ensures forall at, other :: at in s.workers ==> Tracks(c, Adding(s, id, text, fd), at, other)
  {
    forall at, other | at in s.workers
      ensures Shape(c, Adding(s, id, text, fd)) && Tracks(c, Adding(s, id, text, fd), at, other)
    {
      assert Tracks(c, s, at, other);
      AddingTracks(c, s, id, text, fd, at, other);
    }
  }

  lemma AddingKeepsRouted(c: Setup, s: System, id: int, text: Text, fd: int)
    requires CanAdd(c, s, id, text, fd) && NoRival(c, s, id, fd)
    ensures Shape(c, Adding(s, id, text, fd))
    ensures forall at, other :: at in s.workers ==> Routed(c, Adding(s, id, text, fd), at, other)
  {
    forall at, other | at in s.workers
      ensures Shape(c, Adding(s, id, text, fd)) && Routed(c, Adding(s, id, text, fd), at, other)
    {
      assert Routed(c, s, at, other);
      AddingRouted(c, s, id, text, fd, at, other);
    }
  }

  lemma AddingKeepsCore(c: Setup, s: System, id: int, text: Text, fd: int)
    requires CanAdd(c, s, id, text, fd) && NoRival(c, s, id, fd)
    ensures Core(c, Adding(s, id, text, fd))
  {
    AddingKeepsTracks(c, s, id, text, fd);
    AddingKeepsRouted(c, s, id, text, fd);
    QueuedOk(c, s, fd, Message(ADDCONF, text));
    hide Tracks, Routed, NoRival, QueueOk, Fits, Probeable;
  }

  lemma NeutralTracks(c: Setup, s: System, fd: int, m: Message, at: int, id: int)
    requires Shape(c, s) && fd in s.workers && at in s.workers && m.kind != ADDCONF && m.kind != DELCONF
    requires Tracks(c, s, at, id) && Routed(c, s, at, id)
    ensures Shape(c, Queued(s, fd, m)) && Tracks(c, Queued(s, fd, m), at, id) && Routed(c, Queued(s, fd, m), at, id)
  {
    QueuedTracks(c, s, fd, m, at, id);
  }

  /** A message about no addition or deletion changes nothing that the invariant sees. */
  lemma NeutralMessageKeepsCore(c: Setup, s: System, fd: int, m: Message)
    requires Core(c, s) && fd in s.workers && Fits(m.text) && m.kind != ADDCONF && m.kind != DELCONF
    ensures Core(c, Queued(s, fd, m))
  {
    QueuedOk(c, s, fd, m);
    forall at, id | at in s.workers
      ensures Shape(c, Queued(s, fd, m)) && Tracks(c, Queued(s, fd, m), at, id) && Routed(c, Queued(s, fd, m), at, id)
    {
      assert Tracks(c, s, at, id) && Routed(c, s, at, id);
      NeutralTracks(c, s, fd, m, at, id);
    }
  }

  // ---- Requests ----

  lemma AddingWaits(c: Setup, s: System, id: int, text: Text, fd: int)
    requires WaitsOk(c, s) && fd in s.master.load
    ensures WaitsOk(c, Adding(s, id, text, fd))
  {
    assert Given(Adding(s, id, text, fd), id);
    assert forall other :: Given(s, other) ==> Given(Adding(s, id, text, fd), other);
  }

  lemma NewIdStep(c: Setup, s: System, id: int, text: Text, fd: int)
    requires Inv(c, s) && fd in s.master.load && fd in s.workers
    requires Ident(c.parse, text) == Some(id) && id !in s.master.conf
    requires Shape(c, s) && Fits(text) && Probeable(c.parse, text) && NoRival(c, s, id, fd)
    ensures Inv(c, Adding(s, id, text, fd))
  {
    AddingKeepsCore(c, s, id, text, fd);
    AddingWaits(c, s, id, text, fd);
  }

  lemma AddStep(c: Setup, s: System, text: Text)
    requires Inv(c, s) && Possible(c, s, Action.Add(text)) && Restrained(c, s, Action.Add(text))
    ensures Inv(c, Apply(c, s, Action.Add(text)))
  {
    match Ident(c.parse, text)
    case None => assert Apply(c, s, Action.Add(text)) == s;
    case Some(id) =>
      hide LeastLoaded, NoRival, Fits, Probeable;
      if id !in s.master.conf {
        NewIdStep(c, s, id, text, LeastLoaded(s.master.load));
        assert Apply(c, s, Action.Add(text)) == Adding(s, id, text, LeastLoaded(s.master.load));
      } else if Given(s, id) {
        EditStep(c, s, id, text);
      } else {
        EarlyEditStep(c, s, id, text);
      }
  }

  /** Forwarding to a routed id is a message to its worker and nothing else. */
  lemma ForwardIsQueued(s: System, id: int, kind: int32, text: Text)
    requires id in s.master.route
    ensures s.(master := Forward(s.master, id, kind, text)) == Queued(s, s.master.route[id], Message(kind, text))
  {
    assert s.master.route[id := s.master.route[id]] == s.master.route;
  }

  function Rewritten(s: System, id: int, text: Text): System {
    s.(master := s.master.(conf := s.master.conf[id := text]))
  }

  lemma EditStep(c: Setup, s: System, id: int, text: Text)
    requires Inv(c, s) && Given(s, id) && Ident(c.parse, text) == Some(id) && Fits(text) && id in s.master.conf
    ensures Inv(c, s.(master := Forward(s.master.(conf := s.master.conf[id := text]), id, EDITCONF, text)))
  {
    RewrittenKeepsCore(c, s, id, text);
    NeutralMessageKeepsCore(c, Rewritten(s, id, text), s.master.route[id], Message(EDITCONF, text));
    ForwardIsQueued(Rewritten(s, id, text), id, EDITCONF, text);
  }

  lemma RewrittenTracks(c: Setup, s: System, id: int, text: Text, at: int, other: int)
    requires Core(c, s) && id in s.master.conf && at in s.workers
    ensures Shape(c, Rewritten(s, id, text))
    ensures Tracks(c, Rewritten(s, id, text), at, other) && Routed(c, Rewritten(s, id, text), at, other)
  {
    assert Tracks(c, s, at, other) && Routed(c, s, at, other);
  }

  lemma RewrittenKeepsCore(c: Setup, s: System, id: int, text: Text)
    requires Core(c, s) && Ident(c.parse, text) == Some(id) && Fits(text) && id in s.master.conf
    ensures Core(c, Rewritten(s, id, text))
  {
    forall at, other | at in s.workers
      ensures Shape(c, Rewritten(s, id, text))
      ensures Tracks(c, Rewritten(s, id, text), at, other) && Routed(c, Rewritten(s, id, text), at, other)
    {
      RewrittenTracks(c, s, id, text, at, other);
    }
  }

  // ---- Requests for a configuration that no worker has been given yet ----

  /** The lookup of its route inserts descriptor 0, and the message goes nowhere. */
  function Unrouted(s: System, id: int): System {
    s.(master := s.master.(route := s.master.route[id := 0]))
  }

  lemma ForwardIsUnrouted(c: Setup, s: System, id: int, kind: int32, text: Text)
    requires Shape(c, s) && RoutesOk(s) && !Given(s, id)
    ensures s.(master := Forward(s.master, id, kind, text)) == Unrouted(s, id)
  {
    assert RouteOf(s.master, id) == 0;
  }

  lemma UnroutedTracks(c: Setup, s: System, id: int, at: int, other: int)
    requires Core(c, s) && !Given(s, id) && at in s.workers
    ensures Shape(c, Unrouted(s, id)) && Tracks(c, Unrouted(s, id), at, other) && Routed(c, Unrouted(s, id), at, other)
  {
    assert Tracks(c, s, at, other) && Routed(c, s, at, other);
  }

  lemma UnroutedKeepsCore(c: Setup, s: System, id: int)
    requires Core(c, s) && !Given(s, id)
    ensures Core(c, Unrouted(s, id))
  {
    forall at, other | at in s.workers
      ensures Shape(c, Unrouted(s, id))
      ensures Tracks(c, Unrouted(s, id), at, other) && Routed(c, Unrouted(s, id), at, other)
    {
      UnroutedTracks(c, s, id, at, other);
    }
  }

  /** An early edit only changes the text that will be distributed. */
  lemma EarlyEditStep(c: Setup, s: System, id: int, text: Text)
    requires Inv(c, s) && !Given(s, id) && id in s.master.conf
    requires Ident(c.parse, text) == Some(id) && Fits(text) && Probeable(c.parse, text)
    ensures Inv(c, s.(master := Forward(s.master.(conf := s.master.conf[id := text]), id, EDITCONF, text)))
  {
    RewrittenKeepsCore(c, s, id, text);
    UnroutedKeepsCore(c, Rewritten(s, id, text), id);
    ForwardIsUnrouted(c, Rewritten(s, id, text), id, EDITCONF, text);
  }

  function Dropped(s: System, id: int): System {
    s.(master := s.master.(conf := s.master.conf - {id}))
  }

  lemma DroppedTracks(c: Setup, s: System, id: int, at: int, other: int)
    requires Core(c, s) && !Given(s, id) && at in s.workers
    ensures Shape(c, Dropped(s, id)) && Tracks(c, Dropped(s, id), at, other) && Routed(c, Dropped(s, id), at, other)
  {
    assert Tracks(c, s, at, other) && Routed(c, s, at, other);
  }

  lemma DroppedKeepsCore(c: Setup, s: System, id: int)
    requires Core(c, s) && !Given(s, id)
    ensures Core(c, Dropped(s, id))
  {
    forall at, other | at in s.workers
      ensures Shape(c, Dropped(s, id))
      ensures Tracks(c, Dropped(s, id), at, other) && Routed(c, Dropped(s, id), at, other)
    {
      DroppedTracks(c, s, id, at, other);
    }
  }

  /** An early delete only takes the configuration out of the distribution. */
  lemma EarlyRemoveStep(c: Setup, s: System, id: int, text: Text)
    requires Inv(c, s) && !Given(s, id) && id in s.master.conf
    ensures Inv(c, s.(master := Forward(s.master.(conf := s.master.conf - {id}), id, DELCONF, text)))
  {
    DroppedKeepsCore(c, s, id);
    UnroutedKeepsCore(c, Dropped(s, id), id);
    ForwardIsUnrouted(c, Dropped(s, id), id, DELCONF, text);
  }

  // ---- Deleting a configuration that a worker has ----

  /** The id leaves configid_map and its worker is told. */
  function Retired(s: System, id: int, text: Text): System
    requires id in s.master.route
  {
    Queued(Dropped(s, id), s.master.route[id], Message(DELCONF, text))
  }

  lemma RemoveStep(c: Setup, s: System, text: Text)
    requires Inv(c, s) && Possible(c, s, Action.Remove(text)) && Restrained(c, s, Action.Remove(text))
    ensures Inv(c, Apply(c, s, Action.Remove(text)))
  {
    var ident := Ident(c.parse, text);
    if ident == None || ident.value !in s.master.conf {
      assert Apply(c, s, Action.Remove(text)) == s;
    } else if Given(s, ident.value) {
      var id := ident.value;
      RetiredKeepsCore(c, s, id, text);
      ForwardIsQueued(Dropped(s, id), id, DELCONF, text);
      assert Apply(c, s, Action.Remove(text)) == Retired(s, id, text);
    } else {
      EarlyRemoveStep(c, s, ident.value, text);
    }
  }

  ghost predicate CanRetire(c: Setup, s: System, id: int, text: Text) {
    Core(c, s) && Ident(c.parse, text) == Some(id) && Fits(text) && id in s.master.conf && Given(s, id)
  }

  lemma RetiredTracks(c: Setup, s: System, id: int, text: Text, at: int, other: int)
    requires Shape(c, s) && at in s.workers && Tracks(c, s, at, other) && Ident(c.parse, text) == Some(id)
    requires id in s.master.conf && id in s.master.route && s.master.route[id] in s.workers && id in s.added
    ensures Shape(c, Retired(s, id, text)) && Tracks(c, Retired(s, id, text), at, other)
  {
    QueuedTracks(c, s, s.master.route[id], Message(DELCONF, text), at, other);
  }

  lemma RetiredRouted(c: Setup, s: System, id: int, text: Text, at: int, other: int)
    requires Shape(c, s) && at in s.workers && Routed(c, s, at, other)
    requires id in s.master.route && s.master.route[id] in s.workers
    ensures Shape(c, Retired(s, id, text)) && Routed(c, Retired(s, id, text), at, other)
  {
    QueuedTracks(c, s, s.master.route[id], Message(DELCONF, text), at, other);
  }

  lemma RetiredKeepsCore(c: Setup, s: System, id: int, text: Text)
    requires CanRetire(c, s, id, text)
    ensures Core(c, Retired(s, id, text))
  {
    QueuedOk(c, s, s.master.route[id], Message(DELCONF, text));
    forall at, other | at in s.workers
      ensures Shape(c, Retired(s, id, text))
      ensures Tracks(c, Retired(s, id, text), at, other) && Routed(c, Retired(s, id, text), at, other)
    {
      assert Tracks(c, s, at, other) && Routed(c, s, at, other);
      RetiredTracks(c, s, id, text, at, other);
      RetiredRouted(c, s, id, text, at, other);
    }
  }

  // ---- Receiving ----

  /** A message that fits its frame is read back unchanged. */
  lemma ReadsBack(m: Message)
    ensures Read(m) == Some(m) <==> Fits(m.text)
  {
    DeliveredExactlyWhenFits(m);
  }

  lemma HandleTracks(parse: Parser, w: WorkerState, m: Message, id: int)
    requires w.alive && MessageOk(parse, m) && TrackOne(parse, Get(w.tests, id), m, id).Some?
    ensures Some(Get(Handle(parse, w, m).0.tests, id)) == TrackOne(parse, Get(w.tests, id), m, id)
    ensures id in Handle(parse, w, m).1 <==> Effect(parse, m, id) == Adds
  {
  }

  lemma HandleHealthy(parse: Parser, w: WorkerState, m: Message)
    requires Healthy(w) && MessageOk(parse, m)
    requires forall id :: TrackOne(parse, Get(w.tests, id), m, id).Some?
    ensures Healthy(Handle(parse, w, m).0)
  {
    var ident := Ident(parse, m.text);
    if ident.Some? {
      assert TrackOne(parse, Get(w.tests, ident.value), m, ident.value).Some?;
    }
  }

  lemma TrackFirst(parse: Parser, has: Option<Text>, q: seq<Message>, id: int)
    requires q != [] && Track(parse, has, q, id).Some?
    ensures TrackOne(parse, has, q[0], id).Some?
    ensures Track(parse, TrackOne(parse, has, q[0], id).value, q[1..], id) == Track(parse, has, q, id)
  {
  }

  ghost predicate CanReceive(c: Setup, s: System, fd: int) {
    Core(c, s) && fd in s.workers && s.master.down[fd] != []
  }

  ghost function Received(c: Setup, s: System, fd: int): System
    requires CanReceive(c, s, fd)
  {
    var (w, acks) := Handle(c.parse, s.workers[fd], s.master.down[fd][0]);
    s.(master := s.master.(down := s.master.down[fd := s.master.down[fd][1..]]),
       workers := s.workers[fd := w], up := s.up[fd := s.up[fd] + acks])
  }

  lemma HeadFits(c: Setup, s: System, fd: int, id: int)
    requires CanReceive(c, s, fd)
    ensures var m := s.master.down[fd][0];
      && Healthy(s.workers[fd]) && MessageOk(c.parse, m)
      && TrackOne(c.parse, Get(s.workers[fd].tests, id), m, id).Some?
  {
    assert QueueOk(c.parse, s.master.down[fd]);
    assert Tracks(c, s, fd, id);
    TrackFirst(c.parse, Get(s.workers[fd].tests, id), s.master.down[fd], id);
  }

  lemma ReceivedTracks(c: Setup, s: System, fd: int, at: int, id: int)
    requires CanReceive(c, s, fd) && at in s.workers
    ensures Shape(c, Received(c, s, fd)) && Tracks(c, Received(c, s, fd), at, id)
  {
    assert Tracks(c, s, at, id);
    if at == fd {
      HeadFits(c, s, fd, id);
      HandleTracks(c.parse, s.workers[fd], s.master.down[fd][0], id);
      TrackFirst(c.parse, Get(s.workers[fd].tests, id), s.master.down[fd], id);
    }
  }

  lemma PendingTail(parse: Parser, q: seq<Message>, id: int)
    requires q != [] && PendingAdd(parse, q[1..], id)
    ensures PendingAdd(parse, q, id)
  {
    var i :| 0 <= i < |q| - 1 && Effect(parse, q[1..][i], id) == Adds;
    assert Effect(parse, q[i + 1], id) == Adds;
  }

  lemma ReceivedRouted(c: Setup, s: System, fd: int, at: int, id: int)
    requires CanReceive(c, s, fd) && at in s.workers
    ensures Shape(c, Received(c, s, fd)) && Routed(c, Received(c, s, fd), at, id)
  {
    assert Routed(c, s, at, id);
    var q := s.master.down[fd];
    HeadFits(c, s, fd, id);
    HandleTracks(c.parse, s.workers[fd], q[0], id);
    if PendingAdd(c.parse, q[1..], id) {
      PendingTail(c.parse, q, id);
    }
    assert Effect(c.parse, q[0], id) == Adds ==> PendingAdd(c.parse, q, id);
  }

  lemma ReceivedKeepsRest(c: Setup, s: System, fd: int)
    requires CanReceive(c, s, fd)
    ensures var s' := Received(c, s, fd);
      && Shape(c, s') && ConfOk(c, s') && RoutesOk(s')
      && (forall at :: at in s'.workers ==> Healthy(s'.workers[at]))
      && (forall at :: at in s'.workers ==> QueueOk(c.parse, s'.master.down[at]))
  {
    forall id ensures TrackOne(c.parse, Get(s.workers[fd].tests, id), s.master.down[fd][0], id).Some? {
      HeadFits(c, s, fd, id);
    }
    HeadFits(c, s, fd, 0);
    HandleHealthy(c.parse, s.workers[fd], s.master.down[fd][0]);
    assert QueueOk(c.parse, s.master.down[fd]);
  }

  lemma ReceivedKeepsCore(c: Setup, s: System, fd: int)
    requires CanReceive(c, s, fd)
    ensures Core(c, Received(c, s, fd))
  {
    ReceivedKeepsRest(c, s, fd);
    forall at, id | at in s.workers
      ensures Shape(c, Received(c, s, fd))
      ensures Tracks(c, Received(c, s, fd), at, id) && Routed(c, Received(c, s, fd), at, id)
    {
      ReceivedTracks(c, s, fd, at, id);
      ReceivedRouted(c, s, fd, at, id);
    }
  }

  lemma ReceiveStep(c: Setup, s: System, fd: int)
    requires Inv(c, s) && Possible(c, s, Receive(fd))
    ensures Inv(c, Apply(c, s, Receive(fd)))
  {
    ReceivedKeepsCore(c, s, fd);
    HeadFits(c, s, fd, 0);
    ReadsBack(s.master.down[fd][0]);
    assert Apply(c, s, Receive(fd)) == Received(c, s, fd);
  }

  // ---- Acknowledgements ----

  /** The acknowledgement names the worker the route already names. */
  lemma AckKeepsRoute(c: Setup, s: System, fd: int)
    requires Core(c, s) && fd in s.workers && s.up[fd] != []
    ensures Acknowledged(s.master, fd, [s.up[fd][0]]) == s.master
  {
    var id := s.up[fd][0];
    assert Routed(c, s, fd, id) && id in s.up[fd];
    assert s.master.route[id := fd] == s.master.route;
    AcknowledgedOne(s.master, fd, id);
  }

  lemma AckStep(c: Setup, s: System, fd: int)
    requires Inv(c, s) && Possible(c, s, Ack(fd))
    ensures Inv(c, Apply(c, s, Ack(fd)))
  {
    AckKeepsRoute(c, s, fd);
    var s' := s.(up := s.up[fd := s.up[fd][1..]]);
    assert Apply(c, s, Ack(fd)) == s';
    forall at, id | at in s.workers
      ensures Shape(c, s') && Tracks(c, s', at, id) && Routed(c, s', at, id)
    {
      assert Tracks(c, s, at, id) && Routed(c, s, at, id);
    }
  }

  // ---- Distribution ----

  /** One round of distribute_conf, with the history variable. */
  ghost function Round(c: Setup, s: System, id: int, fd: int): System
    requires fd in s.master.load && id in s.master.conf
  {
    Queued(Adding(s, id, s.master.conf[id], fd), fd, Message(REDISPORT, c.port))
  }

  ghost predicate Undistributed(c: Setup, s: System, ids: seq<int>) {
    && Shape(c, s) && Core(c, s)
    && (forall i :: 0 <= i < |ids| ==> ids[i] in s.master.conf && !Given(s, ids[i]))
    && (forall i :: 0 <= i < |ids| ==> Probeable(c.parse, s.master.conf[ids[i]]))
    && (forall i, j :: 0 <= i < j < |ids| ==> ids[i] != ids[j])
  }

  lemma RoundIsAssignment(c: Setup, s: System, id: int, fd: int)
    requires Shape(c, s) && id in s.master.conf && fd in s.workers
    ensures var s' := Round(c, s, id, fd);
      && Shape(c, s') && s'.workers == s.workers && s'.up == s.up && s'.distributed == s.distributed
      && s'.master == Announce(Assign(s.master, id, s.master.conf[id], fd), fd, c.port)
      && s'.master.conf == s.master.conf
      && s'.added == s.added[id := s.master.conf[id]]
      && s'.master.route == s.master.route[id := fd] && s'.master.load.Keys == s.master.load.Keys
  {
    assert s.master.conf[id := s.master.conf[id]] == s.master.conf;
  }

  lemma RoundKeepsCore(c: Setup, s: System, id: int, fd: int)
    requires Core(c, s) && id in s.master.conf && !Given(s, id) && fd in s.workers
    requires Probeable(c.parse, s.master.conf[id])
    ensures Core(c, Round(c, s, id, fd))
  {
    var text := s.master.conf[id];
    forall other | other in s.workers ensures id !in s.up[other] && !PendingAdd(c.parse, s.master.down[other], id) {
      assert Routed(c, s, other, id);
    }
    AddingKeepsCore(c, s, id, text, fd);
    NeutralMessageKeepsCore(c, Adding(s, id, text, fd), fd, Message(REDISPORT, c.port));
  }

  ghost function Rounds(c: Setup, s: System, ids: seq<int>, i: nat): System
    requires Shape(c, s) && forall k :: 0 <= k < |ids| ==> ids[k] in s.master.conf
    decreases |ids|
  {
    if ids == [] then s
    else
      RoundIsAssignment(c, s, ids[0], c.channels[i % |c.channels|]);
      Rounds(c, Round(c, s, ids[0], c.channels[i % |c.channels|]), ids[1..], i + 1)
  }

  lemma {:induction false} RoundsAreDistribution(c: Setup, s: System, ids: seq<int>, i: nat)
    requires Shape(c, s) && forall k :: 0 <= k < |ids| ==> ids[k] in s.master.conf
    ensures var s' := Rounds(c, s, ids, i);
      && s'.master == DistributeFrom(s.master, c.channels, ids, i, c.port)
      && s'.workers == s.workers && s'.up == s.up && s'.distributed == s.distributed
      && s'.master.conf == s.master.conf
    decreases |ids|
  {
    hide Round, Assign, Announce;
    if ids != [] {
      var fd := c.channels[i % |c.channels|];
      RoundIsAssignment(c, s, ids[0], fd);
      RoundsAreDistribution(c, Round(c, s, ids[0], fd), ids[1..], i + 1);
    }
  }

  lemma {:induction false} RoundsAdd(c: Setup, s: System, ids: seq<int>, i: nat)
    requires Shape(c, s) && forall k :: 0 <= k < |ids| ==> ids[k] in s.master.conf
    ensures var s' := Rounds(c, s, ids, i);
      && (forall id :: id in s'.added <==> id in s.added || id in ids)
      && (forall id :: id in ids ==> s'.added[id] == s.master.conf[id])
      && (forall id :: id in s.added && id !in ids ==> s'.added[id] == s.added[id])
    decreases |ids|
  {
    hide Round, Assign, Announce;
    if ids != [] {
      var fd := c.channels[i % |c.channels|];
      RoundIsAssignment(c, s, ids[0], fd);
      RoundsAdd(c, Round(c, s, ids[0], fd), ids[1..], i + 1);
      assert forall id :: id in ids <==> id == ids[0] || id in ids[1..];
    }
  }

  lemma {:induction false} RoundsGive(c: Setup, s: System, ids: seq<int>, i: nat, id: int)
    requires Shape(c, s) && forall k :: 0 <= k < |ids| ==> ids[k] in s.master.conf
    requires Given(s, id) || id in ids
    ensures Given(Rounds(c, s, ids, i), id)
    decreases |ids|
  {
    hide Round, Assign, Announce;
    if ids != [] {
      var fd := c.channels[i % |c.channels|];
      RoundIsAssignment(c, s, ids[0], fd);
      RoundsGive(c, Round(c, s, ids[0], fd), ids[1..], i + 1, id);
    }
  }

  lemma RoundKeepsUndistributed(c: Setup, s: System, ids: seq<int>, fd: int)
    requires ids != [] && Undistributed(c, s, ids) && fd in s.workers
    ensures Undistributed(c, Round(c, s, ids[0], fd), ids[1..])
  {
    RoundIsAssignment(c, s, ids[0], fd);
    RoundKeepsCore(c, s, ids[0], fd);
    var s', rest := Round(c, s, ids[0], fd), ids[1..];
    forall i | 0 <= i < |rest| ensures rest[i] in s'.master.conf && !Given(s', rest[i]) {
      assert rest[i] == ids[i + 1] && ids[0] != ids[i + 1];
    }
  }

  lemma {:induction false} RoundsKeepCore(c: Setup, s: System, ids: seq<int>, i: nat)
    requires Undistributed(c, s, ids)
    ensures Core(c, Rounds(c, s, ids, i))
    decreases |ids|
  {
    hide Core;
    if ids != [] {
      var fd := c.channels[i % |c.channels|];
      RoundKeepsUndistributed(c, s, ids, fd);
      RoundsKeepCore(c, Round(c, s, ids[0], fd), ids[1..], i + 1);
    }
  }

  lemma DistributionStep(c: Setup, s: System)
    requires Inv(c, s) && Possible(c, s, Distribution) && Restrained(c, s, Distribution)
    ensures Inv(c, Apply(c, s, Distribution))
  {
    var ids := Sorted(s.master.conf.Keys);
    NothingGiven(c, s);
    DistributionIsRounds(c, s);
    RoundsKeepCore(c, s, ids, 0);
    hide *;
    SetDistributed(c, Rounds(c, s, ids, 0));
  }

  lemma NothingGiven(c: Setup, s: System)
    requires Inv(c, s) && forall id :: id in s.master.conf ==> !Given(s, id)
    ensures Undistributed(c, s, Sorted(s.master.conf.Keys))
  {
    hide Core, Sorted, Given;
    CoreShape(c, s);
  }

  lemma CoreShape(c: Setup, s: System)
    requires Core(c, s)
    ensures Shape(c, s)
  {
  }

  lemma RoundsCoverConf(c: Setup, s: System, ids: seq<int>)
    requires Shape(c, s) && forall id :: id in ids <==> id in s.master.conf
    requires forall k :: 0 <= k < |ids| ==> ids[k] in s.master.conf
    ensures Rounds(c, s, ids, 0).added == s.added + s.master.conf
    ensures forall id :: id in s.master.conf ==> Given(Rounds(c, s, ids, 0), id)
  {
    RoundsAdd(c, s, ids, 0);
    hide *;
    var s' := Rounds(c, s, ids, 0);
    forall id | id in s.master.conf ensures Given(s', id) {
      RoundsGive(c, s, ids, 0, id);
    }
    forall id ensures id in s'.added <==> id in s.added + s.master.conf {
      assert id in s'.added <==> id in s.added || id in ids;
    }
    forall id | id in s'.added ensures s'.added[id] == (s.added + s.master.conf)[id] {
      assert id in ids <==> id in s.master.conf;
    }
  }

  lemma DistributionIsRounds(c: Setup, s: System)
    requires Possible(c, s, Distribution)
    ensures var s' := Rounds(c, s, Sorted(s.master.conf.Keys), 0);
      && Apply(c, s, Distribution) == s'.(distributed := true) && s'.master.conf == s.master.conf
      && forall id :: id in s'.master.conf ==> Given(s', id)
  {
    var ids := Sorted(s.master.conf.Keys);
    RoundsCoverConf(c, s, ids);
    RoundsAreDistribution(c, s, ids, 0);
  }

  lemma SetDistributed(c: Setup, s: System)
    requires Core(c, s) && forall id :: id in s.master.conf ==> Given(s, id)
    ensures Inv(c, s.(distributed := true))
  {
    assert forall id :: Given(s, id) ==> Given(s.(distributed := true), id);
    forall at, id | at in s.workers
      ensures Tracks(c, s.(distributed := true), at, id) && Routed(c, s.(distributed := true), at, id)
    {
      assert Tracks(c, s, at, id) && Routed(c, s, at, id);
    }
  }

  // ---- Main results ----

  lemma StepInv(c: Setup, s: System, a: Action)
    requires Inv(c, s) && Possible(c, s, a) && Restrained(c, s, a)
    ensures Inv(c, Apply(c, s, a))
  {
    match a
    case Distribution => DistributionStep(c, s);
    case Add(text) => AddStep(c, s, text);
    case Remove(text) => RemoveStep(c, s, text);
    case Receive(fd) => ReceiveStep(c, s, fd);
    case Ack(fd) => AckStep(c, s, fd);
  }

  /** The invariant holds in every state that any restrained interleaving reaches. */
  lemma {:induction false} RunInv(c: Setup, s: System, actions: seq<Action>)
    requires Init(c, s) && Fits(c.port) && Exec(c, s, actions, true).Some?
    ensures Inv(c, Exec(c, s, actions, true).value)
    decreases |actions|
  {
    if actions == [] {
      InitInv(c, s);
    } else {
      var n := |actions| - 1;
      RunInv(c, s, actions[..n]);
      StepInv(c, Exec(c, s, actions[..n], true).value, actions[n]);
    }
  }
}
