/**
 * The master of master.cpp: which configuration lives on which worker.
 *
 * The class updates its maps in place as the source does; every method is proved against a
 * function on MasterState, and the properties are proved about those functions.
 */
module Master {
  import opened Bytes
  import opened Channel
  import opened Metric
  import opened Ordered
  import opened ConfFile

  /**
   * conf is configid_map, route is configid_channel_map, load is config_map with its
   * iterators read as ids, down holds the messages written to each channel and not yet read.
   */
  datatype MasterState = MasterState(
    conf: map<int, Text>, route: map<int, int>, load: map<int, seq<int>>, down: map<int, seq<Message>>)

  function Send(down: map<int, seq<Message>>, fd: int, m: Message): map<int, seq<Message>> {
    if fd in down then down[fd := down[fd] + [m]] else down
  }

  /** The bookkeeping for giving a configuration to a worker. */
  function Assign(s: MasterState, id: int, text: Text, fd: int): MasterState
    requires fd in s.load
  {
    s.(conf := s.conf[id := text],
       route := s.route[id := fd],
       load := s.load[fd := s.load[fd] + [id]],
       down := Send(s.down, fd, Message(ADDCONF, text)))
  }

  function Announce(s: MasterState, fd: int, port: Text): MasterState {
    s.(down := Send(s.down, fd, Message(REDISPORT, port)))
  }

  /** Every channel has an entry in config_map and none is listed twice. */
  ghost predicate Channels(s: MasterState, channels: seq<int>) {
    && channels != []
    && (forall i, j :: 0 <= i < j < |channels| ==> channels[i] != channels[j])
    && (forall fd :: fd in s.load <==> fd in channels)
    && channels[0] in s.load
    && s.down.Keys == s.load.Keys
  }

  /** distribute_conf from its i-th round on, for the ids not yet visited. */
  function DistributeFrom(s: MasterState, channels: seq<int>, ids: seq<int>, i: nat, port: Text): MasterState
    requires channels != [] && (forall fd :: fd in channels ==> fd in s.load)
    requires forall id :: id in ids ==> id in s.conf
    decreases |ids|
  {
    if ids == [] then s
    else
      var fd := channels[i % |channels|];
      DistributeFrom(Announce(Assign(s, ids[0], s.conf[ids[0]], fd), fd, port), channels, ids[1..], i + 1, port)
  }

  ghost function Distribute(s: MasterState, channels: seq<int>, port: Text): MasterState
    requires Channels(s, channels)
  {
    DistributeFrom(s, channels, Sorted(s.conf.Keys), 0, port)
  }

  /** The minimum search of deal_metric_request over the remaining channels. */
  function LeastFrom(load: map<int, seq<int>>, fds: seq<int>, min: int, pick: int): int
    requires forall i :: 0 <= i < |fds| ==> fds[i] in load
  {
    if fds == [] then pick
    else if min > |load[fds[0]]| then LeastFrom(load, fds[1..], |load[fds[0]]|, fds[0])
    else LeastFrom(load, fds[1..], min, pick)
  }

  ghost function LeastLoaded(load: map<int, seq<int>>): (fd: int)
    requires load.Keys != {}
    ensures fd in load
  {
    var fds := Sorted(load.Keys);
    LeastFromPicks(load, fds, 1000000, fds[0]);
    LeastFrom(load, fds, 1000000, fds[0])
  }

  lemma {:induction false} LeastFromPicks(load: map<int, seq<int>>, fds: seq<int>, min: int, pick: int)
    requires forall i :: 0 <= i < |fds| ==> fds[i] in load
    ensures var best := LeastFrom(load, fds, min, pick);
      if forall fd :: fd in fds ==> |load[fd]| >= min
      then best == pick
      else best in fds && |load[best]| < min && forall fd :: fd in fds ==> |load[best]| <= |load[fd]|
  {
    if fds != [] {
      assert forall fd :: fd in fds <==> fd == fds[0] || fd in fds[1..];
      if min > |load[fds[0]]| {
        LeastFromPicks(load, fds[1..], |load[fds[0]]|, fds[0]);
      } else {
        LeastFromPicks(load, fds[1..], min, pick);
      }
    }
  }

  /** configid_channel_map[id]: reading a missing key inserts descriptor 0. */
  function RouteOf(s: MasterState, id: int): int {
    if id in s.route then s.route[id] else 0
  }

  function Forward(s: MasterState, id: int, kind: int32, text: Text): MasterState {
    var fd := RouteOf(s, id);
    s.(route := s.route[id := fd], down := Send(s.down, fd, Message(kind, text)))
  }

  /** deal_metric_request on a POST. */
  ghost function Post(s: MasterState, parse: Parser, text: Text): MasterState
    requires s.load.Keys != {}
  {
    match Ident(parse, text)
    case None => s
    case Some(id) =>
      if id !in s.conf then Assign(s, id, text, LeastLoaded(s.load))
      else Forward(s.(conf := s.conf[id := text]), id, EDITCONF, text)
  }

  /** delete_metric_request on a POST. */
  function Delete(s: MasterState, parse: Parser, text: Text): MasterState {
    match Ident(parse, text)
    case None => s
    case Some(id) =>
      if id !in s.conf then s
      else Forward(s.(conf := s.conf - {id}), id, DELCONF, text)
  }

  // ---- What a request comes to ----

  /** A body that does not parse, or has no id or no type, is ignored, and so is a delete of an unknown id. */
  lemma OthersIgnored(s: MasterState, parse: Parser, text: Text)
    requires s.load.Keys != {}
    requires match parse(text) case None => true case Some(Json(id, kind)) => id == None || kind == None
    ensures Post(s, parse, text) == s && Delete(s, parse, text) == s
  {
  }

  lemma UnknownDeleteIgnored(s: MasterState, parse: Parser, text: Text, id: int32, kind: Kind)
    requires parse(text) == Some(Json(Some(id), Some(kind))) && id !in s.conf
    ensures Delete(s, parse, text) == s
  {
  }

  /** Exactly one message, at the end of the queue of the worker the id is routed to. */
  ghost predicate TellsOnly(s: MasterState, t: MasterState, id: int, kind: int32, text: Text) {
    && t.load == s.load && t.route.Keys == s.route.Keys + {id}
    && (forall other :: other in s.route ==> t.route[other] == s.route[other])
    && if id in s.route && s.route[id] in s.down
       then t.down == s.down[s.route[id] := s.down[s.route[id]] + [Message(kind, text)]]
       else id !in s.route && 0 !in s.down ==> t.down == s.down
  }

  /** Whatever else its body says, a delete of a known id removes it and sends one DELCONF (1). */
  lemma DeleteTells(s: MasterState, parse: Parser, text: Text, id: int32, kind: Kind)
    requires parse(text) == Some(Json(Some(id), Some(kind))) && id in s.conf
    ensures var t := Delete(s, parse, text); t.conf == s.conf - {id as int} && TellsOnly(s, t, id, 1, text)
  {
  }

  /** An edit of a known id stores the text and sends one EDITCONF (2). */
  lemma EditTells(s: MasterState, parse: Parser, text: Text, id: int32, kind: Kind)
    requires parse(text) == Some(Json(Some(id), Some(kind))) && id in s.conf && s.load.Keys != {}
    ensures var t := Post(s, parse, text); t.conf == s.conf[id as int := text] && TellsOnly(s, t, id, 2, text)
  {
    hide LeastLoaded;
  }

  /** An addition books the id with one worker, routes it there and sends it one ADDCONF (0). */
  lemma AddTells(s: MasterState, parse: Parser, text: Text, id: int32, kind: Kind)
    requires parse(text) == Some(Json(Some(id), Some(kind))) && id !in s.conf && s.load.Keys != {}
    requires s.down.Keys == s.load.Keys
    ensures var t, fd := Post(s, parse, text), LeastLoaded(s.load);
      && t.conf == s.conf[id as int := text] && t.route == s.route[id as int := fd]
      && t.load == s.load[fd := s.load[fd] + [id as int]]
      && t.down == s.down[fd := s.down[fd] + [Message(0, text)]]
  {
    hide LeastLoaded;
  }

  /** deal_channel_data: an acknowledgement names the worker it came from. */
  function Acknowledged(s: MasterState, fd: int, acks: seq<int>): MasterState
    decreases |acks|
  {
    if acks == [] then s else Acknowledged(s.(route := s.route[acks[0] := fd]), fd, acks[1..])
  }

  /** The ids in the frames that are of type ADDCONF; a DELCONF frame has no effect. */
  function AckIds(fs: seq<Frame>): seq<int> {
    if fs == [] then [] else (if fs[0].kind == ADDCONF then [AckId(fs[0])] else []) + AckIds(fs[1..])
  }

  /** A frame of another type, such as DELCONF, acknowledges nothing wherever it stands. */
  lemma {:induction false} OtherFramesIgnored(p: seq<Frame>, f: Frame, q: seq<Frame>)
    requires f.kind != 0
    ensures AckIds(p + [f] + q) == AckIds(p + q)
  {
    hide AckId;
    if p == [] {
      assert (p + [f] + q)[1..] == q && p + q == q;
    } else {
      OtherFramesIgnored(p[1..], f, q);
      assert (p + [f] + q)[1..] == p[1..] + [f] + q && (p + q)[1..] == p[1..] + q;
    }
  }

  lemma {:induction false} AckIdsLast(fs: seq<Frame>, f: Frame)
    ensures AckIds(fs + [f]) == AckIds(fs) + if f.kind == ADDCONF then [AckId(f)] else []
  {
    hide AckId;
    if fs == [] {
      assert fs + [f] == [f] && [f][1..] == [];
    } else {
      AckIdsLast(fs[1..], f);
      assert (fs + [f])[1..] == fs[1..] + [f];
    }
  }

  lemma {:induction false} AcknowledgedLast(s: MasterState, fd: int, acks: seq<int>, id: int)
    ensures Acknowledged(s, fd, acks + [id])
      == var t := Acknowledged(s, fd, acks); t.(route := t.route[id := fd])
    decreases |acks|
  {
    if acks == [] {
      assert acks + [id] == [id] && [id][1..] == [];
    } else {
      AcknowledgedLast(s.(route := s.route[acks[0] := fd]), fd, acks[1..], id);
      assert (acks + [id])[1..] == acks[1..] + [id];
    }
  }

  lemma AcknowledgedOne(s: MasterState, fd: int, id: int)
    ensures Acknowledged(s, fd, [id]) == s.(route := s.route[id := fd])
  {
    assert [id][1..] == [];
  }

  lemma NothingAcknowledged(s: MasterState, fd: int)
    ensures Acknowledged(s, fd, AckIds([])) == s
  {
  }

  lemma AssignKeepsChannels(s: MasterState, channels: seq<int>, id: int, text: Text, fd: int)
    requires Channels(s, channels) && fd in s.load
    ensures Channels(Assign(s, id, text, fd), channels)
  {
  }

  class Master {
    const parse: Parser
    const channelFds: seq<int>
    var configidMap: map<int, Text>
    var configidChannelMap: map<int, int>
    var configMap: map<int, seq<int>>
    var down: map<int, seq<Message>>

    ghost function View(): MasterState
      reads this
    {
      MasterState(configidMap, configidChannelMap, configMap, down)
    }

    ghost predicate Valid()
      reads this
    {
      Channels(View(), channelFds)
    }

    /** generate_worker: one empty entry per channel. */
    constructor (parse: Parser, channelFds: seq<int>)
      requires channelFds != [] && forall i, j :: 0 <= i < j < |channelFds| ==> channelFds[i] != channelFds[j]
      ensures Valid() && this.parse == parse && this.channelFds == channelFds
      ensures View() == MasterState(map[], map[], map fd | fd in channelFds :: [], map fd | fd in channelFds :: [])
    {
      this.parse, this.channelFds := parse, channelFds;
      configidMap, configidChannelMap := map[], map[];
      configMap := map fd | fd in channelFds :: [];
      down := map fd | fd in channelFds :: [];
    }

    method SendMsg(channelfd: int, kind: int32, msg: Text)
      modifies this`down
      ensures down == Send(old(down), channelfd, Message(kind, msg))
    {
      if channelfd in down {
        down := down[channelfd := down[channelfd] + [Message(kind, msg)]];
      }
    }

    method DistributeConf(redisport: Text)
      requires Valid()
      modifies this
      ensures Valid() && View() == Distribute(old(View()), channelFds, redisport)
    {
      var todo := configidMap.Keys;
      var i := 0;
      while todo != {}
        invariant Valid() && todo <= configidMap.Keys
        invariant DistributeFrom(View(), channelFds, Sorted(todo), i, redisport)
               == Distribute(old(View()), channelFds, redisport)
      {
        var id := Next(todo);
        var channelfd := channelFds[i % |channelFds|];
        AssignAt(id, configidMap[id], channelfd, redisport);
        todo := todo - {id};
        i := i + 1;
      }
    }

    /** The loop body of distribute_conf. */
    method AssignAt(id: int, text: Text, channelfd: int, redisport: Text)
      requires Valid() && id in configidMap && text == configidMap[id] && channelfd in channelFds
      modifies this
      ensures Valid() && View() == Announce(Assign(old(View()), id, text, channelfd), channelfd, redisport)
      ensures configidMap == old(configidMap)
    {
      configidChannelMap := configidChannelMap[id := channelfd];
      configMap := configMap[channelfd := configMap[channelfd] + [id]];
      SendMsg(channelfd, ADDCONF, text);
      SendMsg(channelfd, REDISPORT, redisport);
      assert old(configidMap)[id := text] == configidMap;
    }

    /** The search for the channel with the fewest configurations. */
    method FindLeast() returns (channelfd: int)
      requires Valid()
      ensures channelfd == LeastLoaded(configMap)
    {
      var todo := configMap.Keys;
      assert channelFds[0] in todo;
      channelfd := Next(todo);
      var min := 1000000;
      while todo != {}
        invariant todo <= configMap.Keys
        invariant LeastFrom(configMap, Sorted(todo), min, channelfd) == LeastLoaded(configMap)
      {
        var it := Next(todo);
        assert ([it] + Sorted(todo - {it}))[1..] == Sorted(todo - {it});
        if min > |configMap[it]| {
          min := |configMap[it]|;
          channelfd := it;
        }
        todo := todo - {it};
      }
    }

    method DealMetricRequest(body: Text)
      requires Valid()
      modifies this
      ensures View() == Post(old(View()), parse, body)
      ensures Valid()
    {
      var ident := Ident(parse, body);
      if ident == None {
        return;
      }
      if ident.value !in configidMap {
        AssignKeepsChannels(View(), channelFds, ident.value, body, LeastLoaded(configMap));
        AddMetric(ident.value, body);
      } else {
        EditMetric(ident.value, body);
      }
    }

    /** The branch of deal_metric_request for an id not in configid_map. */
    method AddMetric(id: int, body: Text)
      requires Valid()
      modifies this
      ensures View() == Assign(old(View()), id, body, LeastLoaded(old(configMap)))
    {
      var channelfd := FindLeast();
      AssignTo(id, body, channelfd);
    }

    method AssignTo(id: int, body: Text, channelfd: int)
      requires channelfd in configMap
      modifies this
      ensures View() == Assign(old(View()), id, body, channelfd)
    {
      configidMap := configidMap[id := body];
      configMap := configMap[channelfd := configMap[channelfd] + [id]];
      configidChannelMap := configidChannelMap[id := channelfd];
      SendMsg(channelfd, ADDCONF, body);
    }

    /** The branch for an id already present. */
    method EditMetric(id: int, body: Text)
      requires Valid()
      modifies this
      ensures View() == Forward(old(View()).(conf := old(configidMap)[id := body]), id, EDITCONF, body)
      ensures Valid()
    {
      configidMap := configidMap[id := body];
      var channelfd := Lookup(id);
      SendMsg(channelfd, EDITCONF, body);
    }

    method DeleteMetricRequest(body: Text)
      requires Valid()
      modifies this
      ensures View() == Delete(old(View()), parse, body)
      ensures Valid()
    {
      var ident := Ident(parse, body);
      if ident == None || ident.value !in configidMap {
        return;
      }
      configidMap := configidMap - {ident.value};
      var channelfd := Lookup(ident.value);
      SendMsg(channelfd, DELCONF, body);
    }

    /** operator[] of configid_channel_map. */
    method Lookup(id: int) returns (channelfd: int)
      modifies this`configidChannelMap
      ensures channelfd == RouteOf(old(View()), id)
      ensures configidChannelMap == old(configidChannelMap)[id := channelfd]
    {
      channelfd := if id in configidChannelMap then configidChannelMap[id] else 0;
      configidChannelMap := configidChannelMap[id := channelfd];
    }

    /** deal_channel_data: every complete frame is cut out, and an ADDCONF frame sets the route. */
    method DealChannelData(channelfd: int, input: seq<byte>) returns (rest: seq<byte>)
      modifies this`configidChannelMap
      ensures View() == Acknowledged(old(View()), channelfd, AckIds(Cut(input, Never()).0))
      ensures rest == Cut(input, Never()).1
    {
      hide FrameOf, Cut, AckId, AckIds, Acknowledged;
      ghost var stops := Never();
      ghost var all, taken := Cut(input, stops), [];
      rest := input;
      NothingAcknowledged(View(), channelfd);
      while |rest| >= FRAME_LEN
        invariant all.0 == taken + Cut(rest, stops).0 && all.1 == Cut(rest, stops).1
        invariant View() == Acknowledged(old(View()), channelfd, AckIds(taken))
      {
        var data := FrameOf(rest[..FRAME_LEN]);
        CutNext(all, taken, rest, stops);
        AckIdsLast(taken, data);
        assert AckIds(taken) + [] == AckIds(taken);
        AcknowledgedLast(old(View()), channelfd, AckIds(taken), AckId(data));
        rest := rest[FRAME_LEN..];
        taken := taken + [data];
        if data.kind == ADDCONF {
          configidChannelMap := configidChannelMap[AckId(data) := channelfd];
        }
      }
      CutShort(rest, stops);
      assert taken + [] == taken;
    }

    method FlushTestConf() returns (file: Text)
      ensures file == Flush(configidMap)
    {
      var todo := configidMap.Keys;
      file := [];
      while todo != {}
        invariant todo <= configidMap.Keys
        invariant file + Unwritten(configidMap, todo) == Flush(configidMap)
      {
        var it := Next(todo);
        WriteStep(configidMap, todo, it, file);
        file := file + configidMap[it];
        file := file + [NEWLINE, NEWLINE];
        todo := todo - {it};
      }
      assert file + [] == file;
    }

    /** getline: up to the next newline, or all that is left. */
    static method GetLine(rest: Text) returns (line: Text, left: Text, eof: bool)
      ensures eof == (LineEnd(rest) == |rest|)
      ensures line == rest[..LineEnd(rest)]
      ensures !eof ==> left == rest[LineEnd(rest) + 1..]
    {
      var n := 0;
      while n < |rest| && rest[n] != NEWLINE
        invariant n <= |rest| && forall i :: 0 <= i < n ==> rest[i] != NEWLINE
      {
        n := n + 1;
      }
      line, eof := rest[..n], n == |rest|;
      left := if eof then [] else rest[n + 1..];
    }

    method GetTestConf(file: Text) returns (code: int)
      modifies this`configidMap
      ensures (configidMap, code) == Load(parse, old(configidMap), Lines(file))
    {
      var rest, eof := file, false;
      while !eof
        invariant Load(parse, configidMap, if eof then [] else Lines(rest))
               == Load(parse, old(configidMap), Lines(file))
        decreases !eof, |rest|
      {
        var line, left, last := GetLine(rest);
        ghost var lines := Lines(rest);
        assert rest[..|rest|] == rest;
        assert lines == [line] + (if last then [] else Lines(left));
        assert lines[1..] == if last then [] else Lines(left);
        match Classify(parse, line) {
          case Skipped =>
          case Malformed => return -1;
          case Configures(id) => configidMap := configidMap[id := line];
        }
        rest, eof := left, last;
      }
      return 0;
    }
  }
}
