/** The worker of worker.cpp as the owner of test_map: how it handles each message. */
module Worker {
  import opened Bytes
  import opened Channel
  import opened Metric

  /**
   * tests maps an id to the text its test was built from, armed counts the timers that are armed
   * for each id, and alive is false once the process has dereferenced a null test.
   */
  datatype WorkerState = WorkerState(tests: map<int, Text>, armed: multiset<int>, alive: bool)

  const FRESH := WorkerState(map[], multiset{}, true)

  /** add_test: the entry is overwritten, but a timer already armed for the id stays armed. */
  function AddTest(w: WorkerState, id: int, text: Text): WorkerState {
    w.(tests := w.tests[id := text], armed := w.armed + multiset{id})
  }

  /** delete_test, with its return code. */
  function DeleteTest(w: WorkerState, id: int): (WorkerState, int) {
    if id !in w.tests then (w, -1)
    else (w.(tests := w.tests - {id}, armed := w.armed - multiset{id}), 0)
  }

  /** The body of the receive loop: the new state and the acknowledgement written back, if any. */
  function Handle(parse: Parser, w: WorkerState, m: Message): (WorkerState, seq<int>) {
    if !w.alive then (w, [])
    else match parse(m.text)
      case None => (w, [])
      case Some(json) =>
        if m.kind == ADDCONF then
          if Probeable(parse, m.text) then (AddTest(w, json.id.value, m.text), [json.id.value])
          else (w.(alive := false), [])
        else if m.kind == DELCONF && json.id.Some? then (DeleteTest(w, json.id.value).0, [])
        else (w, [])
  }

  /**
   * What a message comes to, by its number and what its text parses to. An addition (0) of a PING
   * or UDP test overwrites the entry, arms a timer and is acknowledged; of anything else it loses
   * the worker. A deletion (1) needs only the id. Nothing else has an effect.
   */
  lemma MessageEffects(parse: Parser, w: WorkerState, kind: int32, text: Text)
    requires w.alive
    ensures var (w', acks) := Handle(parse, w, Message(kind, text));
      match parse(text)
      case None => w' == w && acks == []
      case Some(Json(id, test)) =>
        if kind == 0 && id.Some? && (test == Some(Ping) || test == Some(Udp)) then
          && acks == [id.value] && w'.alive
          && w'.tests == w.tests[id.value := text] && w'.armed == w.armed[id.value := w.armed[id.value] + 1]
        else if kind == 0 then !w'.alive && acks == []
        else if kind == 1 && id.Some? && id.value in w.tests then
          acks == [] && w'.alive && w'.tests == w.tests - {id.value} && w'.armed == w.armed - multiset{id.value}
        else w' == w && acks == []
  {
  }

  /** The loop body on a frame: a text that is not terminated inside it loses the worker. */
  function TakeFrame(parse: Parser, w: WorkerState, f: Frame): (WorkerState, seq<int>) {
    match CString(f.msg)
    case None => (w.(alive := false), [])
    case Some(text) => Handle(parse, w, Message(f.kind, text))
  }

  /** A text that fails to parse makes the loop return, leaving the rest of the buffer unread. */
  predicate Stops(parse: Parser, f: Frame) {
    match CString(f.msg)
    case None => true
    case Some(text) => (f.kind == ADDCONF || f.kind == DELCONF) && parse(text) == None
  }

  /** The frames at which the loop of a worker returns. */
  function StopsOf(parse: Parser): Frame -> bool {
    f => Stops(parse, f)
  }

  /** The frames of one callback, in order, with the acknowledgements written back. */
  function TakeFrames(parse: Parser, w: WorkerState, fs: seq<Frame>): (WorkerState, seq<int>)
    decreases |fs|
  {
    if fs == [] then (w, [])
    else
      var (w', acks) := TakeFrame(parse, w, fs[0]);
      var (last, later) := TakeFrames(parse, w', fs[1..]);
      (last, acks + later)
  }

  class Worker {
    const parse: Parser
    var testMap: map<int, Text>
    var armed: multiset<int>
    var alive: bool

    ghost function View(): WorkerState
      reads this
    {
      WorkerState(testMap, armed, alive)
    }

    constructor (parse: Parser)
      ensures View() == FRESH && this.parse == parse
    {
      this.parse := parse;
      testMap, armed, alive := map[], multiset{}, true;
    }

    method Add(id: int, text: Text)
      modifies this
      ensures View() == AddTest(old(View()), id, text)
    {
      armed := armed + multiset{id};
      testMap := testMap[id := text];
    }

    method Remove(id: int) returns (code: int)
      modifies this
      ensures (View(), code) == DeleteTest(old(View()), id)
      ensures code == if id in old(testMap) then 0 else -1
    {
      if id !in testMap {
        return -1;
      }
      testMap := testMap - {id};
      armed := armed - multiset{id};
      return 0;
    }

    /** One round of the receive loop. */
    method HandleOne(data: Message) returns (acks: seq<int>)
      modifies this
      ensures (View(), acks) == Handle(parse, old(View()), data)
    {
      acks := [];
      var root := parse(data.text);
      if !alive || root == None {
        return;
      }
      if data.kind == ADDCONF {
        if Probeable(parse, data.text) {
          acks := [root.value.id.value];
          Add(root.value.id.value, data.text);
        } else {
          alive := false;
        }
      } else if data.kind == DELCONF && root.value.id.Some? {
        var _ := Remove(root.value.id.value);
      }
    }

    /** The loop body, on the frame it has cut out. */
    method HandleFrame(f: Frame) returns (acks: seq<int>)
      modifies this
      ensures (View(), acks) == TakeFrame(parse, old(View()), f)
    {
      acks := [];
      var text := CString(f.msg);
      if text == None {
        alive := false;
      } else {
        acks := HandleOne(Message(f.kind, text.value));
      }
    }

    /** deal_channel_data: the frames that Cut names are handled, and its rest stays in the buffer. */
    method DealChannelData(input: seq<byte>) returns (acks: seq<int>, rest: seq<byte>)
      modifies this
      ensures (View(), acks) == TakeFrames(parse, old(View()), Cut(input, StopsOf(parse)).0)
      ensures rest == Cut(input, StopsOf(parse)).1
    {
      hide FrameOf, Cut, Stops;
      ghost var stops := StopsOf(parse);
      ghost var all, taken := Cut(input, stops), [];
      acks, rest := [], input;
      while |rest| >= FRAME_LEN
        invariant all.0 == taken + Cut(rest, stops).0 && all.1 == Cut(rest, stops).1
        invariant (View(), acks) == TakeFrames(parse, old(View()), taken)
      {
        ghost var before := rest;
        var data := FrameOf(rest[..FRAME_LEN]);
        var more := HandleFrame(data);
        TakeFramesLast(parse, old(View()), taken, data);
        CutNext(all, taken, before, stops);
        acks := acks + more;
        rest := rest[FRAME_LEN..];
        taken := taken + [data];
        if Stops(parse, data) {
          return;
        }
      }
      CutShort(rest, stops);
      assert taken + [] == taken;
    }
  }

  lemma {:induction false} TakeFramesLast(parse: Parser, w: WorkerState, fs: seq<Frame>, f: Frame)
    ensures var (mid, acks) := TakeFrames(parse, w, fs);
      TakeFrames(parse, w, fs + [f]) == (TakeFrame(parse, mid, f).0, acks + TakeFrame(parse, mid, f).1)
    decreases |fs|
  {
    hide TakeFrame;
    if fs == [] {
      assert fs + [f] == [f] && [f][1..] == [];
      var (next, acks) := TakeFrame(parse, w, f);
      assert acks + [] == acks == [] + acks;
    } else {
      var (next, first) := TakeFrame(parse, w, fs[0]);
      TakeFramesLast(parse, next, fs[1..], f);
      assert (fs + [f])[1..] == fs[1..] + [f];
      var later, more := TakeFrames(parse, next, fs[1..]).1, TakeFrame(parse, TakeFrames(parse, w, fs).0, f).1;
      assert first + (later + more) == (first + later) + more;
    }
  }
}
