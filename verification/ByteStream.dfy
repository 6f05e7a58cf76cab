/** Under every chunking of the bytes, the channel refines a FIFO of frames. */
module ByteStream {
  import opened Bytes
  import opened Channel

  function Flatten(fs: seq<Frame>): seq<byte> {
    Join(FrameBytes, fs)
  }

  lemma FlattenStep(fs: seq<Frame>)
    requires fs != []
    ensures |Flatten(fs)| >= FRAME_LEN
    ensures Flatten(fs)[..FRAME_LEN] == FrameBytes(fs[0])
    ensures Flatten(fs)[FRAME_LEN..] == Flatten(fs[1..])
  {
  }

  lemma FlattenOne(f: Frame)
    ensures Flatten([f]) == FrameBytes(f)
  {
    assert Join(FrameBytes, [f][1..]) == [];
  }

  lemma SameFirstFrame(f: Frame, a: seq<byte>, g: Frame, b: seq<byte>)
    requires FrameBytes(f) + a == FrameBytes(g) + b
    ensures f == g && a == b
  {
    var s := FrameBytes(f) + a;
    assert s[..FRAME_LEN] == FrameBytes(f) && s[FRAME_LEN..] == a;
    assert s[..FRAME_LEN] == FrameBytes(g) && s[FRAME_LEN..] == b;
    FrameRoundTrip(f);
    FrameRoundTrip(g);
  }

  /** Frames written back to back are recovered from the front of the stream. */
  lemma {:induction false} FlattenPrefix(sent: seq<Frame>, got: seq<Frame>, rest: seq<byte>)
    requires Flatten(sent) == Flatten(got) + rest
    ensures got <= sent && rest == Flatten(sent[|got|..])
  {
    if got == [] {
      assert sent[0..] == sent;
    } else {
      assert |Flatten(sent)| >= FRAME_LEN;
      Associate(FrameBytes(got[0]), Flatten(got[1..]), rest);
      SameFirstFrame(sent[0], Flatten(sent[1..]), got[0], Flatten(got[1..]) + rest);
      FlattenPrefix(sent[1..], got[1..], rest);
      assert sent[|got|..] == sent[1..][|got| - 1..];
      assert sent == [sent[0]] + sent[1..] && got == [got[0]] + got[1..];
    }
  }

  lemma {:induction false} EncodeDecode(s: seq<byte>)
    ensures Encode(Decode(s), |s|) == s
  {
    if s != [] {
      EncodeDecode(s[1..]);
      DivisionIsUnique(Decode(s), 256, Decode(s[1..]), s[0]);
    }
  }

  lemma {:induction false} EncodeShift(x: int, n: nat)
    ensures Encode(x - Pow256(n), n) == Encode(x, n)
    decreases n
  {
    if n > 0 {
      EncodeShift(x / 256, n - 1);
      DivisionIsUnique(x - Pow256(n), 256, x / 256 - Pow256(n - 1), x % 256);
    }
  }

  lemma BytesRoundTrip(s: seq<byte>)
    requires |s| == FRAME_LEN
    ensures FrameBytes(FrameOf(s)) == s
  {
    EncodeDecode(s[..4]);
    EncodeShift(Decode(s[..4]), 4);
  }

  /** No byte is lost, duplicated or reordered by a callback. */
  lemma {:induction false} CutConserves(input: seq<byte>, stops: Frame -> bool)
    ensures Flatten(Cut(input, stops).0) + Cut(input, stops).1 == input
    ensures |input| >= FRAME_LEN ==> Cut(input, stops).0 != []
  {
    if |input| >= FRAME_LEN {
      var f := FrameOf(input[..FRAME_LEN]);
      BytesRoundTrip(input[..FRAME_LEN]);
      if stops(f) {
        FlattenOne(f);
      } else {
        CutConserves(input[FRAME_LEN..], stops);
        var fs := Cut(input[FRAME_LEN..], stops).0;
        assert ([f] + fs)[1..] == fs;
      }
    }
  }

  /** Every complete frame of a buffer. */
  function Complete(input: seq<byte>): seq<Frame> {
    Cut(input, _ => false).0
  }

  /** A callback leaves less than a frame iff no complete frame before the last one stops it. */
  lemma {:induction false} DrainedExactly(input: seq<byte>, stops: Frame -> bool)
    ensures |Cut(input, stops).1| < FRAME_LEN
      <==> forall i :: 0 <= i < |Complete(input)| - 1 ==> !stops(Complete(input)[i])
  {
    if |input| >= FRAME_LEN {
      var f, rest := FrameOf(input[..FRAME_LEN]), input[FRAME_LEN..];
      var later := Complete(rest);
      assert Complete(input) == [f] + later;
      CutConserves(rest, _ => false);
      assert |rest| < FRAME_LEN <==> later == [];
      if stops(f) {
        assert Complete(input)[0] == f;
      } else {
        DrainedExactly(rest, stops);
        assert forall i :: 0 <= i < |later| ==> Complete(input)[i + 1] == later[i];
        assert forall i :: 1 <= i < |later| + 1 ==> Complete(input)[i] == later[i - 1];
      }
    }
  }

  // ---- The channel as a whole, under every chunking ----

  datatype Stream = Stream(sent: seq<Frame>, wire: seq<byte>, input: seq<byte>, handled: seq<Frame>)

  datatype Step = Write(f: Frame) | Arrive(n: nat) | Callback

  function Apply(s: Stream, step: Step, stops: Frame -> bool): Stream {
    match step
    case Write(f) => s.(sent := s.sent + [f], wire := s.wire + FrameBytes(f))
    case Arrive(n) =>
      var k := if n <= |s.wire| then n else |s.wire|;
      s.(input := s.input + s.wire[..k], wire := s.wire[k..])
    case Callback =>
      var (fs, rest) := Cut(s.input, stops);
      s.(input := rest, handled := s.handled + fs)
  }

  function Run(s: Stream, steps: seq<Step>, stops: Frame -> bool): Stream
    decreases |steps|
  {
    if steps == [] then s
    else Apply(Run(s, steps[..|steps| - 1], stops), steps[|steps| - 1], stops)
  }

  const EMPTY := Stream([], [], [], [])

  ghost predicate Conserved(s: Stream) {
    Flatten(s.sent) == Flatten(s.handled) + (s.input + s.wire)
  }

  lemma WriteConserves(s: Stream, f: Frame)
    requires Conserved(s)
    ensures Flatten(s.sent + [f]) == Flatten(s.handled) + (s.input + (s.wire + FrameBytes(f)))
  {
    JoinAppend(FrameBytes, s.sent, [f]);
    FlattenOne(f);
    Associate(Flatten(s.handled), s.input + s.wire, FrameBytes(f));
    Associate(s.input, s.wire, FrameBytes(f));
  }

  lemma ApplyConserves(s: Stream, step: Step, stops: Frame -> bool)
    requires Conserved(s)
    ensures Conserved(Apply(s, step, stops))
  {
    match step
    case Write(f) =>
      WriteConserves(s, f);
    case Arrive(n) =>
      var k := if n <= |s.wire| then n else |s.wire|;
      assert s.wire == s.wire[..k] + s.wire[k..];
      Associate(s.input, s.wire[..k], s.wire[k..]);
    case Callback =>
      var fs, rest := Cut(s.input, stops).0, Cut(s.input, stops).1;
      CutConserves(s.input, stops);
      JoinAppend(FrameBytes, s.handled, fs);
      Associate(Flatten(fs), rest, s.wire);
      Associate(Flatten(s.handled), Flatten(fs), rest + s.wire);
  }

  lemma {:induction false} RunConserves(steps: seq<Step>, stops: Frame -> bool)
    ensures Conserved(Run(EMPTY, steps, stops))
    decreases |steps|
  {
    if steps != [] {
      RunConserves(steps[..|steps| - 1], stops);
      ApplyConserves(Run(EMPTY, steps[..|steps| - 1], stops), steps[|steps| - 1], stops);
    }
  }

  /** The abstract FIFO: frames written but not yet handled. */
  function Queue(s: Stream): seq<Frame> {
    if |s.handled| <= |s.sent| then s.sent[|s.handled|..] else []
  }

  /**
   * After any writes, any chunking and any callbacks: the handled frames are a prefix of those
   * sent, unchanged and in order, and everything else is still in the buffer or on the wire.
   */
  lemma PrefixDelivered(steps: seq<Step>, stops: Frame -> bool)
    ensures var s := Run(EMPTY, steps, stops);
      && s.handled <= s.sent
      && s.input + s.wire == Flatten(Queue(s))
      && (|s.input + s.wire| < FRAME_LEN ==> s.handled == s.sent)
  {
    var s := Run(EMPTY, steps, stops);
    RunConserves(steps, stops);
    FlattenPrefix(s.sent, s.handled, s.input + s.wire);
    if Queue(s) == [] {
      assert s.sent[..|s.handled|] == s.sent;
    }
  }

  lemma ConservedStep(s: Stream, step: Step, stops: Frame -> bool)
    requires Conserved(s)
    ensures var s' := Apply(s, step, stops);
      && Conserved(s')
      && match step
         case Write(f) => Queue(s') == Queue(s) + [f] && s'.handled == s.handled
         case Arrive(_) => Queue(s') == Queue(s) && s'.handled == s.handled
         case Callback =>
           var took := Cut(s.input, stops).0;
           Queue(s) == took + Queue(s') && s'.handled == s.handled + took
  {
    var s' := Apply(s, step, stops);
    ApplyConserves(s, step, stops);
    FlattenPrefix(s.sent, s.handled, s.input + s.wire);
    FlattenPrefix(s'.sent, s'.handled, s'.input + s'.wire);
    if step.Callback? {
      TakenFromQueue(s.sent, s.handled, Cut(s.input, stops).0);
    }
  }

  /** Every step of the byte channel is a FIFO step: append one, stutter, or remove a prefix. */
  lemma StepRefinesFifo(steps: seq<Step>, step: Step, stops: Frame -> bool)
    ensures var s := Run(EMPTY, steps, stops);
      var s' := Apply(s, step, stops);
      match step
      case Write(f) => Queue(s') == Queue(s) + [f] && s'.handled == s.handled
      case Arrive(_) => Queue(s') == Queue(s) && s'.handled == s.handled
      case Callback =>
        var took := Cut(s.input, stops).0;
        Queue(s) == took + Queue(s') && s'.handled == s.handled + took
  {
    RunConserves(steps, stops);
    ConservedStep(Run(EMPTY, steps, stops), step, stops);
  }

  lemma TakenFromQueue(sent: seq<Frame>, before: seq<Frame>, took: seq<Frame>)
    requires before + took <= sent
    ensures sent[|before|..] == took + sent[|before + took|..]
  {
  }

  /** Once all bytes have arrived, one callback that no malformed text cuts short delivers all. */
  lemma AllDelivered(steps: seq<Step>, stops: Frame -> bool)
    requires Run(EMPTY, steps, stops).wire == []
    requires forall f :: f in Run(EMPTY, steps, stops).sent ==> !stops(f)
    ensures var s := Apply(Run(EMPTY, steps, stops), Callback, stops);
      s.handled == s.sent && s.input == []
  {
    var s := Run(EMPTY, steps, stops);
    PrefixDelivered(steps, stops);
    CutsAll(Queue(s), stops);
    assert s.input + s.wire == s.input;
  }

  lemma {:induction false} CutsAll(fs: seq<Frame>, stops: Frame -> bool)
    requires forall f :: f in fs ==> !stops(f)
    ensures Cut(Flatten(fs), stops) == (fs, [])
  {
    if fs != [] {
      FlattenStep(fs);
      FrameRoundTrip(fs[0]);
      CutOne(Flatten(fs), stops);
      CutsAll(fs[1..], stops);
      assert fs == [fs[0]] + fs[1..];
    }
  }
}
