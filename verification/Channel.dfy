/**
 * The byte channel between master and worker: messages in fixed-size frames, and the loop of
 * deal_channel_data that cuts frames out of a stream buffer.
 */
module Channel {
  import opened Bytes

  type Text = seq<byte>

  type int32 = x: int | -0x8000_0000 <= x < 0x8000_0000

  const MAX_MSG_LEN: nat := 1000
  const FRAME_LEN: nat := 1004

  type Payload = s: seq<byte> | |s| == MAX_MSG_LEN witness seq(MAX_MSG_LEN, _ => 0)

  /** struct channel_data. */
  datatype Frame = Frame(kind: int32, msg: Payload)

  function FrameBytes(f: Frame): (s: seq<byte>)
    ensures |s| == FRAME_LEN
  {
    Encode(f.kind, 4) + f.msg
  }

  function FrameOf(s: seq<byte>): Frame
    requires |s| == FRAME_LEN
  {
    SignedInRange(s[..4]);
    Frame(DecodeSigned(s[..4]), s[4..])
  }

  lemma SignedInRange(s: seq<byte>)
    requires |s| == 4
    ensures -0x8000_0000 <= DecodeSigned(s) < 0x8000_0000
  {
    DecodeBound(s);
  }

  lemma {:induction false} DecodeBound(s: seq<byte>)
    ensures Decode(s) < Pow256(|s|)
  {
    if s != [] {
      DecodeBound(s[1..]);
    }
  }

  lemma FrameRoundTrip(f: Frame)
    ensures FrameOf(FrameBytes(f)) == f
  {
    var s := FrameBytes(f);
    assert s[..4] == Encode(f.kind, 4) && s[4..] == f.msg;
    SignedRoundTrip(f.kind, 4);
  }

  // ---- Messages in frames ----

  datatype Message = Message(kind: int32, text: Text)

  function Zeros(n: nat): seq<byte> {
    seq(n, _ => 0)
  }

  /** send_msg: at most MAX_MSG_LEN bytes of the text, in a zeroed frame. */
  function Pack(m: Message): Frame {
    var size := if MAX_MSG_LEN > |m.text| then |m.text| else MAX_MSG_LEN;
    Frame(m.kind, m.text[..size] + Zeros(MAX_MSG_LEN - size))
  }

  /** What a reader of a C string finds; None when it would run past the payload. */
  function CString(s: seq<byte>): Option<Text> {
    if s == [] then None
    else if s[0] == 0 then Some([])
    else match CString(s[1..])
      case None => None
      case Some(t) => Some([s[0]] + t)
  }

  /** A text that one frame can carry. */
  predicate Fits(t: Text) {
    |t| < MAX_MSG_LEN && 0 !in t
  }

  lemma {:induction false} CStringStops(t: Text, pad: nat)
    ensures pad > 0 && 0 !in t ==> CString(t + Zeros(pad)) == Some(t)
    ensures CString(t + Zeros(pad)) == Some(t) ==> pad > 0 && 0 !in t
  {
    var s := t + Zeros(pad);
    if t == [] {
      assert s == Zeros(pad);
    } else {
      assert s[1..] == t[1..] + Zeros(pad);
      CStringStops(t[1..], pad);
      assert t == [t[0]] + t[1..];
      assert 0 in t <==> t[0] == 0 || 0 in t[1..];
      if t[0] != 0 && CString(s) == Some(t) {
        assert ([s[0]] + CString(s[1..]).value)[1..] == CString(s[1..]).value;
      }
    }
  }

  /** The receiver reads the text that was sent iff it is shorter than a payload and NUL-free. */
  lemma DeliveredExactlyWhenFits(m: Message)
    ensures CString(Pack(m).msg) == Some(m.text) <==> Fits(m.text)
  {
    if |m.text| <= MAX_MSG_LEN {
      assert m.text[..|m.text|] == m.text;
      CStringStops(m.text, MAX_MSG_LEN - |m.text|);
    } else {
      CStringLength(Pack(m).msg);
    }
  }

  lemma {:induction false} CStringLength(s: seq<byte>)
    ensures CString(s).Some? ==> |CString(s).value| < |s|
  {
    if s != [] {
      CStringLength(s[1..]);
    }
  }

  /** The acknowledgement a worker writes back: the id in the first bytes of an ADDCONF frame. */
  function AckFrame(id: int): Frame {
    Frame(0, Encode(id, 4) + Zeros(MAX_MSG_LEN - 4))
  }

  function AckId(f: Frame): int32 {
    SignedInRange(f.msg[..4]);
    DecodeSigned(f.msg[..4])
  }

  lemma AckRoundTrip(id: int32)
    ensures AckId(AckFrame(id)) == id
  {
    assert AckFrame(id).msg[..4] == Encode(id, 4);
    SignedRoundTrip(id, 4);
  }

  // ---- The receive loops ----

  /** The frames one callback handles and the bytes it leaves; a stopping frame ends the loop. */
  function Cut(input: seq<byte>, stops: Frame -> bool): (seq<Frame>, seq<byte>) {
    if |input| < FRAME_LEN then ([], input)
    else
      var f := FrameOf(input[..FRAME_LEN]);
      if stops(f) then ([f], input[FRAME_LEN..])
      else
        var (fs, rest) := Cut(input[FRAME_LEN..], stops);
        ([f] + fs, rest)
  }

  /** The loop of the master never returns early. */
  function Never(): Frame -> bool {
    _ => false
  }

  lemma CutShort(input: seq<byte>, stops: Frame -> bool)
    requires |input| < FRAME_LEN
    ensures Cut(input, stops) == ([], input)
  {
  }

  lemma CutOne(input: seq<byte>, stops: Frame -> bool)
    requires |input| >= FRAME_LEN
    ensures var f, rest := FrameOf(input[..FRAME_LEN]), input[FRAME_LEN..];
      Cut(input, stops) == if stops(f) then ([f], rest) else ([f] + Cut(rest, stops).0, Cut(rest, stops).1)
  {
  }

  /** One more round of the loop, after the frames in taken. */
  lemma CutNext(all: (seq<Frame>, seq<byte>), taken: seq<Frame>, input: seq<byte>, stops: Frame -> bool)
    requires |input| >= FRAME_LEN
    requires all.0 == taken + Cut(input, stops).0 && all.1 == Cut(input, stops).1
    ensures var f, rest := FrameOf(input[..FRAME_LEN]), input[FRAME_LEN..];
      if stops(f) then all == (taken + [f], rest)
      else all.0 == (taken + [f]) + Cut(rest, stops).0 && all.1 == Cut(rest, stops).1
  {
    var f, rest := FrameOf(input[..FRAME_LEN]), input[FRAME_LEN..];
    CutOne(input, stops);
    Associate(taken, [f], Cut(rest, stops).0);
    hide *;
  }
}
