/** The bytes of a PING: the echo request that probe builds and the reply that process reads. */
module PingWire {
  import opened Bytes
  import opened Checksum
  import opened Timeval

  const ECHO_LEN := 64
  const BUF_LEN := 1500

  /** The 56 data bytes: the send time in the first 16, then the fill byte. */
  function EchoData(now: Time): (s: seq<byte>)
    ensures |s| == 56
  {
    Encode(now.sec, 8) + Encode(now.usec, 8) + seq(40, _ => 0xA5)
  }

  /** Type, code, a zero checksum, identifier, sequence number and data. */
  function Unsummed(kind: byte, pid: int, nsent: int, now: Time): (s: seq<byte>)
    ensures |s| == 64
    ensures s[0] == kind && s[1] == 0 && s[2] == 0 && s[3] == 0
    ensures s[4..6] == Encode(pid, 2) && s[6..8] == Encode(nsent, 2) && s[8..] == EchoData(now)
  {
    var head := [kind, 0, 0, 0];
    var s := head + Encode(pid, 2) + Encode(nsent, 2) + EchoData(now);
    assert s[4..6] == Encode(pid, 2) && s[6..8] == Encode(nsent, 2) && s[8..] == EchoData(now);
    s
  }

  /** The packet handed to sendto. */
  function EchoRequest(pid: int, nsent: int, now: Time): (s: seq<byte>)
    ensures |s| == 64
  {
    var s := Unsummed(8, pid, nsent, now);
    Store(LittleEndian, s, 1, Cksum(LittleEndian, s))
  }

  /** Every probe carries a checksum that verifies. */
  lemma EchoRequestVerifies(pid: int, nsent: int, now: Time)
    ensures Cksum(LittleEndian, EchoRequest(pid, nsent, now)) == 0
  {
    StoredChecksumVerifies(LittleEndian, Unsummed(8, pid, nsent, now), 1);
  }

  /** An echo request: type 8, code 0, and both numbers modulo 65536. */
  lemma EchoRequestFields(pid: int, nsent: int, now: Time)
    ensures var s := EchoRequest(pid, nsent, now);
      && s[0] == 8 && s[1] == 0
      && Decode(s[4..6]) == pid % 0x1_0000 && Decode(s[6..8]) == nsent % 0x1_0000
      && s[8..] == EchoData(now) && forall i :: 24 <= i < 64 ==> s[i] == 0xA5
  {
    var s, u := EchoRequest(pid, nsent, now), Unsummed(8, pid, nsent, now);
    FieldWidth(pid);
    FieldWidth(nsent);
    assert s[4..6] == u[4..6] && s[6..8] == u[6..8] && s[8..] == u[8..];
    forall i | 24 <= i < 64 ensures s[i] == 0xA5 {
      assert s[i] == s[8..][i - 8] == EchoData(now)[i - 8];
    }
  }

  /** Writing bytes into a buffer from position at on. */
  method Put(buf: array<byte>, at: nat, s: seq<byte>)
    requires at + |s| <= buf.Length
    modifies buf
    ensures buf[..] == old(buf[..at]) + s + old(buf[at + |s|..])
  {
    var i := 0;
    while i < |s|
      invariant 0 <= i <= |s|
      invariant buf[..at] == old(buf[..at]) && buf[at..at + i] == s[..i] && buf[at + i..] == old(buf[at + i..])
    {
      buf[at + i] := s[i];
      i := i + 1;
    }
    assert buf[..] == buf[..at] + buf[at..at + |s|] + buf[at + |s|..];
  }

  /** The part of probe that fills sendbuf and computes the checksum over it. */
  method FillProbe(sendbuf: array<byte>, pid: int, nsent: int, now: Time)
    requires sendbuf.Length == BUF_LEN
    modifies sendbuf
    ensures sendbuf[..ECHO_LEN] == EchoRequest(pid, nsent, now)
    ensures sendbuf[ECHO_LEN..] == old(sendbuf[ECHO_LEN..])
  {
    Put(sendbuf, 0, Unsummed(8, pid, nsent, now));
    assert sendbuf[..ECHO_LEN] == Unsummed(8, pid, nsent, now);
    var cksum := InCksum(LittleEndian, sendbuf, ECHO_LEN);
    assert Prefix(sendbuf[..], ECHO_LEN) == Unsummed(8, pid, nsent, now);
    sendbuf[2], sendbuf[3] := cksum % 256, cksum / 256;
  }

  // ---- Replies ----

  /** Ping_data, without the address text. */
  datatype PingData = PingData(ttl: byte, rtt: real, datalen: int, icmpseq: int)

  /** What process makes of a packet; it returns no value for an ICMP type other than echo reply. */
  datatype Verdict = Accepted(data: PingData) | Rejected | NoValue

  function Rtt(d: Time): real {
    d.sec as real * 1000.0 + d.usec as real / 1000.0
  }

  function SendTime(s: seq<byte>): Time
    requires |s| == 16
  {
    Time(DecodeSigned(s[..8]), DecodeSigned(s[8..]))
  }

  /** The send time that an echo reply in the buffer carries. */
  function CarriedTime(recvbuf: seq<byte>): Time
    requires |recvbuf| == 1500
  {
    var hlen1 := recvbuf[0] % 16 * 4;
    SendTime(recvbuf[hlen1 + 8..hlen1 + 24])
  }

  /** The receive buffer and the return value after recvmsg, which fails where there is no packet. */
  function Filled(recvbuf: seq<byte>, packet: Option<seq<byte>>): (s: seq<byte>)
    requires packet.Some? ==> |packet.value| <= |recvbuf|
    ensures |s| == |recvbuf|
  {
    if packet.Some? then packet.value + recvbuf[|packet.value|..] else recvbuf
  }

  function Length(packet: Option<seq<byte>>): int {
    if packet.Some? then |packet.value| else -1
  }

  /** process on the receive buffer; the length left for ICMP is an unsigned 32-bit difference. */
  function Inspect(recvbuf: seq<byte>, recvlen: int, pid: int, recvtime: Time): Verdict
    requires |recvbuf| == 1500
  {
    var hlen1 := recvbuf[0] % 16 * 4;
    var icmplen := (recvlen - hlen1) % 0x1_0000_0000;
    if recvbuf[9] != 1 then Rejected
    else if icmplen < 8 then Rejected
    else if recvbuf[hlen1] != 0 then NoValue
    else if Decode(recvbuf[hlen1 + 4..hlen1 + 6]) != pid then Rejected
    else if icmplen < 16 then Rejected
    else
      var rtt := Rtt(Minus(recvtime, CarriedTime(recvbuf)));
      Accepted(PingData(recvbuf[8], rtt, icmplen, Decode(recvbuf[hlen1 + 6..hlen1 + 8])))
  }

  /**
   * Exactly the echo replies with our identifier are accepted, of at least 16 bytes, or of a length
   * shorter than their own IP header, which wraps around; other ICMP types give no value.
   */
  lemma InspectExactly(recvbuf: seq<byte>, recvlen: int, pid: int, recvtime: Time)
    requires |recvbuf| == 1500 && -1 <= recvlen <= 1500
    ensures var n := recvbuf[0] % 16 * 4;
      var verdict, own := Inspect(recvbuf, recvlen, pid, recvtime), Decode(recvbuf[n + 4..n + 6]) == pid;
      && (recvbuf[9] != 1 ==> verdict == Rejected)
      && (n <= recvlen < n + 8 ==> verdict == Rejected)
      && (recvbuf[n] == 0 && !own ==> verdict == Rejected)
      && (verdict.Accepted? <==> recvbuf[9] == 1 && recvbuf[n] == 0 && own && (recvlen < n || recvlen >= n + 16))
      && (verdict.NoValue? <==> recvbuf[9] == 1 && recvbuf[n] != 0 && (recvlen < n || recvlen >= n + 8))
  {
    hide Decode, CarriedTime, Minus;
    LengthWraps(recvlen - recvbuf[0] % 16 * 4);
  }

  lemma LengthWraps(x: int)
    requires -0x8000_0000 <= x < 0x8000_0000
    ensures x % 0x1_0000_0000 == if x < 0 then x + 0x1_0000_0000 else x
  {
  }

  lemma RttIsDifference(a: Time, b: Time)
    ensures Rtt(Minus(a, b)) == (a.Micros() - b.Micros()) as real / 1000.0
  {
    MinusIsExact(a, b);
    var d := Minus(a, b);
    assert d.Micros() as real == d.sec as real * 1000000.0 + d.usec as real;
  }

  /** An IP header of its own stated length that announces ICMP. */
  predicate IcmpHeader(h: seq<byte>) {
    20 <= |h| <= 60 && |h| == h[0] % 16 * 4 && h[9] == 1
  }

  /** An echo reply: any checksum, the rest of the request carried back. */
  predicate EchoReply(r: seq<byte>, pid: int, nsent: int, now: Time) {
    |r| == 64 && r[0] == 0 && r[4..] == EchoRequest(pid, nsent, now)[4..]
  }

  lemma RequestFields(pid: int, nsent: int, now: Time)
    ensures var s := EchoRequest(pid, nsent, now);
      s[4..6] == Encode(pid, 2) && s[6..8] == Encode(nsent, 2) && s[8..24] == Encode(now.sec, 8) + Encode(now.usec, 8)
  {
    var s, u := EchoRequest(pid, nsent, now), Unsummed(8, pid, nsent, now);
    assert s[4..6] == u[4..6] && s[6..8] == u[6..8];
    assert s[8..24] == u[8..][..16] == EchoData(now)[..16];
  }

  /** The clock values that gettimeofday can store. */
  predicate Storable(t: Time) {
    -0x8000_0000_0000_0000 <= t.sec < 0x8000_0000_0000_0000 && t.Normalised()
  }

  lemma SendTimeRoundTrip(now: Time)
    requires Storable(now)
    ensures SendTime(Encode(now.sec, 8) + Encode(now.usec, 8)) == now
  {
    var s := Encode(now.sec, 8) + Encode(now.usec, 8);
    assert s[..8] == Encode(now.sec, 8) && s[8..] == Encode(now.usec, 8);
    assert Pow256(8) == 0x1_0000_0000_0000_0000;
    SignedRoundTrip(now.sec, 8);
    SignedRoundTrip(now.usec, 8);
  }

  /**
   * The reply to our own probe, behind any IP header and whatever the buffer held before: process
   * accepts it, with the sequence number sent and receive minus send time, iff the process id fits
   * the 16-bit identifier field. The time is not negative iff the clock did not step back.
   */
  lemma OwnReplyAcceptedExactly(
    recvbuf: seq<byte>, h: seq<byte>, r: seq<byte>, pid: int, nsent: int, sent: Time, recvtime: Time)
    requires |recvbuf| == 1500 && IcmpHeader(h) && EchoReply(r, pid, nsent, sent) && h + r <= recvbuf
    requires Storable(sent)
    ensures Inspect(recvbuf, |h + r|, pid, recvtime)
      == if 0 <= pid < 0x1_0000
         then Accepted(PingData(h[8], (recvtime.Micros() - sent.Micros()) as real / 1000.0, 64, nsent % 0x1_0000))
         else Rejected
    ensures (recvtime.Micros() - sent.Micros()) as real / 1000.0 >= 0.0 <==> sent.Micros() <= recvtime.Micros()
  {
    var n := |h|;
    hide Encode, Decode, DecodeSigned, EchoRequest, Minus;
    assert recvbuf[0] == h[0] && recvbuf[8] == h[8] && recvbuf[9] == h[9] && recvbuf[n] == r[0];
    FieldsInBuffer(recvbuf, h, r, pid, nsent, sent);
    FieldWidth(pid);
    FieldWidth(nsent);
    SendTimeRoundTrip(sent);
    RttIsDifference(recvtime, sent);
  }

  lemma FieldWidth(x: int)
    ensures Decode(Encode(x, 2)) == x % 0x1_0000
    ensures x % 0x1_0000 == x <==> 0 <= x < 0x1_0000
  {
    DecodeEncode(x, 2);
    assert Pow256(2) == 0x1_0000;
  }

  lemma FieldsInBuffer(recvbuf: seq<byte>, h: seq<byte>, r: seq<byte>, pid: int, nsent: int, sent: Time)
    requires |recvbuf| == 1500 && IcmpHeader(h) && EchoReply(r, pid, nsent, sent) && h + r <= recvbuf
    ensures var n := |h|;
      && recvbuf[n + 4..n + 6] == Encode(pid, 2)
      && recvbuf[n + 6..n + 8] == Encode(nsent, 2)
      && recvbuf[n + 8..n + 24] == Encode(sent.sec, 8) + Encode(sent.usec, 8)
  {
    var n, s := |h|, EchoRequest(pid, nsent, sent);
    RequestFields(pid, nsent, sent);
    assert forall i :: 0 <= i < 60 ==> recvbuf[n + 4 + i] == r[4..][i] == s[4..][i];
    assert recvbuf[n + 4..n + 6] == s[4..6];
    assert recvbuf[n + 6..n + 8] == s[6..8];
    assert recvbuf[n + 8..n + 24] == s[8..24];
  }
}
