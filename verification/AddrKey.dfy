/** The printed "address:port" keys under which pending UDP probes are found again. */
module AddrKey {
  import opened Bytes
  import opened Channel

  const DOT: byte := 46
  const COLON: byte := 58

  type port16 = x: int | 0 <= x < 0x1_0000

  /** An IPv4 address in network order, and a port in host order. */
  datatype Addr = Addr(a: byte, b: byte, c: byte, d: byte, port: port16)

  /** The decimal digits of n, as inet_ntop and %d print them. */
  function Digits(n: nat): (s: Text)
    ensures s != [] && forall i :: 0 <= i < |s| ==> 48 <= s[i] < 58
  {
    if n < 10 then [48 + n] else Digits(n / 10) + [48 + n % 10]
  }

  function Dotted(x: Addr): Text {
    Digits(x.a) + [DOT] + Digits(x.b) + [DOT] + Digits(x.c) + [DOT] + Digits(x.d)
  }

  function Key(x: Addr): Text {
    Dotted(x) + [COLON] + Digits(x.port)
  }

  // ---- The two ways the worker comes by a key ----

  /** The bytes of a sockaddr_in that get_readable_addr prints, the port in network order. */
  datatype SockAddr = SockAddr(ip: seq<byte>, port: seq<byte>) {
    predicate Valid() { |ip| == 4 && |port| == 2 }
  }

  function Ntohs(s: seq<byte>): port16
    requires |s| == 2
  {
    var high: int, low: int := s[0], s[1];
    256 * high + low
  }

  function AddrOf(ip: seq<byte>, port: seq<byte>): Addr
    requires |ip| == 4 && |port| == 2
  {
    Addr(ip[0], ip[1], ip[2], ip[3], Ntohs(port))
  }

  /** get_readable_addr: the key a probe is registered under. */
  function RegisteredKey(p: SockAddr): Text
    requires p.Valid()
  {
    Key(AddrOf(p.ip, p.port))
  }

  /**
   * worker_icmp_cb: the key rebuilt from the datagram quoted in a port-unreachable error; None
   * when the packet is too short or reports something else.
   */
  function QuotedKey(recvbuf: seq<byte>, num: int): Option<Text>
    requires |recvbuf| == 1500 && num <= 1500
  {
    var hlen1 := recvbuf[0] % 16 * 4;
    var icmplen := num - hlen1;
    if icmplen < 8 then None
    else if recvbuf[hlen1] != 3 then None
    else if icmplen < 8 + 20 then None
    else
      var hip := hlen1 + 8;
      var hlen2 := recvbuf[hip] % 16 * 4;
      if icmplen < 8 + hlen2 + 4 then None
      else if recvbuf[hip + 9] != 17 || recvbuf[hlen1 + 1] != 3 then None
      else Some(Key(AddrOf(recvbuf[hip + 16..hip + 20], recvbuf[hip + hlen2 + 2..hip + hlen2 + 4])))
  }

  // ---- Injectivity ----

  function Value(s: Text): int {
    if s == [] then 0
    else
      var last: int := s[|s| - 1];
      10 * Value(s[..|s| - 1]) + (last - 48)
  }

  lemma {:induction false} DigitsValue(n: nat)
    ensures Value(Digits(n)) == n
  {
    if n < 10 {
      assert Digits(n)[..0] == [];
    } else {
      DigitsValue(n / 10);
      assert Digits(n)[..|Digits(n)| - 1] == Digits(n / 10);
    }
  }

  lemma DigitsInjective(m: nat, n: nat)
    requires Digits(m) == Digits(n)
    ensures m == n
  {
    DigitsValue(m);
    DigitsValue(n);
  }

  /** A number ends where the separator is. */
  lemma SplitAtSeparator(m: nat, x: Text, n: nat, y: Text, sep: byte)
    requires sep == DOT || sep == COLON
    requires Digits(m) + [sep] + x == Digits(n) + [sep] + y
    ensures m == n && x == y
  {
    var p, q := Digits(m), Digits(n);
    hide Digits;
    SeparatorsAlign(p, x, q, y, sep);
    DigitsInjective(m, n);
  }

  lemma SeparatorsAlign(p: Text, x: Text, q: Text, y: Text, sep: byte)
    requires sep == DOT || sep == COLON
    requires forall i :: 0 <= i < |p| ==> p[i] != sep
    requires forall i :: 0 <= i < |q| ==> q[i] != sep
    requires p + [sep] + x == q + [sep] + y
    ensures p == q && x == y
  {
    var s := p + [sep] + x;
    assert s[|p|] == sep && s[|q|] == sep;
    assert forall i :: 0 <= i < |p| ==> s[i] == p[i];
    assert forall i :: 0 <= i < |q| ==> s[i] == q[i];
    assert |p| == |q|;
    assert p == s[..|p|] && q == s[..|q|];
    assert x == s[|p| + 1..] && y == s[|q| + 1..];
  }

  function Rest(x: Addr): Text {
    Digits(x.c) + [DOT] + (Digits(x.d) + [COLON] + Digits(x.port))
  }

  lemma KeyParts(x: Addr)
    ensures Key(x) == Digits(x.a) + [DOT] + (Digits(x.b) + [DOT] + Rest(x))
  {
    hide Digits;
  }

  /** Keys are equal exactly when address and port are. */
  lemma KeyInjective(x: Addr, y: Addr)
    ensures Key(x) == Key(y) <==> x == y
  {
    if Key(x) == Key(y) {
      KeyParts(x);
      KeyParts(y);
      hide Digits, Key;
      SplitAtSeparator(x.a, Digits(x.b) + [DOT] + Rest(x), y.a, Digits(y.b) + [DOT] + Rest(y), DOT);
      SplitAtSeparator(x.b, Rest(x), y.b, Rest(y), DOT);
      SplitAtSeparator(x.c, Digits(x.d) + [COLON] + Digits(x.port), y.c, Digits(y.d) + [COLON] + Digits(y.port), DOT);
      SplitAtSeparator(x.d, Digits(x.port), y.d, Digits(y.port), COLON);
      DigitsInjective(x.port, y.port);
    }
  }

  function Pow10(k: nat): nat {
    if k == 0 then 1 else 10 * Pow10(k - 1)
  }

  lemma {:induction false} DigitsLength(n: nat, k: nat)
    requires k > 0 && n < Pow10(k)
    ensures |Digits(n)| <= k
  {
    if n >= 10 {
      DigitsLength(n / 10, k - 1);
    }
  }

  /** With its terminating NUL every key fits the 23-byte buffer it is printed into. */
  lemma KeyFitsBuffer(x: Addr)
    ensures 9 <= |Key(x)| <= 21
  {
    assert Pow10(3) == 1000 && Pow10(5) == 100000;
    DigitsLength(x.a, 3);
    DigitsLength(x.b, 3);
    DigitsLength(x.c, 3);
    DigitsLength(x.d, 3);
    DigitsLength(x.port, 5);
    hide Digits;
  }

  // ---- A probe and the error that answers it ----

  /** A port-unreachable error with outer header h, quoting inner header q and the UDP ports u. */
  ghost predicate PortUnreachable(recvbuf: seq<byte>, num: int, h: seq<byte>, q: seq<byte>, u: seq<byte>) {
    && |recvbuf| == 1500 && num <= 1500
    && 20 <= |h| <= 60 && |h| == h[0] % 16 * 4
    && 20 <= |q| <= 60 && |q| == q[0] % 16 * 4 && q[9] == 17
    && |u| == 4 && num >= |h| + 8 + |q| + 4
    && h <= recvbuf
    && recvbuf[|h|] == 3 && recvbuf[|h| + 1] == 3
    && q <= recvbuf[|h| + 8..] && u <= recvbuf[|h| + 8 + |q|..]
  }

  /**
   * The key rebuilt from an error equals the key a probe was registered under exactly when the
   * quoted datagram was sent to the probe's address and port.
   */
  lemma ErrorFindsItsProbe(recvbuf: seq<byte>, num: int, h: seq<byte>, q: seq<byte>, u: seq<byte>, p: SockAddr)
    requires PortUnreachable(recvbuf, num, h, q, u) && p.Valid()
    ensures QuotedKey(recvbuf, num) == Some(RegisteredKey(p)) <==> q[16..20] == p.ip && u[2..4] == p.port
  {
    var hip := |h| + 8;
    assert recvbuf[0] == h[0];
    assert recvbuf[hip..][0] == q[0] && recvbuf[hip..][9] == q[9];
    assert recvbuf[hip + 16..hip + 20] == recvbuf[hip..][16..20] == q[16..20];
    assert recvbuf[hip + |q| + 2..hip + |q| + 4] == recvbuf[hip + |q|..][2..4] == u[2..4];
    hide Key, AddrOf;
    KeyInjective(AddrOf(q[16..20], u[2..4]), AddrOf(p.ip, p.port));
    SameAddress(q[16..20], u[2..4], p.ip, p.port);
  }

  /** Only a port-unreachable error about a UDP datagram, quoted as far as its ports, gives a key. */
  lemma OnlyPortErrorsCount(recvbuf: seq<byte>, num: int)
    requires |recvbuf| == 1500 && num <= 1500
    ensures var icmp := recvbuf[0] % 16 * 4;
      QuotedKey(recvbuf, num).Some? <==>
        && num >= icmp + 28 && recvbuf[icmp] == 3 && recvbuf[icmp + 1] == 3 && recvbuf[icmp + 17] == 17
        && num >= icmp + 8 + recvbuf[icmp + 8] % 16 * 4 + 4
  {
    hide Key;
  }

  /** The address 1.2.3.4 and port 80, sent as the bytes 0 and 80, as they are printed. */
  lemma KeyExample()
    ensures RegisteredKey(SockAddr([1, 2, 3, 4], [0, 80])) == [49, 46, 50, 46, 51, 46, 52, 58, 56, 48]
  {
    var x := Addr(1, 2, 3, 4, 80);
    assert AddrOf([1, 2, 3, 4], [0, 80]) == x;
    assert Digits(8) == [56] && Digits(80) == [56, 48];
    assert Dotted(x) == [49, 46, 50, 46, 51, 46, 52];
    hide Digits, Dotted;
    assert Key(x) == [49, 46, 50, 46, 51, 46, 52] + [COLON] + [56, 48];
  }

  lemma SameAddress(ip: seq<byte>, port: seq<byte>, ip': seq<byte>, port': seq<byte>)
    requires |ip| == 4 && |port| == 2 && |ip'| == 4 && |port'| == 2
    ensures AddrOf(ip, port) == AddrOf(ip', port') <==> ip == ip' && port == port'
  {
    if AddrOf(ip, port) == AddrOf(ip', port') {
      assert ip == ip';
      assert port == port';
    }
  }
}
