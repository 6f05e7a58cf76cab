/** Bytes and fixed-width integers as they lie in the prober's buffers. */
module Bytes {

  type byte = x: int | 0 <= x < 256

  datatype Option<+T> = None | Some(value: T)

  function Pow256(n: nat): (p: int)
    ensures p > 0 && (n > 0 ==> p % 256 == 0)
  {
    if n == 0 then 1 else 256 * Pow256(n - 1)
  }

  /** The n low-order bytes of x in two's complement, least significant first. */
  function Encode(x: int, n: nat): (s: seq<byte>)
    ensures |s| == n
    decreases n
  {
    if n == 0 then [] else [x % 256] + Encode(x / 256, n - 1)
  }

  function Decode(s: seq<byte>): nat {
    if s == [] then 0 else s[0] + 256 * Decode(s[1..])
  }

  function DecodeSigned(s: seq<byte>): int {
    var u := Decode(s);
    if 2 * u >= Pow256(|s|) then u - Pow256(|s|) else u
  }

  lemma MultipleBounds(m: int, d: int)
    requires m > 0
    ensures d > 0 ==> m * d >= m
    ensures d < 0 ==> m * d <= -m
  {
  }

  lemma DivisionIsUnique(x: int, m: int, q: int, r: int)
    requires m > 0 && 0 <= r < m && x == m * q + r
    ensures x / m == q && x % m == r
  {
    var d := x / m - q;
    assert m * d == r - x % m;
    MultipleBounds(m, d);
  }

  lemma {:induction false} DecodeEncode(x: int, n: nat)
    ensures Decode(Encode(x, n)) == x % Pow256(n)
    decreases n
  {
    if n == 0 {
    } else {
      var p := Pow256(n - 1);
      var q := x / 256;
      DecodeEncode(q, n - 1);
      assert Encode(x, n)[1..] == Encode(q, n - 1);
      assert q == p * (q / p) + q % p;
      assert x == (256 * p) * (q / p) + (256 * (q % p) + x % 256) by {
        assert x == 256 * (p * (q / p) + q % p) + x % 256;
        assert 256 * (p * (q / p)) == (256 * p) * (q / p);
      }
      DivisionIsUnique(x, 256 * p, q / p, 256 * (q % p) + x % 256);
    }
  }

  /** A value that fits the field width is read back unchanged. */
  lemma SignedRoundTrip(x: int, n: nat)
    requires n > 0 && -Pow256(n) <= 2 * x < Pow256(n)
    ensures DecodeSigned(Encode(x, n)) == x
  {
    DecodeEncode(x, n);
    var p := Pow256(n);
    if x < 0 {
      DivisionIsUnique(x, p, -1, x + p);
    } else {
      DivisionIsUnique(x, p, 0, x);
    }
  }

  lemma Associate<T>(a: seq<T>, b: seq<T>, c: seq<T>)
    ensures a + (b + c) == (a + b) + c
  {
  }

  /** The bytes of every element, one after the other. */
  function Join<T>(bytes: T -> seq<byte>, xs: seq<T>): seq<byte> {
    if xs == [] then [] else bytes(xs[0]) + Join(bytes, xs[1..])
  }

  lemma {:induction false} JoinAppend<T>(bytes: T -> seq<byte>, a: seq<T>, b: seq<T>)
    ensures Join(bytes, a + b) == Join(bytes, a) + Join(bytes, b)
  {
    if a == [] {
      assert a + b == b;
    } else {
      JoinAppend(bytes, a[1..], b);
      assert (a + b)[1..] == a[1..] + b;
    }
  }
}
