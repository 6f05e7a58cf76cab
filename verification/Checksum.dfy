/**
 * The Internet checksum of tool.cpp against RFC 1071.
 *
 * The code adds host-order 16-bit words into a 32-bit accumulator, folds the carries twice (the
 * second fold unmasked), and complements. The standard adds with an end-around carry.
 */
module Checksum {
  import opened Bytes

  type word = x: int | 0 <= x < 0x1_0000

  datatype Order = LittleEndian | BigEndian

  /** The 16-bit word a host of order o loads from two adjacent bytes. */
  function Load(o: Order, first: byte, second: byte): word {
    match o
    case LittleEndian => first + 256 * second
    case BigEndian => 256 * first + second
  }

  /** The words of a buffer; an odd last byte is padded with a zero byte after it. */
  function Words(o: Order, data: seq<byte>): seq<word> {
    if |data| == 0 then []
    else if |data| == 1 then [Load(o, data[0], 0)]
    else [Load(o, data[0], data[1])] + Words(o, data[2..])
  }

  function Sum(ws: seq<word>): nat {
    if ws == [] then 0 else ws[0] + Sum(ws[1..])
  }

  // ---- RFC 1071, section 1: the standard's own definition ----

  /** One's-complement addition: a carry out of bit 15 is added back in. */
  function OnesAdd(a: word, b: word): word {
    if a + b < 0x1_0000 then a + b else a + b - 0xFFFF
  }

  function OnesSum(ws: seq<word>): word {
    if ws == [] then 0 else OnesAdd(ws[0], OnesSum(ws[1..]))
  }

  function Rfc1071(ws: seq<word>): word {
    0xFFFF - OnesSum(ws)
  }

  // ---- What the code computes ----

  /** The folds and complement of the accumulator: line 30, line 31, line 32. */
  function FoldAndComplement(sum: nat): word
    requires sum < 0x1_0000_0000
  {
    var once := sum / 0x1_0000 + sum % 0x1_0000;
    var twice := once + once / 0x1_0000;
    0xFFFF - twice % 0x1_0000
  }

  /** The accumulator wraps at 32 bits. */
  function Computed(ws: seq<word>): word {
    FoldAndComplement(Sum(ws) % 0x1_0000_0000)
  }

  function Cksum(o: Order, data: seq<byte>): word {
    Computed(Words(o, data))
  }

  /** The buffer a length argument selects; a negative C int selects nothing. */
  function Prefix(data: seq<byte>, len: int): seq<byte>
    requires len <= |data|
  {
    if len < 0 then [] else data[..len]
  }

  method InCksum(o: Order, addr: array<byte>, len: int) returns (answer: word)
    requires len <= addr.Length && len < 0x8000_0000
    ensures answer == Cksum(o, Prefix(addr[..], len))
    ensures answer == Rfc1071(Words(o, Prefix(addr[..], len)))
      <==> Sum(Words(o, Prefix(addr[..], len))) < 0x1_0000_0000
  {
    ghost var data := Prefix(addr[..], len);
    var nleft := len;
    var sum: int := 0;
    var w := 0;
    assert data[0..] == data;
    assert forall i :: 0 <= i < |data| ==> data[i] == addr[i];
    while nleft > 1
      invariant if len < 0 then nleft == len && w == 0 else 0 <= nleft && w + nleft == len
      invariant 0 <= w <= |data| && 0 <= sum < 0x1_0000_0000
      invariant Accumulated(o, data, w, sum)
    {
      AccumulateWord(o, data, w, sum);
      var loaded := Load(o, addr[w], addr[w + 1]);
      sum := (sum + loaded) % 0x1_0000_0000;
      w := w + 2;
      nleft := nleft - 2;
    }
    answer := 0;
    if nleft == 1 {
      AccumulateTail(o, data, w, sum);
      answer := Load(o, addr[w], 0);
      sum := (sum + answer) % 0x1_0000_0000;
      w := w + 1;
    }
    answer := FoldAndComplement(sum);
    AllAccumulated(o, data, sum);
  }

  /** The words from byte w on, added to sum, still give the whole sum modulo 2^32. */
  ghost predicate Accumulated(o: Order, data: seq<byte>, w: nat, sum: nat)
    requires w <= |data|
  {
    (sum + Sum(Words(o, data[w..]))) % 0x1_0000_0000 == Sum(Words(o, data)) % 0x1_0000_0000
  }

  lemma AccumulateWord(o: Order, data: seq<byte>, w: nat, sum: nat)
    requires w + 2 <= |data| && Accumulated(o, data, w, sum)
    ensures Accumulated(o, data, w + 2, (sum + Load(o, data[w], data[w + 1])) % 0x1_0000_0000)
  {
    assert data[w..][2..] == data[w + 2..];
    AddWraps(sum + Load(o, data[w], data[w + 1]), Sum(Words(o, data[w + 2..])));
  }

  lemma AccumulateTail(o: Order, data: seq<byte>, w: nat, sum: nat)
    requires w + 1 == |data| && Accumulated(o, data, w, sum)
    ensures Accumulated(o, data, w + 1, (sum + Load(o, data[w], 0)) % 0x1_0000_0000)
  {
    assert Sum([Load(o, data[w], 0)]) == Load(o, data[w], 0);
    AddWraps(sum + Load(o, data[w], 0), 0);
  }

  lemma AllAccumulated(o: Order, data: seq<byte>, sum: nat)
    requires sum < 0x1_0000_0000 && |data| < 0x8000_0000 && Accumulated(o, data, |data|, sum)
    ensures FoldAndComplement(sum) == Cksum(o, data)
    ensures Cksum(o, data) == Rfc1071(Words(o, data)) <==> Sum(Words(o, data)) < 0x1_0000_0000
  {
    hide FoldAndComplement, OnesSum;
    WordCount(o, data);
    CorrectExactlyBelowWrap(Words(o, data));
    assert Words(o, data[|data|..]) == [];
  }

  lemma AddWraps(a: nat, b: nat)
    ensures (a % 0x1_0000_0000 + b) % 0x1_0000_0000 == (a + b) % 0x1_0000_0000
  {
  }

  lemma {:induction false} WordCount(o: Order, data: seq<byte>)
    ensures |Words(o, data)| == (|data| + 1) / 2
  {
    if |data| >= 2 {
      WordCount(o, data[2..]);
    }
  }

  /** The loads are those of the two byte orders, and an odd buffer sums as if a zero byte followed. */
  lemma {:induction false} OddTailPadded(o: Order, data: seq<byte>)
    ensures |data| % 2 == 1 ==> Words(o, data) == Words(o, data + [0])
    ensures |data| >= 2 ==> Words(o, data)[0] == Decode(if o.BigEndian? then [data[1], data[0]] else data[..2])
  {
    if |data| >= 2 {
      OddTailPadded(o, data[2..]);
      assert (data + [0])[2..] == data[2..] + [0];
      assert Decode(data[..2][1..]) == data[1] && Decode([data[1], data[0]][1..]) == data[0];
    } else if |data| == 1 {
      assert (data + [0])[2..] == [];
    }
  }

  // ---- Residues modulo 2^16 - 1 ----

  /** The 16-bit representative of n: zero only for zero, otherwise in 1..65535. */
  function Residue(n: nat): word {
    if n == 0 then 0 else (n - 1) % 0xFFFF + 1
  }

  lemma ResidueQuotient(n: nat) returns (q: nat)
    ensures n == 0xFFFF * q + Residue(n)
    ensures n > 0 ==> Residue(n) > 0
  {
    q := if n == 0 then 0 else (n - 1) / 0xFFFF;
  }

  lemma ResidueIsUnique(n: nat, q: int, r: word)
    requires n == 0xFFFF * q + r && (r == 0 <==> n == 0)
    ensures r == Residue(n)
  {
    if n > 0 {
      DivisionIsUnique(n - 1, 0xFFFF, q, r - 1);
    }
  }

  lemma {:induction false} OnesSumIsResidue(ws: seq<word>)
    ensures OnesSum(ws) == Residue(Sum(ws))
  {
    if ws != [] {
      OnesSumIsResidue(ws[1..]);
      var q := ResidueQuotient(Sum(ws[1..]));
      var r := Residue(Sum(ws[1..]));
      var first: int := ws[0];
      ResidueIsUnique(first + Sum(ws[1..]), if first + r < 0x1_0000 then q else q + 1, OnesAdd(ws[0], r));
    }
  }

  /** Two folds are enough, although the second one is not masked. */
  lemma TwoFoldsSuffice(sum: nat)
    requires sum < 0x1_0000_0000
    ensures FoldAndComplement(sum) == 0xFFFF - Residue(sum)
  {
    var high := sum / 0x1_0000;
    var once := high + sum % 0x1_0000;
    if once < 0x1_0000 {
      ResidueIsUnique(sum, high, once);
    } else {
      ResidueIsUnique(sum, high + 1, once - 0xFFFF);
    }
  }

  lemma {:induction false} SumBound(ws: seq<word>)
    ensures Sum(ws) <= 0xFFFF * |ws|
  {
    if ws != [] {
      SumBound(ws[1..]);
    }
  }

  lemma WrappedResidue(s: nat)
    requires s < 0x1_0000_0000 * 0xFFFF
    ensures Residue(s % 0x1_0000_0000) == Residue(s) <==> s < 0x1_0000_0000
  {
    var wraps, kept := s / 0x1_0000_0000, s % 0x1_0000_0000;
    assert s == 0x1_0000_0000 * wraps + kept;
    var q := ResidueQuotient(s);
    var q' := ResidueQuotient(kept);
    if wraps > 0 {
      NotAMultiple(q - q' - 0x1_0001 * wraps, wraps);
      assert s - kept == 0xFFFF * (0x1_0001 * wraps) + wraps;
    }
  }

  lemma NotAMultiple(k: int, w: int)
    requires 0 < w < 0xFFFF
    ensures 0xFFFF * k != w
  {
  }

  /** On every buffer a C int can measure, the code meets the standard iff the plain sum fits. */
  lemma CorrectExactlyBelowWrap(ws: seq<word>)
    requires |ws| <= 0x4000_0000
    ensures Computed(ws) == Rfc1071(ws) <==> Sum(ws) < 0x1_0000_0000
  {
    OnesSumIsResidue(ws);
    SumBound(ws);
    TwoFoldsSuffice(Sum(ws) % 0x1_0000_0000);
    WrappedResidue(Sum(ws));
  }

  /** 65537 words can never overflow the accumulator ... */
  lemma CorrectUpTo65537Words(ws: seq<word>)
    requires |ws| <= 65537
    ensures Sum(ws) < 0x1_0000_0000
    ensures Computed(ws) == Rfc1071(ws) == 0xFFFF - Residue(Sum(ws))
  {
    SumBound(ws);
    CorrectExactlyBelowWrap(ws);
    OnesSumIsResidue(ws);
  }

  /** ... and the bound is tight: with 65538 words of all ones the code is wrong. */
  lemma WrongAt65538Words(ws: seq<word>)
    requires |ws| == 65538 && forall i :: 0 <= i < |ws| ==> ws[i] == 0xFFFF
    ensures Computed(ws) == 1 && Rfc1071(ws) == 0
  {
    SumOfOnes(ws);
    OnesSumIsResidue(ws);
  }

  lemma {:induction false} SumOfOnes(ws: seq<word>)
    requires forall i :: 0 <= i < |ws| ==> ws[i] == 0xFFFF
    ensures Sum(ws) == 0xFFFF * |ws|
  {
    if ws != [] {
      SumOfOnes(ws[1..]);
    }
  }

  // ---- RFC 1071, section 2(B): byte-order independence ----

  function Swap(w: word): word {
    256 * (w % 256) + w / 256
  }

  lemma {:induction false} SumsAgreeSwapped(data: seq<byte>) returns (q: int)
    ensures Sum(Words(BigEndian, data)) == 256 * Sum(Words(LittleEndian, data)) - 0xFFFF * q
    ensures Sum(Words(BigEndian, data)) == 0 <==> Sum(Words(LittleEndian, data)) == 0
  {
    if |data| == 0 {
      q := 0;
    } else if |data| == 1 {
      var first: int := data[0];
      assert Sum([Load(BigEndian, data[0], 0)]) == 256 * first;
      assert Sum([Load(LittleEndian, data[0], 0)]) == first;
      q := 0;
    } else {
      q := SumsAgreeSwapped(data[2..]);
      var first: int, second: int := data[0], data[1];
      assert Sum(Words(BigEndian, data)) == 256 * first + second + Sum(Words(BigEndian, data[2..]));
      assert Sum(Words(LittleEndian, data)) == first + 256 * second + Sum(Words(LittleEndian, data[2..]));
      q := q + second;
    }
  }

  lemma SwapMultipliesResidue(n: nat, m: nat, q: int)
    requires m == 256 * n - 0xFFFF * q
    requires m == 0 <==> n == 0
    ensures Residue(m) == Swap(Residue(n))
  {
    var k := ResidueQuotient(n);
    var r := Residue(n);
    assert 256 * r == Swap(r) + 0xFFFF * (r / 256);
    ResidueIsUnique(m, 256 * k + r / 256 - q, Swap(r));
  }

  lemma SwapComplement(big: nat, little: nat, q: int)
    requires big == 256 * little - 0xFFFF * q && (big == 0 <==> little == 0)
    ensures 0xFFFF - Residue(big) == Swap(0xFFFF - Residue(little))
  {
    SwapMultipliesResidue(little, big, q);
    var r := Residue(little);
    DivisionIsUnique(0xFFFF - r, 256, 255 - r / 256, 255 - r % 256);
  }

  /** The two byte orders compute byte-swapped values ... */
  lemma ByteOrderIndependent(data: seq<byte>)
    requires |data| <= 131074
    ensures Cksum(BigEndian, data) == Swap(Cksum(LittleEndian, data))
  {
    var big, little := Words(BigEndian, data), Words(LittleEndian, data);
    WordCount(BigEndian, data);
    WordCount(LittleEndian, data);
    CorrectUpTo65537Words(big);
    CorrectUpTo65537Words(little);
    var q := SumsAgreeSwapped(data);
    SwapComplement(Sum(big), Sum(little), q);
  }

  // ---- Checksum fields in packets ----

  /** Storing word v as the k-th aligned word of a packet. */
  function Store(o: Order, data: seq<byte>, k: nat, v: word): (r: seq<byte>)
    requires 2 * k + 1 < |data|
    ensures |r| == |data|
  {
    match o
    case LittleEndian => data[2 * k := v % 256][2 * k + 1 := v / 256]
    case BigEndian => data[2 * k := v / 256][2 * k + 1 := v % 256]
  }

  lemma SwapExchangesBytes(w: word)
    ensures Swap(w) / 256 == w % 256 && Swap(w) % 256 == w / 256
  {
  }

  /** ... hence they leave the same bytes in the packet. */
  lemma SameBytesOnTheWire(data: seq<byte>, k: nat)
    requires |data| <= 131074 && 2 * k + 1 < |data|
    ensures Store(BigEndian, data, k, Cksum(BigEndian, data))
         == Store(LittleEndian, data, k, Cksum(LittleEndian, data))
  {
    ByteOrderIndependent(data);
    SwapExchangesBytes(Cksum(LittleEndian, data));
  }

  lemma {:induction false} WordsOfStore(o: Order, data: seq<byte>, k: nat, v: word)
    requires 2 * k + 1 < |data|
    ensures k < |Words(o, data)|
    ensures Words(o, Store(o, data, k, v)) == Words(o, data)[k := v]
  {
    WordCount(o, data);
    var stored := Store(o, data, k, v);
    if k == 0 {
      assert stored[2..] == data[2..];
    } else {
      WordsOfStore(o, data[2..], k - 1, v);
      assert stored[2..] == Store(o, data[2..], k - 1, v);
    }
  }

  lemma {:induction false} SumOfUpdate(ws: seq<word>, k: nat, v: word)
    requires k < |ws|
    ensures Sum(ws[k := v]) == Sum(ws) - ws[k] + v
    ensures Sum(ws) >= ws[k]
  {
    if k > 0 {
      SumOfUpdate(ws[1..], k - 1, v);
      assert ws[k := v][1..] == ws[1..][k - 1 := v];
    } else {
      assert ws[k := v][1..] == ws[1..];
    }
  }

  lemma CheckedSum(s: nat, c: word)
    requires s < 0x1_0000_0000 && c == 0xFFFF - Residue(s)
    ensures s + c < 0x1_0000_0000
    ensures FoldAndComplement(s + c) == 0
  {
    var q := ResidueQuotient(s);
    ResidueIsUnique(s + c, q, 0xFFFF);
    TwoFoldsSuffice(s + c);
  }

  lemma SmallRemainder(a: nat)
    requires a < 0x1_0000_0000
    ensures a % 0x1_0000_0000 == a
  {
  }

  lemma FilledWordsVerify(ws: seq<word>, k: nat)
    requires k < |ws| && ws[k] == 0
    ensures Computed(ws[k := Computed(ws)]) == 0
  {
    var s := Sum(ws) % 0x1_0000_0000;
    TwoFoldsSuffice(s);
    var c: word := 0xFFFF - Residue(s);
    SumOfUpdate(ws, k, c);
    CheckedSum(s, c);
    AddWraps(Sum(ws), c);
    hide Sum, FoldAndComplement, Residue;
    SmallRemainder(s + c);
    assert Sum(ws[k := c]) == Sum(ws) + c;
  }

  /**
   * Any packet verifies once its zero checksum field is filled in. There is no length bound: even
   * where the accumulator wraps, adding the checksum back lands on a multiple of 65535.
   */
  lemma StoredChecksumVerifies(o: Order, data: seq<byte>, k: nat)
    requires 2 * k + 1 < |data| && data[2 * k] == 0 && data[2 * k + 1] == 0
    ensures Cksum(o, Store(o, data, k, Cksum(o, data))) == 0
  {
    WordsOfStore(o, data, k, 0);
    assert Store(o, data, k, 0) == data;
    WordsOfStore(o, data, k, Cksum(o, data));
    FilledWordsVerify(Words(o, data), k);
  }

  lemma ChangedSum(before: nat, u: word, v: word)
    requires before >= u && before > 0 && Residue(before) == 0xFFFF
    ensures Residue(before - u + v) == 0xFFFF
      <==> v == u || (u == 0 && v == 0xFFFF) || (u == 0xFFFF && v == 0 && before > 0xFFFF)
  {
    var q := ResidueQuotient(before);
    var after := before - u + v;
    var q' := ResidueQuotient(after);
    if Residue(after) == 0xFFFF {
      var step := q' as int - q as int;
      assert v - u == 0xFFFF * step;
    } else if u == 0 && v == 0xFFFF {
      ResidueIsUnique(after, q + 1, 0xFFFF);
    } else if u == 0xFFFF && v == 0 && before > 0xFFFF {
      ResidueIsUnique(after, q - 1, 0xFFFF);
    }
  }

  /**
   * Overwriting one word of a packet that verifies goes undetected only when the word is
   * unchanged, when zero becomes all ones, or when all ones becomes zero and another word is set.
   */
  lemma OneWordChangeDetected(ws: seq<word>, k: nat, v: word)
    requires k < |ws| <= 65537 && Computed(ws) == 0
    ensures Computed(ws[k := v]) == 0
      <==> v == ws[k]
           || (ws[k] == 0 && v == 0xFFFF)
           || (ws[k] == 0xFFFF && v == 0 && exists j :: 0 <= j < |ws| && j != k && ws[j] != 0)
  {
    CorrectUpTo65537Words(ws);
    CorrectUpTo65537Words(ws[k := v]);
    SumOfUpdate(ws, k, v);
    SumOfUpdate(ws, k, 0);
    ChangedSum(Sum(ws), ws[k], v);
    SumIsZero(ws[k := 0]);
    assert forall j :: 0 <= j < |ws| && j != k ==> ws[k := 0][j] == ws[j];
  }

  lemma {:induction false} SumIsZero(ws: seq<word>)
    ensures Sum(ws) == 0 <==> forall j :: 0 <= j < |ws| ==> ws[j] == 0
  {
    if ws != [] {
      SumIsZero(ws[1..]);
      assert forall j :: 1 <= j < |ws| ==> ws[j] == ws[1..][j - 1];
      assert forall j :: 0 <= j < |ws| - 1 ==> ws[1..][j] == ws[j + 1];
    }
  }
}
