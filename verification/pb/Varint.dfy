/**
 Base 128 varints: what a byte string means, the reader that loops, the two unrolled readers, the
 dispatch between them, the unrolled writers, and the mappings of signed numbers.  Words are numbers
 with their wrap-around written out; an "or" of words without a common bit is their sum.
 */
module Varint {
  import opened Bytes
  import opened Options
  import Arith

  const MAX_VARINT := 10

  // ------------------------------------------------------------------------------------- meaning

  function Pow128(k: nat): nat {
    if k == 0 then 1 else 128 * Pow128(k - 1)
  }

  lemma PowersOf128()
    ensures Pow128(3) == 0x20_0000 && Pow128(4) == 0x1000_0000 && Pow128(5) == 8 * TWO32
    ensures Pow128(8) == 0x100_0000_0000_0000 && Pow128(9) == 0x8000_0000_0000_0000 && Pow128(10) == 64 * TWO64
  {
  }

  /** The number in the low seven bits of the first k bytes, least significant first. */
  function Value(s: seq<Byte>, k: nat): nat
    requires k <= |s|
  {
    if k == 0 then 0 else Value(s, k - 1) + Pow128(k - 1) * (s[k - 1] % 128)
  }

  /** The number of leading bytes that say "more follow". */
  function Leading(s: seq<Byte>): (k: nat)
    ensures k <= |s|
  {
    if s == [] || s[0] < 128 then 0 else 1 + Leading(s[1..])
  }

  /** How many bytes a varint takes, and its number. */
  datatype Number = Number(length: nat, value: nat)

  /** The base 128 number at the front of s, least significant group first, of any length. */
  function Unlimited(s: seq<Byte>): (r: Option<Number>)
    ensures r.Some? ==> 0 < r.value.length <= |s|
  {
    if s == [] then None
    else if s[0] < 128 then Some(Number(1, s[0]))
    else
      match Unlimited(s[1..])
      case None => None
      case Some(d) => Some(Number(d.length + 1, s[0] - 128 + 128 * d.value))
  }

  /** The varint at the front of s: at most ten bytes, of which 64 bits count. */
  function Decode(s: seq<Byte>): (r: Option<Number>)
    ensures r.Some? ==> 0 < r.value.length <= |s|
  {
    match Unlimited(s)
    case None => None
    case Some(d) => if d.length <= MAX_VARINT then Some(Number(d.length, d.value % TWO64)) else None
  }

  function Encode(n: nat): (s: seq<Byte>)
    ensures |s| > 0
  {
    if n < 128 then [n] else [n % 128 + 128] + Encode(n / 128)
  }

  // ------------------------------------------------------------------------------ facts about it

  predicate High(s: seq<Byte>, k: nat) {
    k <= |s| && forall j | 0 <= j < k :: s[j] >= 128
  }

  /** The recursive form and the sum over the bytes are the same number. */
  lemma {:induction false} UnlimitedIs(s: seq<Byte>, k: nat)
    requires High(s, k)
    ensures k < |s| && s[k] < 128 ==> Unlimited(s) == Some(Number(k + 1, Value(s, k + 1)))
    ensures Unlimited(s).Some? ==> Unlimited(s).value.length > k
    ensures k == |s| ==> Unlimited(s) == None
  {
    if k > 0 {
      UnlimitedIs(s[1..], k - 1);
      assert s == [s[0]] + s[1..];
      if k < |s| {
        ValueOfCons(s[0], s[1..], k);
      }
    } else if s != [] {
      assert Value(s, 0) == 0 && Pow128(0) == 1;
    }
  }

  lemma DecodeIs(s: seq<Byte>, k: nat)
    requires High(s, k)
    ensures k < |s| && s[k] < 128 && k < MAX_VARINT ==> Decode(s) == Some(Number(k + 1, Value(s, k + 1) % TWO64))
    ensures k >= MAX_VARINT || k == |s| ==> Decode(s) == None
  {
    UnlimitedIs(s, k);
  }

  lemma {:induction false} LeadingIs(s: seq<Byte>, k: nat)
    requires High(s, k)
    ensures Leading(s) >= k
    ensures k < |s| && s[k] < 128 ==> Leading(s) == k
    ensures k == |s| ==> Leading(s) == k
  {
    if k > 0 {
      LeadingIs(s[1..], k - 1);
    }
  }

  lemma {:induction false} LeadingAreHigh(s: seq<Byte>)
    ensures High(s, Leading(s)) && (Leading(s) < |s| ==> s[Leading(s)] < 128)
  {
    if s != [] && s[0] >= 128 {
      LeadingAreHigh(s[1..]);
    }
  }

  lemma {:induction false} ValueBound(s: seq<Byte>, k: nat)
    requires k <= |s|
    ensures Value(s, k) < Pow128(k)
  {
    if k > 0 {
      ValueBound(s, k - 1);
      var x := s[k - 1] % 128;
      assert Pow128(k - 1) * x <= Pow128(k - 1) * 127 by {
        MulLe(Pow128(k - 1), x, 127);
      }
    }
  }

  lemma MulLe(a: nat, x: nat, y: nat)
    requires x <= y
    ensures a * x <= a * y
  {
  }

  lemma {:induction false} ValueOfCons(b: Byte, s: seq<Byte>, k: nat)
    requires k <= |s|
    ensures Value([b] + s, k + 1) == b % 128 + 128 * Value(s, k)
  {
    if k > 0 {
      ValueOfCons(b, s, k - 1);
      assert ([b] + s)[k] == s[k - 1];
      assert Pow128(k) * (s[k - 1] % 128) == 128 * (Pow128(k - 1) * (s[k - 1] % 128));
    } else {
      assert Value([b] + s, 0) == 0 && Pow128(0) == 1;
    }
  }

  lemma {:induction false} ValueOfPrefix(s: seq<Byte>, t: seq<Byte>, k: nat)
    requires k <= |s|
    ensures Value(s + t, k) == Value(s, k)
  {
    if k > 0 {
      ValueOfPrefix(s, t, k - 1);
    }
  }

  /** The writer's form inverts the reader's, before any suffix. */
  lemma {:induction false} EncodeInverts(n: nat, suffix: seq<Byte>)
    ensures Unlimited(Encode(n) + suffix) == Some(Number(|Encode(n)|, n))
  {
    if n >= 128 {
      EncodeInverts(n / 128, suffix);
      assert (Encode(n) + suffix)[1..] == Encode(n / 128) + suffix;
    }
  }

  lemma {:induction false} EncodeLength(n: nat, k: nat)
    requires k > 0 && n < Pow128(k)
    ensures |Encode(n)| <= k
  {
    if n >= 128 {
      EncodeLength(n / 128, k - 1);
    }
  }

  /** Every 64-bit number survives being written and read, whatever follows it. */
  lemma DecodeEncode(n: nat, suffix: seq<Byte>)
    requires n < TWO64
    ensures Decode(Encode(n) + suffix) == Some(Number(|Encode(n)|, n))
    ensures |Encode(n)| <= MAX_VARINT && (n < TWO32 ==> |Encode(n)| <= 5)
  {
    EncodeInverts(n, suffix);
    PowersOf128();
    EncodeLength(n, 10);
    if n < TWO32 {
      EncodeLength(n, 5);
    }
  }

  lemma {:induction false} UnlimitedKept(s: seq<Byte>, suffix: seq<Byte>)
    requires Unlimited(s).Some?
    ensures Unlimited(s + suffix) == Unlimited(s)
  {
    if s[0] >= 128 {
      UnlimitedKept(s[1..], suffix);
      assert (s + suffix)[1..] == s[1..] + suffix;
    }
  }

  lemma {:induction false} UnlimitedPrefix(s: seq<Byte>)
    requires Unlimited(s).Some?
    ensures Unlimited(s[..Unlimited(s).value.length]) == Unlimited(s)
  {
    if s[0] >= 128 {
      UnlimitedPrefix(s[1..]);
      var n := Unlimited(s).value.length;
      assert s[..n][1..] == s[1..][..n - 1];
    }
  }

  /** What follows a varint does not matter to it. */
  lemma DecodeKept(s: seq<Byte>, suffix: seq<Byte>)
    requires Decode(s).Some?
    ensures Decode(s + suffix) == Decode(s) == Decode(s[..Decode(s).value.length])
  {
    UnlimitedKept(s, suffix);
    UnlimitedPrefix(s);
  }

  // --------------------------------------------------------------------------------- the readers

  /** The first j bytes were read, the last of them perhaps with its high bit still in n. */
  ghost predicate Partial(s: seq<Byte>, j: nat, n: int) {
    && 0 < j <= |s| && High(s, j - 1)
    && n == Value(s, j - 1) + Pow128(j - 1) * s[j - 1]
  }

  /** So many bytes of the second word were read, and all in front of the last one have more behind them. */
  ghost predicate SecondWordAt(s: seq<Byte>, j: nat, n: int) {
    0 < j && 4 + j <= |s| && High(s, 3 + j) && Partial(s[4..], j, n)
  }

  /** What the reader has behind the second word: the number ended in it, after n bytes, or not yet. */
  ghost predicate SecondOk(s: seq<Byte>, n1: int, done: bool, n: nat, n2: int) {
    && 4 < n <= |s|
    && if done then Words(s, n, n1, n2, 0) && High(s, n - 1) && s[n - 1] < 128
       else High(s, 8) && n2 == Value(s[4..], 4)
  }

  lemma FirstByte(s: seq<Byte>)
    requires s != []
    ensures Partial(s, 1, s[0])
  {
    assert Value(s, 0) == 0 && Pow128(0) == 1;
  }

  lemma SecondBegins(s: seq<Byte>)
    requires High(s, 4) && |s| > 4
    ensures SecondWordAt(s, 1, s[4])
  {
    FirstByte(s[4..]);
  }

  /** One more byte: the high bit of the last one is taken out. */
  lemma ReadOneMore(s: seq<Byte>, j: nat, n: int)
    requires Partial(s, j, n) && s[j - 1] >= 128 && j < |s|
    ensures n - 128 * Pow128(j - 1) == Value(s, j) < Pow128(j)
    ensures Partial(s, j + 1, n - 128 * Pow128(j - 1) + Pow128(j) * s[j])
  {
    var b := s[j - 1];
    assert Pow128(j - 1) * b == Pow128(j - 1) * (b % 128) + 128 * Pow128(j - 1) by {
      assert b == b % 128 + 128;
    }
    ValueBound(s, j);
  }

  /** A byte without the high bit ends the number. */
  lemma ReadLast(s: seq<Byte>, j: nat, n: int)
    requires Partial(s, j, n) && s[j - 1] < 128
    ensures n == Value(s, j) < Pow128(j)
  {
    assert s[j - 1] % 128 == s[j - 1];
    ValueBound(s, j);
  }

  /** pb_Slice: the bytes up to end, and the cursor p. */
  class Slice {
    const data: seq<Byte>
    var p: nat

    constructor (data: seq<Byte>)
      ensures this.data == data && p == 0
    {
      this.data, p := data, 0;
    }

    predicate Valid()
      reads this
    {
      p <= |data|
    }

    /** What is still to be read. */
    function Rest(): seq<Byte>
      reads this
      requires Valid()
    {
      data[p..]
    }

    /** pb_readvarint_slow. */
    method ReadVarintSlow() returns (ret: nat, v: nat)
      requires Valid()
      modifies this
      ensures Valid()
      ensures match Decode(old(Rest()))
              case None => ret == 0 && p == old(p)
              case Some(d) => ret == d.length && p == old(p) + ret && v == d.value
    {
      var start := p;
      ghost var s := Rest();
      var n := 0;
      var i := 0;
      var shift := 1;
      while p < |data| && i < MAX_VARINT
        invariant p == start + i <= |data| && i <= MAX_VARINT && shift == Pow128(i) && High(s, i)
        invariant n == Value(s, i) % TWO64 && (i < MAX_VARINT ==> n == Value(s, i))
        decreases MAX_VARINT - i
      {
        var b := data[p];
        p := p + 1;
        assert b == s[i];
        SlowStep(s, i, shift);
        n := n + (shift * (b % 128)) % TWO64;
        i := i + 1;
        shift := shift * 128;
        if b < 128 {
          DecodeIs(s, i - 1);
          return i, n;
        }
      }
      p := start;
      DecodeIs(s, i);
      return 0, 0;
    }

    /** Its last five tests: the bytes that the 32-bit number does not need. */
    method AfterFive(n: nat) returns (ret: nat)
      requires Valid() && Guarded(Rest()) && High(Rest(), 5) && n == Value(Rest(), 5) % TWO32
      modifies this
      ensures Valid()
      ensures if Decode(old(Rest())).None? then ret == 0 && p == old(p)
              else Gives32(old(Rest()), ret, n) && ret > 0 && p == old(p) + ret
    {
      ghost var s := Rest();
      var o := p;
      var q := p + 5;
      label Decoded: {
        InReach(s, 5);
        LaterByte(s, 5, n);
        q := q + 1;
        if data[q - 1] < 128 { End32(s, 5, n); break Decoded; }
        InReach(s, 6);
        LaterByte(s, 6, n);
        q := q + 1;
        if data[q - 1] < 128 { End32(s, 6, n); break Decoded; }
        InReach(s, 7);
        LaterByte(s, 7, n);
        q := q + 1;
        if data[q - 1] < 128 { End32(s, 7, n); break Decoded; }
        InReach(s, 8);
        LaterByte(s, 8, n);
        q := q + 1;
        if data[q - 1] < 128 { End32(s, 8, n); break Decoded; }
        InReach(s, 9);
        LaterByte(s, 9, n);
        q := q + 1;
        if data[q - 1] < 128 { End32(s, 9, n); break Decoded; }
        DecodeIs(s, 10);
        return 0;
      }
      p := q;
      return q - o;
    }

    /** pb_readvarint32_fallback: ten bytes at least, or the last byte ends a number; the first does not. */
    method ReadVarint32Fallback() returns (ret: nat, v: nat)
      requires Valid() && Guarded(Rest()) && Rest()[0] >= 128
      modifies this
      ensures Valid()
      ensures match Decode(old(Rest()))
              case None => ret == 0 && p == old(p)
              case Some(d) => ret == d.length && p == old(p) + ret && v == d.value % TWO32
    {
      ghost var s := Rest();
      var o := p;
      var q := p;
      var b: nat;
      var n: int;
      label Decoded: {
        InReach(s, 1);
        FirstByte(s);
        Shift32(s, 1, s[0], 1);
        n := Wrap32(data[q] - 0x80);
        b := data[q + 1];
        q := q + 2;
        n := Wrap32(n + b * 0x80);
        if b < 128 { ReadLast32(s, 2, n); break Decoded; }
        InReach(s, 2);
        b, n, q := NextByte(n, q, 0x80, s, 2);
        if b < 128 { ReadLast32(s, 3, n); break Decoded; }
        InReach(s, 3);
        b, n, q := NextByte(n, q, 0x4000, s, 3);
        if b < 128 { ReadLast32(s, 4, n); break Decoded; }
        InReach(s, 4);
        FifthByte(s, n);
        n := Wrap32(n - 0x80 * 0x20_0000);
        b := data[q];
        q := q + 1;
        n := Wrap32(n + b * 0x1000_0000);
        if b < 128 { End32(s, 4, n); break Decoded; }
        ret := AfterFive(n);
        return ret, if ret == 0 then 0 else n;
      }
      p := q;
      return q - o, n;
    }

    /** The next byte goes into the word n, at the place after the last one's, whose high bit is taken out. */
    method NextByte(n: nat, q: nat, c: nat, ghost t: seq<Byte>, ghost j: nat) returns (b: nat, n': nat, q': nat)
      requires Partial(t, j, n) && j < |t| && t[j - 1] >= 128 && j <= 3 && c == Pow128(j - 1)
      requires q < |data| && data[q] == t[j]
      ensures b == t[j] && q' == q + 1 && Partial(t, j + 1, n')
    {
      Shift32(t, j, n, c);
      n' := Wrap32(n - 0x80 * c);
      b := data[q];
      n' := Wrap32(n' + b * (0x80 * c));
      q' := q + 1;
    }

    /** Its third word, after eight bytes that all have the high bit. */
    method LastWord(ghost n1: nat, ghost n2: nat) returns (ret: nat, n3: nat)
      requires Valid() && Guarded(Rest()) && High(Rest(), 8) && n1 == Value(Rest(), 4) && n2 == Value(Rest()[4..], 4)
      ensures ThirdOk(Rest(), ret, n1, n2, n3)
    {
      InReach(Rest(), 8);
      var b, q := data[p + 8], p + 9;
      n3 := Wrap32(b);
      if b < 128 {
        EndsAtNine(Rest(), n1, n2);
        return q - p, n3;
      }
      InReach(Rest(), 9);
      FirstByte(Rest()[8..]);
      b, n3, q := NextByte(n3, q, 1, Rest()[8..], 1);
      if b < 128 {
        EndsAtTen(Rest(), n1, n2, n3);
        return q - p, n3;
      }
      NeverEnds(Rest(), n1, n2);
      return 0, 0;
    }

    /** One more byte of the second word, of which j were read. */
    method SecondByte(n: nat, q: nat, c: nat, ghost j: nat) returns (b: nat, n': nat, q': nat)
      requires Valid() && Guarded(Rest()) && q == p + 4 + j && 0 < j <= 3 && c == Pow128(j - 1)
      requires SecondWordAt(Rest(), j, n) && Rest()[3 + j] >= 128
      ensures q' == q + 1 && SecondWordAt(Rest(), j + 1, n') && b == Rest()[4 + j]
    {
      InReach(Rest(), 4 + j);
      b, n', q' := NextByte(n, q, c, Rest()[4..], j);
    }

    /** Its second word, after four bytes that all have the high bit. */
    method SecondWord(ghost n1: nat) returns (done: bool, n: nat, n2: nat)
      requires Valid() && Guarded(Rest()) && High(Rest(), 4) && n1 == Value(Rest(), 4)
      ensures SecondOk(Rest(), n1, done, n, n2)
    {
      InReach(Rest(), 4);
      var b, q := data[p + 4], p + 5;
      n2 := Wrap32(b);
      SecondBegins(Rest());
      if b < 128 {
        SecondEnds(Rest(), n1, n2, 1);
        return true, q - p, n2;
      }
      b, n2, q := SecondByte(n2, q, 1, 1);
      if b < 128 {
        SecondEnds(Rest(), n1, n2, 2);
        return true, q - p, n2;
      }
      done, n, n2 := SecondHalf(n1, n2, q);
    }

    /** From its third byte on. */
    method SecondHalf(ghost n1: nat, m: nat, at: nat) returns (done: bool, n: nat, n2: nat)
      requires Valid() && Guarded(Rest()) && SecondWordAt(Rest(), 2, m) && Rest()[5] >= 128
      requires n1 == Value(Rest(), 4) && at == p + 6
      ensures SecondOk(Rest(), n1, done, n, n2)
    {
      var b, q;
      b, n2, q := SecondByte(m, at, 0x80, 2);
      if b < 128 {
        SecondEnds(Rest(), n1, n2, 3);
        return true, q - p, n2;
      }
      b, n2, q := SecondByte(n2, q, 0x4000, 3);
      if b < 128 {
        SecondEnds(Rest(), n1, n2, 4);
        return true, q - p, n2;
      }
      SecondIsFull(Rest(), n1, n2);
      return false, q - p, Wrap32(n2 - 0x80 * 0x20_0000);
    }

    /** Its second and third word. */
    method UpperWords(ghost n1: nat) returns (ret: nat, n2: nat, n3: nat)
      requires Valid() && Guarded(Rest()) && High(Rest(), 4) && n1 == Value(Rest(), 4)
      ensures if Decode(Rest()).None? then ret == 0 else ret >= 5 && Gives64(Rest(), ret, n1, n2, n3)
    {
      var done: bool;
      done, ret, n2 := SecondWord(n1);
      n3 := 0;
      if done {
        End64(Rest(), ret, n1, n2, 0);
      } else {
        ret, n3 := LastWord(n1, n2);
      }
    }

    /** Its first word, of which the first byte has the high bit. */
    method FirstWord() returns (done: bool, n: nat, n1: nat)
      requires Valid() && Guarded(Rest()) && Rest()[0] >= 128
      ensures 0 < n <= |Rest()|
      ensures done ==> Words(Rest(), n, n1, 0, 0) && High(Rest(), n - 1) && Rest()[n - 1] < 128
      ensures !done ==> n == 4 && High(Rest(), 4) && n1 == Value(Rest(), 4)
    {
      ghost var s := Rest();
      var q := p;
      var b: nat;
      n1, done := 0, true;
      label Decoded: {
        InReach(s, 1);
        FirstByte(s);
        Shift32(s, 1, s[0], 1);
        n1 := Wrap32(data[q] - 0x80);
        b := data[q + 1];
        q := q + 2;
        n1 := Wrap32(n1 + b * 0x80);
        if b < 128 { break Decoded; }
        InReach(s, 2);
        b, n1, q := NextByte(n1, q, 0x80, s, 2);
        if b < 128 { break Decoded; }
        InReach(s, 3);
        b, n1, q := NextByte(n1, q, 0x4000, s, 3);
        if b < 128 { break Decoded; }
        InReach(s, 4);
        FullWord(s, n1);
        n1 := Wrap32(n1 - 0x80 * 0x20_0000);
        done := false;
      }
      return done, q - p, n1;
    }

    /** pb_readvarint64_fallback: four bytes to a 32-bit word, so that most of the work is on words. */
    method ReadVarint64Fallback() returns (ret: nat, v: nat)
      requires Valid() && Guarded(Rest()) && Rest()[0] >= 128
      modifies this
      ensures Valid()
      ensures match Decode(old(Rest()))
              case None => ret == 0 && p == old(p)
              case Some(d) => ret == d.length && p == old(p) + ret && v == d.value
    {
      var done, n, n1 := FirstWord();
      var n2, n3 := 0, 0;
      if done {
        ret := n;
        End64(Rest(), n, n1, 0, 0);
      } else {
        ret, n2, n3 := UpperWords(n1);
        if ret == 0 {
          return 0, 0;
        }
      }
      v := n1 + n2 * 0x1000_0000 + (n3 * 0x100_0000_0000_0000) % TWO64;
      p := p + ret;
    }

    /** pb_readvarint32. */
    method ReadVarint32() returns (ret: nat, v: nat)
      requires Valid()
      modifies this
      ensures Valid()
      ensures match Decode(old(Rest()))
              case None => ret == 0 && p == old(p)
              case Some(d) => ret == d.length && p == old(p) + ret && v == d.value % TWO32
    {
      if p >= |data| {
        return 0, 0;
      }
      if data[p] < 128 {
        OneByte(Rest());
        v := data[p];
        p := p + 1;
        return 1, v;
      }
      if |data| - p >= 10 || data[|data| - 1] < 128 {
        ret, v := ReadVarint32Fallback();
        return;
      }
      ret, v := ReadVarintSlow();
      if ret != 0 {
        v := v % TWO32;
      }
    }

    /** pb_readvarint64. */
    method ReadVarint64() returns (ret: nat, v: nat)
      requires Valid()
      modifies this
      ensures Valid()
      ensures match Decode(old(Rest()))
              case None => ret == 0 && p == old(p)
              case Some(d) => ret == d.length && p == old(p) + ret && v == d.value
    {
      if p >= |data| {
        return 0, 0;
      }
      if data[p] < 128 {
        OneByte(Rest());
        v := data[p];
        p := p + 1;
        return 1, v;
      }
      if |data| - p >= 10 || data[|data| - 1] < 128 {
        ret, v := ReadVarint64Fallback();
        return;
      }
      ret, v := ReadVarintSlow();
    }
  }

  function Wrap32(n: int): nat {
    n % TWO32
  }

  /** What the dispatch makes sure of before it calls an unrolled reader. */
  predicate Guarded(s: seq<Byte>) {
    s != [] && (|s| >= MAX_VARINT || s[|s| - 1] < 128)
  }

  /** So the byte after up to nine that have the high bit is there. */
  lemma InReach(s: seq<Byte>, j: nat)
    requires Guarded(s) && High(s, j) && j < MAX_VARINT
    ensures j < |s|
  {
  }

  lemma ReadLast32(s: seq<Byte>, j: nat, n: int)
    requires Partial(s, j, n) && s[j - 1] < 128 && j <= 4
    ensures Gives32(s, j, n)
  {
    ReadLast(s, j, n);
    DecodeIs(s, j - 1);
    PowersOf128();
    PowersGrow(j, 4);
  }

  /** The reader is right to return this length and this number. */
  ghost predicate Gives32(s: seq<Byte>, length: nat, n: int) {
    Decode(s).Some? && Decode(s).value.length == length && n == Decode(s).value.value % TWO32
  }

  lemma End32(s: seq<Byte>, j: nat, n: int)
    requires High(s, j) && j < |s| && s[j] < 128 && j < MAX_VARINT && n == Value(s, j + 1) % TWO32
    ensures Gives32(s, j + 1, n)
  {
    DecodeIs(s, j);
    ModMod(Value(s, j + 1));
  }

  lemma ModMod(x: nat)
    ensures (x % TWO64) % TWO32 == x % TWO32
  {
  }

  /** One byte of the first four: nothing wraps around. */
  lemma Shift32(s: seq<Byte>, j: nat, n: int, c: nat)
    requires Partial(s, j, n) && s[j - 1] >= 128 && j < |s| && j <= 3 && c == Pow128(j - 1)
    ensures Partial(s, j + 1, Wrap32(Wrap32(n - 128 * c) + (s[j] as int) * (128 * c)))
  {
    ReadOneMore(s, j, n);
    PowersGrow(j, 3);
    PowersOf128();
    assert Pow128(j) == 128 * c;
    MulLe(128 * c, s[j], 255);
    assert s[j] * (128 * c) == 128 * c * s[j];
  }

  /** The fifth byte is shifted over the end of the word. */
  lemma FifthByte(s: seq<Byte>, n: int)
    requires Partial(s, 4, n) && s[3] >= 128 && 5 <= |s|
    ensures Wrap32(Wrap32(n - 0x80 * 0x20_0000) + (s[4] as int) * 0x1000_0000) == Value(s, 5) % TWO32
  {
    FullWord(s, n);
    PowersOf128();
    ShiftedOut(Value(s, 4), s[4]);
  }

  lemma ShiftedOut(low: nat, b: Byte)
    requires low < 0x1000_0000
    ensures (low + b as int * 0x1000_0000) % TWO32 == (low + 0x1000_0000 * (b % 128)) % TWO32
  {
    if b >= 128 {
      assert b % 128 == b - 128;
      assert low + b as int * 0x1000_0000 == low + 0x1000_0000 * (b % 128) + 8 * TWO32;
    }
  }

  /** Bytes beyond the fifth do not touch the low 32 bits. */
  lemma LaterByte(s: seq<Byte>, j: nat, n: int)
    requires 5 <= j < |s| && n == Value(s, j) % TWO32
    ensures n == Value(s, j + 1) % TWO32
  {
    PowIsMultiple(j);
    var m := 8 * Pow128(j - 5) * (s[j] % 128);
    assert Pow128(j) * (s[j] % 128) == TWO32 * m;
  }

  lemma {:induction false} PowIsMultiple(k: nat)
    requires k >= 5
    ensures Pow128(k) == TWO32 * (8 * Pow128(k - 5))
  {
    if k == 5 {
      PowersOf128();
    } else {
      PowIsMultiple(k - 1);
    }
  }

  /** Four bytes that all have the high bit, without it. */
  lemma FullWord(s: seq<Byte>, n: int)
    requires Partial(s, 4, n) && s[3] >= 128 && 4 < |s|
    ensures Wrap32(n - 0x80 * 0x20_0000) == Value(s, 4) < 0x1000_0000
  {
    ReadOneMore(s, 4, n);
    PowersOf128();
  }

  lemma SecondIsFull(s: seq<Byte>, n1: int, n: int)
    requires Guarded(s) && SecondWordAt(s, 4, n) && s[7] >= 128
    ensures SecondOk(s, n1, false, 8, Wrap32(n - 0x80 * 0x20_0000))
  {
    InReach(s, 8);
    FullWord(s[4..], n);
  }

  lemma SecondEnds(s: seq<Byte>, n1: int, n2: int, j: nat)
    requires SecondWordAt(s, j, n2) && j <= 4 && s[3 + j] < 128 && n1 == Value(s, 4)
    ensures SecondOk(s, n1, true, 4 + j, n2)
  {
  }

  lemma {:induction false} ValueSplit(s: seq<Byte>, a: nat, k: nat)
    requires a + k <= |s|
    ensures Value(s, a + k) == Value(s, a) + Pow128(a) * Value(s[a..], k)
  {
    var t := s[a..];
    if k == 0 {
      assert Value(t, 0) == 0;
    } else {
      ValueSplit(s, a, k - 1);
      var x := s[a + k - 1] % 128;
      calc {
        Value(s, a + k);
        Value(s, a + k - 1) + Pow128(a + k - 1) * x;
        { PowSum(a, k - 1); }
        Value(s, a + k - 1) + (Pow128(a) * Pow128(k - 1)) * x;
        { Associate(Pow128(a), Pow128(k - 1), x); }
        Value(s, a) + Pow128(a) * Value(t, k - 1) + Pow128(a) * (Pow128(k - 1) * x);
        { Distribute(Pow128(a), Value(t, k - 1), Pow128(k - 1) * x); }
        Value(s, a) + Pow128(a) * (Value(t, k - 1) + Pow128(k - 1) * x);
        { assert t[k - 1] % 128 == x; }
        Value(s, a) + Pow128(a) * Value(t, k);
      }
    }
  }

  lemma Associate(a: nat, b: nat, c: nat)
    ensures (a * b) * c == a * (b * c)
  {
  }

  lemma Distribute(a: nat, x: nat, y: nat)
    ensures a * (x + y) == a * x + a * y
  {
  }

  lemma {:induction false} PowSum(a: nat, b: nat)
    ensures Pow128(a + b) == Pow128(a) * Pow128(b)
  {
    if b > 0 {
      PowSum(a, b - 1);
      assert Pow128(a) * (128 * Pow128(b - 1)) == 128 * (Pow128(a) * Pow128(b - 1));
    }
  }

  /** The words that hold the first four, the next four and the last two bytes. */
  ghost predicate Words(s: seq<Byte>, length: nat, n1: int, n2: int, n3: int) {
    && 0 < length <= |s| && length <= 10
    && if length <= 4 then Partial(s, length, n1) && n2 == n3 == 0
       else if length <= 8 then n1 == Value(s, 4) && Partial(s[4..], length - 4, n2) && n3 == 0
       else n1 == Value(s, 4) && n2 == Value(s[4..], 4) && Partial(s[8..], length - 8, n3)
  }

  /** The reader is right to return this length and the number these words make. */
  ghost predicate Gives64(s: seq<Byte>, length: nat, n1: int, n2: int, n3: int) {
    && Decode(s).Some? && Decode(s).value.length == length > 0
    && Decode(s).value.value == n1 + n2 * 0x1000_0000 + (n3 * 0x100_0000_0000_0000) % TWO64
  }

  /** The highest word loses what is shifted out; the words have no bit in common. */
  lemma JoinWords(n1: nat, n2: nat, n3: nat)
    requires n1 < 0x1000_0000 && n2 < 0x1000_0000
    ensures n1 + n2 * 0x1000_0000 + (n3 * 0x100_0000_0000_0000) % TWO64
            == (n1 + n2 * 0x1000_0000 + n3 * 0x100_0000_0000_0000) % TWO64
  {
    var low, q, r := n1 + n2 * 0x1000_0000, n3 / 256, n3 % 256;
    assert n3 == 256 * q + r;
    assert low < 0x100_0000_0000_0000;
    Arith.ModUnique(TWO64, n3 * 0x100_0000_0000_0000, r * 0x100_0000_0000_0000, q);
    Arith.ModUnique(TWO64, low + n3 * 0x100_0000_0000_0000, low + r * 0x100_0000_0000_0000, q);
  }

  lemma TwoWords(s: seq<Byte>, j: nat, n1: nat, n2: nat)
    requires 4 + j <= |s| && j <= 4 && n1 == Value(s, 4) && n2 == Value(s[4..], j)
    ensures n1 < 0x1000_0000 && n2 < 0x1000_0000 && Value(s, 4 + j) == n1 + n2 * 0x1000_0000
  {
    PowersOf128();
    ValueBound(s, 4);
    ValueBound(s[4..], j);
    PowersGrow(j, 4);
    ValueSplit(s, 4, j);
  }

  lemma ThreeWords(s: seq<Byte>, j: nat, n1: nat, n2: nat, n3: nat)
    requires 8 + j <= |s| && n1 == Value(s, 4) && n2 == Value(s[4..], 4) && n3 == Value(s[8..], j)
    ensures n1 < 0x1000_0000 && n2 < 0x1000_0000
    ensures Value(s, 8 + j) == n1 + n2 * 0x1000_0000 + n3 * 0x100_0000_0000_0000
  {
    TwoWords(s, 4, n1, n2);
    ValueSplit(s, 8, j);
    PowersOf128();
  }

  lemma WordsMake(s: seq<Byte>, length: nat, n1: int, n2: int, n3: int)
    requires Words(s, length, n1, n2, n3) && s[length - 1] < 128
    ensures 0 <= n1 < 0x1000_0000 && 0 <= n2 < 0x1000_0000 && 0 <= n3
    ensures Value(s, length) == n1 + n2 * 0x1000_0000 + n3 * 0x100_0000_0000_0000
  {
    if length <= 4 {
      ReadLast(s, length, n1);
      PowersOf128();
      PowersGrow(length, 4);
    } else if length <= 8 {
      ReadLast(s[4..], length - 4, n2);
      TwoWords(s, length - 4, n1, n2);
    } else {
      ReadLast(s[8..], length - 8, n3);
      ThreeWords(s, length - 8, n1, n2, n3);
    }
  }

  lemma End64(s: seq<Byte>, length: nat, n1: int, n2: int, n3: int)
    requires Words(s, length, n1, n2, n3) && High(s, length - 1) && s[length - 1] < 128
    ensures Gives64(s, length, n1, n2, n3)
  {
    DecodeIs(s, length - 1);
    WordsMake(s, length, n1, n2, n3);
    JoinWords(n1, n2, n3);
  }

  /** What the reader has behind the third word. */
  ghost predicate ThirdOk(s: seq<Byte>, ret: nat, n1: int, n2: int, n3: int) {
    if Decode(s).None? then ret == 0 else ret >= 5 && Gives64(s, ret, n1, n2, n3)
  }

  lemma EndsAtNine(s: seq<Byte>, n1: int, n2: int)
    requires High(s, 8) && |s| > 8 && s[8] < 128 && n1 == Value(s, 4) && n2 == Value(s[4..], 4)
    ensures ThirdOk(s, 9, n1, n2, Wrap32(s[8]))
  {
    FirstByte(s[8..]);
    End64(s, 9, n1, n2, s[8]);
  }

  lemma EndsAtTen(s: seq<Byte>, n1: int, n2: int, n3: int)
    requires High(s, 9) && |s| > 9 && s[9] < 128 && n1 == Value(s, 4) && n2 == Value(s[4..], 4)
    requires Partial(s[8..], 2, n3)
    ensures ThirdOk(s, 10, n1, n2, n3)
  {
    End64(s, 10, n1, n2, n3);
  }

  lemma NeverEnds(s: seq<Byte>, n1: int, n2: int)
    requires High(s, 10)
    ensures ThirdOk(s, 0, n1, n2, 0)
  {
    DecodeIs(s, 10);
  }

  lemma OneByte(s: seq<Byte>)
    requires s != [] && s[0] < 128
    ensures Decode(s) == Some(Number(1, s[0]))
  {
    assert Value(s, 0) == 0 && Pow128(0) == 1;
  }

  /** Shifted into 64 bits, the tenth byte keeps its lowest bit. */
  lemma SlowStep(s: seq<Byte>, i: nat, shift: nat)
    requires i < |s| && i < MAX_VARINT && shift == Pow128(i)
    ensures Value(s, i) + (shift * (s[i] % 128)) % TWO64 == Value(s, i + 1) % TWO64
    ensures i < 9 ==> Value(s, i + 1) < TWO64
  {
    ValueBound(s, i);
    ValueBound(s, i + 1);
    if i < 9 {
      PowersFit(i + 1);
      Small(Value(s, i + 1), shift * (s[i] % 128));
    } else {
      PowersOf128();
      TopBit(Value(s, 9), s[9] % 128);
    }
  }

  lemma Small(whole: nat, part: nat)
    requires part <= whole < TWO64
    ensures part % TWO64 == part && whole % TWO64 == whole
  {
  }

  lemma TopBit(low: nat, x: nat)
    requires low < 0x8000_0000_0000_0000
    ensures low + (0x8000_0000_0000_0000 * x) % TWO64 == (low + 0x8000_0000_0000_0000 * x) % TWO64
  {
    var q, r := x / 2, x % 2;
    assert x == 2 * q + r;
    Arith.ModUnique(TWO64, 0x8000_0000_0000_0000 * x, 0x8000_0000_0000_0000 * r, q);
    Arith.ModUnique(TWO64, low + 0x8000_0000_0000_0000 * x, low + 0x8000_0000_0000_0000 * r, q);
  }

  lemma PowersFit(k: nat)
    requires k <= 9
    ensures Pow128(k) <= 0x8000_0000_0000_0000
  {
    PowersOf128();
    PowersGrow(k, 9);
  }

  lemma {:induction false} PowersGrow(k: nat, l: nat)
    requires k <= l
    ensures Pow128(k) <= Pow128(l)
  {
    if k < l {
      PowersGrow(k, l - 1);
    }
  }

  // --------------------------------------------------------------------------------- the writers

  /** The bytes w are written, m is what is left of n. */
  ghost predicate Written(n: nat, w: seq<Byte>, m: nat) {
    Encode(n) == w + Encode(m)
  }

  lemma WriteOneMore(n: nat, w: seq<Byte>, m: nat)
    requires Written(n, w, m) && m >= 128
    ensures Written(n, w + [m % 128 + 128], m / 128) && |w| + 1 < |Encode(n)|
  {
    assert w + ([m % 128 + 128] + Encode(m / 128)) == w + [m % 128 + 128] + Encode(m / 128);
  }

  /** One byte with the high bit, if more are to follow. */
  method WriteByte(buff: array<Byte>, at: nat, c: nat, m: nat, ghost n: nat)
    returns (more: bool, p: nat, m': nat, c': nat)
    requires at + |Encode(n)| <= buff.Length && c < |Encode(n)| && Written(n, buff[at..at + c], m)
    modifies buff
    ensures p == m % 128 && m' == m / 128 && more == (m >= 128) && c' < |Encode(n)|
    ensures more ==> c' == c + 1 && Written(n, buff[at..at + c'], m')
    ensures !more ==> c' == c && Encode(n) == buff[at..at + c'] + [p]
    ensures forall i | 0 <= i < buff.Length && !(at <= i < at + c') :: buff[i] == old(buff[i])
  {
    p, m', c' := m % 128, m / 128, c;
    more := m' != 0;
    if more {
      ghost var w := buff[at..at + c];
      WriteOneMore(n, w, m);
      buff[at + c] := p + 128;
      c' := c + 1;
      assert buff[at..at + c'] == w + [m % 128 + 128];
    }
  }

  /** Four of these in a row, of which the unrolled writers consist. */
  method WriteFour(buff: array<Byte>, at: nat, c: nat, m: nat, ghost n: nat)
    returns (more: bool, p: nat, m': nat, c': nat)
    requires at + |Encode(n)| <= buff.Length && c < |Encode(n)| && Written(n, buff[at..at + c], m)
    modifies buff
    ensures c' < |Encode(n)| && p < 128
    ensures more ==> Written(n, buff[at..at + c'], m') && m' * 0x1000_0000 <= m
    ensures !more ==> Encode(n) == buff[at..at + c'] + [p]
    ensures forall i | 0 <= i < buff.Length && !(at <= i < at + c') :: buff[i] == old(buff[i])
  {
    label Last: {
      more, p, m', c' := WriteByte(buff, at, c, m, n);
      if !more { break Last; }
      more, p, m', c' := WriteByte(buff, at, c', m', n);
      if !more { break Last; }
      more, p, m', c' := WriteByte(buff, at, c', m', n);
      if !more { break Last; }
      more, p, m', c' := WriteByte(buff, at, c', m', n);
      if !more { break Last; }
    }
  }

  /** What is left is the last byte. */
  method WriteLast(buff: array<Byte>, at: nat, c: nat, p: nat, ghost n: nat)
    requires at + |Encode(n)| <= buff.Length && c < |Encode(n)| && p < 128 && Encode(n) == buff[at..at + c] + [p]
    modifies buff
    ensures c + 1 == |Encode(n)| && buff[at..at + c + 1] == Encode(n)
    ensures forall i | 0 <= i < buff.Length && i != at + c :: buff[i] == old(buff[i])
  {
    ghost var w := buff[at..at + c];
    buff[at + c] := p;
    assert buff[at..at + c + 1] == w + [p];
  }

  /** pb_write32: up to four bytes with the high bit, then what is left. */
  method Write32(buff: array<Byte>, at: nat, n: nat) returns (c: nat)
    requires n < TWO32 && at + |Encode(n)| <= buff.Length
    modifies buff
    ensures c == |Encode(n)| && buff[at..at + c] == Encode(n)
    ensures forall i | 0 <= i < buff.Length && !(at <= i < at + c) :: buff[i] == old(buff[i])
  {
    assert buff[at..at] == [];
    var more, p, m, c' := WriteFour(buff, at, 0, n, n);
    if more {
      p := m;
    }
    WriteLast(buff, at, c', p, n);
    c := c' + 1;
  }

  /** pb_write64: up to nine bytes with the high bit, then what is left. */
  method Write64(buff: array<Byte>, at: nat, n: nat) returns (c: nat)
    requires n < TWO64 && at + |Encode(n)| <= buff.Length
    modifies buff
    ensures c == |Encode(n)| && buff[at..at + c] == Encode(n)
    ensures forall i | 0 <= i < buff.Length && !(at <= i < at + c) :: buff[i] == old(buff[i])
  {
    assert buff[at..at] == [];
    var more, p, m, c' := WriteFour(buff, at, 0, n, n);
    if more {
      p, c' := WriteUpper(buff, at, c', m, n);
    }
    WriteLast(buff, at, c', p, n);
    c := c' + 1;
  }

  /** The bytes of pb_write64 that pb_write32 has not. */
  method WriteUpper(buff: array<Byte>, at: nat, c: nat, m: nat, ghost n: nat) returns (p: nat, c': nat)
    requires at + |Encode(n)| <= buff.Length && c < |Encode(n)| && Written(n, buff[at..at + c], m)
    requires m < 0x10_0000_0000
    modifies buff
    ensures c' < |Encode(n)| && p < 128 && Encode(n) == buff[at..at + c'] + [p]
    ensures forall i | 0 <= i < buff.Length && !(at <= i < at + c') :: buff[i] == old(buff[i])
  {
    var more, m';
    more, p, m', c' := WriteFour(buff, at, c, m, n);
    if more {
      more, p, m', c' := WriteByte(buff, at, c', m', n);
      if more {
        p := m' % 128;
      }
    }
  }

  // --------------------------------------------------------------------------- signed numbers

  /** The number that a word of the given size stands for as a signed one. */
  function Signed(v: nat, modulus: nat): int
    requires modulus > 0
  {
    if v < modulus / 2 then v else v - modulus
  }

  /** All bits of a word inverted: the exclusive or with -1. */
  function Inverted(v: int, modulus: nat): int {
    modulus - 1 - v
  }

  /** pb_encode_sint32 and pb_encode_sint64: the value shifted left, inverted if it is negative. */
  function EncodeSint(value: int, modulus: nat): int
    requires modulus > 0
  {
    var shifted := (2 * value) % modulus;
    if value < 0 then Inverted(shifted, modulus) else shifted
  }

  /** pb_decode_sint32 and pb_decode_sint64. */
  function DecodeSint(value: nat, modulus: nat): int
    requires value < modulus
  {
    Signed(if value % 2 == 1 then Inverted(value / 2, modulus) else value / 2, modulus)
  }

  /** The zigzag words are numbered 0, -1, 1, -2, 2 and so on, and the two functions are inverses. */
  lemma ZigzagRoundTrip(value: int, word: nat, modulus: nat)
    requires modulus == TWO32 || modulus == TWO64
    requires -(modulus / 2) <= value < modulus / 2 && word < modulus
    ensures EncodeSint(value, modulus) == if value < 0 then -2 * value - 1 else 2 * value
    ensures 0 <= EncodeSint(value, modulus) < modulus
            && (var e: nat := EncodeSint(value, modulus); DecodeSint(e, modulus) == value)
    ensures -(modulus / 2) <= DecodeSint(word, modulus) < modulus / 2
    ensures EncodeSint(DecodeSint(word, modulus), modulus) == word
  {
    if modulus == TWO32 {
      Shifted32(value);
      Shifted32(DecodeSint(word, modulus));
    } else {
      Shifted64(value);
      Shifted64(DecodeSint(word, modulus));
    }
  }

  lemma Shifted32(value: int)
    requires -(TWO32 / 2) <= value < TWO32 / 2
    ensures (2 * value) % TWO32 == if value < 0 then 2 * value + TWO32 else 2 * value
  {
  }

  lemma Shifted64(value: int)
    requires -(TWO64 / 2) <= value < TWO64 / 2
    ensures (2 * value) % TWO64 == if value < 0 then 2 * value + TWO64 else 2 * value
  {
  }

  /** pb_expandsig: the exclusive or with the sign bit, less the sign bit. */
  function ExpandSig(value: nat): nat {
    var m := 0x8000_0000;
    var flipped := if value < m then value + m else value - m;
    (flipped - m) % TWO64
  }

  /** A 32-bit word becomes the 64-bit word of the same signed number. */
  lemma ExpandSigKeepsNumber(value: nat)
    requires value < TWO32
    ensures ExpandSig(value) < TWO64
    ensures Signed(ExpandSig(value), TWO64) == Signed(value, TWO32)
  {
  }

  lemma ExpandedLow(value: nat)
    requires value < TWO32
    ensures ExpandSig(value) < TWO64 && ExpandSig(value) % TWO32 == value
  {
    if value < 0x8000_0000 {
      Arith.ModUnique(TWO64, value, value, 0);
    } else {
      Arith.ModUnique(TWO64, value - TWO32, value - TWO32 + TWO64, -1);
      Arith.ModUnique(TWO32, value - TWO32 + TWO64, value, TWO32 - 1);
    }
  }

  /** So a negative 32-bit number, written as ten bytes, is read back as a 32-bit word unchanged. */
  lemma ExpandedRoundTrip(value: nat, suffix: seq<Byte>)
    requires value < TWO32
    ensures var d := Decode(Encode(ExpandSig(value)) + suffix);
            d.Some? && d.value.value % TWO32 == value && d.value.length == |Encode(ExpandSig(value))|
  {
    ExpandedLow(value);
    DecodeEncode(ExpandSig(value), suffix);
  }
}
