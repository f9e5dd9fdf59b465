/**
 Decimal numbers: the strict reader string2ll, the printers sdsll2str and sdsull2str, and countDigits.
 64-bit words are numbers with their wrap-around written out.
 */
module Decimal {
  import opened Bytes
  import opened Options

  const LLONG_MAX := 0x7FFF_FFFF_FFFF_FFFF
  const LLONG_MIN := -LLONG_MAX - 1
  const ULLONG_MAX := 0xFFFF_FFFF_FFFF_FFFF

  /** SDS_LLSTR_SIZE: room for a sign, the digits and the terminator. */
  const LLSTR_SIZE := 21

  predicate IsDigit(b: Byte) {
    ZERO <= b <= NINE
  }

  predicate AllDigits(s: seq<Byte>) {
    forall i | 0 <= i < |s| :: IsDigit(s[i])
  }

  // ---------------------------------------------------------------------- spelling and meaning

  /** The digits of a number, without zeros in front. */
  function Digits(v: nat): (s: seq<Byte>)
    ensures |s| > 0
  {
    (if v < 10 then [] else Digits(v / 10)) + [ZERO + v % 10]
  }

  /** The one canonical spelling of a number. */
  function Spell(n: int): (s: seq<Byte>)
    ensures |s| > 0
  {
    if n < 0 then [MINUS] + Digits(-n) else Digits(n)
  }

  /** What a string of digits stands for. */
  function Value(s: seq<Byte>): nat
    requires AllDigits(s)
  {
    if |s| == 0 then 0 else 10 * Value(s[..|s| - 1]) + (s[|s| - 1] - ZERO)
  }

  /** Digits without superfluous zeros in front. */
  predicate Numeral(s: seq<Byte>) {
    |s| > 0 && AllDigits(s) && (s[0] == ZERO ==> |s| == 1)
  }

  lemma {:induction false} DigitsAreNumeral(v: nat)
    ensures Numeral(Digits(v)) && Value(Digits(v)) == v && (Digits(v)[0] == ZERO ==> v == 0)
  {
    var s := Digits(v);
    if v >= 10 {
      DigitsAreNumeral(v / 10);
      assert s[..|s| - 1] == Digits(v / 10);
    } else {
      assert s[..|s| - 1] == [];
    }
  }

  lemma {:induction false} NumeralIsDigits(s: seq<Byte>)
    requires Numeral(s)
    ensures s == Digits(Value(s)) && (s[0] != ZERO ==> Value(s) > 0)
  {
    var most := s[..|s| - 1];
    if |s| > 1 {
      NumeralIsDigits(most);
      assert s == most + [s[|s| - 1]];
    } else {
      assert most == [];
    }
  }

  lemma {:induction false} ValueGrows(s: seq<Byte>, k: nat)
    requires AllDigits(s) && k <= |s|
    ensures Value(s[..k]) <= Value(s)
  {
    if k < |s| {
      ValueGrows(s[..|s| - 1], k);
      assert s[..|s| - 1][..k] == s[..k];
    } else {
      assert s[..k] == s;
    }
  }

  /** A number below the k-th power of ten has at most k digits. */
  function Pow10(k: nat): nat {
    if k == 0 then 1 else 10 * Pow10(k - 1)
  }

  lemma {:induction false} FewDigits(v: nat, k: nat)
    requires k > 0 && v < Pow10(k)
    ensures |Digits(v)| <= k
  {
    if v >= 10 {
      assert k > 1;
      FewDigits(v / 10, k - 1);
    }
  }

  lemma WordsAreShort(v: nat)
    ensures v <= ULLONG_MAX ==> |Digits(v)| <= 20
    ensures v <= LLONG_MAX + 1 ==> |Digits(v)| <= 19
  {
    PowersOf10();
    if v <= ULLONG_MAX {
      FewDigits(v, 20);
    }
    if v <= LLONG_MAX + 1 {
      FewDigits(v, 19);
    }
  }

  lemma PowersOf10()
    ensures Pow10(19) == 10_000_000_000_000_000_000 && Pow10(20) == 100_000_000_000_000_000_000
  {
    assert Pow10(5) == 100_000;
    assert Pow10(10) == 10_000_000_000;
    assert Pow10(15) == 1_000_000_000_000_000;
  }

  // --------------------------------------------------------------------------------- string2ll

  predicate InRange(n: int) {
    LLONG_MIN <= n <= LLONG_MAX
  }

  /** The number that string2ll makes of a string, if it takes the string for one. */
  function Parse(s: seq<Byte>): (r: Option<int>)
    ensures r.Some? ==> InRange(r.value)
  {
    if Numeral(s) && Value(s) <= LLONG_MAX then Some(Value(s))
    else if |s| > 1 && s[0] == MINUS && s[1] != ZERO && Numeral(s[1..]) && Value(s[1..]) <= LLONG_MAX + 1 then
      var v: int := Value(s[1..]);
      Some(-v)
    else None
  }

  /** string2ll accepts just the canonical spellings of 64-bit numbers, and reads each as its number. */
  lemma ParseIsInverse(s: seq<Byte>, n: int)
    ensures Parse(s) == Some(n) <==> InRange(n) && s == Spell(n)
  {
    if Parse(s) == Some(n) {
      ParsedIsSpelt(s);
    }
    if InRange(n) && s == Spell(n) {
      SpeltIsParsed(n);
    }
  }

  lemma ParsedIsSpelt(s: seq<Byte>)
    requires Parse(s).Some?
    ensures s == Spell(Parse(s).value)
  {
    if Numeral(s) {
      NumeralIsDigits(s);
    } else {
      NumeralIsDigits(s[1..]);
      assert s == [MINUS] + s[1..];
    }
  }

  lemma SpeltIsParsed(n: int)
    requires InRange(n)
    ensures Parse(Spell(n)) == Some(n)
  {
    if n < 0 {
      DigitsAreNumeral(-n);
      assert Spell(n)[1..] == Digits(-n);
    } else {
      DigitsAreNumeral(n);
    }
  }

  /** No string of digits that begins with a number above 64 bits is accepted. */
  lemma TooLarge(s: seq<Byte>, start: nat, k: nat)
    requires start == (if |s| > 0 && s[0] == MINUS then 1 else 0) && start <= k <= |s|
    requires AllDigits(s[start..k]) && Value(s[start..k]) > ULLONG_MAX
    ensures Parse(s) == None
  {
    var t := s[start..];
    assert start == 0 ==> t == s;
    assert t[..k - start] == s[start..k];
    if AllDigits(t) {
      ValueGrows(t, k - start);
    }
  }

  lemma OneDigitMore(s: seq<Byte>, start: nat, k: nat)
    requires start <= k < |s| && AllDigits(s[start..k]) && IsDigit(s[k])
    ensures AllDigits(s[start..k + 1]) && Value(s[start..k + 1]) == 10 * Value(s[start..k]) + (s[k] - ZERO)
  {
    assert s[start..k + 1][..k - start] == s[start..k];
  }

  /** An unsigned word in a signed variable. */
  function Signed(word: nat): int
    requires word <= ULLONG_MAX
  {
    if word > LLONG_MAX then word - TWO64 else word
  }

  method String2ll(s: seq<Byte>) returns (r: Option<int>)
    ensures r == Parse(s)
  {
    var plen: nat, negative := 0, false;
    if plen == |s| {
      return None;
    }
    if |s| == 1 && s[0] == ZERO {
      assert s[..|s| - 1] == [] && Value([]) == 0;
      return Some(0);
    }
    if s[0] == MINUS {
      negative := true;
      plen := plen + 1;
      if plen == |s| {
        return None;
      }
    }
    ghost var start := plen;
    if !(ZERO < s[plen] <= NINE) {
      return None;
    }
    var v: nat := s[plen] - ZERO;
    OneDigitMore(s, start, plen);
    plen := plen + 1;
    while plen < |s| && IsDigit(s[plen])
      invariant start < plen <= |s| && AllDigits(s[start..plen])
      invariant v == Value(s[start..plen]) <= ULLONG_MAX
    {
      OneDigitMore(s, start, plen);
      if v > ULLONG_MAX / 10 {
        TooLarge(s, start, plen + 1);
        return None;
      }
      v := v * 10;
      if v > ULLONG_MAX - (s[plen] - ZERO) {
        TooLarge(s, start, plen + 1);
        return None;
      }
      v := v + (s[plen] - ZERO);
      plen := plen + 1;
    }
    if plen < |s| {
      assert negative ==> s[1..][plen - 1] == s[plen];
      return None;
    }
    assert s[start..plen] == s[start..] && (start == 0 ==> s[start..] == s);
    if negative {
      if v > LLONG_MAX + 1 {
        return None;
      }
      return Some(Signed((TWO64 - v) % TWO64));
    } else {
      if v > LLONG_MAX {
        return None;
      }
      return Some(v);
    }
  }

  // ------------------------------------------------------------------------------- the printers

  function Reversed(s: seq<Byte>): (r: seq<Byte>)
    ensures |r| == |s|
  {
    seq(|s|, i requires 0 <= i < |s| => s[|s| - 1 - i])
  }

  lemma ReversedSnoc(s: seq<Byte>, b: Byte)
    ensures Reversed(s + [b]) == [b] + Reversed(s)
  {
  }

  /** The first loop of the printers: the digits of an unsigned word, last one first. */
  method WriteReversed(s: array<Byte>, word: nat) returns (p: nat)
    requires word <= ULLONG_MAX && s.Length >= 20
    modifies s
    ensures p == |Digits(word)| <= s.Length && Reversed(s[..p]) == Digits(word)
  {
    var v := word;
    p := 0;
    WordsAreShort(word);
    var again := true;
    while again
      invariant again == (v > 0 || p == 0)
      invariant p + (if again then |Digits(v)| else 0) == |Digits(word)| <= s.Length
      invariant Digits(word) == (if again then Digits(v) else []) + Reversed(s[..p])
      decreases again, v
    {
      ghost var before := s[..p];
      s[p] := ZERO + v % 10;
      p := p + 1;
      assert s[..p] == before + [ZERO + v % 10];
      ReversedSnoc(before, ZERO + v % 10);
      v := v / 10;
      again := v > 0;
    }
  }

  /** The second loop: the first l bytes are turned round in place. */
  method Reverse(s: array<Byte>, l: nat)
    requires 0 < l <= s.Length
    modifies s
    ensures s[..l] == Reversed(old(s[..l])) && s[l..] == old(s[l..])
  {
    var a: nat, b: nat := 0, l - 1;
    while a < b
      invariant a <= b + 1 && a + b == l - 1
      invariant forall k | 0 <= k < a || b < k < l :: s[k] == old(s[l - 1 - k])
      invariant forall k | a <= k <= b || l <= k < s.Length :: s[k] == old(s[k])
    {
      s[a], s[b] := s[b], s[a];
      a, b := a + 1, b - 1;
    }
  }

  lemma NegatedWord(value: int)
    requires InRange(value)
    ensures value < 0 ==> -value % TWO64 == -value
  {
  }

  /** sdsll2str.  The smallest number's negation is taken modulo the word. */
  method Sdsll2str(s: array<Byte>, value: int) returns (l: nat)
    requires InRange(value) && s.Length >= LLSTR_SIZE
    modifies s
    ensures l < s.Length && s[..l] == Spell(value) && s[l] == 0
  {
    var v := if value < 0 then -value % TWO64 else value;
    NegatedWord(value);
    WordsAreShort(v);
    l := WriteReversed(s, v);
    ghost var digits := s[..l];
    if value < 0 {
      s[l] := MINUS;
      l := l + 1;
      ReversedSnoc(digits, MINUS);
      assert s[..l] == digits + [MINUS];
      digits := s[..l];
    }
    assert Reversed(digits) == if value < 0 then [MINUS] + Digits(v) else Digits(v);
    s[l] := 0;
    assert s[..l] == digits;
    Reverse(s, l);
    assert s[l..][0] == s[l];
  }

  /** sdsull2str. */
  method Sdsull2str(s: array<Byte>, v: nat) returns (l: nat)
    requires v <= ULLONG_MAX && s.Length >= LLSTR_SIZE
    modifies s
    ensures l < s.Length && s[..l] == Digits(v) && s[l] == 0
  {
    WordsAreShort(v);
    l := WriteReversed(s, v);
    s[l] := 0;
    Reverse(s, l);
    assert s[l..][0] == s[l];
  }

  // ------------------------------------------------------------------------------- countDigits

  lemma FourDigitsLess(v: nat)
    requires v >= 10000
    ensures |Digits(v)| == 4 + |Digits(v / 10000)|
  {
    assert v / 10 / 10 / 10 / 10 == v / 10000;
    assert |Digits(v)| == 1 + |Digits(v / 10)|;
    assert |Digits(v / 10)| == 1 + |Digits(v / 10 / 10)|;
    assert |Digits(v / 10 / 10)| == 1 + |Digits(v / 10 / 10 / 10)|;
  }

  lemma UpToFourDigits(v: nat)
    requires v < 10000
    ensures |Digits(v)| == if v < 10 then 1 else if v < 100 then 2 else if v < 1000 then 3 else 4
  {
    assert |Digits(v)| == 1 + if v < 10 then 0 else |Digits(v / 10)|;
    assert |Digits(v / 10)| == 1 + if v < 100 then 0 else |Digits(v / 10 / 10)|;
    assert |Digits(v / 10 / 10)| == 1 + if v < 1000 then 0 else |Digits(v / 10 / 10 / 10)|;
  }

  /** countDigits, four digits a round. */
  method CountDigits(number: nat) returns (result: nat)
    ensures result == |Digits(number)|
  {
    var v := number;
    result := 1;
    while v >= 10000
      invariant result + |Digits(v)| == 1 + |Digits(number)|
    {
      FourDigitsLess(v);
      v := v / 10000;
      result := result + 4;
    }
    UpToFourDigits(v);
    if v < 10 {
      return result;
    }
    if v < 100 {
      return result + 1;
    }
    if v < 1000 {
      return result + 2;
    }
    return result + 3;
  }
}
