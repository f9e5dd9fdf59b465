/**
 Strings in quotes and escapes, and lines that are split into arguments.  Characters are classified as in
 the C locale.
 */
module Split {
  import opened Bytes
  import opened Options

  predicate IsSpace(b: Byte) {
    TAB <= b <= CR || b == SPACE
  }

  predicate IsPrint(b: Byte) {
    32 <= b <= 126
  }

  predicate IsHexDigit(b: Byte) {
    48 <= b <= 57 || 65 <= b <= 70 || 97 <= b <= 102
  }

  /** hex_digit_to_int. */
  function HexDigitToInt(b: Byte): (n: nat)
    ensures n < 16
  {
    if 48 <= b <= 57 then b - 48 else if 97 <= b <= 102 then b - 87 else if 65 <= b <= 70 then b - 55 else 0
  }

  // --------------------------------------------------------------------------------- sdscatrepr

  /** The letters that stand for control characters behind a backslash. */
  function Letter(b: Byte): Option<Byte> {
    match b
    case 10 => Some(110)
    case 13 => Some(114)
    case 9 => Some(116)
    case 7 => Some(97)
    case 8 => Some(98)
    case _ => None
  }

  const X: Byte := 120

  function HexDigit(n: nat): (b: Byte)
    requires n < 16
    ensures IsHexDigit(b) && HexDigitToInt(b) == n
  {
    if n < 10 then 48 + n else 87 + n
  }

  function Escaped(b: Byte): seq<Byte> {
    if b == BACKSLASH || b == QUOTE then [BACKSLASH, b]
    else if Letter(b).Some? then [BACKSLASH, Letter(b).value]
    else if IsPrint(b) then [b]
    else [BACKSLASH, X, HexDigit(b / 16), HexDigit(b % 16)]
  }

  function AllEscaped(s: seq<Byte>): seq<Byte> {
    if s == [] then [] else Escaped(s[0]) + AllEscaped(s[1..])
  }

  function Repr(s: seq<Byte>): seq<Byte> {
    [QUOTE] + AllEscaped(s) + [QUOTE]
  }

  /** sdscatrepr. */
  method SdsCatRepr(s: seq<Byte>, p: seq<Byte>) returns (r: seq<Byte>)
    ensures r == s + Repr(p)
  {
    r := s + [QUOTE];
    for i := 0 to |p|
      invariant r + AllEscaped(p[i..]) == s + [QUOTE] + AllEscaped(p)
    {
      ghost var before := r;
      var b := p[i];
      if b == BACKSLASH || b == QUOTE {
        r := r + [BACKSLASH, b];
      } else if Letter(b).Some? {
        r := r + [BACKSLASH, Letter(b).value];
      } else if IsPrint(b) {
        r := r + [b];
      } else {
        r := r + [BACKSLASH, X, HexDigit(b / 16), HexDigit(b % 16)];
      }
      assert r == before + Escaped(b);
      assert p[i..][1..] == p[i + 1..];
      Associates(before, Escaped(b), AllEscaped(p[i + 1..]));
    }
    assert r + [] == r;
    r := r + [QUOTE];
    Associates(s, [QUOTE], AllEscaped(p));
    Associates(s, [QUOTE] + AllEscaped(p), [QUOTE]);
  }

  // ------------------------------------------------------------------------------- sdssplitargs

  datatype Mode = Plain | Quoted | Apostrophes

  /** An argument, and what is left behind it. */
  datatype Piece = Piece(text: seq<Byte>, rest: seq<Byte>)

  function WithText(text: seq<Byte>, p: Option<Piece>): Option<Piece> {
    if p.None? then None else Some(Piece(text + p.value.text, p.value.rest))
  }

  /** What a character means behind a backslash. */
  function Unescaped(b: Byte): Byte {
    match b
    case 110 => LF
    case 114 => CR
    case 116 => TAB
    case 98 => 8
    case 97 => 7
    case _ => b
  }

  predicate HexEscape(s: seq<Byte>) {
    |s| >= 4 && s[0] == BACKSLASH && s[1] == X && IsHexDigit(s[2]) && IsHexDigit(s[3])
  }

  /** A closing quote must be followed by a space or nothing at all. */
  predicate MayClose(s: seq<Byte>) {
    |s| < 2 || IsSpace(s[1])
  }

  predicate EndsPlain(b: Byte) {
    b == SPACE || b == LF || b == CR || b == TAB
  }

  /** The rest of an argument in double quotes. */
  function QuotedToken(s: seq<Byte>): (r: Option<Piece>)
    ensures r.Some? ==> |r.value.rest| < |s|
  {
    if s == [] then None
    else if HexEscape(s) then
      WithText([16 * HexDigitToInt(s[2]) + HexDigitToInt(s[3])], QuotedToken(s[4..]))
    else if s[0] == BACKSLASH && |s| > 1 then WithText([Unescaped(s[1])], QuotedToken(s[2..]))
    else if s[0] == QUOTE then (if MayClose(s) then Some(Piece([], s[1..])) else None)
    else WithText([s[0]], QuotedToken(s[1..]))
  }

  /** The rest of an argument in single quotes. */
  function ApostrophesToken(s: seq<Byte>): (r: Option<Piece>)
    ensures r.Some? ==> |r.value.rest| < |s|
  {
    if s == [] then None
    else if s[0] == BACKSLASH && |s| > 1 && s[1] == APOSTROPHE then WithText([APOSTROPHE], ApostrophesToken(s[2..]))
    else if s[0] == APOSTROPHE then (if MayClose(s) then Some(Piece([], s[1..])) else None)
    else WithText([s[0]], ApostrophesToken(s[1..]))
  }

  /** The rest of an argument that is not in quotes so far. */
  function PlainToken(s: seq<Byte>): (r: Option<Piece>)
    ensures r.Some? && s != [] ==> |r.value.rest| < |s|
    ensures r.Some? && s == [] ==> r.value.rest == []
  {
    if s == [] then Some(Piece([], []))
    else if EndsPlain(s[0]) then Some(Piece([], s[1..]))
    else if s[0] == QUOTE then QuotedToken(s[1..])
    else if s[0] == APOSTROPHE then ApostrophesToken(s[1..])
    else WithText([s[0]], PlainToken(s[1..]))
  }

  function Token(mode: Mode, s: seq<Byte>): Option<Piece> {
    match mode
    case Plain => PlainToken(s)
    case Quoted => QuotedToken(s)
    case Apostrophes => ApostrophesToken(s)
  }

  function SkipSpaces(s: seq<Byte>): (t: seq<Byte>)
    ensures |t| <= |s| && (t != [] ==> !IsSpace(t[0]))
  {
    if s == [] || !IsSpace(s[0]) then s else SkipSpaces(s[1..])
  }

  function WithArguments(args: seq<seq<Byte>>, more: Option<seq<seq<Byte>>>): Option<seq<seq<Byte>>> {
    if more.None? then None else Some(args + more.value)
  }

  /** The arguments in a line, or None for unbalanced quotes or a closing quote that text follows. */
  function Arguments(s: seq<Byte>): Option<seq<seq<Byte>>>
    decreases |s|
  {
    var t := SkipSpaces(s);
    if t == [] then Some([])
    else if PlainToken(t).None? then None
    else WithArguments([PlainToken(t).value.text], Arguments(PlainToken(t).value.rest))
  }

  /** The bytes in front of the terminator. */
  function CString(line: seq<Byte>): (s: seq<Byte>)
    ensures |s| <= |line| && s == line[..|s|] && 0 !in s
    ensures |s| < |line| ==> line[|s|] == 0
  {
    if line == [] || line[0] == 0 then [] else [line[0]] + CString(line[1..])
  }

  /** The string as C sees it at a position: its rest, up to the terminator. */
  ghost predicate AtString(b: seq<Byte>, s: seq<Byte>) {
    |s| < |b| && s == b[..|s|] && b[|s|] == 0 && 0 !in s
  }

  lemma CharacterAt(b: seq<Byte>, s: seq<Byte>, p: nat)
    requires AtString(b, s) && p <= |s|
    ensures b[p] != 0 <==> p < |s|
    ensures p < |s| ==> s[p..][0] == b[p] && s[p..][1..] == s[p + 1..] && b[p] in s
  {
  }

  /** One round of the loop within double quotes, at b[p]: what is appended, and how far it goes on. */
  method QuotedRound(b: seq<Byte>, p: nat, ghost s: seq<Byte>)
    returns (add: seq<Byte>, next: nat, done: bool, err: bool)
    requires AtString(b, s) && p <= |s|
    ensures err ==> QuotedToken(s[p..]) == None
    ensures !err ==> p < next <= |s|
    ensures !err && done ==> add == [] && QuotedToken(s[p..]) == Some(Piece([], s[next..]))
    ensures !err && !done ==> QuotedToken(s[p..]) == WithText(add, QuotedToken(s[next..]))
  {
    add, next, done, err := [], p + 1, false, false;
    Lookahead(b, s, p);
    if b[p] == BACKSLASH && b[p + 1] == X && IsHexDigit(b[p + 2]) && IsHexDigit(b[p + 3]) {
      add := [HexDigitToInt(b[p + 2]) * 16 + HexDigitToInt(b[p + 3])];
      next := p + 4;
    } else if b[p] == BACKSLASH && b[p + 1] != 0 {
      add := [Unescaped(b[p + 1])];
      next := p + 2;
    } else if b[p] == QUOTE {
      if b[p + 1] != 0 && !IsSpace(b[p + 1]) {
        err := true;
      } else {
        done := true;
      }
    } else if b[p] == 0 {
      err := true;
    } else {
      add := [b[p]];
    }
  }

  /** The characters from a position on are those of the string, as far as none is the terminator. */
  lemma Lookahead(b: seq<Byte>, s: seq<Byte>, p: nat)
    requires AtString(b, s) && p <= |s|
    ensures forall k | p <= k < |s| :: b[k] != 0 && s[p..][k - p] == b[k]
    ensures forall k | p <= k <= |s| :: s[p..][k - p..] == s[k..]
  {
    forall k | p <= k < |s|
      ensures b[k] != 0
    {
      assert s[k] in s;
    }
  }

  /** One round within single quotes. */
  method ApostrophesRound(b: seq<Byte>, p: nat, ghost s: seq<Byte>)
    returns (add: seq<Byte>, next: nat, done: bool, err: bool)
    requires AtString(b, s) && p <= |s|
    ensures err ==> ApostrophesToken(s[p..]) == None
    ensures !err ==> p < next <= |s|
    ensures !err && done ==> add == [] && ApostrophesToken(s[p..]) == Some(Piece([], s[next..]))
    ensures !err && !done ==> ApostrophesToken(s[p..]) == WithText(add, ApostrophesToken(s[next..]))
  {
    add, next, done, err := [], p + 1, false, false;
    Lookahead(b, s, p);
    if b[p] == BACKSLASH && b[p + 1] == APOSTROPHE {
      add := [APOSTROPHE];
      next := p + 2;
    } else if b[p] == APOSTROPHE {
      if b[p + 1] != 0 && !IsSpace(b[p + 1]) {
        err := true;
      } else {
        done := true;
      }
    } else if b[p] == 0 {
      err := true;
    } else {
      add := [b[p]];
    }
  }

  /** One argument, from its first character on. */
  method GetToken(b: seq<Byte>, start: nat, ghost s: seq<Byte>) returns (current: seq<Byte>, p: nat, err: bool)
    requires AtString(b, s) && start < |s|
    ensures err ==> PlainToken(s[start..]) == None
    ensures !err ==> start <= p <= |s| && PlainToken(s[start..]) == Some(Piece(current, s[p..]))
  {
    current, p, err := [], start, false;
    var mode, done := Plain, false;
    NothingAdded(PlainToken(s[start..]));
    while !done && !err
      invariant start <= p <= |s|
      invariant err ==> PlainToken(s[start..]) == None
      invariant !err && done ==> PlainToken(s[start..]) == Some(Piece(current, s[p..]))
      invariant !err && !done ==> PlainToken(s[start..]) == WithText(current, Token(mode, s[p..]))
      decreases |s| - p, !done && !err
    {
      var add, next: nat;
      if mode == Quoted {
        add, next, done, err := QuotedRound(b, p, s);
      } else if mode == Apostrophes {
        add, next, done, err := ApostrophesRound(b, p, s);
      } else {
        add, next, mode, done := PlainRound(b, p, s);
      }
      if !err {
        Appended(current, add, Token(mode, s[next..]));
        current, p := current + add, next;
      }
    }
  }

  lemma Appended(current: seq<Byte>, add: seq<Byte>, p: Option<Piece>)
    ensures WithText(current, WithText(add, p)) == WithText(current + add, p)
  {
    if p.Some? {
      Associates(current, add, p.value.text);
    }
  }

  /** One round outside of quotes. */
  method PlainRound(b: seq<Byte>, p: nat, ghost s: seq<Byte>)
    returns (add: seq<Byte>, next: nat, mode: Mode, done: bool)
    requires AtString(b, s) && p <= |s|
    ensures p <= next <= |s| && (next == p ==> done)
    ensures done ==> add == [] && PlainToken(s[p..]) == Some(Piece([], s[next..]))
    ensures !done ==> PlainToken(s[p..]) == WithText(add, Token(mode, s[next..]))
  {
    add, next, mode, done := [], p, Plain, false;
    Lookahead(b, s, p);
    if EndsPlain(b[p]) || b[p] == 0 {
      done := true;
    } else if b[p] == QUOTE {
      mode := Quoted;
    } else if b[p] == APOSTROPHE {
      mode := Apostrophes;
    } else {
      add := [b[p]];
    }
    if b[p] != 0 {
      next := p + 1;
    }
    NothingAdded(Token(mode, s[next..]));
  }

  lemma NothingAdded(p: Option<Piece>)
    ensures WithText([], p) == p
  {
    if p.Some? {
      assert [] + p.value.text == p.value.text;
    }
  }

  /** sdssplitargs.  No character behind the line's terminator is looked at. */
  method SdsSplitArgs(line: seq<Byte>) returns (vector: Option<seq<seq<Byte>>>)
    ensures vector == Arguments(CString(line))
  {
    var b := line + [0];
    ghost var s := CString(line);
    assert AtString(b, s);
    var p: nat := 0;
    var args: seq<seq<Byte>> := [];
    assert s[0..] == s;
    NoArguments(Arguments(s));
    while true
      invariant p <= |s| && Arguments(s) == WithArguments(args, Arguments(s[p..]))
      decreases |s| - p
    {
      var from := SkipBlanks(b, p, s);
      CharacterAt(b, s, from);
      if b[from] == 0 {
        assert s[from..] == [] && args + [] == args;
        return Some(args);
      }
      var current, next, err := GetToken(b, from, s);
      if err {
        return None;
      }
      MoreArguments(args, current, Arguments(s[next..]));
      assert |s[next..]| < |s[from..]|;
      args, p := args + [current], next;
    }
  }

  lemma NoArguments(more: Option<seq<seq<Byte>>>)
    ensures WithArguments([], more) == more
  {
    if more.Some? {
      assert [] + more.value == more.value;
    }
  }

  lemma MoreArguments(args: seq<seq<Byte>>, arg: seq<Byte>, more: Option<seq<seq<Byte>>>)
    ensures WithArguments(args, WithArguments([arg], more)) == WithArguments(args + [arg], more)
  {
    if more.Some? {
      assert args + ([arg] + more.value) == args + [arg] + more.value;
    }
  }

  method SkipBlanks(b: seq<Byte>, start: nat, ghost s: seq<Byte>) returns (p: nat)
    requires AtString(b, s) && start <= |s|
    ensures start <= p <= |s| && SkipSpaces(s[start..]) == s[p..]
  {
    p := start;
    CharacterAt(b, s, p);
    while b[p] != 0 && IsSpace(b[p])
      invariant start <= p <= |s| && SkipSpaces(s[start..]) == SkipSpaces(s[p..])
      invariant b[p] != 0 <==> p < |s|
      decreases |s| - p
    {
      CharacterAt(b, s, p);
      p := p + 1;
      CharacterAt(b, s, p);
    }
    CharacterAt(b, s, p);
  }

  // ------------------------------------------------------------------------------ there and back

  /** A line of quoted strings, one space apart. */
  function Joined(args: seq<seq<Byte>>): seq<Byte> {
    if args == [] then []
    else if |args| == 1 then Repr(args[0])
    else Repr(args[0]) + ([SPACE] + Joined(args[1..]))
  }

  lemma EscapedReadsBack(b: Byte, t: seq<Byte>)
    ensures QuotedToken(Escaped(b) + t) == WithText([b], QuotedToken(t))
  {
    var e := Escaped(b);
    assert (e + t)[|e|..] == t;
    assert b / 16 * 16 + b % 16 == b;
  }

  lemma {:induction false} QuotedReadsBack(a: seq<Byte>, rest: seq<Byte>)
    requires rest == [] || IsSpace(rest[0])
    ensures QuotedToken(AllEscaped(a) + ([QUOTE] + rest)) == Some(Piece(a, rest))
  {
    if a == [] {
      assert [] + ([QUOTE] + rest) == [QUOTE] + rest && ([QUOTE] + rest)[1..] == rest;
    } else {
      QuotedReadsBack(a[1..], rest);
      Associates(Escaped(a[0]), AllEscaped(a[1..]), [QUOTE] + rest);
      EscapedReadsBack(a[0], AllEscaped(a[1..]) + ([QUOTE] + rest));
      assert a == [a[0]] + a[1..];
    }
  }

  lemma ReprReadsBack(a: seq<Byte>, rest: seq<Byte>)
    requires rest == [] || IsSpace(rest[0])
    ensures Arguments(Repr(a) + rest) == WithArguments([a], Arguments(rest))
  {
    var s := [QUOTE] + (AllEscaped(a) + ([QUOTE] + rest));
    assert Repr(a) + rest == s;
    assert s[1..] == AllEscaped(a) + ([QUOTE] + rest);
    QuotedReadsBack(a, rest);
    assert SkipSpaces(s) == s;
    assert PlainToken(s) == Some(Piece(a, rest));
  }

  /** Splitting a line of quoted strings gives the strings, whatever bytes are in them. */
  lemma {:induction false} JoinedReadsBack(args: seq<seq<Byte>>)
    ensures Arguments(Joined(args)) == Some(args)
  {
    if |args| == 1 {
      ReprReadsBack(args[0], []);
      assert Repr(args[0]) + [] == Repr(args[0]);
      assert Arguments([]) == Some([]);
      assert args == [args[0]] + [];
    } else if |args| > 1 {
      var rest := [SPACE] + Joined(args[1..]);
      JoinedReadsBack(args[1..]);
      ReprReadsBack(args[0], rest);
      assert rest[1..] == Joined(args[1..]);
      assert Arguments(rest) == Arguments(Joined(args[1..]));
      assert args == [args[0]] + args[1..];
    }
  }

  /** There is nothing in such a line but printable characters, so that no terminator cuts it short. */
  lemma {:induction false} EscapedIsPrintable(s: seq<Byte>)
    ensures forall b | b in AllEscaped(s) :: IsPrint(b)
  {
    if s != [] {
      EscapedIsPrintable(s[1..]);
    }
  }

  lemma {:induction false} JoinedIsPrintable(args: seq<seq<Byte>>)
    ensures forall b | b in Joined(args) :: IsPrint(b)
  {
    if args != [] {
      EscapedIsPrintable(args[0]);
      JoinedIsPrintable(args[1..]);
    }
  }

  lemma {:induction false} NoTerminator(line: seq<Byte>)
    requires 0 !in line
    ensures CString(line) == line
  {
    if line != [] {
      NoTerminator(line[1..]);
    }
  }

  /** sdssplitargs undoes sdscatrepr. */
  lemma SplitUndoesRepr(args: seq<seq<Byte>>)
    ensures Arguments(CString(Joined(args))) == Some(args)
  {
    JoinedIsPrintable(args);
    NoTerminator(Joined(args));
    JoinedReadsBack(args);
  }
}
