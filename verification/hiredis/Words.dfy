/**
 Lines of arguments as people type them: plain words, words in double quotes with escapes, words in single quotes,
 with any blanks between them, and what is refused.
 */
module Words {
  import opened Bytes
  import opened Options
  import opened Split

  // ---------------------------------------------------------------------------- in double quotes

  /** How a byte may be written in double quotes: as it is, by two hexadecimal digits, behind a backslash. */
  datatype Unit = Itself(b: Byte) | Hex(high: Byte, low: Byte) | Behind(b: Byte)

  predicate UnitOk(u: Unit) {
    match u
    case Itself(b) => b != '"' as int && b != '\\' as int
    case Hex(high, low) => IsHexDigit(high) && IsHexDigit(low)
    case Behind(b) => b != 'x' as int
  }

  function UnitText(u: Unit): seq<Byte> {
    match u
    case Itself(b) => [b]
    case Hex(high, low) => ['\\' as int, 'x' as int, high, low]
    case Behind(b) => ['\\' as int, b]
  }

  /** The value of a hexadecimal digit, in either case. */
  function Nibble(b: Byte): (n: nat)
    requires IsHexDigit(b)
    ensures n < 16
  {
    if '0' as int <= b <= '9' as int then b - '0' as int
    else 10 + b - (if b < 'a' as int then 'A' as int else 'a' as int)
  }

  function UnitByte(u: Unit): Byte
    requires UnitOk(u)
  {
    match u
    case Itself(b) => b
    case Hex(high, low) => 16 * Nibble(high) + Nibble(low)
    case Behind(b) =>
      if b == 'n' as int then 10 else if b == 'r' as int then 13 else if b == 't' as int then 9
      else if b == 'b' as int then 8 else if b == 'a' as int then 7 else b
  }

  predicate UnitsOk(us: seq<Unit>) {
    forall i | 0 <= i < |us| :: UnitOk(us[i])
  }

  function UnitsText(us: seq<Unit>): seq<Byte> {
    if us == [] then [] else UnitText(us[0]) + UnitsText(us[1..])
  }

  function UnitsBytes(us: seq<Unit>): seq<Byte>
    requires UnitsOk(us)
  {
    if us == [] then [] else [UnitByte(us[0])] + UnitsBytes(us[1..])
  }

  lemma UnitIsRead(u: Unit, t: seq<Byte>)
    requires UnitOk(u)
    ensures QuotedToken(UnitText(u) + t) == WithText([UnitByte(u)], QuotedToken(t))
  {
    var s := UnitText(u) + t;
    assert s[|UnitText(u)|..] == t;
  }

  /** Units in front of anything. */
  lemma {:induction false} UnitsAreRead(us: seq<Unit>, t: seq<Byte>)
    requires UnitsOk(us)
    ensures QuotedToken(UnitsText(us) + t) == WithText(UnitsBytes(us), QuotedToken(t))
  {
    if us == [] {
      assert [] + t == t;
      NothingAdded(QuotedToken(t));
    } else {
      Associates(UnitText(us[0]), UnitsText(us[1..]), t);
      UnitIsRead(us[0], UnitsText(us[1..]) + t);
      UnitsAreRead(us[1..], t);
      Appended([UnitByte(us[0])], UnitsBytes(us[1..]), QuotedToken(t));
    }
  }

  /** What sdscatrepr writes for a byte is such a unit, and means that byte. */
  lemma EscapedIsUnit(b: Byte) returns (u: Unit)
    ensures UnitOk(u) && UnitText(u) == Escaped(b) && UnitByte(u) == b
  {
    if b == BACKSLASH || b == QUOTE {
      u := Behind(b);
    } else if Letter(b).Some? {
      u := Behind(Letter(b).value);
    } else if IsPrint(b) {
      u := Itself(b);
    } else {
      u := Hex(HexDigit(b / 16), HexDigit(b % 16));
      assert b / 16 * 16 + b % 16 == b;
    }
  }

  /** The form that sdscatrepr chooses: two signs and five control characters have one of their own, others are hex. */
  lemma EscapedLooks(b: Byte)
    ensures Escaped(b) ==
              if b == '"' as int then Ascii("\\\"") else if b == '\\' as int then Ascii("\\\\")
              else if b == 10 then Ascii("\\n") else if b == 13 then Ascii("\\r") else if b == 9 then Ascii("\\t")
              else if b == 7 then Ascii("\\a") else if b == 8 then Ascii("\\b")
              else if ' ' as int <= b <= '~' as int then [b]
              else Ascii("\\x") + [LowerHex(b / 16), LowerHex(b % 16)]
  {
  }

  function LowerHex(n: nat): Byte
    requires n < 16
  {
    if n < 10 then '0' as int + n else 'a' as int + (n - 10)
  }

  // ---------------------------------------------------------------------------- in single quotes

  /** A text with a backslash in front of each apostrophe. */
  function Guarded(text: seq<Byte>): seq<Byte> {
    if text == [] then []
    else (if text[0] == '\'' as int then ['\\' as int, '\'' as int] else [text[0]]) + Guarded(text[1..])
  }

  predicate EndsInBackslash(text: seq<Byte>) {
    text != [] && text[|text| - 1] == '\\' as int
  }

  lemma {:induction false} GuardedBegins(text: seq<Byte>)
    ensures text != [] ==> Guarded(text) != [] && Guarded(text)[0] != '\'' as int
  {
  }

  lemma PlainByteIsRead(b: Byte, t: seq<Byte>)
    requires b != APOSTROPHE && !(b == BACKSLASH && t != [] && t[0] == APOSTROPHE)
    ensures ApostrophesToken([b] + t) == WithText([b], ApostrophesToken(t))
  {
    assert ([b] + t)[1..] == t;
  }

  lemma GuardIsRead(t: seq<Byte>)
    ensures ApostrophesToken([BACKSLASH, APOSTROPHE] + t) == WithText([APOSTROPHE], ApostrophesToken(t))
  {
    assert ([BACKSLASH, APOSTROPHE] + t)[2..] == t;
  }

  /** In front of what follows a guarded text, unless a backslash at its end guards that. */
  lemma {:induction false} GuardedIsRead(text: seq<Byte>, t: seq<Byte>)
    requires EndsInBackslash(text) ==> t == [] || t[0] != APOSTROPHE
    ensures ApostrophesToken(Guarded(text) + t) == WithText(text, ApostrophesToken(t))
  {
    if text == [] {
      assert [] + t == t;
      NothingAdded(ApostrophesToken(t));
    } else {
      var b, more := text[0], text[1..];
      GuardedIsRead(more, t);
      GuardedBegins(more);
      if b == APOSTROPHE {
        Associates([BACKSLASH, APOSTROPHE], Guarded(more), t);
        GuardIsRead(Guarded(more) + t);
      } else {
        Associates([b], Guarded(more), t);
        PlainByteIsRead(b, Guarded(more) + t);
      }
      Appended([b], more, ApostrophesToken(t));
      assert text == [b] + more;
    }
  }

  // ---------------------------------------------------------------------------- arguments

  /** How an argument is written: a plain beginning, and perhaps the rest of it in quotes. */
  datatype Rest = NoQuotes | InDouble(units: seq<Unit>) | InSingle(text: seq<Byte>)

  /** An argument and the blanks behind it. */
  datatype Arg = Arg(plain: seq<Byte>, rest: Rest, blanks: seq<Byte>)

  predicate IsPlain(text: seq<Byte>) {
    forall i | 0 <= i < |text| :: !EndsPlain(text[i]) && text[i] != QUOTE && text[i] != APOSTROPHE
  }

  predicate AllSpaces(blanks: seq<Byte>) {
    forall i | 0 <= i < |blanks| :: IsSpace(blanks[i])
  }

  predicate RestOk(rest: Rest) {
    match rest
    case NoQuotes => true
    case InDouble(units) => UnitsOk(units)
    case InSingle(text) => !EndsInBackslash(text)
  }

  /** A vertical tab and a form feed are blanks, but do not end a plain word. */
  predicate ArgOk(a: Arg) {
    && IsPlain(a.plain) && RestOk(a.rest) && AllSpaces(a.blanks)
    && (a.plain != [] ==> !IsSpace(a.plain[0]))
    && (a.rest.NoQuotes? ==> a.plain != [] && (a.blanks != [] ==> EndsPlain(a.blanks[0])))
  }

  predicate ArgsOk(args: seq<Arg>) {
    forall i | 0 <= i < |args| :: ArgOk(args[i]) && (i < |args| - 1 ==> args[i].blanks != [])
  }

  function RestText(rest: Rest): seq<Byte> {
    match rest
    case NoQuotes => []
    case InDouble(units) => ['"' as int] + UnitsText(units) + ['"' as int]
    case InSingle(text) => ['\'' as int] + Guarded(text) + ['\'' as int]
  }

  function ArgText(a: Arg): seq<Byte> {
    a.plain + RestText(a.rest) + a.blanks
  }

  function Line(args: seq<Arg>): seq<Byte> {
    if args == [] then [] else ArgText(args[0]) + Line(args[1..])
  }

  function RestBytes(rest: Rest): seq<Byte>
    requires RestOk(rest)
  {
    match rest
    case NoQuotes => []
    case InDouble(units) => UnitsBytes(units)
    case InSingle(text) => text
  }

  function ArgBytes(a: Arg): seq<Byte>
    requires RestOk(a.rest)
  {
    a.plain + RestBytes(a.rest)
  }

  function Meant(args: seq<Arg>): seq<seq<Byte>>
    requires ArgsOk(args)
  {
    if args == [] then [] else [ArgBytes(args[0])] + Meant(args[1..])
  }

  lemma {:induction false} PlainIsRead(text: seq<Byte>, t: seq<Byte>)
    requires IsPlain(text)
    ensures PlainToken(text + t) == WithText(text, PlainToken(t))
  {
    if text == [] {
      assert [] + t == t;
      NothingAdded(PlainToken(t));
    } else {
      assert text + t == [text[0]] + (text[1..] + t);
      assert ([text[0]] + (text[1..] + t))[1..] == text[1..] + t;
      PlainIsRead(text[1..], t);
      Appended([text[0]], text[1..], PlainToken(t));
      assert text == [text[0]] + text[1..];
    }
  }

  lemma Closes(t: seq<Byte>)
    requires t == [] || IsSpace(t[0])
    ensures QuotedToken([QUOTE] + t) == Some(Piece([], t)) && ApostrophesToken([APOSTROPHE] + t) == Some(Piece([], t))
  {
    assert ([QUOTE] + t)[1..] == t && ([APOSTROPHE] + t)[1..] == t;
  }

  lemma Opens(s: seq<Byte>)
    ensures PlainToken([QUOTE] + s) == QuotedToken(s) && PlainToken([APOSTROPHE] + s) == ApostrophesToken(s)
  {
    assert ([QUOTE] + s)[1..] == s && ([APOSTROPHE] + s)[1..] == s;
  }

  lemma Regroup(q: seq<Byte>, body: seq<Byte>, t: seq<Byte>)
    ensures q + body + q + t == q + (body + (q + t))
  {
  }

  lemma RestIsRead(rest: Rest, t: seq<Byte>)
    requires RestOk(rest) && !rest.NoQuotes? && (t == [] || IsSpace(t[0]))
    ensures PlainToken(RestText(rest) + t) == Some(Piece(RestBytes(rest), t))
  {
    Closes(t);
    if rest.InDouble? {
      var body := UnitsText(rest.units);
      Regroup([QUOTE], body, t);
      Opens(body + ([QUOTE] + t));
      UnitsAreRead(rest.units, [QUOTE] + t);
    } else {
      var body := Guarded(rest.text);
      Regroup([APOSTROPHE], body, t);
      Opens(body + ([APOSTROPHE] + t));
      GuardedIsRead(rest.text, [APOSTROPHE] + t);
    }
    assert RestBytes(rest) + [] == RestBytes(rest);
  }

  lemma {:induction false} BlanksAreSkipped(blanks: seq<Byte>, t: seq<Byte>)
    requires AllSpaces(blanks)
    ensures Arguments(blanks + t) == Arguments(t)
  {
    SpacesAreSkipped(blanks, t);
  }

  lemma {:induction false} SpacesAreSkipped(blanks: seq<Byte>, t: seq<Byte>)
    requires AllSpaces(blanks)
    ensures SkipSpaces(blanks + t) == SkipSpaces(t)
  {
    if blanks == [] {
      assert [] + t == t;
    } else {
      assert (blanks + t)[1..] == blanks[1..] + t;
      SpacesAreSkipped(blanks[1..], t);
    }
  }

  /** One token, and where the line goes on: behind the one blank that ended it, if it ended in no quotes. */
  lemma TokenIsRead(a: Arg, t: seq<Byte>)
    requires ArgOk(a) && (a.blanks == [] ==> t == [])
    ensures var left := a.blanks + t;
            PlainToken(ArgText(a) + t)
            == Some(Piece(ArgBytes(a), if a.rest.NoQuotes? && left != [] then left[1..] else left))
  {
    var left := a.blanks + t;
    assert ArgText(a) + t == a.plain + (RestText(a.rest) + left);
    PlainIsRead(a.plain, RestText(a.rest) + left);
    if a.rest.NoQuotes? {
      assert RestText(a.rest) + left == left;
    } else {
      RestIsRead(a.rest, left);
    }
  }

  lemma ArgBegins(a: Arg, t: seq<Byte>)
    requires ArgOk(a)
    ensures ArgText(a) + t != [] && !IsSpace((ArgText(a) + t)[0])
  {
    if a.plain == [] {
      assert (ArgText(a) + t)[0] == RestText(a.rest)[0];
    } else {
      assert (ArgText(a) + t)[0] == a.plain[0];
    }
  }

  lemma ArgIsRead(a: Arg, t: seq<Byte>)
    requires ArgOk(a) && (a.blanks == [] ==> t == [])
    ensures Arguments(ArgText(a) + t) == WithArguments([ArgBytes(a)], Arguments(t))
  {
    var left := a.blanks + t;
    ArgBegins(a, t);
    TokenIsRead(a, t);
    BlanksAreSkipped(a.blanks, t);
    if a.rest.NoQuotes? && left != [] {
      assert left[1..] == a.blanks[1..] + t;
      BlanksAreSkipped(a.blanks[1..], t);
    }
  }

  /** Arguments in front of anything that begins a new one, or of nothing. */
  lemma {:induction false} ArgsAreRead(args: seq<Arg>, t: seq<Byte>)
    requires ArgsOk(args) && (args != [] && args[|args| - 1].blanks == [] ==> t == [])
    ensures Arguments(Line(args) + t) == WithArguments(Meant(args), Arguments(t))
  {
    if args == [] {
      assert [] + t == t;
      NoArguments(Arguments(t));
    } else {
      var a, more := args[0], args[1..];
      FirstArg(args, t);
      Associates(ArgText(a), Line(more), t);
      ArgIsRead(a, Line(more) + t);
      ArgsAreRead(more, t);
      JoinArguments([ArgBytes(a)], Meant(more), Arguments(t));
    }
  }

  /** Only the last argument may have no blanks behind it. */
  lemma FirstArg(args: seq<Arg>, t: seq<Byte>)
    requires ArgsOk(args) && args != [] && (args[|args| - 1].blanks == [] ==> t == [])
    ensures ArgOk(args[0]) && ArgsOk(args[1..])
    ensures args[0].blanks == [] ==> args[1..] == [] && Line(args[1..]) + t == []
    ensures args[1..] != [] && args[1..][|args[1..]| - 1].blanks == [] ==> t == []
  {
    if args[0].blanks == [] {
      assert |args| == 1;
    }
  }

  lemma JoinArguments(a: seq<seq<Byte>>, b: seq<seq<Byte>>, more: Option<seq<seq<Byte>>>)
    ensures WithArguments(a, WithArguments(b, more)) == WithArguments(a + b, more)
  {
    if more.Some? {
      assert a + (b + more.value) == a + b + more.value;
    }
  }

  /**
   A line of arguments in any mixture of the ways to write them, any blanks in front, between and behind, is split
   into just what they mean.
   */
  lemma LineIsSplit(blanks: seq<Byte>, args: seq<Arg>)
    requires AllSpaces(blanks) && ArgsOk(args)
    ensures Arguments(blanks + Line(args)) == Some(Meant(args))
  {
    BlanksAreSkipped(blanks, Line(args));
    assert Line(args) + [] == Line(args);
    ArgsAreRead(args, []);
    assert Arguments([]) == Some([]) && Meant(args) + [] == Meant(args);
  }

  // ---------------------------------------------------------------------------- what is refused

  /** What does not close refuses the line, whatever stands in front. */
  lemma RestRefused(blanks: seq<Byte>, args: seq<Arg>, plain: seq<Byte>, t: seq<Byte>)
    requires AllSpaces(blanks) && ArgsOk(args) && (args != [] ==> args[|args| - 1].blanks != [])
    requires IsPlain(plain) && t != [] && PlainToken(t) == None
    requires if plain == [] then !IsSpace(t[0]) else !IsSpace(plain[0])
    ensures Arguments(blanks + Line(args) + (plain + t)) == None
  {
    var end := plain + t;
    PlainIsRead(plain, t);
    assert end[0] == if plain == [] then t[0] else plain[0];
    TokenRefused(end);
    RefusedBehind(blanks, args, end);
  }

  lemma RefusedBehind(blanks: seq<Byte>, args: seq<Arg>, end: seq<Byte>)
    requires AllSpaces(blanks) && ArgsOk(args) && (args != [] ==> args[|args| - 1].blanks != [])
    requires Arguments(end) == None
    ensures Arguments(blanks + Line(args) + end) == None
  {
    Associates(blanks, Line(args), end);
    BlanksAreSkipped(blanks, Line(args) + end);
    ArgsAreRead(args, end);
  }

  lemma TokenRefused(s: seq<Byte>)
    requires s != [] && !IsSpace(s[0]) && PlainToken(s) == None
    ensures Arguments(s) == None
  {
  }

  lemma NeverCloses(units: seq<Unit>, text: seq<Byte>)
    requires UnitsOk(units)
    ensures PlainToken([QUOTE] + UnitsText(units)) == None && PlainToken([APOSTROPHE] + Guarded(text)) == None
  {
    Opens(UnitsText(units));
    Opens(Guarded(text));
    UnitsAreRead(units, []);
    GuardedIsRead(text, []);
    assert UnitsText(units) + [] == UnitsText(units) && Guarded(text) + [] == Guarded(text);
  }

  /** Quotes of either kind that are not closed; the last thing in the line may be a lone backslash. */
  lemma UnterminatedIsRefused(blanks: seq<Byte>, args: seq<Arg>, plain: seq<Byte>, units: seq<Unit>, text: seq<Byte>)
    requires AllSpaces(blanks) && ArgsOk(args) && (args != [] ==> args[|args| - 1].blanks != [])
    requires IsPlain(plain) && (plain != [] ==> !IsSpace(plain[0])) && UnitsOk(units)
    ensures Arguments(blanks + Line(args) + (plain + (['"' as int] + UnitsText(units)))) == None
    ensures Arguments(blanks + Line(args) + (plain + (['\'' as int] + Guarded(text)))) == None
  {
    NeverCloses(units, text);
    RestRefused(blanks, args, plain, [QUOTE] + UnitsText(units));
    RestRefused(blanks, args, plain, [APOSTROPHE] + Guarded(text));
  }

  lemma ClosesBadly(b: Byte, t: seq<Byte>)
    requires !IsSpace(b)
    ensures QuotedToken([QUOTE] + ([b] + t)) == None && ApostrophesToken([APOSTROPHE] + ([b] + t)) == None
  {
  }

  /** A closing quote of either kind with anything but a blank behind it. */
  lemma TextBehindQuotesIsRefused(blanks: seq<Byte>, args: seq<Arg>, plain: seq<Byte>, rest: Rest, b: Byte,
                                  t: seq<Byte>)
    requires AllSpaces(blanks) && ArgsOk(args) && (args != [] ==> args[|args| - 1].blanks != [])
    requires IsPlain(plain) && (plain != [] ==> !IsSpace(plain[0])) && RestOk(rest) && !rest.NoQuotes? && !IsSpace(b)
    ensures Arguments(blanks + Line(args) + (plain + (RestText(rest) + ([b] + t)))) == None
  {
    var left := [b] + t;
    ClosesBadly(b, t);
    if rest.InDouble? {
      var body := UnitsText(rest.units);
      Regroup([QUOTE], body, left);
      Opens(body + ([QUOTE] + left));
      UnitsAreRead(rest.units, [QUOTE] + left);
    } else {
      var body := Guarded(rest.text);
      Regroup([APOSTROPHE], body, left);
      Opens(body + ([APOSTROPHE] + left));
      GuardedIsRead(rest.text, [APOSTROPHE] + left);
    }
    RestRefused(blanks, args, plain, RestText(rest) + left);
  }

  /**
   In single quotes a text reads back exactly when it does not end in a backslash: that one would guard the closing
   quote.
   */
  lemma SingleQuotesExactlyWhen(text: seq<Byte>)
    ensures Arguments(RestText(InSingle(text))) == Some([text]) <==> !EndsInBackslash(text)
  {
    var line := ['\'' as int] + Guarded(text) + ['\'' as int];
    if EndsInBackslash(text) {
      GuardedBackslash(text);
      NeverCloses([], text[..|text| - 1] + ['\'' as int]);
      Opens(Guarded(text) + [APOSTROPHE]);
      assert line == [APOSTROPHE] + (Guarded(text) + [APOSTROPHE]);
    } else {
      RestIsRead(InSingle(text), []);
      assert line + [] == line && line[0] == APOSTROPHE && !IsSpace(line[0]);
      assert PlainToken(line) == Some(Piece(text, []));
      assert Arguments([]) == Some([]) && [text] + [] == [text];
    }
  }

  /** With its last byte a backslash, the guarded text and an apostrophe are the guarded form of another. */
  lemma {:induction false} GuardedBackslash(text: seq<Byte>)
    requires EndsInBackslash(text)
    ensures Guarded(text) + [APOSTROPHE] == Guarded(text[..|text| - 1] + [APOSTROPHE])
  {
    var other := text[..|text| - 1] + [APOSTROPHE];
    if |text| == 1 {
      assert other == [APOSTROPHE] && other[1..] == [] && text[1..] == [];
      assert Guarded(other) == [BACKSLASH, APOSTROPHE] + Guarded([]);
    } else {
      assert other[1..] == text[1..][..|text| - 2] + [APOSTROPHE];
      GuardedBackslash(text[1..]);
    }
  }
}
