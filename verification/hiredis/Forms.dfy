/**
 Replies as servers spell them: the two null forms of RESP2 and their likes, truth values in capitals, bulk strings
 with any two bytes behind them, in front of anything and inside aggregates at any depth; what is not there yet; and the
 error of each malformed header.  All in the bytes of the protocol.
 */
module Forms {
  import opened Bytes
  import opened Options
  import opened Decimal
  import opened Grammar
  import opened Session

  /** The first byte of an item. */
  function Mark(kind: Kind): char {
    match kind
    case Status => '+'
    case Error => '-'
    case Integer => ':'
    case Double => ','
    case Nil => '_'
    case Bool => '#'
    case Bignum => '('
    case String => '$'
    case Verb => '='
    case Array => '*'
    case Map => '%'
    case Set => '~'
    case Push => '>'
  }

  lemma MarkIsTypeByte(kind: Kind)
    ensures Mark(kind) as int == TypeByte(kind)
  {
  }

  datatype Form =
    | Usual(reply: Reply)
    | Null(kind: Kind)
    | Truth(letter: char)
    | Loose(kind: Kind, text: seq<Byte>, tail: seq<Byte>)
    | Group(kind: Kind, elements: seq<Form>)

  ghost predicate FormOk(f: Form, max: int)
    decreases f, 0
  {
    match f
    case Usual(reply) => Sendable(reply, max)
    case Null(kind) => kind.IsBulk() || kind.IsAggregate()
    case Truth(letter) => letter in "tTfF"
    case Loose(kind, text, tail) =>
      kind.IsBulk() && |text| <= LLONG_MAX && |tail| == 2 && (kind.Verb? ==> |text| >= 4 && text[3] == ':' as int)
    case Group(kind, elements) =>
      && kind.IsAggregate() && (kind.Map? ==> |elements| % 2 == 0)
      && Count(kind, |elements|) <= LLONG_MAX && (max > 0 ==> Count(kind, |elements|) <= max)
      && FormsOk(elements, max)
  }

  ghost predicate FormsOk(fs: seq<Form>, max: int)
    decreases fs
  {
    fs == [] || (FormOk(fs[0], max) && FormsOk(fs[1..], max))
  }

  /** The form on the wire. */
  function Spelt(f: Form): seq<Byte>
    decreases f, 0
  {
    match f
    case Usual(reply) => Written(reply)
    case Null(kind) => [TypeByte(kind)] + Ascii("-1\r\n")
    case Truth(letter) => Ascii("#") + [letter as int % 256] + Ascii("\r\n")
    case Loose(kind, text, tail) => [TypeByte(kind)] + Digits(|text|) + Ascii("\r\n") + text + tail
    case Group(kind, elements) =>
      [TypeByte(kind)] + Digits(Count(kind, |elements|)) + Ascii("\r\n") + AllSpelt(elements)
  }

  function AllSpelt(fs: seq<Form>): seq<Byte>
    decreases fs
  {
    if fs == [] then [] else Spelt(fs[0]) + AllSpelt(fs[1..])
  }

  /** The reply that it stands for. */
  function Meaning(f: Form): Reply
    decreases f, 0
  {
    match f
    case Usual(reply) => reply
    case Null(_) => NilReply
    case Truth(letter) => BoolReply(letter in "tT")
    case Loose(kind, text, _) => if kind.Verb? && |text| >= 4 then Verbatim(text[..3], text[4..]) else Text(kind, text)
    case Group(kind, elements) => Aggregate(kind, Meanings(elements))
  }

  function Meanings(fs: seq<Form>): (rs: seq<Reply>)
    ensures |rs| == |fs|
    decreases fs
  {
    if fs == [] then [] else [Meaning(fs[0])] + Meanings(fs[1..])
  }

  // ------------------------------------------------------------------------------ each form is read

  lemma EndOfLine()
    ensures Ascii("\r\n") == CRLF && Ascii("-1\r\n") == Spell(-1) + CRLF && |Ascii("-1\r\n")| == 4
  {
    assert Digits(1) == [49];
  }

  lemma NumberInHeader(n: int, rest: seq<Byte>, bad: ProtocolError)
    requires InRange(n)
    ensures Header(Spell(n) + CRLF + rest, bad) == Done(n, |Spell(n)| + 2)
  {
    SpeltIsSimple(n);
    SpeltIsParsed(n);
    SimpleLine(Spell(n), rest);
  }

  /** $-1, *-1 and the like, whatever comes behind them, are read as nil, with just their five bytes. */
  lemma NullIsRead(mark: char, rest: seq<Byte>, max: int)
    requires mark in "$=*%~>"
    ensures Item([mark as int] + Ascii("-1\r\n") + rest, max) == Done(NilReply, 5)
  {
    var kind := KindOf(mark as int).value;
    var s := Spell(-1) + CRLF + rest;
    EndOfLine();
    assert [mark as int] + Ascii("-1\r\n") + rest == [TypeByte(kind)] + s;
    NullBody(kind, rest, max);
    ItemOf(kind, s, max);
  }

  lemma NullBody(kind: Kind, rest: seq<Byte>, max: int)
    requires kind.IsBulk() || kind.IsAggregate()
    ensures Body(kind, Spell(-1) + CRLF + rest, max) == Done(NilReply, 4)
  {
    EndOfLine();
    NumberInHeader(-1, rest, if kind.IsBulk() then BadBulkLength else BadMultiBulkLength);
  }

  lemma TruthIsRead(letter: char, rest: seq<Byte>, max: int)
    requires letter in "tTfF"
    ensures Item(Ascii("#") + [letter as int] + Ascii("\r\n") + rest, max) == Done(BoolReply(letter in "tT"), 4)
  {
    EndOfLine();
    assert Ascii("#") + [letter as int] + Ascii("\r\n") + rest == Line(Bool, [letter as int]) + rest;
    LineReadsBack(Bool, [letter as int], rest, max);
  }

  /** The two bytes behind a bulk string may be any. */
  lemma LooseIsRead(kind: Kind, text: seq<Byte>, tail: seq<Byte>, rest: seq<Byte>, max: int)
    requires kind.IsBulk() && |text| <= LLONG_MAX && |tail| == 2 && (kind.Verb? ==> |text| >= 4 && text[3] == COLON)
    ensures var s := [TypeByte(kind)] + Digits(|text|) + CRLF + text + tail;
            Item(s + rest, max) == Done(StringOf(kind, text), |s|)
  {
    var s, n := Digits(|text|) + CRLF + (text + (tail + rest)), |Digits(|text|)| + 2;
    assert BulkItem(kind, s) == Done(StringOf(kind, text), n + |text| + 2) by {
      HeaderReadsBack(|text|, text + (tail + rest), BadBulkLength);
      assert s[n..n + |text|] == text;
      BulkBody(kind, text, s, n);
    }
    Regrouped([TypeByte(kind)], Digits(|text|), CRLF, text, tail + rest);
    assert [TypeByte(kind)] + Digits(|text|) + CRLF + text + tail + rest == [TypeByte(kind)] + s;
    ItemOf(kind, s, max);
  }

  /** An aggregate whose elements are read from their bytes is read itself. */
  lemma GroupIsRead(kind: Kind, rs: seq<Reply>, text: seq<Byte>, rest: seq<Byte>, max: int)
    requires kind.IsAggregate() && (kind.Map? ==> |rs| % 2 == 0)
    requires Count(kind, |rs|) <= LLONG_MAX && (max > 0 ==> Count(kind, |rs|) <= max)
    requires Elements(|rs|, text + rest, max) == Done(rs, |text|)
    ensures var s := [TypeByte(kind)] + Digits(Count(kind, |rs|)) + CRLF + text;
            Item(s + rest, max) == Done(Aggregate(kind, rs), |s|)
  {
    var count := Count(kind, |rs|);
    var s, n := Digits(count) + CRLF + (text + rest), |Digits(count)| + 2;
    assert Body(kind, s, max) == Done(Aggregate(kind, rs), n + |text|) by {
      HeaderReadsBack(count, text + rest, BadMultiBulkLength);
      assert s[n..] == text + rest;
      AggregateBody(kind, rs, s, n, |text|, max);
    }
    Regrouped([TypeByte(kind)], Digits(count), CRLF, text, rest);
    ItemOf(kind, s, max);
  }

  /** Whatever a reply's form, in front of anything and at any depth, it is read as that reply, with just its bytes. */
  lemma {:induction false} FormIsRead(f: Form, rest: seq<Byte>, max: int)
    requires FormOk(f, max)
    ensures Item(Spelt(f) + rest, max) == Done(Meaning(f), |Spelt(f)|)
    decreases f, 0
  {
    EndOfLine();
    match f {
      case Usual(reply) => ReadsBack(reply, rest, max);
      case Null(kind) =>
        MarkIsTypeByte(kind);
        NullIsRead(Mark(kind), rest, max);
      case Truth(letter) => TruthIsRead(letter, rest, max);
      case Loose(kind, text, tail) => LooseIsRead(kind, text, tail, rest, max);
      case Group(kind, elements) =>
        FormsAreRead(elements, rest, max);
        GroupIsRead(kind, Meanings(elements), AllSpelt(elements), rest, max);
    }
  }

  lemma {:induction false} FormsAreRead(fs: seq<Form>, rest: seq<Byte>, max: int)
    requires FormsOk(fs, max)
    ensures Elements(|fs|, AllSpelt(fs) + rest, max) == Done(Meanings(fs), |AllSpelt(fs)|)
    decreases fs
  {
    if fs != [] {
      var text, tail := Spelt(fs[0]), AllSpelt(fs[1..]) + rest;
      assert AllSpelt(fs) + rest == text + tail;
      FormIsRead(fs[0], tail, max);
      assert (text + tail)[|text|..] == tail;
      FormsAreRead(fs[1..], rest, max);
    }
  }

  /** A stream of replies in any forms, and what comes behind them. */
  lemma {:induction false} StreamIsRead(fs: seq<Form>, rest: seq<Byte>, max: int)
    requires FormsOk(fs, max)
    ensures AllReplies(AllSpelt(fs) + rest, max) == Prepended(Meanings(fs), AllReplies(rest, max))
    decreases fs
  {
    if fs == [] {
      assert [] + rest == rest && [] + AllReplies(rest, max).all == AllReplies(rest, max).all;
    } else {
      var text, tail := Spelt(fs[0]), AllSpelt(fs[1..]) + rest;
      assert AllSpelt(fs) + rest == text + tail;
      FormIsRead(fs[0], tail, max);
      assert (text + tail)[|text|..] == tail;
      StreamIsRead(fs[1..], rest, max);
      assert [Meaning(fs[0])] + (Meanings(fs[1..]) + AllReplies(rest, max).all)
          == [Meaning(fs[0])] + Meanings(fs[1..]) + AllReplies(rest, max).all;
    }
  }

  /** The line is this word, in capitals or not. */
  predicate SpellsWord(line: seq<Byte>, word: string)
    requires IsAscii(word)
  {
    && |line| == |word|
    && forall i | 0 <= i < |line| ::
         line[i] == word[i] as int || ('a' <= word[i] <= 'z' && line[i] == word[i] as int - 32)
  }

  /** Infinities and what is no number, in any mixture of capitals; and a finite number, which strtod knows. */
  lemma DoubleIsRead(line: seq<Byte>, rest: seq<Byte>, max: int)
    requires IsSimple(line)
    ensures var read := Item(Ascii(",") + line + Ascii("\r\n") + rest, max);
            && (SpellsWord(line, "inf") ==> read == Done(DoubleReply(Infinity, line), 6))
            && (SpellsWord(line, "-inf") ==> read == Done(DoubleReply(MinusInfinity, line), 7))
            && (SpellsWord(line, "nan") ==> read == Done(DoubleReply(NotANumber, line), 6))
            && (SpellsWord(line, "-nan") ==> read == Done(DoubleReply(NotANumber, line), 7))
  {
    EndOfLine();
    SimpleLine(line, rest);
    WordsDiffer(line);
    var s := line + CRLF + rest;
    assert Ascii(",") + line + Ascii("\r\n") + rest == [TypeByte(Double)] + s;
    ItemOf(Double, s, max);
  }

  lemma WordsDiffer(line: seq<Byte>)
    ensures SpellsWord(line, "inf") ==> SameIgnoringCase(line, INF)
    ensures SpellsWord(line, "-inf") ==> !SameIgnoringCase(line, INF) && SameIgnoringCase(line, [MINUS] + INF)
    ensures SpellsWord(line, "nan") ==>
              && !SameIgnoringCase(line, INF) && !SameIgnoringCase(line, [MINUS] + INF)
              && SameIgnoringCase(line, NAN)
    ensures SpellsWord(line, "-nan") ==>
              && !SameIgnoringCase(line, INF) && !SameIgnoringCase(line, [MINUS] + INF)
              && SameIgnoringCase(line, [MINUS] + NAN)
  {
    if SpellsWord(line, "nan") {
      assert line[0] == 110 || line[0] == 78;
    }
    if SpellsWord(line, "-nan") {
      assert line[1] == 110 || line[1] == 78;
    }
  }

  // ------------------------------------------------------------------------------ not there yet, or wrong

  /** As long as a byte of it is missing, a reply is waited for. */
  lemma PartIsWaitedFor(f: Form, part: seq<Byte>, max: int)
    requires FormOk(f, max) && part <= Spelt(f) && part != Spelt(f)
    ensures Item(part, max) == Need
  {
    FormIsRead(f, [], max);
    assert Spelt(f) + [] == Spelt(f);
    if Item(part, max) != Need {
      ItemStays(part, Spelt(f), max);
    }
  }

  /** An item that begins with none of the thirteen marks is an error, which names the byte. */
  lemma UnknownMarkFails(b: Byte, rest: seq<Byte>, max: int)
    requires forall kind :: Mark(kind) as int != b
    ensures Item([b] + rest, max) == Fail(BadReplyType(b))
  {
    KindHasMark(b);
  }

  lemma KindHasMark(b: Byte)
    ensures KindOf(b).Some? ==> Mark(KindOf(b).value) as int == b
  {
  }

  /** The line is no number of 64 bits in its one spelling: no sign but a minus, no zeros in front, nothing else. */
  ghost predicate SpellsNothing(line: seq<Byte>) {
    IsSimple(line) && forall n: int | InRange(n) :: line != Spell(n)
  }

  lemma SpellsNothingParses(line: seq<Byte>)
    requires SpellsNothing(line)
    ensures Parse(line) == None
  {
    if Parse(line).Some? {
      ParseIsInverse(line, Parse(line).value);
    }
  }

  /** The error of a line that should be a number. */
  function BadNumber(kind: Kind): ProtocolError
    requires kind.Integer? || kind.IsBulk() || kind.IsAggregate()
  {
    if kind.Integer? then BadInteger else if kind.IsBulk() then BadBulkLength else BadMultiBulkLength
  }

  /** An integer, and a header, whose line is no number. */
  lemma BadNumberFails(kind: Kind, line: seq<Byte>, rest: seq<Byte>, max: int)
    requires (kind.Integer? || kind.IsBulk() || kind.IsAggregate()) && SpellsNothing(line)
    ensures Item([Mark(kind) as int] + line + Ascii("\r\n") + rest, max) == Fail(BadNumber(kind))
  {
    MarkIsTypeByte(kind);
    EndOfLine();
    SpellsNothingParses(line);
    SimpleLine(line, rest);
    var s := line + CRLF + rest;
    assert [Mark(kind) as int] + line + Ascii("\r\n") + rest == [TypeByte(kind)] + s;
    ItemOf(kind, s, max);
  }

  /** A length below minus one. */
  lemma NegativeLengthFails(kind: Kind, n: int, rest: seq<Byte>, max: int)
    requires kind.IsBulk() && InRange(n) && n < -1
    ensures Item([Mark(kind) as int] + Spell(n) + Ascii("\r\n") + rest, max) == Fail(BulkLengthOutOfRange)
  {
    MarkIsTypeByte(kind);
    EndOfLine();
    NumberInHeader(n, rest, BadBulkLength);
    var s := Spell(n) + CRLF + rest;
    assert [Mark(kind) as int] + Spell(n) + Ascii("\r\n") + rest == [TypeByte(kind)] + s;
    ItemOf(kind, s, max);
  }

  /** The same in front of elements, and more elements than the reader lets pass. */
  lemma OutOfRangeFails(kind: Kind, n: int, rest: seq<Byte>, max: int)
    requires kind.IsAggregate() && InRange(n) && (n < -1 || 0 < max < n)
    ensures Item([Mark(kind) as int] + Spell(n) + Ascii("\r\n") + rest, max) == Fail(MultiBulkLengthOutOfRange)
  {
    MarkIsTypeByte(kind);
    EndOfLine();
    NumberInHeader(n, rest, BadMultiBulkLength);
    var s := Spell(n) + CRLF + rest;
    assert AggregateHeader(kind, s, max) == Fail(MultiBulkLengthOutOfRange);
    assert [Mark(kind) as int] + Spell(n) + Ascii("\r\n") + rest == [TypeByte(kind)] + s;
    ItemOf(kind, s, max);
  }

  /** A verbatim string without a type of three bytes and a colon. */
  lemma BadVerbatimFails(text: seq<Byte>, tail: seq<Byte>, rest: seq<Byte>, max: int)
    requires |text| <= LLONG_MAX && |tail| == 2 && (|text| < 4 || text[3] != ':' as int)
    ensures Item(Ascii("=") + Digits(|text|) + Ascii("\r\n") + text + tail + rest, max) == Fail(BadVerbatim)
  {
    EndOfLine();
    var s, n := Digits(|text|) + CRLF + (text + (tail + rest)), |Digits(|text|)| + 2;
    HeaderReadsBack(|text|, text + (tail + rest), BadBulkLength);
    assert |text| >= 4 ==> s[n + 3] == text[3];
    assert Ascii("=") == [TypeByte(Verb)];
    Regrouped([TypeByte(Verb)], Digits(|text|), CRLF, text, tail + rest);
    assert [TypeByte(Verb)] + Digits(|text|) + CRLF + text + tail + rest == [TypeByte(Verb)] + s;
    ItemOf(Verb, s, max);
  }

  /** A nil with something in its line, and a truth value that is none of the letters. */
  lemma BadLineFails(line: seq<Byte>, rest: seq<Byte>, max: int)
    requires IsSimple(line)
    ensures line != [] ==> Item(Ascii("_") + line + Ascii("\r\n") + rest, max) == Fail(BadNil)
    ensures |line| != 1 || line[0] !in Ascii("tTfF") + [0] ==>
              Item(Ascii("#") + line + Ascii("\r\n") + rest, max) == Fail(BadBool)
  {
    EndOfLine();
    SimpleLine(line, rest);
    var s := line + CRLF + rest;
    assert Ascii("_") + line + Ascii("\r\n") + rest == [TypeByte(Nil)] + s;
    ItemOf(Nil, s, max);
    assert Ascii("#") + line + Ascii("\r\n") + rest == [TypeByte(Bool)] + s;
    assert Ascii("tTfF") + [0] == [116, 84, 102, 70, 0];
    ItemOf(Bool, s, max);
  }

  /** Replies up to the first that is malformed, and its error: later bytes do not count. */
  lemma StreamEndsWithError(fs: seq<Form>, wrong: seq<Byte>, max: int)
    requires FormsOk(fs, max) && Item(wrong, max).Fail?
    ensures AllReplies(AllSpelt(fs) + wrong, max) == Replies(Meanings(fs), Some(Item(wrong, max).error))
  {
    StreamIsRead(fs, wrong, max);
    assert Meanings(fs) + [] == Meanings(fs);
  }
}
