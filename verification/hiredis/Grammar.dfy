/**
 The Redis serialization protocol as a recursive grammar: what the bytes in front of a reader mean.  A
 reply is complete, is wrong, or needs more bytes; which of these, later bytes cannot change.  Writing a
 reply down and reading it gives the reply back.
 */
module Grammar {
  import opened Bytes
  import opened Options
  import opened Decimal

  /** The REDIS_REPLY types, by the items that have them: lines, bulk strings, and aggregates. */
  datatype Kind =
    | Status | Error | Integer | Double | Nil | Bool | Bignum
    | String | Verb
    | Array | Map | Set | Push
  {
    predicate IsLine() {
      Status? || Error? || Integer? || Double? || Nil? || Bool? || Bignum?
    }

    predicate IsBulk() {
      String? || Verb?
    }

    predicate IsAggregate() {
      !IsLine() && !IsBulk()
    }
  }

  /** A double, with what strtod makes of a text left open. */
  datatype Number = Infinity | MinusInfinity | NotANumber | Finite(bits: nat)

  /** strtod: the finite number that all of the text stands for, if there is one. */
  const STRTOD: seq<Byte> -> Option<nat>

  /** A redisReply and what hangs on it; Missing is the null pointer of an element that is still to come. */
  datatype Reply =
    | Missing
    | Text(kind: Kind, text: seq<Byte>)
    | Verbatim(vtype: seq<Byte>, text: seq<Byte>)
    | IntegerReply(integer: int)
    | DoubleReply(dval: Number, text: seq<Byte>)
    | NilReply
    | BoolReply(truth: bool)
    | Aggregate(kind: Kind, elements: seq<Reply>)

  /** The protocol errors, by their messages. */
  datatype ProtocolError =
    | BadReplyType(byte: Byte)
    | BadInteger | DoubleTooLarge | BadDouble | BadNil | BadBool | BadBignum | BadSimpleString
    | BadBulkLength | BulkLengthOutOfRange | BadVerbatim
    | BadMultiBulkLength | MultiBulkLengthOutOfRange

  datatype Outcome<T> = Need | Fail(error: ProtocolError) | Done(value: T, used: nat)

  /** The same outcome, counted from an earlier place. */
  function Later<T>(o: Outcome<T>, n: nat): Outcome<T> {
    if o.Done? then Done(o.value, o.used + n) else o
  }

  // ------------------------------------------------------------------------------------- lines

  predicate NewlineAt(s: seq<Byte>, i: int) {
    0 <= i < |s| - 1 && s[i] == CR && s[i + 1] == LF
  }

  /** Where the first carriage return with a line feed behind it is. */
  function Newline(s: seq<Byte>): (r: Option<nat>)
    ensures r.Some? ==> NewlineAt(s, r.value) && forall i | 0 <= i < r.value :: !NewlineAt(s, i)
    ensures r.None? ==> forall i :: !NewlineAt(s, i)
  {
    if |s| < 2 then None
    else if NewlineAt(s, 0) then Some(0)
    else
      var r := Newline(s[1..]);
      assert forall i | i > 0 :: NewlineAt(s, i) == NewlineAt(s[1..], i - 1);
      if r.Some? then Some(r.value + 1) else None
  }

  lemma NewlineStays(s: seq<Byte>, u: seq<Byte>)
    requires s <= u && Newline(s).Some?
    ensures Newline(u) == Newline(s)
  {
    var k := Newline(s).value;
    assert forall i | 0 <= i < |s| - 1 :: NewlineAt(u, i) == NewlineAt(s, i);
  }

  lemma NewlineIs(s: seq<Byte>, k: nat)
    requires NewlineAt(s, k) && forall i | 0 <= i < k :: !NewlineAt(s, i)
    ensures Newline(s) == Some(k)
  {
  }

  function Lower(b: Byte): Byte {
    if 65 <= b <= 90 then b + 32 else b
  }

  /** strcasecmp with a text in lower case. */
  predicate SameIgnoringCase(s: seq<Byte>, t: seq<Byte>) {
    |s| == |t| && forall i | 0 <= i < |s| :: Lower(s[i]) == t[i]
  }

  const INF: seq<Byte> := [105, 110, 102]
  const NAN: seq<Byte> := [110, 97, 110]

  /** The size of the buffer that a double is copied to, with a terminator. */
  const DOUBLE_BUF := 326

  function DoubleOf(line: seq<Byte>): Option<Number> {
    if SameIgnoringCase(line, INF) then Some(Infinity)
    else if SameIgnoringCase(line, [MINUS] + INF) then Some(MinusInfinity)
    else if SameIgnoringCase(line, NAN) || SameIgnoringCase(line, [MINUS] + NAN) then Some(NotANumber)
    else if line == [] || line[0] == 0 || STRTOD(line).None? then None
    else Some(Finite(STRTOD(line).value))
  }

  const TRUES: seq<Byte> := [116, 84]

  /** strchr also finds the terminator of the string it looks in. */
  const BOOLS: seq<Byte> := [116, 84, 102, 70, 0]

  predicate BignumDigit(line: seq<Byte>, i: nat)
    requires i < |line|
  {
    IsDigit(line[i]) || (i == 0 && line[i] == MINUS)
  }

  predicate IsBignum(line: seq<Byte>) {
    forall i | 0 <= i < |line| :: BignumDigit(line, i)
  }

  predicate IsSimple(line: seq<Byte>) {
    forall i | 0 <= i < |line| :: line[i] != CR && line[i] != LF
  }

  datatype Content = Good(reply: Reply) | Bad(error: ProtocolError)

  /** What a line says. */
  function LineContent(kind: Kind, line: seq<Byte>): (c: Content)
    requires kind.IsLine()
    ensures c.Good? ==> !c.reply.Missing?
  {
    match kind
    case Integer => if Parse(line).Some? then Good(IntegerReply(Parse(line).value)) else Bad(BadInteger)
    case Double =>
      if |line| >= DOUBLE_BUF then Bad(DoubleTooLarge)
      else if DoubleOf(line).Some? then Good(DoubleReply(DoubleOf(line).value, line))
      else Bad(BadDouble)
    case Nil => if line == [] then Good(NilReply) else Bad(BadNil)
    case Bool => if |line| == 1 && line[0] in BOOLS then Good(BoolReply(line[0] in TRUES)) else Bad(BadBool)
    case Bignum => if IsBignum(line) then Good(Text(Bignum, line)) else Bad(BadBignum)
    case _ => if IsSimple(line) then Good(Text(kind, line)) else Bad(BadSimpleString)
  }

  // ------------------------------------------------------------------------------ the grammar

  function KindOf(b: Byte): Option<Kind> {
    match b
    case 45 => Some(Error)
    case 43 => Some(Status)
    case 58 => Some(Integer)
    case 44 => Some(Double)
    case 95 => Some(Nil)
    case 36 => Some(String)
    case 42 => Some(Array)
    case 37 => Some(Map)
    case 126 => Some(Set)
    case 35 => Some(Bool)
    case 61 => Some(Verb)
    case 62 => Some(Push)
    case 40 => Some(Bignum)
    case _ => None
  }

  const COLON: Byte := 58

  /** The length in front of a bulk string or an aggregate, and where it ends. */
  function Header(s: seq<Byte>, bad: ProtocolError): (r: Outcome<int>)
    ensures r.Done? ==> 2 <= r.used <= |s|
  {
    match Newline(s)
    case None => Need
    case Some(k) => if Parse(s[..k]).Some? then Done(Parse(s[..k]).value, k + 2) else Fail(bad)
  }

  function LineItem(kind: Kind, s: seq<Byte>): (r: Outcome<Reply>)
    requires kind.IsLine()
    ensures r.Done? ==> 2 <= r.used <= |s| && !r.value.Missing?
  {
    match Newline(s)
    case None => Need
    case Some(k) =>
      match LineContent(kind, s[..k])
      case Good(reply) => Done(reply, k + 2)
      case Bad(error) => Fail(error)
  }

  function StringOf(kind: Kind, text: seq<Byte>): Reply
    requires kind.IsBulk() && (kind.Verb? ==> |text| >= 4)
  {
    if kind.Verb? then Verbatim(text[..3], text[4..]) else Text(kind, text)
  }

  /** What a bulk string with a header of n bytes and a body of len bytes says, once it is all there. */
  function BulkContent(kind: Kind, s: seq<Byte>, n: nat, len: nat): (r: Outcome<Reply>)
    requires kind.IsBulk() && n <= |s|
    ensures r.Done? ==> r.used == n + len + 2 <= |s| && !r.value.Missing?
  {
    if |s| < n + len + 2 then Need
    else if kind.Verb? && (len < 4 || s[n + 3] != COLON) then Fail(BadVerbatim)
    else Done(StringOf(kind, s[n..n + len]), n + len + 2)
  }

  /** The two bytes behind a bulk string are passed over, whatever they are. */
  function BulkItem(kind: Kind, s: seq<Byte>): (r: Outcome<Reply>)
    requires kind.IsBulk()
    ensures r.Done? ==> 2 <= r.used <= |s| && !r.value.Missing?
  {
    match Header(s, BadBulkLength)
    case Need => Need
    case Fail(e) => Fail(e)
    case Done(len, n) =>
      if len < -1 then Fail(BulkLengthOutOfRange)
      else if len == -1 then Done(NilReply, n)
      else BulkContent(kind, s, n, len)
  }

  /** How many items follow an aggregate's header, or -1 for nil; max is the reader's maxelements. */
  function AggregateHeader(kind: Kind, s: seq<Byte>, max: int): (r: Outcome<int>)
    ensures r.Done? ==> 2 <= r.used <= |s| && r.value >= -1
  {
    match Header(s, BadMultiBulkLength)
    case Need => Need
    case Fail(e) => Fail(e)
    case Done(n, used) =>
      if n < -1 || (max > 0 && n > max) then Fail(MultiBulkLengthOutOfRange)
      else Done(if n > 0 && kind.Map? then 2 * n else n, used)
  }

  /** Elements become an aggregate, behind a header of so many bytes. */
  function Boxed(kind: Kind, elements: Outcome<seq<Reply>>, used: nat): Outcome<Reply> {
    match elements
    case Need => Need
    case Fail(e) => Fail(e)
    case Done(rs, more) => Done(Aggregate(kind, rs), used + more)
  }

  /** An element of so many bytes, and others behind it. */
  function Joined(first: Reply, others: Outcome<seq<Reply>>, used: nat): Outcome<seq<Reply>> {
    match others
    case Need => Need
    case Fail(e) => Fail(e)
    case Done(rs, more) => Done([first] + rs, used + more)
  }

  /** An item whose type byte has been read. */
  function Body(kind: Kind, s: seq<Byte>, max: int): (r: Outcome<Reply>)
    ensures r.Done? ==> 2 <= r.used <= |s| && !r.value.Missing?
    decreases |s|, 1, 0
  {
    if kind.IsLine() then LineItem(kind, s)
    else if kind.IsBulk() then BulkItem(kind, s)
    else
      match AggregateHeader(kind, s, max)
      case Need => Need
      case Fail(e) => Fail(e)
      case Done(n, used) =>
        if n == -1 then Done(NilReply, used) else Boxed(kind, Elements(n, s[used..], max), used)
  }

  /** An item: a type byte, and what that type asks for. */
  function Item(s: seq<Byte>, max: int): (r: Outcome<Reply>)
    ensures r.Done? ==> 3 <= r.used <= |s| && !r.value.Missing?
    decreases |s|, 2, 0
  {
    if s == [] then Need
    else if KindOf(s[0]).None? then Fail(BadReplyType(s[0]))
    else Later(Body(KindOf(s[0]).value, s[1..], max), 1)
  }

  /** So many items in a row. */
  function Elements(n: nat, s: seq<Byte>, max: int): (r: Outcome<seq<Reply>>)
    ensures r.Done? ==> r.used <= |s| && |r.value| == n
    decreases |s|, 3, n
  {
    if n == 0 then Done([], 0)
    else
      match Item(s, max)
      case Need => Need
      case Fail(e) => Fail(e)
      case Done(first, used) => Joined(first, Elements(n - 1, s[used..], max), used)
  }

  // ------------------------------------------------------------- more bytes change no decision

  lemma HeaderStays(s: seq<Byte>, u: seq<Byte>, bad: ProtocolError)
    requires s <= u && Header(s, bad) != Need
    ensures Header(u, bad) == Header(s, bad)
  {
    NewlineStays(s, u);
    var k := Newline(s).value;
    assert u[..k] == s[..k];
  }

  lemma LineItemStays(kind: Kind, s: seq<Byte>, u: seq<Byte>)
    requires s <= u && kind.IsLine() && LineItem(kind, s) != Need
    ensures LineItem(kind, u) == LineItem(kind, s)
  {
    NewlineStays(s, u);
    var k := Newline(s).value;
    assert u[..k] == s[..k];
  }

  lemma BulkItemStays(kind: Kind, s: seq<Byte>, u: seq<Byte>)
    requires s <= u && kind.IsBulk() && BulkItem(kind, s) != Need
    ensures BulkItem(kind, u) == BulkItem(kind, s)
  {
    HeaderStays(s, u, BadBulkLength);
    var h := Header(s, BadBulkLength);
    if h.Done? && h.value >= 0 {
      assert u[h.used..h.used + h.value] == s[h.used..h.used + h.value];
    }
  }

  lemma {:induction false} BodyStays(kind: Kind, s: seq<Byte>, u: seq<Byte>, max: int)
    requires s <= u && Body(kind, s, max) != Need
    ensures Body(kind, u, max) == Body(kind, s, max)
    decreases |s|, 1, 0
  {
    if kind.IsLine() {
      LineItemStays(kind, s, u);
    } else if kind.IsBulk() {
      BulkItemStays(kind, s, u);
    } else {
      HeaderStays(s, u, BadMultiBulkLength);
      var h := AggregateHeader(kind, s, max);
      if h.Done? && h.value >= 0 {
        ElementsStay(h.value, s[h.used..], u[h.used..], max);
      }
    }
  }

  lemma {:induction false} ItemStays(s: seq<Byte>, u: seq<Byte>, max: int)
    requires s <= u && Item(s, max) != Need
    ensures Item(u, max) == Item(s, max)
    decreases |s|, 2, 0
  {
    if KindOf(s[0]).Some? {
      BodyStays(KindOf(s[0]).value, s[1..], u[1..], max);
    }
  }

  lemma {:induction false} ElementsStay(n: nat, s: seq<Byte>, u: seq<Byte>, max: int)
    requires s <= u && Elements(n, s, max) != Need
    ensures Elements(n, u, max) == Elements(n, s, max)
    decreases |s|, 3, n
  {
    if n > 0 {
      ItemStays(s, u, max);
      SomeElementsStay(n - 1, s, u, Item(s, max), max);
    }
  }

  lemma {:induction false} SomeElementsStay(m: nat, s: seq<Byte>, u: seq<Byte>, first: Outcome<Reply>, max: int)
    requires s <= u && first == Item(s, max) == Item(u, max) && Elements(m + 1, s, max) != Need
    ensures Elements(m + 1, u, max) == Elements(m + 1, s, max)
    decreases |s|, 2, 1
  {
    if first.Done? {
      OthersDecided(m, s, first, max);
      BehindPrefix(s, u, first.used);
      OthersStay(m, s, u, first, s[first.used..], u[first.used..], max);
    } else {
      ElementsFailed(m, s, first, max);
      ElementsFailed(m, u, first, max);
    }
  }

  lemma {:induction false} OthersStay(m: nat, s: seq<Byte>, u: seq<Byte>, first: Outcome<Reply>, rest: seq<Byte>,
                                      rest': seq<Byte>, max: int)
    requires first == Item(s, max) == Item(u, max) && first.Done? && |rest| < |s|
    requires rest == s[first.used..] && rest' == u[first.used..] && rest <= rest' && Elements(m, rest, max) != Need
    ensures Elements(m + 1, u, max) == Elements(m + 1, s, max)
    decreases |s|, 0, 0
  {
    ElementsStay(m, rest, rest', max);
    SameOthers(m, s, u, first, rest, rest', max);
  }

  lemma BehindPrefix(s: seq<Byte>, u: seq<Byte>, n: nat)
    requires s <= u && n <= |s|
    ensures s[n..] <= u[n..]
  {
  }

  lemma ElementsFailed(m: nat, s: seq<Byte>, first: Outcome<Reply>, max: int)
    requires first == Item(s, max) && !first.Done?
    ensures Elements(m + 1, s, max) == if first.Need? then Need else Fail(first.error)
  {
  }

  lemma OthersDecided(m: nat, s: seq<Byte>, first: Outcome<Reply>, max: int)
    requires first == Item(s, max) && first.Done? && Elements(m + 1, s, max) != Need
    ensures Elements(m, s[first.used..], max) != Need
  {
  }

  lemma SameOthers(m: nat, s: seq<Byte>, u: seq<Byte>, first: Outcome<Reply>, rest: seq<Byte>, rest': seq<Byte>,
                   max: int)
    requires first == Item(s, max) == Item(u, max) && first.Done?
    requires rest == s[first.used..] && rest' == u[first.used..]
    requires Elements(m, rest', max) == Elements(m, rest, max)
    ensures Elements(m + 1, u, max) == Elements(m + 1, s, max)
  {
  }

  // ------------------------------------------------------------------------ writing it down

  const CRLF: seq<Byte> := [CR, LF]

  function TypeByte(kind: Kind): (b: Byte)
    ensures KindOf(b) == Some(kind)
  {
    match kind
    case Error => 45
    case Status => 43
    case Integer => 58
    case Double => 44
    case Nil => 95
    case String => 36
    case Array => 42
    case Map => 37
    case Set => 126
    case Bool => 35
    case Verb => 61
    case Push => 62
    case Bignum => 40
  }

  function Line(kind: Kind, line: seq<Byte>): seq<Byte> {
    [TypeByte(kind)] + line + CRLF
  }

  function Bulk(kind: Kind, text: seq<Byte>): seq<Byte> {
    Line(kind, Digits(|text|)) + text + CRLF
  }

  /** A reply on the wire. */
  function Written(r: Reply): seq<Byte>
    decreases r, 0
  {
    match r
    case Missing => []
    case Text(kind, text) => if kind.String? then Bulk(kind, text) else Line(kind, text)
    case Verbatim(vtype, text) => Bulk(Verb, vtype + [COLON] + text)
    case IntegerReply(n) => Line(Integer, Spell(n))
    case DoubleReply(_, text) => Line(Double, text)
    case NilReply => Line(Nil, [])
    case BoolReply(b) => Line(Bool, [if b then 116 else 102])
    case Aggregate(kind, elements) => Line(kind, Digits(Count(kind, |elements|))) + AllWritten(elements)
  }

  /** An aggregate's header counts a map's pairs. */
  function Count(kind: Kind, n: nat): nat {
    if kind.Map? then n / 2 else n
  }

  function AllWritten(rs: seq<Reply>): seq<Byte>
    decreases rs
  {
    if rs == [] then [] else Written(rs[0]) + AllWritten(rs[1..])
  }

  /** A reply that the protocol can carry to a reader with this limit on elements. */
  ghost predicate Sendable(r: Reply, max: int)
    decreases r, 0
  {
    match r
    case Missing => false
    case Text(kind, text) =>
      match kind {
        case String => |text| <= LLONG_MAX
        case Bignum => IsBignum(text)
        case Status => IsSimple(text)
        case Error => IsSimple(text)
        case _ => false
      }
    case Verbatim(vtype, text) => |vtype| == 3 && |text| + 4 <= LLONG_MAX
    case IntegerReply(n) => InRange(n)
    case DoubleReply(d, text) => |text| < DOUBLE_BUF && IsSimple(text) && DoubleOf(text) == Some(d)
    case NilReply => true
    case BoolReply(_) => true
    case Aggregate(kind, elements) =>
      && kind.IsAggregate() && (kind.Map? ==> |elements| % 2 == 0)
      && Count(kind, |elements|) <= LLONG_MAX && (max > 0 ==> Count(kind, |elements|) <= max)
      && AllSendable(elements, max)
  }

  ghost predicate AllSendable(rs: seq<Reply>, max: int)
    decreases rs
  {
    rs == [] || (Sendable(rs[0], max) && AllSendable(rs[1..], max))
  }

  lemma SimpleLine(line: seq<Byte>, rest: seq<Byte>)
    requires IsSimple(line)
    ensures Newline(line + CRLF + rest) == Some(|line|) && (line + CRLF + rest)[..|line|] == line
  {
    var s := line + CRLF + rest;
    assert s[|line|] == CR && s[|line| + 1] == LF;
    forall i | 0 <= i < |line|
      ensures !NewlineAt(s, i)
    {
      assert s[i] == line[i];
    }
    NewlineIs(s, |line|);
  }

  lemma {:induction false} DigitsAreSimple(v: nat)
    ensures IsSimple(Digits(v)) && AllDigits(Digits(v))
  {
    DigitsAreNumeral(v);
  }

  lemma LineReadsBack(kind: Kind, line: seq<Byte>, rest: seq<Byte>, max: int)
    requires kind.IsLine() && IsSimple(line) && LineContent(kind, line).Good?
    ensures Item(Line(kind, line) + rest, max) == Done(LineContent(kind, line).reply, |Line(kind, line)|)
  {
    SimpleLine(line, rest);
    var s := Line(kind, line) + rest;
    assert s[1..] == line + CRLF + rest;
  }

  lemma HeaderReadsBack(n: nat, rest: seq<Byte>, bad: ProtocolError)
    requires n <= LLONG_MAX
    ensures Header(Digits(n) + CRLF + rest, bad) == Done(n, |Digits(n)| + 2)
  {
    DigitsAreSimple(n);
    SimpleLine(Digits(n), rest);
    SpeltIsParsed(n);
  }

  lemma BulkReadsBack(kind: Kind, text: seq<Byte>, rest: seq<Byte>, max: int)
    requires kind.IsBulk() && |text| <= LLONG_MAX && (kind.Verb? ==> |text| >= 4 && text[3] == COLON)
    ensures Item(Bulk(kind, text) + rest, max) == Done(StringOf(kind, text), |Bulk(kind, text)|)
  {
    var s, n := Digits(|text|) + CRLF + (text + CRLF + rest), |Digits(|text|)| + 2;
    assert BulkItem(kind, s) == Done(StringOf(kind, text), n + |text| + 2) by {
      HeaderReadsBack(|text|, text + CRLF + rest, BadBulkLength);
      assert s[n..n + |text|] == text;
      BulkBody(kind, text, s, n);
    }
    BulkOnTheWire(kind, text, rest);
    ItemOf(kind, s, max);
  }

  lemma BulkOnTheWire(kind: Kind, text: seq<Byte>, rest: seq<Byte>)
    ensures Bulk(kind, text) + rest == [TypeByte(kind)] + (Digits(|text|) + CRLF + (text + CRLF + rest))
    ensures |Bulk(kind, text)| == |Digits(|text|)| + |text| + 5
  {
    Regrouped([TypeByte(kind)], Digits(|text|), CRLF, text, CRLF + rest);
    assert Bulk(kind, text) + rest == Line(kind, Digits(|text|)) + text + (CRLF + rest);
    assert text + CRLF + rest == text + (CRLF + rest);
  }

  lemma Regrouped(a: seq<Byte>, b: seq<Byte>, c: seq<Byte>, d: seq<Byte>, e: seq<Byte>)
    ensures a + b + c + d + e == a + (b + c + (d + e))
  {
  }

  lemma BulkBody(kind: Kind, text: seq<Byte>, s: seq<Byte>, n: nat)
    requires kind.IsBulk() && (kind.Verb? ==> |text| >= 4 && text[3] == COLON)
    requires Header(s, BadBulkLength) == Done(|text|, n)
    requires n + |text| + 2 <= |s| && s[n..n + |text|] == text
    ensures BulkItem(kind, s) == Done(StringOf(kind, text), n + |text| + 2)
  {
    assert kind.Verb? ==> s[n + 3] == text[3];
  }

  /** A reply that is written down is read back, with nothing of what follows it. */
  lemma {:induction false} ReadsBack(r: Reply, rest: seq<Byte>, max: int)
    requires Sendable(r, max)
    ensures Item(Written(r) + rest, max) == Done(r, |Written(r)|)
    decreases r, 0
  {
    match r
    case Text(kind, text) =>
      if kind.String? {
        BulkReadsBack(kind, text, rest, max);
      } else {
        BignumIsSimple(text);
        LineReadsBack(kind, text, rest, max);
      }
    case Verbatim(vtype, text) =>
      var body := vtype + [COLON] + text;
      assert body[..3] == vtype && body[4..] == text;
      BulkReadsBack(Verb, body, rest, max);
    case IntegerReply(n) =>
      SpeltIsSimple(n);
      SpeltIsParsed(n);
      LineReadsBack(Integer, Spell(n), rest, max);
    case DoubleReply(_, text) =>
      LineReadsBack(Double, text, rest, max);
    case NilReply =>
      LineReadsBack(Nil, [], rest, max);
    case BoolReply(b) =>
      LineReadsBack(Bool, [if b then 116 else 102], rest, max);
    case Aggregate(kind, elements) =>
      AllReadBack(elements, rest, max);
      AggregateReadsBack(kind, elements, rest, max);
  }

  lemma AggregateReadsBack(kind: Kind, elements: seq<Reply>, rest: seq<Byte>, max: int)
    requires Sendable(Aggregate(kind, elements), max)
    requires Elements(|elements|, AllWritten(elements) + rest, max) == Done(elements, |AllWritten(elements)|)
    ensures Item(Written(Aggregate(kind, elements)) + rest, max)
         == Done(Aggregate(kind, elements), |Written(Aggregate(kind, elements))|)
  {
    var count, used := Count(kind, |elements|), |AllWritten(elements)|;
    var s, n := Digits(count) + CRLF + (AllWritten(elements) + rest), |Digits(count)| + 2;
    assert Body(kind, s, max) == Done(Aggregate(kind, elements), n + used) by {
      HeaderReadsBack(count, AllWritten(elements) + rest, BadMultiBulkLength);
      assert s[n..] == AllWritten(elements) + rest;
      AggregateBody(kind, elements, s, n, used, max);
    }
    AggregateOnTheWire(kind, elements, rest);
    ItemOf(kind, s, max);
  }

  lemma AggregateOnTheWire(kind: Kind, elements: seq<Reply>, rest: seq<Byte>)
    ensures Written(Aggregate(kind, elements)) + rest
         == [TypeByte(kind)] + (Digits(Count(kind, |elements|)) + CRLF + (AllWritten(elements) + rest))
    ensures |Written(Aggregate(kind, elements))| == |Digits(Count(kind, |elements|))| + |AllWritten(elements)| + 3
  {
    Regrouped([TypeByte(kind)], Digits(Count(kind, |elements|)), CRLF, AllWritten(elements), rest);
  }

  lemma ItemOf(kind: Kind, s: seq<Byte>, max: int)
    ensures Item([TypeByte(kind)] + s, max) == Later(Body(kind, s, max), 1)
  {
    assert ([TypeByte(kind)] + s)[1..] == s;
  }

  lemma AggregateBody(kind: Kind, elements: seq<Reply>, s: seq<Byte>, n: nat, used: nat, max: int)
    requires kind.IsAggregate() && (kind.Map? ==> |elements| % 2 == 0) && n <= |s|
    requires max > 0 ==> Count(kind, |elements|) <= max
    requires Header(s, BadMultiBulkLength) == Done(Count(kind, |elements|), n)
    requires Elements(|elements|, s[n..], max) == Done(elements, used)
    ensures Body(kind, s, max) == Done(Aggregate(kind, elements), n + used)
  {
    assert AggregateHeader(kind, s, max) == Done(|elements|, n);
  }

  lemma {:induction false} AllReadBack(rs: seq<Reply>, rest: seq<Byte>, max: int)
    requires AllSendable(rs, max)
    ensures Elements(|rs|, AllWritten(rs) + rest, max) == Done(rs, |AllWritten(rs)|)
    decreases rs
  {
    if rs != [] {
      var tail := AllWritten(rs[1..]) + rest;
      assert AllWritten(rs) + rest == Written(rs[0]) + tail;
      ReadsBack(rs[0], tail, max);
      assert (Written(rs[0]) + tail)[|Written(rs[0])|..] == tail;
      AllReadBack(rs[1..], rest, max);
      assert rs == [rs[0]] + rs[1..];
    }
  }

  lemma BignumIsSimple(text: seq<Byte>)
    ensures IsBignum(text) ==> IsSimple(text)
  {
    if IsBignum(text) {
      forall i | 0 <= i < |text|
        ensures text[i] != CR && text[i] != LF
      {
        assert BignumDigit(text, i);
      }
    }
  }

  lemma SpeltIsSimple(n: int)
    ensures IsSimple(Spell(n))
  {
    DigitsAreSimple(if n < 0 then -n else n);
  }
}
