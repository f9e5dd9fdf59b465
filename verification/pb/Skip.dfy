/**
 Skipping wire values: what a well-formed value of each wire type is, with groups nested to any depth,
 and the readers that step over one.  The cursor comes back to where it was on every failure.
 */
module Skip {
  import opened Bytes
  import opened Options
  import opened Varint

  // wire types
  const PB_TVARINT := 0
  const PB_T64BIT := 1
  const PB_TBYTES := 2
  const PB_TGSTART := 3
  const PB_TGEND := 4
  const PB_T32BIT := 5

  /** pb_gettype and pb_gettag. */
  function WireType(tag: nat): nat { tag % 8 }

  function FieldNumber(tag: nat): nat { tag / 8 }

  // ------------------------------------------------------------------------------------- grammar

  /** A wire value as its bytes fall apart. */
  datatype Value =
    | Scalar(text: seq<Byte>)
    | Bytes(length: seq<Byte>, payload: seq<Byte>)
    | Group(fields: Fields, end: seq<Byte>)

  datatype Fields = NoFields | More(key: seq<Byte>, value: Value, rest: Fields)

  function Text(v: Value): seq<Byte> {
    match v
    case Scalar(text) => text
    case Bytes(length, payload) => length + payload
    case Group(fields, end) => FieldsText(fields) + end
  }

  function FieldsText(fs: Fields): seq<Byte> {
    match fs
    case NoFields => []
    case More(key, value, rest) => key + Text(value) + FieldsText(rest)
  }

  /** The text is one varint as readers of numbers accept it; its number is n. */
  predicate IsNumber(text: seq<Byte>, n: nat) {
    Decode(text) == Some(Number(|text|, n))
  }

  /** The text is a field key: as a 32-bit number, the given tag. */
  predicate IsKey(text: seq<Byte>, tag: nat) {
    Decode(text).Some? && IsNumber(text, Decode(text).value.value) && Decode(text).value.value % TWO32 == tag
  }

  /** A key's tag. */
  function Tag(key: seq<Byte>): nat {
    if Decode(key).Some? then Decode(key).value.value % TWO32 else 0
  }

  /** v is a well-formed value behind a key with this tag.  A varint that is skipped may be of any length. */
  predicate IsValue(v: Value, tag: nat) {
    match WireType(tag)
    case 0 => v.Scalar? && v.text != [] && High(v.text, |v.text| - 1) && v.text[|v.text| - 1] < 128
    case 1 => v.Scalar? && |v.text| == 8
    case 5 => v.Scalar? && |v.text| == 4
    case 2 => v.Bytes? && IsNumber(v.length, |v.payload|)
    case 3 => v.Group? && AreFields(v.fields) && IsKey(v.end, Tag(v.end))
              && WireType(Tag(v.end)) == PB_TGEND && FieldNumber(Tag(v.end)) == FieldNumber(tag)
    case _ => false
  }

  predicate AreFields(fs: Fields) {
    match fs
    case NoFields => true
    case More(key, value, rest) =>
      IsKey(key, Tag(key)) && WireType(Tag(key)) != PB_TGEND && IsValue(value, Tag(key)) && AreFields(rest)
  }

  // ------------------------------------------------------------------------------------ the skip

  /** How many bytes the value at the front of s takes; 0 if there is none. */
  function SkipLength(s: seq<Byte>, tag: nat): (n: nat)
    ensures n <= |s|
    decreases |s|, 1
  {
    match WireType(tag)
    case 0 => if Leading(s) < |s| then Leading(s) + 1 else 0
    case 1 => if |s| < 8 then 0 else 8
    case 5 => if |s| < 4 then 0 else 4
    case 2 =>
      (match Decode(s)
       case None => 0
       case Some(d) => if |s| - d.length < d.value then 0 else d.length + d.value)
    case 3 => GroupLength(s, tag)
    case _ => 0
  }

  /** The same for what follows a group's start key, up to and with its end key. */
  function GroupLength(s: seq<Byte>, tag: nat): (n: nat)
    ensures n <= |s|
    decreases |s|, 0
  {
    match Decode(s)
    case None => 0
    case Some(d) => Then(d.length, AfterKey(s[d.length..], d.value % TWO32, tag))
  }

  /** The key says what comes next: the end of the group, or a value and the rest of the group. */
  function AfterKey(t: seq<Byte>, next: nat, tag: nat): (r: Option<nat>)
    ensures r.Some? ==> r.value <= |t|
    decreases |t|, 2
  {
    if WireType(next) == PB_TGEND then
      if FieldNumber(next) == FieldNumber(tag) then Some(0) else None
    else
      var skipped := SkipLength(t, next);
      if skipped == 0 then None
      else
        var more := GroupLength(t[skipped..], tag);
        if more == 0 then None else Some(skipped + more)
  }

  function Then(n: nat, more: Option<nat>): nat {
    match more
    case None => 0
    case Some(m) => n + m
  }

  /** A number's text in front of anything is read as that number. */
  lemma NumberInFront(text: seq<Byte>, n: nat, suffix: seq<Byte>)
    requires IsNumber(text, n)
    ensures Decode(text + suffix) == Some(Number(|text|, n)) && |text| > 0
  {
    DecodeKept(text, suffix);
  }

  /** Skipping is exact: the cursor stops right behind the value, whatever follows it. */
  lemma {:induction false} SkipsJustTheValue(v: Value, tag: nat, suffix: seq<Byte>)
    requires IsValue(v, tag)
    ensures |Text(v)| > 0 && SkipLength(Text(v) + suffix, tag) == |Text(v)|
  {
    var s := Text(v) + suffix;
    match WireType(tag) {
      case 0 => LeadingIs(s, |v.text| - 1);
      case 2 =>
        NumberInFront(v.length, |v.payload|, v.payload + suffix);
        assert s == v.length + (v.payload + suffix);
      case 3 =>
        GroupIsSkipped(v.fields, v.end, tag, suffix);
        assert s == FieldsText(v.fields) + v.end + suffix;
      case _ =>
    }
  }

  lemma {:induction false} GroupIsSkipped(fs: Fields, end: seq<Byte>, tag: nat, suffix: seq<Byte>)
    requires AreFields(fs) && IsKey(end, Tag(end)) && WireType(Tag(end)) == PB_TGEND
             && FieldNumber(Tag(end)) == FieldNumber(tag)
    ensures |end| > 0 && GroupLength(FieldsText(fs) + end + suffix, tag) == |FieldsText(fs)| + |end|
  {
    var s := FieldsText(fs) + end + suffix;
    match fs {
      case NoFields =>
        NumberInFront(end, Decode(end).value.value, suffix);
        assert s == end + suffix;
      case More(key, value, rest) =>
        var after := FieldsText(rest) + end + suffix;
        assert s == key + (Text(value) + after);
        SkipsJustTheValue(value, Tag(key), after);
        GroupIsSkipped(rest, end, tag, suffix);
        OneFieldMore(key, Text(value), after, tag);
    }
  }

  lemma OneFieldMore(key: seq<Byte>, text: seq<Byte>, after: seq<Byte>, tag: nat)
    requires IsKey(key, Tag(key)) && WireType(Tag(key)) != PB_TGEND
    requires SkipLength(text + after, Tag(key)) == |text| > 0 && GroupLength(after, tag) > 0
    ensures GroupLength(key + (text + after), tag) == |key| + |text| + GroupLength(after, tag)
  {
    var n := Decode(key).value.value;
    NumberInFront(key, n, text + after);
    assert (key + (text + after))[|key|..] == text + after;
    assert (text + after)[|text|..] == after;
    assert AfterKey(text + after, Tag(key), tag) == Some(|text| + GroupLength(after, tag));
  }

  /** Only well-formed values are skipped: what was stepped over is the text of one. */
  lemma {:induction false} SkippedIsAValue(s: seq<Byte>, tag: nat) returns (v: Value)
    requires SkipLength(s, tag) > 0
    ensures IsValue(v, tag) && Text(v) == s[..SkipLength(s, tag)]
    decreases |s|, 1
  {
    var n := SkipLength(s, tag);
    match WireType(tag) {
      case 0 =>
        LeadingAreHigh(s);
        v := Scalar(s[..n]);
      case 2 =>
        var d := Decode(s).value;
        DecodeKept(s, []);
        var whole: seq<Byte> := s;
        v := Bytes(whole[..d.length], whole[d.length..n]);
      case 3 =>
        var fs, end := GroupIsFields(s, tag);
        v := Group(fs, end);
      case _ =>
        v := Scalar(s[..n]);
    }
  }

  lemma {:induction false} GroupIsFields(s: seq<Byte>, tag: nat) returns (fs: Fields, end: seq<Byte>)
    requires GroupLength(s, tag) > 0
    ensures AreFields(fs) && IsKey(end, Tag(end)) && WireType(Tag(end)) == PB_TGEND
            && FieldNumber(Tag(end)) == FieldNumber(tag)
    ensures FieldsText(fs) + end == s[..GroupLength(s, tag)]
    decreases |s|, 0
  {
    var d := Decode(s).value;
    KeyAtFront(s);
    var key, t, next := s[..d.length], s[d.length..], d.value % TWO32;
    if WireType(next) == PB_TGEND {
      fs, end := NoFields, key;
    } else {
      var skipped := SkipLength(t, next);
      var v := SkippedIsAValue(t, next);
      var rest, e := GroupIsFields(t[skipped..], tag);
      fs, end := More(key, v, rest), e;
      Pieces(s, d.length, skipped, GroupLength(t[skipped..], tag), FieldsText(rest), e);
    }
  }

  lemma KeyAtFront(s: seq<Byte>)
    requires Decode(s).Some?
    ensures var d := Decode(s).value;
            0 < d.length <= |s| && IsKey(s[..d.length], d.value % TWO32) && Tag(s[..d.length]) == d.value % TWO32
  {
    DecodeKept(s, []);
  }

  lemma Pieces(s: seq<Byte>, i: nat, j: nat, k: nat, fields: seq<Byte>, end: seq<Byte>)
    requires i + j + k <= |s| && fields + end == s[i..][j..][..k]
    ensures s[..i] + s[i..][..j] + fields + end == s[..i + (j + k)]
  {
    assert s[..i] + s[i..][..j] + fields + end == s[..i] + s[i..][..j] + s[i..][j..][..k];
  }

  // --------------------------------------------------------------------------------- the readers

  /** pb_skipvarint. */
  method SkipVarint(s: Slice) returns (ret: nat)
    requires s.Valid()
    modifies s
    ensures s.Valid() && ret == SkipLength(old(s.Rest()), PB_TVARINT) && s.p == old(s.p) + ret
  {
    var p := s.p;
    while p < |s.data| && s.data[p] >= 128
      invariant s.p <= p <= |s.data| && High(s.Rest(), p - s.p)
    {
      p := p + 1;
    }
    LeadingIs(s.Rest(), p - s.p);
    if p >= |s.data| {
      return 0;
    }
    p := p + 1;
    ret := p - s.p;
    s.p := p;
  }

  /** pb_skipslice. */
  method SkipSlice(s: Slice, len: nat) returns (ret: nat)
    requires s.Valid()
    modifies s
    ensures s.Valid() && ret == (if |old(s.Rest())| < len then 0 else len) && s.p == old(s.p) + ret
  {
    if s.p + len > |s.data| {
      return 0;
    }
    s.p := s.p + len;
    return len;
  }

  /** pb_skipbytes. */
  method SkipBytes(s: Slice) returns (ret: nat)
    requires s.Valid()
    modifies s
    ensures s.Valid() && ret == SkipLength(old(s.Rest()), PB_TBYTES) && s.p == old(s.p) + ret
  {
    var p := s.p;
    var got, len := s.ReadVarint64();
    if got == 0 {
      return 0;
    }
    if |s.data| - s.p < len {
      s.p := p;
      return 0;
    }
    s.p := s.p + len;
    return s.p - p;
  }

  /** pb_readbytes: the payload is data[from..to]. */
  method ReadBytes(s: Slice) returns (ret: nat, from: nat, to: nat)
    requires s.Valid()
    modifies s
    ensures s.Valid() && ret == SkipLength(old(s.Rest()), PB_TBYTES) && s.p == old(s.p) + ret
    ensures ret > 0 ==>
              && Decode(old(s.Rest())).Some? && to == s.p
              && from == old(s.p) + Decode(old(s.Rest())).value.length
              && to - from == Decode(old(s.Rest())).value.value
  {
    var p := s.p;
    var got, len := s.ReadVarint64();
    if got == 0 || |s.data| - s.p < len {
      s.p := p;
      return 0, 0, 0;
    }
    from, to := s.p, s.p + len;
    s.p := to;
    return s.p - p, from, to;
  }

  function Plus(n: nat, m: nat): nat {
    if m == 0 then 0 else n + m
  }

  /** What was read of the group and what is left of it make the whole. */
  lemma GroupGoesOn(s: seq<Byte>, tag: nat, count: nat, skipped: nat)
    requires Decode(s).Some? && count == Decode(s).value.length && count + skipped <= |s|
    requires WireType(Decode(s).value.value % TWO32) != PB_TGEND
    requires skipped == SkipLength(s[count..], Decode(s).value.value % TWO32)
    ensures skipped == 0 ==> GroupLength(s, tag) == 0
    ensures skipped > 0 ==> GroupLength(s, tag) == Plus(count + skipped, GroupLength(s[count + skipped..], tag))
  {
    var t := s[count..];
    assert s[count + skipped..] == t[skipped..];
  }

  /** What a round of pb_readgroup's loop came upon: nothing usable, the end key, or a field. */
  datatype Member = Bad | End | OneField

  /** A round of the loop; count is the length of the key. */
  method ReadMember(s: Slice, tag: nat) returns (member: Member, count: nat)
    requires s.Valid()
    modifies s
    ensures s.Valid() && old(s.p) <= s.p
    ensures member == Bad ==> GroupLength(old(s.Rest()), tag) == 0
    ensures member == End ==>
              && 0 < count == GroupLength(old(s.Rest()), tag) && s.p == old(s.p) + count
              && IsEndKey(s.data[old(s.p)..s.p], tag)
    ensures member == OneField ==>
              && s.p > old(s.p) && GroupLength(old(s.Rest()), tag) == Plus(s.p - old(s.p), GroupLength(s.Rest(), tag))
    decreases |s.data| - s.p, 0
  {
    ghost var rest := s.Rest();
    var newtag;
    count, newtag := s.ReadVarint32();
    if count == 0 {
      return Bad, 0;
    }
    KeyAtFront(rest);
    if WireType(newtag) == PB_TGEND {
      assert rest[..count] == s.data[s.p - count..s.p];
      return if FieldNumber(newtag) == FieldNumber(tag) then End else Bad, count;
    }
    assert s.Rest() == rest[count..];
    member := ReadField(s, tag, newtag, count, rest);
  }

  /** The value behind a key of count bytes. */
  method ReadField(s: Slice, tag: nat, newtag: nat, count: nat, ghost rest: seq<Byte>) returns (member: Member)
    requires s.Valid() && Decode(rest).Some? && count == Decode(rest).value.length && s.Rest() == rest[count..]
    requires newtag == Decode(rest).value.value % TWO32 && WireType(newtag) != PB_TGEND
    modifies s
    ensures s.Valid() && old(s.p) <= s.p && member != End
    ensures member == Bad ==> GroupLength(rest, tag) == 0
    ensures member == OneField ==>
              var n := count + (s.p - old(s.p));
              GroupLength(rest, tag) == Plus(n, GroupLength(s.Rest(), tag))
    decreases |s.data| - s.p, 3
  {
    var skipped := SkipValue(s, newtag);
    GroupGoesOn(rest, tag, count, skipped);
    if skipped == 0 {
      return Bad;
    }
    assert s.Rest() == rest[count + skipped..];
    return OneField;
  }

  predicate IsEndKey(key: seq<Byte>, tag: nat) {
    IsKey(key, Tag(key)) && WireType(Tag(key)) == PB_TGEND && FieldNumber(Tag(key)) == FieldNumber(tag)
  }

  /** pb_readgroup: the group's fields are data[from..to]. */
  method ReadGroup(s: Slice, tag: nat) returns (ret: nat, from: nat, to: nat)
    requires s.Valid() && WireType(tag) == PB_TGSTART
    modifies s
    ensures s.Valid() && ret == GroupLength(old(s.Rest()), tag) && s.p == old(s.p) + ret
    ensures ret > 0 ==> from == old(s.p) <= to < s.p && IsEndKey(s.data[to..s.p], tag)
    decreases |s.data| - s.p, 1
  {
    var p := s.p;
    ghost var whole := s.Rest();
    while true
      invariant s.Valid() && p <= s.p
      invariant GroupLength(whole, tag) == Plus(s.p - p, GroupLength(s.Rest(), tag))
      decreases |s.data| - s.p
    {
      var member, count := ReadMember(s, tag);
      if member == End {
        from, to := p, s.p - count;
        return s.p - p, from, to;
      }
      if member == Bad {
        break;
      }
    }
    s.p := p;
    return 0, 0, 0;
  }

  /** pb_skipvalue: the cursor moves behind the value, or stays. */
  method SkipValue(s: Slice, tag: nat) returns (ret: nat)
    requires s.Valid()
    modifies s
    ensures s.Valid() && ret == SkipLength(old(s.Rest()), tag) && s.p == old(s.p) + ret
    decreases |s.data| - s.p, 2
  {
    var p := s.p;
    ret := 0;
    var wire := WireType(tag);
    if wire == PB_TVARINT {
      ret := SkipVarint(s);
    } else if wire == PB_T64BIT {
      ret := SkipSlice(s, 8);
    } else if wire == PB_TBYTES {
      ret := SkipBytes(s);
    } else if wire == PB_T32BIT {
      ret := SkipSlice(s, 4);
    } else if wire == PB_TGSTART {
      var from, to;
      ret, from, to := ReadGroup(s, tag);
    }
    if ret == 0 {
      s.p := p;
    }
  }
}
