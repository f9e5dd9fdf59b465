/**
 What the decoder makes of bytes that this encoder does not write: unknown fields, at any place and at any depth,
 fields that occur more than once, repeated fields in the form that the schema does not name, keys with the wrong wire
 type, values that are cut off.
 */
module Wire {
  import opened Bytes
  import opened Options
  import opened Varint
  import opened Message
  import Buffer
  import Skip

  // ------------------------------------------------------------------------------ unknown fields

  /** A key, in any spelling of its number, with the tag that it has. */
  lemma AnyKeyIsRead(schema: Schema, fields: seq<Field>, key: seq<Byte>, t: seq<Byte>, acc: Object)
    requires Skip.IsKey(key, Skip.Tag(key))
    ensures DecodeTable(schema, fields, key + t, acc) == AfterKey(schema, fields, t, Skip.Tag(key), acc)
  {
    Skip.NumberInFront(key, Decode(key).value.value, t);
    assert (key + t)[|key|..] == t;
  }

  /** The type has no field with this key's number. */
  predicate Unknown(fields: seq<Field>, key: seq<Byte>) {
    Skip.IsKey(key, Skip.Tag(key)) && ByNumber(fields, Skip.FieldNumber(Skip.Tag(key))).None?
  }

  /** An unknown field, whatever its value, groups included, is as if it were not there. */
  lemma UnknownIsSkipped(schema: Schema, fields: seq<Field>, key: seq<Byte>, w: Skip.Value, rest: seq<Byte>,
                         acc: Object)
    requires Unknown(fields, key) && Skip.IsValue(w, Skip.Tag(key))
    ensures DecodeTable(schema, fields, key + Skip.Text(w) + rest, acc) == DecodeTable(schema, fields, rest, acc)
  {
    var text := Skip.Text(w);
    Skip.SkipsJustTheValue(w, Skip.Tag(key), rest);
    AnyKeyIsRead(schema, fields, key, text + rest, acc);
    assert key + text + rest == key + (text + rest);
    assert (text + rest)[|text|..] == rest;
  }

  /** Fields of the table being encoded, and unknown fields among them in any places. */
  datatype Mixed =
    | Nothing
    | Own(name: string, value: Value, rest: Mixed)
    | Foreign(key: seq<Byte>, wire: Skip.Value, rest: Mixed)

  function Stripped(m: Mixed): Table {
    match m
    case Nothing => NoBinding
    case Own(name, v, rest) => Bind(name, v, Stripped(rest))
    case Foreign(_, _, rest) => Stripped(rest)
  }

  function MixedText(schema: Schema, fields: seq<Field>, m: Mixed): seq<Byte>
    requires TableFits(schema, fields, Stripped(m))
  {
    match m
    case Nothing => []
    case Own(name, v, rest) =>
      (match ByName(fields, name)
       case None => []
       case Some(f) => EncodeField(schema, f, v)) + MixedText(schema, fields, rest)
    case Foreign(key, w, rest) => key + Skip.Text(w) + MixedText(schema, fields, rest)
  }

  predicate AllUnknown(fields: seq<Field>, m: Mixed) {
    match m
    case Nothing => true
    case Own(_, _, rest) => AllUnknown(fields, rest)
    case Foreign(key, w, rest) => Unknown(fields, key) && Skip.IsValue(w, Skip.Tag(key)) && AllUnknown(fields, rest)
  }

  /** Encoded fields with any unknown fields before, between and behind them are read as if those were not there. */
  lemma {:induction false} MixedIsRead(schema: Schema, fields: seq<Field>, m: Mixed, suffix: seq<Byte>, acc: Object)
    requires SchemaOk(schema) && FieldsOk(fields) && TableFits(schema, fields, Stripped(m)) && AllUnknown(fields, m)
    requires AllUntouched(fields, Stripped(m), acc)
    requires |EncodeTable(schema, fields, Stripped(m))| <= Buffer.PB_MAX_SIZET
    ensures DecodeTable(schema, fields, MixedText(schema, fields, m) + suffix, acc)
            == DecodeTable(schema, fields, suffix, acc + Present(schema, fields, Stripped(m)))
  {
    match m {
      case Nothing =>
        assert [] + suffix == suffix && acc + map[] == acc;
      case Foreign(key, w, rest) =>
        var more := MixedText(schema, fields, rest);
        assert key + Skip.Text(w) + more + suffix == key + Skip.Text(w) + (more + suffix);
        UnknownIsSkipped(schema, fields, key, w, more + suffix, acc);
        MixedIsRead(schema, fields, rest, suffix, acc);
      case Own(name, v, rest) =>
        var more := MixedText(schema, fields, rest);
        match ByName(fields, name) {
          case None =>
            assert MixedText(schema, fields, m) == more;
            MixedIsRead(schema, fields, rest, suffix, acc);
          case Some(f) =>
            var x, table := NormField(schema, f, v), Stripped(rest);
            NameLeadsToNumber(fields, name);
            assert EncodeField(schema, f, v) + more + suffix == EncodeField(schema, f, v) + (more + suffix);
            FieldRoundTrip(schema, fields, f, v, more + suffix, acc);
            UntouchedByOther(fields, table, acc, name, x);
            MixedIsRead(schema, fields, rest, suffix, acc[name := x]);
            PresentBinds(schema, fields, table, name);
            MergeOne(acc, name, x, Present(schema, fields, table));
        }
    }
  }

  // ------------------------------------------------------------------------------ at any depth

  /** Behind these bytes the decoder goes on with whatever follows, and has this. */
  ghost predicate Passes(schema: Schema, fields: seq<Field>, before: seq<Byte>, acc: Object, acc': Object) {
    forall x: seq<Byte> {:trigger before + x} ::
      DecodeTable(schema, fields, before + x, acc) == DecodeTable(schema, fields, x, acc')
  }

  /** Encoded fields with unknown ones among them are such bytes. */
  lemma MixedPasses(schema: Schema, fields: seq<Field>, m: Mixed, acc: Object)
    requires SchemaOk(schema) && FieldsOk(fields) && TableFits(schema, fields, Stripped(m)) && AllUnknown(fields, m)
    requires AllUntouched(fields, Stripped(m), acc)
    requires |EncodeTable(schema, fields, Stripped(m))| <= Buffer.PB_MAX_SIZET
    ensures Passes(schema, fields, MixedText(schema, fields, m), acc, acc + Present(schema, fields, Stripped(m)))
  {
    forall x: seq<Byte> {
      MixedIsRead(schema, fields, m, x, acc);
    }
  }

  /** A place in a message: between fields, or inside a field that is a message. */
  datatype Spot =
    | Here(before: seq<Byte>, key: seq<Byte>, wire: Skip.Value, after: seq<Byte>)
    | Inside(before: seq<Byte>, key: seq<Byte>, inner: Spot, after: seq<Byte>)

  /** The message with the unknown field at this place, lengths around it included, and without it. */
  function With(spot: Spot): seq<Byte> {
    match spot
    case Here(before, key, w, after) => before + (key + Skip.Text(w) + after)
    case Inside(before, key, inner, after) => before + (key + (Prefixed(With(inner)) + after))
  }

  function Without(spot: Spot): seq<Byte> {
    match spot
    case Here(before, _, _, after) => before + after
    case Inside(before, key, inner, after) => before + (key + (Prefixed(Without(inner)) + after))
  }

  /** The field behind this key is a message, or a list of them. */
  predicate HoldsMessage(fields: seq<Field>, key: seq<Byte>) {
    && Skip.IsKey(key, Skip.Tag(key)) && Skip.WireType(Skip.Tag(key)) == Skip.PB_TBYTES
    && var f := ByNumber(fields, Skip.FieldNumber(Skip.Tag(key)));
    f.Some? && f.value.ty.Message? && (f.value.shape == Single || f.value.shape == Repeated(false))
  }

  ghost predicate SpotOk(schema: Schema, fields: seq<Field>, spot: Spot, acc: Object)
    decreases spot
  {
    && (exists acc' :: Passes(schema, fields, spot.before, acc, acc'))
    && match spot
       case Here(_, key, w, _) => Unknown(fields, key) && Skip.IsValue(w, Skip.Tag(key))
       case Inside(_, key, inner, _) =>
         && HoldsMessage(fields, key)
         && |With(inner)| <= Buffer.PB_MAX_SIZET && |Without(inner)| <= Buffer.PB_MAX_SIZET
         && var of := Fields(schema, ByNumber(fields, Skip.FieldNumber(Skip.Tag(key))).value.ty.id);
         SpotOk(schema, of, inner, Defaults(of))
  }

  /** What the table is once the message was decoded to o. */
  function WithMessage(f: Field, acc: Object, o: Object): Object {
    acc[f.name := if f.shape == Single then LTable(o) else LList(ListAt(acc, f.name) + [LTable(o)])]
  }

  /** A value that cannot be read fails the message. */
  lemma BadFieldFails(schema: Schema, fields: seq<Field>, f: Field, tag: nat, t: seq<Byte>, acc: Object)
    requires ByNumber(fields, Skip.FieldNumber(tag)) == Some(f) && DecodeTyped(schema, f.ty, tag, t) == Bad
    requires match f.shape
             case Single => true
             case Repeated(packed) =>
               Skip.WireType(tag) != Skip.PB_TBYTES || (!packed && WireOf(f.ty) == Skip.PB_TBYTES)
             case Mapping(_) => false
    ensures AfterKey(schema, fields, t, tag, acc) == None
  {
    assert DecodeField(schema, f, tag, t, acc) == Fail;
  }

  lemma MessageInFront(schema: Schema, fields: seq<Field>, key: seq<Byte>, body: seq<Byte>, after: seq<Byte>,
                       acc: Object)
    requires HoldsMessage(fields, key) && |body| <= Buffer.PB_MAX_SIZET
    ensures var f := ByNumber(fields, Skip.FieldNumber(Skip.Tag(key))).value;
            var o := DecodeTable(schema, Fields(schema, f.ty.id), body, Defaults(Fields(schema, f.ty.id)));
            DecodeTable(schema, fields, key + (Prefixed(body) + after), acc)
            == if o.None? then None else DecodeTable(schema, fields, after, WithMessage(f, acc, o.value))
  {
    var f := ByNumber(fields, Skip.FieldNumber(Skip.Tag(key))).value;
    var of := Fields(schema, f.ty.id);
    var tag, text, t := Skip.Tag(key), Prefixed(body), Prefixed(body) + after;
    var o := DecodeTable(schema, of, body, Defaults(of));
    AnyKeyIsRead(schema, fields, key, t, acc);
    BytesAreRead(body, after);
    if o.None? {
      assert DecodeTyped(schema, f.ty, tag, t) == Bad;
      BadFieldFails(schema, fields, f, tag, t, acc);
    } else {
      assert DecodeTyped(schema, f.ty, tag, t) == Got(LTable(o.value), |text|);
      assert DecodeField(schema, f, tag, t, acc) == Go(WithMessage(f, acc, o.value), |text|);
      FieldIsRead(schema, fields, f, tag, t, acc, WithMessage(f, acc, o.value), text, after);
    }
  }

  /** An unknown field is as if it were not there, between the fields of any message inside the message. */
  lemma {:induction false} UnknownAnywhere(schema: Schema, fields: seq<Field>, spot: Spot, acc: Object)
    requires SpotOk(schema, fields, spot, acc)
    ensures DecodeTable(schema, fields, With(spot), acc) == DecodeTable(schema, fields, Without(spot), acc)
    decreases spot
  {
    var acc' :| Passes(schema, fields, spot.before, acc, acc');
    match spot {
      case Here(_, key, w, after) => UnknownIsSkipped(schema, fields, key, w, after, acc');
      case Inside(_, key, inner, after) =>
        var of := Fields(schema, ByNumber(fields, Skip.FieldNumber(Skip.Tag(key))).value.ty.id);
        UnknownAnywhere(schema, of, inner, Defaults(of));
        MessageInFront(schema, fields, key, With(inner), after, acc');
        MessageInFront(schema, fields, key, Without(inner), after, acc');
    }
  }

  // ------------------------------------------------------------------------------ fields that occur again

  /** Some items of a repeated field, packed or each behind a key. */
  datatype Chunk = Chunk(packed: bool, items: Values)

  predicate ChunksFit(schema: Schema, f: Field, chunks: seq<Chunk>) {
    forall i | 0 <= i < |chunks| :: ItemsFit(schema, f.ty, chunks[i].items)
  }

  function ChunkText(schema: Schema, f: Field, c: Chunk): seq<Byte>
    requires ItemsFit(schema, f.ty, c.items)
  {
    if c.packed then Encode(Pair(f.number, Skip.PB_TBYTES)) + Prefixed(EncodeItems(schema, f.ty, c.items))
    else EncodeTaggedItems(schema, f.number, f.ty, c.items)
  }

  function ChunksText(schema: Schema, f: Field, chunks: seq<Chunk>): seq<Byte>
    requires ChunksFit(schema, f, chunks)
  {
    if chunks == [] then [] else ChunkText(schema, f, chunks[0]) + ChunksText(schema, f, chunks[1..])
  }

  function ChunksItems(schema: Schema, f: Field, chunks: seq<Chunk>): seq<Lua>
    requires ChunksFit(schema, f, chunks)
  {
    if chunks == [] then [] else NormItems(schema, f.ty, chunks[0].items) + ChunksItems(schema, f, chunks[1..])
  }

  predicate IsList(f: Field, acc: Object) {
    f.name in acc && acc[f.name].LList?
  }

  lemma ListGoesOn(acc: Object, name: string, list: seq<Lua>, xs: seq<Lua>, more: seq<Lua>)
    ensures acc[name := LList(list + xs)][name := LList(list + xs + more)] == acc[name := LList(list + (xs + more))]
  {
    assert list + xs + more == list + (xs + more);
  }

  lemma ChunkIsRead(schema: Schema, fields: seq<Field>, f: Field, c: Chunk, suffix: seq<Byte>, acc: Object)
    requires SchemaOk(schema) && FieldOk(f) && ByNumber(fields, f.number) == Some(f)
    requires f.shape.Repeated? && WireOf(f.ty) != Skip.PB_TBYTES && ItemsFit(schema, f.ty, c.items) && IsList(f, acc)
    requires |ChunkText(schema, f, c)| <= Buffer.PB_MAX_SIZET
    ensures DecodeTable(schema, fields, ChunkText(schema, f, c) + suffix, acc)
            == DecodeTable(schema, fields, suffix,
                           acc[f.name := LList(ListAt(acc, f.name) + NormItems(schema, f.ty, c.items))])
  {
    if c.packed {
      PackedRoundTrip(schema, fields, f, c.items, suffix, acc);
    } else {
      ItemsRoundTrip(schema, fields, f, c.items, suffix, acc);
    }
  }

  /**
   A repeated field of numbers is read from packed and from unpacked occurrences, in any mixture and whichever of the
   two the schema names: all items, in order, behind those that are there.
   */
  lemma {:induction false} EitherFormIsRead(schema: Schema, fields: seq<Field>, f: Field, chunks: seq<Chunk>,
                                            suffix: seq<Byte>, acc: Object)
    requires SchemaOk(schema) && FieldOk(f) && ByNumber(fields, f.number) == Some(f)
    requires f.shape.Repeated? && WireOf(f.ty) != Skip.PB_TBYTES && ChunksFit(schema, f, chunks) && IsList(f, acc)
    requires |ChunksText(schema, f, chunks)| <= Buffer.PB_MAX_SIZET
    ensures DecodeTable(schema, fields, ChunksText(schema, f, chunks) + suffix, acc)
            == DecodeTable(schema, fields, suffix,
                           acc[f.name := LList(ListAt(acc, f.name) + ChunksItems(schema, f, chunks))])
  {
    var list := ListAt(acc, f.name);
    if chunks == [] {
      assert [] + suffix == suffix && list + [] == list;
      assert acc[f.name := LList(list)] == acc;
    } else {
      var text, more := ChunkText(schema, f, chunks[0]), ChunksText(schema, f, chunks[1..]);
      var xs, others := NormItems(schema, f.ty, chunks[0].items), ChunksItems(schema, f, chunks[1..]);
      assert text + more + suffix == text + (more + suffix);
      ChunkIsRead(schema, fields, f, chunks[0], more + suffix, acc);
      EitherFormIsRead(schema, fields, f, chunks[1..], suffix, acc[f.name := LList(list + xs)]);
      ListGoesOn(acc, f.name, list, xs, others);
    }
  }

  /** A value behind its key, zero or not, in front of anything. */
  lemma OccurrenceIsRead(schema: Schema, fields: seq<Field>, f: Field, v: Value, suffix: seq<Byte>, acc: Object)
    requires SchemaOk(schema) && FieldOk(f) && ByNumber(fields, f.number) == Some(f) && f.shape == Single
    requires ValueFits(schema, f.ty, v) && |EncodeTagged(schema, f.number, f.ty, v, false)| <= Buffer.PB_MAX_SIZET
    ensures DecodeTable(schema, fields, EncodeTagged(schema, f.number, f.ty, v, false) + suffix, acc)
            == DecodeTable(schema, fields, suffix, acc[f.name := NormValue(schema, f.ty, v)])
  {
    var tag, text, x := Pair(f.number, WireOf(f.ty)), EncodeValue(schema, f.ty, v), NormValue(schema, f.ty, v);
    TaggedRoundTrip(schema, f, v, suffix);
    KeyIsRead(schema, fields, tag, text + suffix, acc);
    SingleStep(schema, f, tag, text + suffix, acc, x, |text|);
    FieldIsRead(schema, fields, f, tag, text + suffix, acc, acc[f.name := x], text, suffix);
  }

  /** Of a field that occurs again the last value counts; messages are not merged. */
  lemma LastOccurrenceCounts(schema: Schema, fields: seq<Field>, f: Field, v: Value, w: Value, suffix: seq<Byte>,
                             acc: Object)
    requires SchemaOk(schema) && FieldOk(f) && ByNumber(fields, f.number) == Some(f) && f.shape == Single
    requires ValueFits(schema, f.ty, v) && |EncodeTagged(schema, f.number, f.ty, v, false)| <= Buffer.PB_MAX_SIZET
    requires ValueFits(schema, f.ty, w) && |EncodeTagged(schema, f.number, f.ty, w, false)| <= Buffer.PB_MAX_SIZET
    ensures var s, t := EncodeTagged(schema, f.number, f.ty, v, false), EncodeTagged(schema, f.number, f.ty, w, false);
            DecodeTable(schema, fields, s + (t + suffix), acc)
            == DecodeTable(schema, fields, suffix, acc[f.name := NormValue(schema, f.ty, w)])
  {
    var t, x := EncodeTagged(schema, f.number, f.ty, w, false), NormValue(schema, f.ty, v);
    OccurrenceIsRead(schema, fields, f, v, t + suffix, acc);
    OccurrenceIsRead(schema, fields, f, w, suffix, acc[f.name := x]);
    assert acc[f.name := x][f.name := NormValue(schema, f.ty, w)] == acc[f.name := NormValue(schema, f.ty, w)];
  }

  /** A map entry whose value stands before its key is read like one in the usual order. */
  lemma EntryInEitherOrder(schema: Schema, key: Kind, ty: Type, k: Scalar, v: Value)
    requires SchemaOk(schema) && ScalarFits(key, k) && ValueFits(schema, ty, v)
    requires |EncodeValue(schema, ty, v)| <= Buffer.PB_MAX_SIZET && |EncodeScalar(key, k)| <= Buffer.PB_MAX_SIZET
    ensures DecodeEntry(schema, key, ty, Encode(Pair(2, WireOf(ty))) + (EncodeValue(schema, ty, v) + (
                        Encode(Pair(1, WireOf(Prim(key)))) + (EncodeScalar(key, k) + []))), None, None)
            == Some(EntryOf(Norm(key, k), Some(NormValue(schema, ty, v))))
  {
    var tag, text, x := Pair(2, WireOf(ty)), EncodeValue(schema, ty, v), NormValue(schema, ty, v);
    var tail := Encode(Pair(1, WireOf(Prim(key)))) + (EncodeScalar(key, k) + []);
    TaggedRoundTrip(schema, Field("value", 2, ty, Single, false), v, tail);
    EntryKeyIsRead(schema, key, ty, tag, text + tail, None, None);
    assert (text + tail)[|text|..] == tail;
    EntryKeyRoundTrip(schema, key, ty, k, [], Some(x));
  }

  /** An entry is read the same with these bytes in front of the rest of it and without them. */
  ghost predicate EntryPasses(schema: Schema, key: Kind, ty: Type, before: seq<Byte>) {
    forall rest: seq<Byte>, k, v {:trigger DecodeEntry(schema, key, ty, before + rest, k, v)} ::
      DecodeEntry(schema, key, ty, before + rest, k, v) == DecodeEntry(schema, key, ty, rest, k, v)
  }

  /** Read as a key, the number is that of some other field. */
  predicate ReadsAsOther(text: seq<Byte>) {
    Decode(text).Some? && Skip.FieldNumber(Decode(text).value.value % TWO32) !in {1, 2}
  }

  lemma OtherKeyInEntry(schema: Schema, key: Kind, ty: Type, text: seq<Byte>, rest: seq<Byte>, k: Option<Scalar>,
                        v: Option<Lua>)
    requires ReadsAsOther(text) && Skip.IsNumber(text, Decode(text).value.value)
    ensures DecodeEntry(schema, key, ty, text + rest, k, v) == DecodeEntry(schema, key, ty, rest, k, v)
  {
    Skip.NumberInFront(text, Decode(text).value.value, rest);
    assert (text + rest)[|text|..] == rest;
  }

  /** A varint of more than ten bytes ends the entry, even if what follows would fail it. */
  lemma LongEndsEntry(schema: Schema, key: Kind, ty: Type, w: seq<Byte>)
    requires w != [] && High(w, |w| - 1) && w[|w| - 1] < 128 && |w| > MAX_VARINT
    ensures DecodeEntry(schema, key, ty, w + [15], None, None).Some?
    ensures DecodeEntry(schema, key, ty, [15], None, None) == None
  {
    DecodeIs(w + [15], |w| - 1);
    assert [15][1..] == [];
    assert Decode([15]) == Some(Number(1, 15));
  }

  /** The number of one of the entry's own fields needs a value. */
  lemma OwnNeedsValue(schema: Schema, key: Kind, ty: Type, w: seq<Byte>)
    requires Decode(w).Some? && Decode(w).value.length == |w| && !ReadsAsOther(w)
    ensures DecodeEntry(schema, key, ty, w, None, None) == None
  {
    assert w[|w|..] == [];
    NoRead(Prim(key), schema, Decode(w).value.value % TWO32);
    NoRead(ty, schema, Decode(w).value.value % TWO32);
  }

  lemma NoRead(ty: Type, schema: Schema, tag: nat)
    ensures DecodeTyped(schema, ty, tag, []) == Bad
  {
  }

  lemma NotPassed(schema: Schema, key: Kind, ty: Type, w: seq<Byte>)
    requires w != [] && High(w, |w| - 1) && w[|w| - 1] < 128 && !ReadsAsOther(w)
    ensures !EntryPasses(schema, key, ty, w)
  {
    DecodeIs(w, |w| - 1);
    if |w| > MAX_VARINT {
      LongEndsEntry(schema, key, ty, w);
    } else {
      OwnNeedsValue(schema, key, ty, w);
      assert w + [] == w;
      assert DecodeEntry(schema, key, ty, w + [], None, None) == None;
      assert DecodeEntry(schema, key, ty, [], None, None).Some?;
    }
  }

  /**
   Map entries do not skip what they do not know: the value of an unknown field is read as keys.  A varint in such a
   field changes nothing exactly when, read as a key, it is that of yet another unknown field.
   */
  lemma UnknownInEntryExactlyWhen(schema: Schema, key: Kind, ty: Type, tag: seq<Byte>, w: seq<Byte>)
    requires Skip.IsKey(tag, Skip.Tag(tag)) && ReadsAsOther(tag) && Skip.WireType(Skip.Tag(tag)) == Skip.PB_TVARINT
    requires Skip.IsValue(Skip.Scalar(w), Skip.Tag(tag))
    ensures EntryPasses(schema, key, ty, tag + w) <==> ReadsAsOther(w)
  {
    forall rest: seq<Byte>, k, v
      ensures DecodeEntry(schema, key, ty, tag + w + rest, k, v) == DecodeEntry(schema, key, ty, w + rest, k, v)
    {
      Associates(tag, w, rest);
      OtherKeyInEntry(schema, key, ty, tag, w + rest, k, v);
    }
    if ReadsAsOther(w) {
      DecodeIs(w, |w| - 1);
      forall rest: seq<Byte>, k, v
        ensures DecodeEntry(schema, key, ty, tag + w + rest, k, v) == DecodeEntry(schema, key, ty, rest, k, v)
      {
        OtherKeyInEntry(schema, key, ty, w, rest, k, v);
      }
    } else {
      NotPassed(schema, key, ty, w);
    }
  }

  /** So the entry 18 08 07, of an unknown field 3 and a byte that is no field, has the key 7. */
  lemma UnknownInEntryIsRead(schema: Schema, ty: Type)
    ensures var entry := DecodeEntry(schema, TInt32, ty, [0x18, 0x08, 0x07], None, None);
            entry.Some? && entry.value.key == Int(7)
    ensures var entry := DecodeEntry(schema, TInt32, ty, [0x07], None, None);
            entry.Some? && entry.value.key == Int(0)
  {
    var s: seq<Byte> := [0x18, 0x08, 0x07];
    assert s[1..] == [0x08, 0x07] && s[1..][1..] == [0x07] && [0x07][1..] == [];
    assert DecodeTyped(schema, Prim(TInt32), 8, [0x07]) == Got(LScalar(Int(7)), 1);
    assert DecodeEntry(schema, TInt32, ty, [], Some(Int(7)), None).Some?;
  }

  // ------------------------------------------------------------------------------ fields that are not there

  /** What a field's value is when the bytes say nothing of it; None for no value at all. */
  function Silent(f: Field): Option<Lua> {
    if f.oneof || (f.shape == Single && f.ty.Message?) then None
    else if f.shape.Repeated? then Some(LList([]))
    else if f.shape.Mapping? then Some(LMap(map[]))
    else if f.ty.kind == TBool then Some(LScalar(Bool(false)))
    else if f.ty.kind == TString then Some(LScalar(Scalar.Bytes([])))
    else Some(LScalar(Int(0)))
  }

  lemma {:induction false} OnlyNamesOfFields(fields: seq<Field>, name: string)
    requires ByName(fields, name).None?
    ensures name !in Defaults(fields)
  {
    if fields != [] {
      OnlyNamesOfFields(fields[1..], name);
    }
  }

  /** Each field by itself: false, 0, an empty string, list or map; no value for messages and in oneofs. */
  lemma {:induction false} AbsentFieldIs(schema: Schema, fields: seq<Field>, name: string)
    requires FieldsOk(fields) && ByName(fields, name).Some?
    ensures var read, silent := DecodeTable(schema, fields, [], Defaults(fields)), Silent(ByName(fields, name).value);
            && read == Some(Defaults(fields))
            && (if silent.None? then name !in read.value else name in read.value && read.value[name] == silent.value)
  {
    var more := fields[1..];
    if fields[0].name == name {
      if ByName(more, name).Some? {
        NameLeadsToNumber(more, name);
        NamedField(more, name);
        assert false;
      }
      OnlyNamesOfFields(more, name);
    } else {
      AbsentFieldIs(schema, more, name);
    }
  }

  lemma {:induction false} NamedField(fields: seq<Field>, name: string)
    requires ByName(fields, name).Some?
    ensures exists i :: 0 <= i < |fields| && fields[i].name == name
  {
    if fields[0].name != name {
      NamedField(fields[1..], name);
      var i :| 0 <= i < |fields[1..]| && fields[1..][i].name == name;
      assert fields[i + 1].name == name;
    }
  }

  /** The encoder leaves a field out exactly when it has the value that the decoder takes it to have then. */
  lemma LeftOutExactlyWhen(schema: Schema, f: Field, v: Value)
    requires f.shape == Single && ValueFits(schema, f.ty, v)
    ensures EncodeField(schema, f, v) == [] <==> f.ty.Prim? && Silent(f) == Some(LScalar(v.scalar))
  {
    assert |Encode(Pair(f.number, WireOf(f.ty)))| > 0;
  }

  // ------------------------------------------------------------------------------ what fails

  /** The key is that of field f. */
  predicate KeyOf(fields: seq<Field>, f: Field, key: seq<Byte>) {
    Skip.IsKey(key, Skip.Tag(key)) && ByNumber(fields, Skip.FieldNumber(Skip.Tag(key))) == Some(f)
  }

  /**
   A key with a wire type that is not the one of the field's type fails, whatever follows; but a repeated field of
   numbers may be packed, and of a map field the wire type is not looked at.
   */
  lemma WrongWireTypeFails(schema: Schema, fields: seq<Field>, f: Field, key: seq<Byte>, t: seq<Byte>, acc: Object)
    requires KeyOf(fields, f, key) && Skip.WireType(Skip.Tag(key)) != WireOf(f.ty) && !f.shape.Mapping?
    requires f.shape.Repeated? ==> Skip.WireType(Skip.Tag(key)) != Skip.PB_TBYTES
    ensures DecodeTable(schema, fields, key + t, acc) == None
  {
    AnyKeyIsRead(schema, fields, key, t, acc);
    BadFieldFails(schema, fields, f, Skip.Tag(key), t, acc);
  }

  /** What is no whole value is none for the readers either. */
  lemma NoValueIsRead(schema: Schema, ty: Type, tag: nat, t: seq<Byte>)
    requires Skip.SkipLength(t, tag) == 0
    ensures DecodeTyped(schema, ty, tag, t) == Bad
    ensures Skip.WireType(tag) == Skip.PB_TBYTES ==> ReadBytes(t) == Bad
  {
    if WireOf(ty) == Skip.WireType(tag) {
      if ty.Prim? {
        NoScalarIsRead(ty.kind, tag, t);
      }
    }
  }

  lemma NoScalarIsRead(kind: Kind, tag: nat, t: seq<Byte>)
    requires Skip.SkipLength(t, tag) == 0 && WireOf(Prim(kind)) == Skip.WireType(tag)
    ensures DecodeScalar(kind, t) == Bad
  {
    if Skip.WireType(tag) == Skip.PB_TVARINT {
      LeadingAreHigh(t);
      DecodeIs(t, |t|);
    }
  }

  /** A field behind whose key there is no whole value of the key's wire type fails: nothing is made of a part. */
  lemma CutOffFails(schema: Schema, fields: seq<Field>, f: Field, key: seq<Byte>, t: seq<Byte>, acc: Object)
    requires KeyOf(fields, f, key) && Skip.SkipLength(t, Skip.Tag(key)) == 0
    requires f.shape.Mapping? ==> Skip.WireType(Skip.Tag(key)) == Skip.PB_TBYTES
    ensures DecodeTable(schema, fields, key + t, acc) == None
  {
    var tag := Skip.Tag(key);
    AnyKeyIsRead(schema, fields, key, t, acc);
    NoValueIsRead(schema, f.ty, tag, t);
    assert DecodeField(schema, f, tag, t, acc) == Fail;
  }
}
