/**
 Readers with another schema.  What the encoder writes for a field is made of well-formed wire values of its keys' wire
 types, so a reader that does not have the field skips it, and reads the fields that it has.
 */
module Older {
  import opened Bytes
  import opened Options
  import opened Varint
  import opened Message
  import Buffer
  import Skip
  import Wire

  lemma {:induction false} EncodeIsVarint(n: nat)
    ensures var s := Encode(n); High(s, |s| - 1) && s[|s| - 1] < 128
  {
    if n >= 128 {
      EncodeIsVarint(n / 128);
    }
  }

  lemma EncodeIsNumber(n: nat)
    requires n < TWO64
    ensures Skip.IsNumber(Encode(n), n)
  {
    DecodeEncode(n, []);
    assert Encode(n) + [] == Encode(n);
  }

  lemma KeyIsKey(tag: nat)
    requires tag < TWO32
    ensures Skip.IsKey(Encode(tag), tag) && Skip.Tag(Encode(tag)) == tag
  {
    EncodeIsNumber(tag);
  }

  /** A reader without the field passes over a key and a well-formed value. */
  lemma KeyedIsSkipped(schema: Schema, fields: seq<Field>, number: nat, wire: nat, w: Skip.Value, suffix: seq<Byte>,
                       acc: Object)
    requires 0 < number < 0x2000_0000 && wire < 8 && ByNumber(fields, number).None?
    requires Skip.IsValue(w, Pair(number, wire))
    ensures DecodeTable(schema, fields, Encode(Pair(number, wire)) + Skip.Text(w) + suffix, acc)
         == DecodeTable(schema, fields, suffix, acc)
  {
    PairParts(number, wire);
    KeyIsKey(Pair(number, wire));
    Wire.UnknownIsSkipped(schema, fields, Encode(Pair(number, wire)), w, suffix, acc);
  }

  /** The bytes behind a length. */
  function PrefixedValue(body: seq<Byte>): Skip.Value {
    Skip.Bytes(Encode(|body|), body)
  }

  lemma PrefixedIsValue(body: seq<Byte>, tag: nat)
    requires |body| <= Buffer.PB_MAX_SIZET && Skip.WireType(tag) == Skip.PB_TBYTES
    ensures Skip.IsValue(PrefixedValue(body), tag) && Skip.Text(PrefixedValue(body)) == Prefixed(body)
  {
    EncodeIsNumber(|body|);
  }

  /** What is written for a value is a well-formed value of its type's wire type. */
  lemma EncodedIsValue(schema: Schema, t: Type, v: Value, tag: nat) returns (w: Skip.Value)
    requires ValueFits(schema, t, v) && |EncodeValue(schema, t, v)| <= Buffer.PB_MAX_SIZET
    requires Skip.WireType(tag) == WireOf(t)
    ensures Skip.IsValue(w, tag) && Skip.Text(w) == EncodeValue(schema, t, v)
  {
    var text := EncodeValue(schema, t, v);
    match t {
      case Message(id) =>
        var body := EncodeTable(schema, Fields(schema, id), v.table);
        PrefixedIsValue(body, tag);
        w := PrefixedValue(body);
      case Prim(kind) =>
        if kind == TString {
          PrefixedIsValue(v.scalar.s, tag);
          w := PrefixedValue(v.scalar.s);
        } else {
          ScalarIsValue(kind, v.scalar, tag);
          w := Skip.Scalar(text);
        }
    }
  }

  lemma ScalarIsValue(kind: Kind, s: Scalar, tag: nat)
    requires ScalarFits(kind, s) && kind != TString && Skip.WireType(tag) == WireOf(Prim(kind))
    ensures Skip.IsValue(Skip.Scalar(EncodeScalar(kind, s)), tag)
  {
    if kind == TBool {
      EncodeIsVarint(if s.b then 1 else 0);
    } else {
      EncodeIsVarint(Word(kind, s.n));
    }
  }

  lemma TaggedIsSkipped(schema: Schema, fields: seq<Field>, number: nat, t: Type, v: Value, ignoreZero: bool,
                        suffix: seq<Byte>, acc: Object)
    requires ValueFits(schema, t, v) && 0 < number < 0x2000_0000 && ByNumber(fields, number).None?
    requires |EncodeTagged(schema, number, t, v, ignoreZero)| <= Buffer.PB_MAX_SIZET
    ensures DecodeTable(schema, fields, EncodeTagged(schema, number, t, v, ignoreZero) + suffix, acc)
         == DecodeTable(schema, fields, suffix, acc)
  {
    if ignoreZero && t.Prim? && v.scalar == Zero(t.kind) {
      assert [] + suffix == suffix;
    } else {
      PairParts(number, WireOf(t));
      var w := EncodedIsValue(schema, t, v, Pair(number, WireOf(t)));
      KeyedIsSkipped(schema, fields, number, WireOf(t), w, suffix, acc);
    }
  }

  lemma PrefixedIsSkipped(schema: Schema, fields: seq<Field>, number: nat, body: seq<Byte>, suffix: seq<Byte>,
                          acc: Object)
    requires 0 < number < 0x2000_0000 && ByNumber(fields, number).None? && |body| <= Buffer.PB_MAX_SIZET
    ensures DecodeTable(schema, fields, Encode(Pair(number, Skip.PB_TBYTES)) + Prefixed(body) + suffix, acc)
         == DecodeTable(schema, fields, suffix, acc)
  {
    PairParts(number, Skip.PB_TBYTES);
    PrefixedIsValue(body, Pair(number, Skip.PB_TBYTES));
    KeyedIsSkipped(schema, fields, number, Skip.PB_TBYTES, PrefixedValue(body), suffix, acc);
  }

  lemma {:induction false} ItemsAreSkipped(schema: Schema, fields: seq<Field>, number: nat, t: Type, vs: Values,
                                           suffix: seq<Byte>, acc: Object)
    requires ItemsFit(schema, t, vs) && 0 < number < 0x2000_0000 && ByNumber(fields, number).None?
    requires |EncodeTaggedItems(schema, number, t, vs)| <= Buffer.PB_MAX_SIZET
    ensures DecodeTable(schema, fields, EncodeTaggedItems(schema, number, t, vs) + suffix, acc)
         == DecodeTable(schema, fields, suffix, acc)
  {
    if vs.NoValue? {
      assert [] + suffix == suffix;
    } else {
      var first := EncodeTagged(schema, number, t, vs.value, false);
      var more := EncodeTaggedItems(schema, number, t, vs.rest);
      assert first + more + suffix == first + (more + suffix);
      TaggedIsSkipped(schema, fields, number, t, vs.value, false, more + suffix, acc);
      ItemsAreSkipped(schema, fields, number, t, vs.rest, suffix, acc);
    }
  }

  lemma {:induction false} EntriesAreSkipped(schema: Schema, fields: seq<Field>, number: nat, key: Kind, t: Type,
                                             es: Entries, suffix: seq<Byte>, acc: Object)
    requires EntriesFit(schema, key, t, es) && 0 < number < 0x2000_0000 && ByNumber(fields, number).None?
    requires |EncodeEntries(schema, number, key, t, es)| <= Buffer.PB_MAX_SIZET
    ensures DecodeTable(schema, fields, EncodeEntries(schema, number, key, t, es) + suffix, acc)
         == DecodeTable(schema, fields, suffix, acc)
  {
    if es.NoEntry? {
      assert [] + suffix == suffix;
    } else {
      var first := EncodeWholeEntry(schema, number, key, t, es.key, es.value);
      var more := EncodeEntries(schema, number, key, t, es.rest);
      assert first + more + suffix == first + (more + suffix);
      PrefixedIsSkipped(schema, fields, number, EncodeEntry(schema, key, t, es.key, es.value), more + suffix, acc);
      EntriesAreSkipped(schema, fields, number, key, t, es.rest, suffix, acc);
    }
  }

  /** Whatever a field's shape and value, a reader that has no field of that number goes on behind it. */
  lemma FieldIsSkipped(schema: Schema, fields: seq<Field>, f: Field, v: Value, suffix: seq<Byte>, acc: Object)
    requires FieldOk(f) && FieldFits(schema, f, v) && ByNumber(fields, f.number).None?
    requires |EncodeField(schema, f, v)| <= Buffer.PB_MAX_SIZET
    ensures DecodeTable(schema, fields, EncodeField(schema, f, v) + suffix, acc)
         == DecodeTable(schema, fields, suffix, acc)
  {
    match f.shape {
      case Single => TaggedIsSkipped(schema, fields, f.number, f.ty, v, !f.oneof, suffix, acc);
      case Repeated(packed) =>
        if packed {
          PrefixedIsSkipped(schema, fields, f.number, EncodeItems(schema, f.ty, v.items), suffix, acc);
        } else {
          ItemsAreSkipped(schema, fields, f.number, f.ty, v.items, suffix, acc);
        }
      case Mapping(key) => EntriesAreSkipped(schema, fields, f.number, key, f.ty, v.entries, suffix, acc);
    }
  }

  /** Each field that the table binds the reader has as the writer has it, or does not have at all. */
  predicate Understands(fields: seq<Field>, older: seq<Field>, table: Table) {
    table.Bind? ==>
      && Understands(fields, older, table.rest)
      && var f := ByName(fields, table.name);
      ByName(older, table.name) == f
      || (f.Some? && ByName(older, table.name).None? && ByNumber(older, f.value.number).None?)
  }

  lemma {:induction false} StillFits(schema: Schema, fields: seq<Field>, older: seq<Field>, table: Table)
    requires TableFits(schema, fields, table) && Understands(fields, older, table)
    ensures TableFits(schema, older, table)
  {
    if table.Bind? {
      StillFits(schema, fields, older, table.rest);
    }
  }

  /** A reader that has some of the writer's fields reads those, as if the others had never been written. */
  lemma {:induction false} OlderReaderReads(schema: Schema, fields: seq<Field>, older: seq<Field>, table: Table,
                                            suffix: seq<Byte>, acc: Object)
    requires SchemaOk(schema) && FieldsOk(fields) && FieldsOk(older) && TableFits(schema, fields, table)
    requires TableFits(schema, older, table) && Understands(fields, older, table) && AllUntouched(older, table, acc)
    requires |EncodeTable(schema, fields, table)| <= Buffer.PB_MAX_SIZET
    ensures DecodeTable(schema, older, EncodeTable(schema, fields, table) + suffix, acc)
         == DecodeTable(schema, older, suffix, acc + Present(schema, older, table))
  {
    match table {
      case NoBinding =>
        assert [] + suffix == suffix && acc + map[] == acc;
      case Bind(name, v, rest) =>
        var more := EncodeTable(schema, fields, rest);
        if ByName(fields, name).None? {
          assert EncodeTable(schema, fields, table) == more;
          OlderReaderReads(schema, fields, older, rest, suffix, acc);
        } else {
          var f := ByName(fields, name).value;
          var text := EncodeField(schema, f, v);
          NameLeadsToNumber(fields, name);
          assert text + more + suffix == text + (more + suffix);
          if ByName(older, name).None? {
            FieldIsSkipped(schema, older, f, v, more + suffix, acc);
            OlderReaderReads(schema, fields, older, rest, suffix, acc);
          } else {
            var x := NormField(schema, f, v);
            NameLeadsToNumber(older, name);
            FieldRoundTrip(schema, older, f, v, more + suffix, acc);
            UntouchedByOther(older, rest, acc, name, x);
            OlderReaderReads(schema, fields, older, rest, suffix, acc[name := x]);
            PresentBinds(schema, older, rest, name);
            MergeOne(acc, name, x, Present(schema, older, rest));
          }
        }
    }
  }
}
