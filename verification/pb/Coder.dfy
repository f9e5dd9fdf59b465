/**
 The encoder and the decoder as they work: the encoder appends to a buffer, takes back zero fields it
 has written, and puts lengths in front of what is already there; the decoder moves a cursor and fills
 tables in loops.  Both are shown to compute the functions of the module Message.
 */
module Coder {
  import opened Bytes
  import opened Options
  import opened Varint
  import opened Message
  import opened Buffer
  import Skip

  // ---------------------------------------------------------------------------------- the encoder

  /** Nothing was lost: the buffer, if it found room for everything, holds s more. */
  ghost predicate Wrote(before: seq<Byte>, b: Buffer, s: seq<Byte>)
    reads b, b.buff
  {
    b.Valid() && (!b.refused ==> b.Bytes() == before + s)
  }

  // How many bytes are asked for at most, with keys and lengths, before zeros are taken back.

  function Bulk(s: Scalar): nat {
    if s.Bytes? then 10 + |s.s| else 10
  }

  function Weight(v: Value): nat {
    match v
    case ScalarV(s) => 5 + Bulk(s)
    case TableV(table) => 15 + TableWeight(table)
    case ListV(items) => 15 + ItemsWeight(items)
    case MapV(entries) => EntriesWeight(entries)
  }

  function TableWeight(table: Table): nat {
    if table.NoBinding? then 0 else Weight(table.value) + TableWeight(table.rest)
  }

  function ItemsWeight(vs: Values): nat {
    if vs.NoValue? then 0 else Weight(vs.value) + ItemsWeight(vs.rest)
  }

  function EntriesWeight(es: Entries): nat {
    if es.NoEntry? then 0 else 20 + Bulk(es.key) + Weight(es.value) + EntriesWeight(es.rest)
  }

  /** The call took no more room than its weight, and found it if the allocator can serve that much. */
  twostate predicate Within(b: Buffer, weight: nat)
    reads b
  {
    && b.size <= old(b.size) + weight
    && (!old(b.refused) && b.Ample(old(b.size) + weight) ==> !b.refused)
  }

  /** What a loop that puts weight bytes into the buffer keeps while it has so many left. */
  twostate predicate Filling(b: Buffer, left: nat, weight: nat)
    reads b, b.buff
  {
    && b.Valid() && (b.buff == old(b.buff) || fresh(b.buff)) && (old(b.refused) ==> b.refused)
    && old(b.size) <= b.size && b.size + left <= old(b.size) + weight
    && (!old(b.refused) && b.Ample(old(b.size) + weight) ==> !b.refused)
  }

  /** Wherever the allocator can serve weight more bytes, it can serve fewer. */
  lemma AmpleFor(b: Buffer, weight: nat)
    requires b.Valid()
    ensures forall total: nat, len: nat {:trigger b.Ample(total), b.Grants(len)} ::
              b.size + weight <= total && len <= weight && b.Ample(total) ==> b.Grants(len)
  {
    forall total: nat, len: nat | b.size + weight <= total && len <= weight && b.Ample(total)
      ensures b.Grants(len)
    {
      b.AmpleGrants(total, len);
    }
  }

  /** lpb_addtype: plen is the length of a zero that was written. */
  method AddType(b: Buffer, kind: Kind, s: Scalar) returns (plen: nat)
    requires b.Valid() && ScalarFits(kind, s)
    modifies b, b.buff
    ensures Within(b, Bulk(s))
    ensures (b.buff == old(b.buff) || fresh(b.buff)) && (old(b.refused) ==> b.refused)
    ensures Wrote(old(b.Bytes()), b, EncodeScalar(kind, s))
    ensures old(b.size) + plen <= b.size
    ensures !b.refused ==> plen == if s == Zero(kind) then |EncodeScalar(kind, s)| else 0
  {
    AmpleFor(b, Bulk(s));
    var len;
    if kind == TBool {
      len := b.AddVarint32(if s.b then 1 else 0);
    } else if kind == TString {
      len := b.AddBytes(s.s);
    } else {
      WordFits(kind, s.n);
      var word := Word(kind, s.n);
      if kind == TFixed32 || kind == TSfixed32 {
        len := b.AddFixed(word, 4);
      } else if kind == TFixed64 || kind == TSfixed64 {
        len := b.AddFixed(word, 8);
      } else if kind == TUint32 || kind == TSint32 {
        len := b.AddVarint32(word);
      } else {
        len := b.AddVarint64(word);
      }
    }
    plen := if s == Zero(kind) then len else 0;
  }

  /** Appending in two steps. */
  lemma ThenWrote(before: seq<Byte>, mid: seq<Byte>, after: seq<Byte>, s: seq<Byte>, t: seq<Byte>)
    requires mid == before + s && after == mid + t
    ensures after == before + (s + t)
  {
  }

  /** What is left to write, and what was to be written. */
  ghost predicate Left(before: seq<Byte>, b: Buffer, rest: seq<Byte>, whole: seq<Byte>)
    reads b, b.buff
  {
    b.Valid() && (!b.refused ==> b.Bytes() + rest == before + whole)
  }

  lemma LeftAfter(refused: bool, before: seq<Byte>, bytes: seq<Byte>, bytes': seq<Byte>, s: seq<Byte>, rest: seq<Byte>,
                  whole: seq<Byte>)
    requires !refused ==> bytes + (s + rest) == before + whole && bytes' == bytes + s
    ensures !refused ==> bytes' + rest == before + whole
  {
    assert bytes + s + rest == bytes + (s + rest);
  }

  /** lpb_addlength, behind a body that starts at position len. */
  method EndLength(b: Buffer, len: nat, ghost start: seq<Byte>, ghost body: seq<Byte>) returns (ok: bool)
    requires b.Valid() && len <= b.size && (!b.refused ==> len == |start| && b.Bytes() == start + body)
    modifies b, b.buff
    ensures Within(b, 10)
    ensures (b.buff == old(b.buff) || fresh(b.buff)) && (old(b.refused) ==> b.refused)
    ensures b.Valid() && old(b.size) <= b.size && (!ok ==> b.refused)
    ensures ok ==> Wrote(start, b, Prefixed(body))
  {
    DecodeEncode(b.size - len, []);
    AmpleFor(b, 10);
    ghost var mid := b.Bytes();
    var l := b.AddLength(len);
    ok := l != 0;
    if ok && !b.refused {
      assert mid[..len] == start && mid[len..] == body;
      assert b.Bytes() == start + Prefixed(body);
    }
  }

  /** lpbE_field; ok is false where the source raises an error. */
  method EField(b: Buffer, schema: Schema, t: Type, v: Value) returns (ok: bool, plen: nat)
    requires b.Valid() && SchemaOk(schema) && ValueFits(schema, t, v)
    modifies b, b.buff
    ensures Within(b, Weight(v) - 5)
    ensures (b.buff == old(b.buff) || fresh(b.buff)) && (old(b.refused) ==> b.refused)
    ensures b.Valid() && old(b.size) + plen <= b.size
    ensures ok ==> Wrote(old(b.Bytes()), b, EncodeValue(schema, t, v))
    ensures ok && !b.refused ==>
              plen == if t.Prim? && v.scalar == Zero(t.kind) then |EncodeScalar(t.kind, v.scalar)| else 0
    ensures !ok ==> b.refused
    decreases v, 0
  {
    plen := 0;
    match t {
      case Prim(kind) =>
        plen := AddType(b, kind, v.scalar);
        ok := true;
      case Message(id) =>
        var len := b.size;
        ghost var before := b.Bytes();
        ok := EncodeFields(b, schema, Fields(schema, id), v.table);
        if !ok {
          return;
        }
        ok := EndLength(b, len, before, EncodeTable(schema, Fields(schema, id), v.table));
    }
  }

  /** lpbE_tagfield: the key and the value; a zero that is to be ignored is taken back with its key. */
  method ETagField(b: Buffer, schema: Schema, number: nat, t: Type, v: Value, ignoreZero: bool) returns (ok: bool)
    requires b.Valid() && SchemaOk(schema) && ValueFits(schema, t, v) && number < 0x2000_0000
    modifies b, b.buff
    ensures Within(b, Weight(v))
    ensures (b.buff == old(b.buff) || fresh(b.buff)) && (old(b.refused) ==> b.refused)
    ensures b.Valid() && old(b.size) <= b.size && (!ok ==> b.refused)
    ensures ok ==> Wrote(old(b.Bytes()), b, EncodeTagged(schema, number, t, v, ignoreZero))
    decreases v, 1
  {
    PairParts(number, WireOf(t));
    AmpleFor(b, 5);
    ghost var before := b.Bytes();
    var hlen := b.AddVarint32(Pair(number, WireOf(t)));
    ghost var mid := b.Bytes();
    var plen;
    ok, plen := EField(b, schema, t, v);
    if !ok {
      return;
    }
    if !b.refused {
      ThenWrote(before, mid, b.Bytes(), Encode(Pair(number, WireOf(t))), EncodeValue(schema, t, v));
    }
    if plen != 0 && ignoreZero {
      b.Drop(plen + hlen);
      if !b.refused {
        assert b.Bytes() == before + [];
      }
    }
  }

  /** lpbE_map. */
  method EMap(b: Buffer, schema: Schema, number: nat, key: Kind, t: Type, entries: Entries) returns (ok: bool)
    requires b.Valid() && SchemaOk(schema) && EntriesFit(schema, key, t, entries) && number < 0x2000_0000
    modifies b, b.buff
    ensures Within(b, EntriesWeight(entries))
    ensures (b.buff == old(b.buff) || fresh(b.buff)) && (old(b.refused) ==> b.refused)
    ensures b.Valid() && old(b.size) <= b.size && (!ok ==> b.refused)
    ensures ok ==> Wrote(old(b.Bytes()), b, EncodeEntries(schema, number, key, t, entries))
    decreases entries, 1
  {
    ghost var before, whole := b.Bytes(), EncodeEntries(schema, number, key, t, entries);
    var es := entries;
    while es.Entry?
      invariant Filling(b, EntriesWeight(es), EntriesWeight(entries))
      invariant EntriesFit(schema, key, t, es) && (es == entries || es < entries)
      invariant Left(before, b, EncodeEntries(schema, number, key, t, es), whole)
      decreases es
    {
      ok := EFirstEntry(b, schema, number, key, t, es, before, whole);
      if !ok {
        return;
      }
      es := es.rest;
    }
    assert b.Bytes() + [] == b.Bytes();
    ok := true;
  }

  /** The first of the entries that are left. */
  method EFirstEntry(b: Buffer, schema: Schema, number: nat, key: Kind, t: Type, es: Entries, ghost before: seq<Byte>,
                     ghost whole: seq<Byte>) returns (ok: bool)
    requires b.Valid() && SchemaOk(schema) && es.Entry? && EntriesFit(schema, key, t, es) && number < 0x2000_0000
    requires Left(before, b, EncodeEntries(schema, number, key, t, es), whole)
    modifies b, b.buff
    ensures Within(b, EntriesWeight(es) - EntriesWeight(es.rest))
    ensures (b.buff == old(b.buff) || fresh(b.buff)) && (old(b.refused) ==> b.refused)
    ensures b.Valid() && old(b.size) <= b.size && (!ok ==> b.refused)
    ensures ok ==> Left(before, b, EncodeEntries(schema, number, key, t, es.rest), whole)
    decreases es, 0
  {
    ghost var bytes := b.Bytes();
    ok := EEntry(b, schema, number, key, t, es.key, es.value);
    if ok {
      ghost var text := EncodeWholeEntry(schema, number, key, t, es.key, es.value);
      LeftAfter(b.refused, before, bytes, b.Bytes(), text, EncodeEntries(schema, number, key, t, es.rest), whole);
    }
  }

  /** One round of lpbE_map. */
  method EEntry(b: Buffer, schema: Schema, number: nat, key: Kind, t: Type, k: Scalar, v: Value) returns (ok: bool)
    requires b.Valid() && SchemaOk(schema) && ScalarFits(key, k) && ValueFits(schema, t, v) && number < 0x2000_0000
    modifies b, b.buff
    ensures Within(b, 20 + Bulk(k) + Weight(v))
    ensures (b.buff == old(b.buff) || fresh(b.buff)) && (old(b.refused) ==> b.refused)
    ensures b.Valid() && old(b.size) <= b.size && (!ok ==> b.refused)
    ensures ok ==> Wrote(old(b.Bytes()), b, EncodeWholeEntry(schema, number, key, t, k, v))
    decreases v, 3
  {
    PairParts(number, Skip.PB_TBYTES);
    AmpleFor(b, 5);
    ghost var before := b.Bytes();
    var hlen := b.AddVarint32(Pair(number, Skip.PB_TBYTES));
    var len := b.size;
    ghost var start := b.Bytes();
    ok := EEntryBody(b, schema, key, t, k, v);
    if !ok {
      return;
    }
    ghost var body := EncodeEntry(schema, key, t, k, v);
    ok := EndLength(b, len, start, body);
    if ok && !b.refused {
      ThenWrote(before, start, b.Bytes(), Encode(Pair(number, Skip.PB_TBYTES)), Prefixed(body));
    }
  }

  /** The key and the value of a map entry. */
  method EEntryBody(b: Buffer, schema: Schema, key: Kind, t: Type, k: Scalar, v: Value) returns (ok: bool)
    requires b.Valid() && SchemaOk(schema) && ScalarFits(key, k) && ValueFits(schema, t, v)
    modifies b, b.buff
    ensures Within(b, 5 + Bulk(k) + Weight(v))
    ensures (b.buff == old(b.buff) || fresh(b.buff)) && (old(b.refused) ==> b.refused)
    ensures b.Valid() && old(b.size) <= b.size && (!ok ==> b.refused)
    ensures ok ==> Wrote(old(b.Bytes()), b, EncodeEntry(schema, key, t, k, v))
    decreases v, 2
  {
    ghost var before := b.Bytes();
    ok := EKey(b, key, k);
    ghost var mid := b.Bytes();
    ok := ETagField(b, schema, 2, t, v, true);
    if ok && !b.refused {
      ThenWrote(before, mid, b.Bytes(), EncodeKey(key, k), EncodeTagged(schema, 2, t, v, true));
    }
  }

  /** lpbE_tagfield for the key of a map entry, which is a scalar. */
  method EKey(b: Buffer, key: Kind, k: Scalar) returns (ok: bool)
    requires b.Valid() && ScalarFits(key, k)
    modifies b, b.buff
    ensures Within(b, 5 + Bulk(k))
    ensures (b.buff == old(b.buff) || fresh(b.buff)) && (old(b.refused) ==> b.refused)
    ensures b.Valid() && old(b.size) <= b.size && ok
    ensures Wrote(old(b.Bytes()), b, EncodeKey(key, k))
  {
    PairParts(1, WireOf(Prim(key)));
    AmpleFor(b, 5);
    ghost var before := b.Bytes();
    var hlen := b.AddVarint32(Pair(1, WireOf(Prim(key))));
    ghost var mid := b.Bytes();
    var plen := AddType(b, key, k);
    if !b.refused {
      ThenWrote(before, mid, b.Bytes(), Encode(Pair(1, WireOf(Prim(key)))), EncodeScalar(key, k));
    }
    if plen != 0 {
      b.Drop(plen + hlen);
      if !b.refused {
        assert b.Bytes() == before + [];
      }
    }
    ok := true;
  }

  /** lpbE_repeated. */
  method ERepeated(b: Buffer, schema: Schema, f: Field, items: Values) returns (ok: bool)
    requires b.Valid() && SchemaOk(schema) && FieldOk(f) && f.shape.Repeated? && ItemsFit(schema, f.ty, items)
    modifies b, b.buff
    ensures Within(b, 15 + ItemsWeight(items))
    ensures (b.buff == old(b.buff) || fresh(b.buff)) && (old(b.refused) ==> b.refused)
    ensures b.Valid() && old(b.size) <= b.size && (!ok ==> b.refused)
    ensures ok ==> Wrote(old(b.Bytes()), b,
                         if f.shape.packed
                           then Encode(Pair(f.number, Skip.PB_TBYTES)) + Prefixed(EncodeItems(schema, f.ty, items))
                         else EncodeTaggedItems(schema, f.number, f.ty, items))
    decreases items, 3
  {
    if f.shape.packed {
      ok := EPacked(b, schema, f.number, f.ty, items);
    } else {
      ok := ETagItems(b, schema, f.number, f.ty, items);
    }
  }

  method EPacked(b: Buffer, schema: Schema, number: nat, t: Type, items: Values) returns (ok: bool)
    requires b.Valid() && SchemaOk(schema) && number < 0x2000_0000 && ItemsFit(schema, t, items)
    modifies b, b.buff
    ensures Within(b, 15 + ItemsWeight(items))
    ensures (b.buff == old(b.buff) || fresh(b.buff)) && (old(b.refused) ==> b.refused)
    ensures b.Valid() && old(b.size) <= b.size && (!ok ==> b.refused)
    ensures ok ==> Wrote(old(b.Bytes()), b,
                         Encode(Pair(number, Skip.PB_TBYTES)) + Prefixed(EncodeItems(schema, t, items)))
    decreases items, 2
  {
    PairParts(number, Skip.PB_TBYTES);
    AmpleFor(b, 5);
    ghost var before := b.Bytes();
    var hlen := b.AddVarint32(Pair(number, Skip.PB_TBYTES));
    var len := b.size;
    ghost var start := b.Bytes();
    ok := EItems(b, schema, t, items);
    if ok {
      ok := EndLength(b, len, start, EncodeItems(schema, t, items));
    }
    if ok && !b.refused {
      ThenWrote(before, start, b.Bytes(), Encode(Pair(number, Skip.PB_TBYTES)),
                Prefixed(EncodeItems(schema, t, items)));
    }
  }

  method EItems(b: Buffer, schema: Schema, t: Type, items: Values) returns (ok: bool)
    requires b.Valid() && SchemaOk(schema) && ItemsFit(schema, t, items)
    modifies b, b.buff
    ensures Within(b, ItemsWeight(items))
    ensures (b.buff == old(b.buff) || fresh(b.buff)) && (old(b.refused) ==> b.refused)
    ensures b.Valid() && old(b.size) <= b.size && (!ok ==> b.refused)
    ensures ok ==> Wrote(old(b.Bytes()), b, EncodeItems(schema, t, items))
    decreases items, 1
  {
    ghost var before, whole := b.Bytes(), EncodeItems(schema, t, items);
    var vs := items;
    while vs.Item?
      invariant Filling(b, ItemsWeight(vs), ItemsWeight(items))
      invariant ItemsFit(schema, t, vs) && (vs == items || vs < items)
      invariant Left(before, b, EncodeItems(schema, t, vs), whole)
      decreases vs
    {
      ghost var bytes := b.Bytes();
      var plen;
      ok, plen := EField(b, schema, t, vs.value);
      if !ok {
        return;
      }
      LeftAfter(b.refused, before, bytes, b.Bytes(), EncodeValue(schema, t, vs.value),
                EncodeItems(schema, t, vs.rest), whole);
      vs := vs.rest;
    }
    ok := true;
  }

  method ETagItems(b: Buffer, schema: Schema, number: nat, t: Type, items: Values) returns (ok: bool)
    requires b.Valid() && SchemaOk(schema) && ItemsFit(schema, t, items) && number < 0x2000_0000
    modifies b, b.buff
    ensures Within(b, ItemsWeight(items))
    ensures (b.buff == old(b.buff) || fresh(b.buff)) && (old(b.refused) ==> b.refused)
    ensures b.Valid() && old(b.size) <= b.size && (!ok ==> b.refused)
    ensures ok ==> Wrote(old(b.Bytes()), b, EncodeTaggedItems(schema, number, t, items))
    decreases items, 1
  {
    ghost var before, whole := b.Bytes(), EncodeTaggedItems(schema, number, t, items);
    var vs := items;
    while vs.Item?
      invariant Filling(b, ItemsWeight(vs), ItemsWeight(items))
      invariant ItemsFit(schema, t, vs) && (vs == items || vs < items)
      invariant Left(before, b, EncodeTaggedItems(schema, number, t, vs), whole)
      decreases vs
    {
      ghost var bytes := b.Bytes();
      ok := ETagField(b, schema, number, t, vs.value, false);
      if !ok {
        return;
      }
      LeftAfter(b.refused, before, bytes, b.Bytes(), EncodeTagged(schema, number, t, vs.value, false),
                EncodeTaggedItems(schema, number, t, vs.rest), whole);
      vs := vs.rest;
    }
    ok := true;
  }

  /** One field of lpb_encode. */
  method EOneField(b: Buffer, schema: Schema, f: Field, v: Value) returns (ok: bool)
    requires b.Valid() && SchemaOk(schema) && FieldOk(f) && FieldFits(schema, f, v)
    modifies b, b.buff
    ensures Within(b, Weight(v))
    ensures (b.buff == old(b.buff) || fresh(b.buff)) && (old(b.refused) ==> b.refused)
    ensures b.Valid() && old(b.size) <= b.size && (!ok ==> b.refused)
    ensures ok ==> Wrote(old(b.Bytes()), b, EncodeField(schema, f, v))
    decreases v, 2
  {
    match f.shape {
      case Single => ok := ETagField(b, schema, f.number, f.ty, v, !f.oneof);
      case Repeated(_) => ok := ERepeated(b, schema, f, v.items);
      case Mapping(key) => ok := EMap(b, schema, f.number, key, f.ty, v.entries);
    }
  }

  /** lpb_encode: the table's keys, in the order in which they come. */
  method EncodeFields(b: Buffer, schema: Schema, fields: seq<Field>, table: Table) returns (ok: bool)
    requires b.Valid() && SchemaOk(schema) && FieldsOk(fields) && TableFits(schema, fields, table)
    modifies b, b.buff
    ensures Within(b, TableWeight(table))
    ensures (b.buff == old(b.buff) || fresh(b.buff)) && (old(b.refused) ==> b.refused)
    ensures b.Valid() && old(b.size) <= b.size && (!ok ==> b.refused)
    ensures ok ==> Wrote(old(b.Bytes()), b, EncodeTable(schema, fields, table))
    decreases table, 1
  {
    ghost var before, whole := b.Bytes(), EncodeTable(schema, fields, table);
    var rest := table;
    while rest.Bind?
      invariant Filling(b, TableWeight(rest), TableWeight(table))
      invariant TableFits(schema, fields, rest) && (rest == table || rest < table)
      invariant Left(before, b, EncodeTable(schema, fields, rest), whole)
      decreases rest
    {
      var f := ByName(fields, rest.name);
      ghost var bytes := b.Bytes();
      ghost var text := if f.None? then [] else EncodeField(schema, f.value, rest.value);
      if f.Some? {
        NameLeadsToNumber(fields, rest.name);
        ok := EOneField(b, schema, f.value, rest.value);
        if !ok {
          return;
        }
      }
      LeftAfter(b.refused, before, bytes, b.Bytes(), text, EncodeTable(schema, fields, rest.rest), whole);
      rest := rest.rest;
    }
    ok := true;
  }

  // ---------------------------------------------------------------------------------- the decoder

  /** The cursor moved over what a function says was read; or the read failed, and the call will end in an error. */
  twostate predicate Moved<T>(s: Slice, r: Read<T>)
    reads s
  {
    s.Valid() && (r.Got? ==> s.p == old(s.p) + r.length)
  }

  /** lpb_readbytes. */
  method DBytes(s: Slice) returns (r: Read<seq<Byte>>)
    requires s.Valid()
    modifies s
    ensures r == ReadBytes(old(s.Rest())) && Moved(s, r)
  {
    ghost var rest := s.Rest();
    var got, len := s.ReadVarint64();
    if got == 0 || len > PB_MAX_SIZET || |s.data| - s.p < len {
      return Bad;
    }
    var from := s.p;
    s.p := s.p + len;
    assert s.data[from..from + len] == rest[got..got + len];
    return Got(s.data[from..from + len], got + len);
  }

  /** pb_readfixed32 and pb_readfixed64: from the highest byte down. */
  method DFixed(s: Slice, k: nat) returns (ret: nat, v: nat)
    requires s.Valid() && k > 0
    modifies s
    ensures s.Valid() && s.p == old(s.p) + ret && (ret != 0 <==> k <= |old(s.Rest())|)
    ensures ret != 0 ==> ret == k && v == FromLittleEndian(old(s.Rest()), k)
  {
    if s.p + k > |s.data| {
      return 0, 0;
    }
    ghost var rest := s.Rest();
    v := 0;
    var i := k;
    while i > 0
      invariant 0 <= i <= k && v == FromLittleEndian(rest[i..], k - i)
    {
      i := i - 1;
      assert rest[i..][1..] == rest[i + 1..];
      v := v * 256 + s.data[s.p + i];
    }
    assert rest[0..] == rest;
    s.p := s.p + k;
    return k, v;
  }

  /** lpb_readtype. */
  method DScalar(s: Slice, kind: Kind) returns (r: Read<Scalar>)
    requires s.Valid()
    modifies s
    ensures r == DecodeScalar(kind, old(s.Rest())) && Moved(s, r)
  {
    if kind == TString {
      var bytes := DBytes(s);
      return if bytes.Bad? then Bad else Got(Bytes(bytes.value), bytes.length);
    } else if kind == TFixed32 || kind == TSfixed32 {
      var ret, v := DFixed(s, 4);
      return if ret == 0 then Bad else Got(Int(Pushed(kind, v)), 4);
    } else if kind == TFixed64 || kind == TSfixed64 {
      var ret, v := DFixed(s, 8);
      return if ret == 0 then Bad else Got(Int(Pushed(kind, v)), 8);
    } else {
      var ret, v := s.ReadVarint64();
      return if ret == 0 then Bad else Got(if kind == TBool then Bool(v != 0) else Int(Pushed(kind, v)), ret);
    }
  }

  /** lpbD_rawfield: a nested message is decoded from a cursor of its own. */
  method DRawField(s: Slice, schema: Schema, ty: Type) returns (r: Read<Lua>)
    requires s.Valid()
    modifies s
    ensures r == DecodeRaw(schema, ty, old(s.Rest())) && Moved(s, r)
    decreases |s.data| - s.p, 0
  {
    match ty {
      case Prim(kind) =>
        var x := DScalar(s, kind);
        r := if x.Bad? then Bad else Got(LScalar(x.value), x.length);
      case Message(id) =>
        var x := DBytes(s);
        if x.Bad? {
          return Bad;
        }
        var sv := new Slice(x.value);
        var o := DMessage(sv, schema, Fields(schema, id), Defaults(Fields(schema, id)));
        r := if o.None? then Bad else Got(LTable(o.value), x.length);
    }
  }

  /** lpbD_field: the wire type must be that of the field's type. */
  method DField(s: Slice, schema: Schema, ty: Type, tag: nat) returns (r: Read<Lua>)
    requires s.Valid()
    modifies s
    ensures r == DecodeTyped(schema, ty, tag, old(s.Rest())) && Moved(s, r)
    decreases |s.data| - s.p, 1
  {
    if WireOf(ty) == Skip.WireType(tag) {
      r := DRawField(s, schema, ty);
    } else {
      r := Bad;
    }
  }

  /** What lpbD_map has found in an entry so far, or that a field of it was wrong. */
  datatype Found = Found(key: Option<Scalar>, value: Option<Lua>) | Wrong

  /** What a round of the loop found is what the rest of the entry is read with. */
  ghost predicate Finds(schema: Schema, key: Kind, ty: Type, t: seq<Byte>, tag: nat, k: Option<Scalar>, v: Option<Lua>,
                        r: Found, rest: seq<Byte>)
  {
    EntryAfterKey(schema, key, ty, t, tag, k, v)
    == if r == Wrong then None else DecodeEntry(schema, key, ty, rest, r.key, r.value)
  }

  function FoundNow(tag: nat, k: Option<Scalar>, v: Option<Lua>, x: Read<Lua>): Found {
    if Skip.FieldNumber(tag) !in {1, 2} then Found(k, v)
    else if x.Bad? then Wrong
    else if Skip.FieldNumber(tag) == 2 then Found(k, Some(x.value))
    else Found(if x.value.LScalar? then Some(x.value.scalar) else k, v)
  }

  lemma EntryGoesOn(schema: Schema, key: Kind, ty: Type, t: seq<Byte>, tag: nat, k: Option<Scalar>, v: Option<Lua>,
                    x: Read<Lua>, rest: seq<Byte>)
    requires Skip.FieldNumber(tag) in {1, 2} ==>
               && DecodeTyped(schema, if Skip.FieldNumber(tag) == 1 then Prim(key) else ty, tag, t) == x
               && (x.Got? ==> x.length <= |t| && rest == t[x.length..])
    requires Skip.FieldNumber(tag) !in {1, 2} ==> rest == t
    ensures Finds(schema, key, ty, t, tag, k, v, FoundNow(tag, k, v, x), rest)
  {
  }

  /** One round of the loop of lpbD_map, behind a key. */
  method DEntryField(p: Slice, schema: Schema, key: Kind, ty: Type, tag: nat, k: Option<Scalar>, v: Option<Lua>)
    returns (r: Found)
    requires p.Valid()
    modifies p
    ensures p.Valid() && (r != Wrong ==> old(p.p) <= p.p)
    ensures Finds(schema, key, ty, old(p.Rest()), tag, k, v, r, p.Rest())
    decreases |p.data| - p.p, 2
  {
    ghost var t := p.Rest();
    var n := Skip.FieldNumber(tag);
    var x: Read<Lua> := Bad;
    if n == 1 {
      x := DField(p, schema, Prim(key), tag);
    } else if n == 2 {
      x := DField(p, schema, ty, tag);
    }
    assert x.Got? ==> p.Rest() == t[x.length..];
    EntryGoesOn(schema, key, ty, t, tag, k, v, x, p.Rest());
    r := FoundNow(tag, k, v, x);
  }

  /** lpbD_map, behind the length: one entry. */
  method DEntry(p: Slice, schema: Schema, key: Kind, ty: Type) returns (entry: Option<MapEntry>)
    requires p.Valid()
    modifies p
    ensures entry == DecodeEntry(schema, key, ty, old(p.Rest()), None, None)
    decreases |p.data| - p.p, 4
  {
    var found := Found(None, None);
    ghost var whole := p.Rest();
    while true
      invariant p.Valid() && old(p.p) <= p.p && found.Found?
      invariant DecodeEntry(schema, key, ty, whole, None, None) ==
                  DecodeEntry(schema, key, ty, p.Rest(), found.key, found.value)
      decreases |p.data| - p.p
    {
      ghost var rest := p.Rest();
      var got, tag := p.ReadVarint32();
      if got == 0 {
        break;
      }
      assert p.Rest() == rest[got..];
      found := DEntryField(p, schema, key, ty, tag, found.key, found.value);
      if found == Wrong {
        return None;
      }
    }
    return Some(EntryOf(if found.key.Some? then found.key.value else Zero(key),
                        if found.value.Some? then found.value
                        else if ty.Prim? then Some(LScalar(Zero(ty.kind))) else None));
  }

  /** The loop of lpbD_repeated over a packed field. */
  method DItems(p: Slice, schema: Schema, ty: Type) returns (items: Option<seq<Lua>>)
    requires p.Valid()
    modifies p
    ensures items == DecodeItems(schema, ty, old(p.Rest()))
    decreases |p.data| - p.p, 4
  {
    var list: seq<Lua> := [];
    ghost var whole := p.Rest();
    FollowedEnds([], DecodeItems(schema, ty, whole));
    while p.p < |p.data|
      invariant p.Valid() && old(p.p) <= p.p
      invariant DecodeItems(schema, ty, whole) == Followed(list, DecodeItems(schema, ty, p.Rest()))
      decreases |p.data| - p.p
    {
      ghost var rest := p.Rest();
      var x := DRawField(p, schema, ty);
      if x.Bad? {
        return None;
      }
      assert p.Rest() == rest[x.length..];
      FollowedOn(list, x.value, DecodeItems(schema, ty, p.Rest()));
      list := list + [x.value];
    }
    FollowedEnds(list, None);
    return Some(list);
  }

  function Followed(list: seq<Lua>, more: Option<seq<Lua>>): Option<seq<Lua>> {
    if more.None? then None else Some(list + more.value)
  }

  lemma FollowedEnds(list: seq<Lua>, more: Option<seq<Lua>>)
    ensures Followed([], more) == more && Followed(list, Some([])) == Some(list)
  {
    assert list + [] == list;
    if more.Some? {
      assert [] + more.value == more.value;
    }
  }

  lemma FollowedOn(list: seq<Lua>, x: Lua, more: Option<seq<Lua>>)
    ensures Followed(list, if more.None? then None else Some([x] + more.value)) == Followed(list + [x], more)
  {
    if more.Some? {
      assert list + ([x] + more.value) == list + [x] + more.value;
    }
  }

  /** One field of lpbD_message, whose key was read: lpbD_map, lpbD_repeated or lpbD_field. */
  method DOneField(s: Slice, schema: Schema, f: Field, tag: nat, acc: Object) returns (r: Step)
    requires s.Valid()
    modifies s
    ensures r == DecodeField(schema, f, tag, old(s.Rest()), acc)
    ensures s.Valid() && (r.Go? ==> s.p == old(s.p) + r.length)
    decreases |s.data| - s.p, 2
  {
    match f.shape {
      case Single =>
        var x := DField(s, schema, f.ty, tag);
        r := if x.Bad? then Fail else Go(acc[f.name := x.value], x.length);
      case Repeated(packed) =>
        if Skip.WireType(tag) != Skip.PB_TBYTES || (!packed && WireOf(f.ty) == Skip.PB_TBYTES) {
          var x := DField(s, schema, f.ty, tag);
          r := if x.Bad? then Fail else Go(acc[f.name := LList(ListAt(acc, f.name) + [x.value])], x.length);
        } else {
          var x := DBytes(s);
          if x.Bad? {
            return Fail;
          }
          var p := new Slice(x.value);
          var vs := DItems(p, schema, f.ty);
          r := if vs.None? then Fail else Go(acc[f.name := LList(ListAt(acc, f.name) + vs.value)], x.length);
        }
      case Mapping(key) =>
        var x := DBytes(s);
        if x.Bad? {
          return Fail;
        }
        var p := new Slice(x.value);
        var entry := DEntry(p, schema, key, f.ty);
        r := if entry.None? then Fail else Go(acc[f.name := LMap(WithEntry(MapAt(acc, f.name), entry.value))],
                                              x.length);
    }
  }

  /** lpbD_message: fields are read until no key can be. */
  method DMessage(s: Slice, schema: Schema, fields: seq<Field>, start: Object) returns (r: Option<Object>)
    requires s.Valid()
    modifies s
    ensures r == DecodeTable(schema, fields, old(s.Rest()), start)
    decreases |s.data| - s.p, 4
  {
    var acc := start;
    ghost var whole := s.Rest();
    while true
      invariant s.Valid() && old(s.p) <= s.p
      invariant DecodeTable(schema, fields, whole, start) == DecodeTable(schema, fields, s.Rest(), acc)
      decreases |s.data| - s.p
    {
      ghost var rest := s.Rest();
      var got, tag := s.ReadVarint32();
      if got == 0 {
        break;
      }
      assert s.Rest() == rest[got..];
      ghost var t := s.Rest();
      var f := ByNumber(fields, Skip.FieldNumber(tag));
      if f.None? {
        var n := Skip.SkipValue(s, tag);
        assert s.Rest() == t[n..];
      } else {
        var step := DOneField(s, schema, f.value, tag, acc);
        if step.Fail? {
          return None;
        }
        assert s.Rest() == t[step.length..];
        acc := step.acc;
      }
    }
    return Some(acc);
  }

  /**
   Encoding into a buffer and decoding from its bytes: the table comes back, its values as far as the
   types hold them, the defaults where it was silent.
   */
  method EncodeThenDecode(schema: Schema, id: nat, table: Table, maxAlloc: nat)
    returns (ok: bool, r: Option<Object>, ghost complete: bool)
    requires SchemaOk(schema) && TableFits(schema, Fields(schema, id), table) && maxAlloc < 0x8000_0000
    ensures PB_SSO_SIZE <= maxAlloc && 3 * TableWeight(table) <= 2 * maxAlloc ==>
              ok && r == Some(Defaults(Fields(schema, id)) + Present(schema, Fields(schema, id), table))
    ensures ok && complete ==> r == Some(Defaults(Fields(schema, id)) + Present(schema, Fields(schema, id), table))
  {
    var fields := Fields(schema, id);
    var b := new Buffer(maxAlloc);
    ok := EncodeFields(b, schema, fields, table);
    complete := !b.refused;
    var s := new Slice(b.buff[..b.size]);
    r := DMessage(s, schema, fields, Defaults(fields));
    if ok && complete {
      MessageRoundTrip(schema, id, table);
    }
  }
}
