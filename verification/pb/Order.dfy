/**
 The order of iteration: an encoder comes upon a table's names and a map's keys in any order, at every
 depth.  What is decoded is the same, as long as no two keys of one map are the same for the key's type.
 */
module Order {
  import opened Bytes
  import opened Options
  import opened Message
  import Buffer

  // ------------------------------------------------------------------------ alike up to the order

  function FindKey(es: Entries, k: Scalar): Option<Value> {
    match es
    case NoEntry => None
    case Entry(l, v, rest) => if l == k then Some(v) else FindKey(rest, k)
  }

  /** The same value, with the names of its tables and the keys of its maps in some other order. */
  ghost predicate Alike(v: Value, w: Value)
    decreases v, 0
  {
    match v
    case ScalarV(_) => w == v
    case TableV(table) => w.TableV? && AlikeTables(table, w.table)
    case ListV(items) => w.ListV? && AlikeItems(items, w.items)
    case MapV(entries) => w.MapV? && AlikeEntries(entries, w.entries)
  }

  ghost predicate AlikeItems(vs: Values, ws: Values)
    decreases vs, 1
  {
    match vs
    case NoValue => ws.NoValue?
    case Item(v, rest) => ws.Item? && Alike(v, ws.value) && AlikeItems(rest, ws.rest)
  }

  ghost predicate AlikeTables(table: Table, table': Table)
    decreases table, 2
  {
    && BoundIn(table, table')
    && forall name :: Binds(table', name) ==> Binds(table, name)
  }

  ghost predicate BoundIn(table: Table, table': Table)
    decreases table, 1
  {
    match table
    case NoBinding => true
    case Bind(name, v, rest) =>
      Find(table', name).Some? && Alike(v, Find(table', name).value) && BoundIn(rest, table')
  }

  ghost predicate AlikeEntries(es: Entries, fs: Entries)
    decreases es, 2
  {
    && EntriesIn(es, fs)
    && forall k :: FindKey(fs, k).Some? ==> FindKey(es, k).Some?
  }

  ghost predicate EntriesIn(es: Entries, fs: Entries)
    decreases es, 1
  {
    match es
    case NoEntry => true
    case Entry(k, v, rest) => FindKey(fs, k).Some? && Alike(v, FindKey(fs, k).value) && EntriesIn(rest, fs)
  }

  // ----------------------------------------------------------------- keys that stay apart in a map

  /** The type makes this key of that one. */
  predicate IsNorm(kind: Kind, k: Scalar, nk: Scalar) {
    ScalarFits(kind, k) && Norm(kind, k) == nk
  }

  /** The first entry whose key is this one as far as the type can hold it. */
  function FindNorm(kind: Kind, es: Entries, nk: Scalar): Option<Value> {
    match es
    case NoEntry => None
    case Entry(k, v, rest) => if IsNorm(kind, k, nk) then Some(v) else FindNorm(kind, rest, nk)
  }

  /** No two keys are the same for the key's type. */
  ghost predicate KeysApart(kind: Kind, es: Entries) {
    es.Entry? ==>
      && (ScalarFits(kind, es.key) ==> FindNorm(kind, es.rest, Norm(kind, es.key)) == None)
      && KeysApart(kind, es.rest)
  }

  /** This is so for the maps of a value at every depth. */
  ghost predicate Apart(schema: Schema, t: Type, v: Value)
    requires ValueFits(schema, t, v)
    decreases v, 0
  {
    t.Message? ==> TableApart(schema, Fields(schema, t.id), v.table)
  }

  ghost predicate FieldApart(schema: Schema, f: Field, v: Value)
    requires FieldFits(schema, f, v)
    decreases v, 1
  {
    match f.shape
    case Single => Apart(schema, f.ty, v)
    case Repeated(_) => ItemsApart(schema, f.ty, v.items)
    case Mapping(key) => KeysApart(key, v.entries) && EntriesApart(schema, key, f.ty, v.entries)
  }

  ghost predicate ItemsApart(schema: Schema, t: Type, vs: Values)
    requires ItemsFit(schema, t, vs)
    decreases vs, 2
  {
    vs.Item? ==> Apart(schema, t, vs.value) && ItemsApart(schema, t, vs.rest)
  }

  ghost predicate EntriesApart(schema: Schema, key: Kind, t: Type, es: Entries)
    requires EntriesFit(schema, key, t, es)
    decreases es, 2
  {
    es.Entry? ==> Apart(schema, t, es.value) && EntriesApart(schema, key, t, es.rest)
  }

  ghost predicate TableApart(schema: Schema, fields: seq<Field>, table: Table)
    requires TableFits(schema, fields, table)
    decreases table, 2
  {
    table.Bind? ==>
      && (ByName(fields, table.name).Some? ==> FieldApart(schema, ByName(fields, table.name).value, table.value))
      && TableApart(schema, fields, table.rest)
  }

  // --------------------------------------------------------------------------- what a map holds

  lemma {:induction false} FoundEntryFits(schema: Schema, key: Kind, t: Type, es: Entries, nk: Scalar)
    requires EntriesFit(schema, key, t, es) && FindNorm(key, es, nk).Some?
    ensures ValueFits(schema, t, FindNorm(key, es, nk).value)
    ensures EntriesApart(schema, key, t, es) ==> Apart(schema, t, FindNorm(key, es, nk).value)
  {
    if !IsNorm(key, es.key, nk) {
      FoundEntryFits(schema, key, t, es.rest, nk);
    }
  }

  /** A map holds its entries, under the keys that the type makes of theirs. */
  lemma {:induction false} EntriesAre(schema: Schema, key: Kind, t: Type, m: map<Scalar, Lua>, es: Entries, nk: Scalar)
    requires EntriesFit(schema, key, t, es) && KeysApart(key, es)
    ensures var r := AddEntries(schema, key, t, m, es);
            match FindNorm(key, es, nk)
            case None => (nk in r <==> nk in m) && (nk in m ==> r[nk] == m[nk])
            case Some(v) => nk in r && ValueFits(schema, t, v) && r[nk] == NormValue(schema, t, v)
    decreases es
  {
    if es.Entry? {
      EntriesAre(schema, key, t, m[Norm(key, es.key) := NormValue(schema, t, es.value)], es.rest, nk);
    }
  }

  /** With keys apart, an entry is found by its key and by what the type makes of it. */
  lemma {:induction false} FoundByNorm(kind: Kind, es: Entries, k: Scalar)
    requires KeysApart(kind, es) && FindKey(es, k).Some? && ScalarFits(kind, k)
    ensures FindNorm(kind, es, Norm(kind, k)) == FindKey(es, k)
  {
    if es.key != k {
      FoundByNorm(kind, es.rest, k);
    }
  }

  lemma {:induction false} NormHasKey(kind: Kind, es: Entries, nk: Scalar) returns (k: Scalar)
    requires FindNorm(kind, es, nk).Some?
    ensures FindKey(es, k).Some? && IsNorm(kind, k, nk)
  {
    if IsNorm(kind, es.key, nk) {
      k := es.key;
    } else {
      k := NormHasKey(kind, es.rest, nk);
    }
  }

  // ---------------------------------------------------------------------- the order does not matter

  lemma {:induction false} AlikeValues(schema: Schema, t: Type, v: Value, w: Value)
    requires ValueFits(schema, t, v) && ValueFits(schema, t, w) && Alike(v, w)
    requires Apart(schema, t, v) && Apart(schema, t, w)
    ensures NormValue(schema, t, v) == NormValue(schema, t, w)
    decreases v, 0
  {
    if t.Message? {
      OrderDoesNotMatter(schema, Fields(schema, t.id), v.table, w.table);
    }
  }

  lemma {:induction false} AlikeFields(schema: Schema, f: Field, v: Value, w: Value)
    requires FieldFits(schema, f, v) && FieldFits(schema, f, w) && Alike(v, w)
    requires FieldApart(schema, f, v) && FieldApart(schema, f, w)
    ensures NormField(schema, f, v) == NormField(schema, f, w)
    decreases v, 1
  {
    match f.shape
    case Single => AlikeValues(schema, f.ty, v, w);
    case Repeated(_) => AlikeLists(schema, f.ty, v.items, w.items);
    case Mapping(key) => AlikeMaps(schema, key, f.ty, v.entries, w.entries);
  }

  lemma {:induction false} AlikeLists(schema: Schema, t: Type, vs: Values, ws: Values)
    requires ItemsFit(schema, t, vs) && ItemsFit(schema, t, ws) && AlikeItems(vs, ws)
    requires ItemsApart(schema, t, vs) && ItemsApart(schema, t, ws)
    ensures NormItems(schema, t, vs) == NormItems(schema, t, ws)
    decreases vs, 2
  {
    if vs.Item? {
      AlikeValues(schema, t, vs.value, ws.value);
      AlikeLists(schema, t, vs.rest, ws.rest);
    }
  }

  /** The value found for a key on one side is like the one found on the other. */
  lemma {:induction false} AlikeAtKey(schema: Schema, key: Kind, t: Type, es: Entries, fs: Entries, k: Scalar)
    requires EntriesFit(schema, key, t, es) && EntriesApart(schema, key, t, es)
    requires EntriesFit(schema, key, t, fs) && EntriesApart(schema, key, t, fs) && KeysApart(key, fs)
    requires EntriesIn(es, fs) && FindKey(es, k).Some?
    ensures FindKey(fs, k).Some?
    ensures ValueFits(schema, t, FindKey(es, k).value) && ValueFits(schema, t, FindKey(fs, k).value)
    ensures NormValue(schema, t, FindKey(es, k).value) == NormValue(schema, t, FindKey(fs, k).value)
    decreases es, 1
  {
    if es.key == k {
      FoundByNorm(key, fs, k);
      FoundEntryFits(schema, key, t, fs, Norm(key, k));
      AlikeValues(schema, t, es.value, FindKey(fs, k).value);
    } else {
      AlikeAtKey(schema, key, t, es.rest, fs, k);
    }
  }

  lemma {:induction false} AlikeMaps(schema: Schema, key: Kind, t: Type, es: Entries, fs: Entries)
    requires EntriesFit(schema, key, t, es) && EntriesApart(schema, key, t, es) && KeysApart(key, es)
    requires EntriesFit(schema, key, t, fs) && EntriesApart(schema, key, t, fs) && KeysApart(key, fs)
    requires AlikeEntries(es, fs)
    ensures AddEntries(schema, key, t, map[], es) == AddEntries(schema, key, t, map[], fs)
    decreases es, 2
  {
    var m, m' := AddEntries(schema, key, t, map[], es), AddEntries(schema, key, t, map[], fs);
    forall nk
      ensures nk in m <==> nk in m'
      ensures nk in m ==> m[nk] == m'[nk]
    {
      AlikeAtNorm(schema, key, t, es, fs, nk);
    }
  }

  lemma {:induction false} AlikeAtNorm(schema: Schema, key: Kind, t: Type, es: Entries, fs: Entries, nk: Scalar)
    requires EntriesFit(schema, key, t, es) && EntriesApart(schema, key, t, es) && KeysApart(key, es)
    requires EntriesFit(schema, key, t, fs) && EntriesApart(schema, key, t, fs) && KeysApart(key, fs)
    requires AlikeEntries(es, fs)
    ensures var m, m' := AddEntries(schema, key, t, map[], es), AddEntries(schema, key, t, map[], fs);
            (nk in m <==> nk in m') && (nk in m ==> m[nk] == m'[nk])
    decreases es, 2, 0
  {
    EntriesAre(schema, key, t, map[], es, nk);
    EntriesAre(schema, key, t, map[], fs, nk);
    if FindNorm(key, es, nk).Some? {
      var k := NormHasKey(key, es, nk);
      AlikeAtKey(schema, key, t, es, fs, k);
      FoundByNorm(key, es, k);
      FoundByNorm(key, fs, k);
    } else if FindNorm(key, fs, nk).Some? {
      var k := NormHasKey(key, fs, nk);
      FoundByNorm(key, es, k);
    }
  }

  lemma {:induction false} AlikeAtName(schema: Schema, fields: seq<Field>, table: Table, table': Table, name: string)
    requires TableFits(schema, fields, table) && TableApart(schema, fields, table)
    requires TableFits(schema, fields, table') && TableApart(schema, fields, table')
    requires BoundIn(table, table') && Find(table, name).Some? && ByName(fields, name).Some?
    ensures Find(table', name).Some?
    ensures var f := ByName(fields, name).value;
            && FieldFits(schema, f, Find(table, name).value) && FieldFits(schema, f, Find(table', name).value)
            && NormField(schema, f, Find(table, name).value) == NormField(schema, f, Find(table', name).value)
    decreases table, 1
  {
    if table.name == name {
      BoundValueFits(schema, fields, table', name);
      AlikeFields(schema, ByName(fields, name).value, table.value, Find(table', name).value);
    } else {
      AlikeAtName(schema, fields, table.rest, table', name);
    }
  }

  lemma {:induction false} BoundValueFits(schema: Schema, fields: seq<Field>, table: Table, name: string)
    requires TableFits(schema, fields, table) && TableApart(schema, fields, table)
    requires Find(table, name).Some? && ByName(fields, name).Some?
    ensures FieldFits(schema, ByName(fields, name).value, Find(table, name).value)
    ensures FieldApart(schema, ByName(fields, name).value, Find(table, name).value)
    decreases table
  {
    if table.name != name {
      BoundValueFits(schema, fields, table.rest, name);
    }
  }

  lemma {:induction false} BoundIsFound(table: Table, name: string)
    ensures Binds(table, name) <==> Find(table, name).Some?
  {
    if table.Bind? {
      BoundIsFound(table.rest, name);
    }
  }

  /**
   Tables that are alike up to the order of names and keys, at every depth, are decoded alike, whatever
   order they are iterated in, if the keys of each map are apart.
   */
  lemma {:induction false} OrderDoesNotMatter(schema: Schema, fields: seq<Field>, table: Table, table': Table)
    requires TableFits(schema, fields, table) && TableApart(schema, fields, table)
    requires TableFits(schema, fields, table') && TableApart(schema, fields, table')
    requires AlikeTables(table, table')
    ensures Present(schema, fields, table) == Present(schema, fields, table')
    decreases table, 3
  {
    var o, o' := Present(schema, fields, table), Present(schema, fields, table');
    forall name
      ensures name in o <==> name in o'
      ensures name in o ==> o[name] == o'[name]
    {
      PresentIs(schema, fields, table, name);
      PresentIs(schema, fields, table', name);
      BoundIsFound(table, name);
      BoundIsFound(table', name);
      if Find(table, name).Some? && ByName(fields, name).Some? {
        AlikeAtName(schema, fields, table, table', name);
      }
    }
  }

  /** So the bytes that they are encoded to may differ, and what these are decoded to does not. */
  lemma DecodedAlike(schema: Schema, id: nat, table: Table, table': Table)
    requires SchemaOk(schema) && AlikeTables(table, table')
    requires TableFits(schema, Fields(schema, id), table) && TableApart(schema, Fields(schema, id), table)
    requires TableFits(schema, Fields(schema, id), table') && TableApart(schema, Fields(schema, id), table')
    requires |EncodeTable(schema, Fields(schema, id), table)| <= Buffer.PB_MAX_SIZET
    requires |EncodeTable(schema, Fields(schema, id), table')| <= Buffer.PB_MAX_SIZET
    ensures var fields := Fields(schema, id);
            DecodeTable(schema, fields, EncodeTable(schema, fields, table), Defaults(fields)) ==
            DecodeTable(schema, fields, EncodeTable(schema, fields, table'), Defaults(fields))
  {
    OrderDoesNotMatter(schema, Fields(schema, id), table, table');
    MessageRoundTrip(schema, id, table);
    MessageRoundTrip(schema, id, table');
  }

  // -------------------------------------------------------------------- and where it does matter

  /** Two entries may change places if and only if their keys are apart or their values are the same for the type. */
  lemma TwoKeysCommute(schema: Schema, key: Kind, t: Type, k: Scalar, v: Value, l: Scalar, w: Value)
    requires ScalarFits(key, k) && ScalarFits(key, l) && ValueFits(schema, t, v) && ValueFits(schema, t, w)
    ensures EntriesFit(schema, key, t, Entry(k, v, Entry(l, w, NoEntry)))
    ensures EntriesFit(schema, key, t, Entry(l, w, Entry(k, v, NoEntry)))
    ensures AddEntries(schema, key, t, map[], Entry(k, v, Entry(l, w, NoEntry)))
         == AddEntries(schema, key, t, map[], Entry(l, w, Entry(k, v, NoEntry)))
       <==> Norm(key, k) != Norm(key, l) || NormValue(schema, t, v) == NormValue(schema, t, w)
  {
    var x, y := NormValue(schema, t, v), NormValue(schema, t, w);
    TwoEntries(schema, key, t, k, v, l, w);
    TwoEntries(schema, key, t, l, w, k, v);
    TwoUpdates(Norm(key, k), x, Norm(key, l), y);
  }

  lemma TwoEntries(schema: Schema, key: Kind, t: Type, k: Scalar, v: Value, l: Scalar, w: Value)
    requires ScalarFits(key, k) && ScalarFits(key, l) && ValueFits(schema, t, v) && ValueFits(schema, t, w)
    ensures EntriesFit(schema, key, t, Entry(k, v, Entry(l, w, NoEntry)))
    ensures AddEntries(schema, key, t, map[], Entry(k, v, Entry(l, w, NoEntry)))
         == map[][Norm(key, k) := NormValue(schema, t, v)][Norm(key, l) := NormValue(schema, t, w)]
  {
    assert EntriesFit(schema, key, t, Entry(l, w, NoEntry));
    var m := map[][Norm(key, k) := NormValue(schema, t, v)];
    assert AddEntries(schema, key, t, m, Entry(l, w, NoEntry)) == m[Norm(key, l) := NormValue(schema, t, w)];
  }

  lemma TwoUpdates(k: Scalar, x: Lua, l: Scalar, y: Lua)
    ensures map[][k := x][l := y] == map[][l := y][k := x] <==> k != l || x == y
  {
    var m, m' := map[][k := x][l := y], map[][l := y][k := x];
    assert m[l] == y && m'[k] == x;
  }

  /** The keys 1 and 2^32 + 1 of a map from int32 are two keys in Lua, and one when decoded. */
  lemma CollidingKeys()
    ensures Norm(TInt32, Int(1)) == Norm(TInt32, Int(TWO32 + 1))
    ensures ScalarFits(TInt32, Int(1)) && ScalarFits(TInt32, Int(TWO32 + 1))
    ensures !KeysApart(TInt32, Entry(Int(1), ScalarV(Bool(false)), Entry(Int(TWO32 + 1), ScalarV(Bool(true)), NoEntry)))
  {
    var rest := Entry(Int(TWO32 + 1), ScalarV(Bool(true)), NoEntry);
    assert FindNorm(TInt32, rest, Norm(TInt32, Int(1))) == Some(ScalarV(Bool(true)));
  }
}
