/**
 Proto3 messages: schemas, the Lua tables that are encoded, what the encoder writes for a table and
 what the decoder builds from bytes, as functions; and that decoding undoes encoding up to the
 defaults that the decoder fills in.
 */
module Message {
  import opened Bytes
  import opened Options
  import opened Varint
  import Buffer
  import Skip

  datatype Kind =
    | TBool | TInt32 | TUint32 | TSint32 | TInt64 | TUint64 | TSint64
    | TFixed32 | TSfixed32 | TFixed64 | TSfixed64 | TString

  datatype Type = Prim(kind: Kind) | Message(id: nat)

  /** A map field's type is that of its values. */
  datatype Shape = Single | Repeated(packed: bool) | Mapping(key: Kind)

  datatype Field = Field(name: string, number: nat, ty: Type, shape: Shape, oneof: bool)

  type Schema = map<nat, seq<Field>>

  function Fields(schema: Schema, id: nat): seq<Field> {
    if id in schema then schema[id] else []
  }

  function ByName(fields: seq<Field>, name: string): Option<Field> {
    if fields == [] then None
    else if fields[0].name == name then Some(fields[0])
    else ByName(fields[1..], name)
  }

  function ByNumber(fields: seq<Field>, number: nat): Option<Field> {
    if fields == [] then None
    else if fields[0].number == number then Some(fields[0])
    else ByNumber(fields[1..], number)
  }

  predicate FieldOk(f: Field) {
    && 0 < f.number < 0x2000_0000
    && (f.shape == Repeated(true) ==> f.ty.Prim? && f.ty.kind != TString)
    && (f.oneof ==> f.shape == Single)
  }

  predicate FieldsOk(fields: seq<Field>) {
    && (forall i | 0 <= i < |fields| :: FieldOk(fields[i]))
    && (forall i, j | 0 <= i < j < |fields| :: fields[i].name != fields[j].name && fields[i].number != fields[j].number)
  }

  predicate SchemaOk(schema: Schema) {
    forall id | id in schema :: FieldsOk(schema[id])
  }

  // ---------------------------------------------------------------------------------- Lua values

  /** A boolean, an integer of 64 bits, a string. */
  datatype Scalar = Bool(b: bool) | Int(n: int) | Bytes(s: seq<Byte>)

  /** What is encoded: tables in the order in which an iteration comes upon their keys. */
  datatype Value =
    | ScalarV(scalar: Scalar)
    | TableV(table: Table)
    | ListV(items: Values)
    | MapV(entries: Entries)

  datatype Table = NoBinding | Bind(name: string, value: Value, rest: Table)

  datatype Values = NoValue | Item(value: Value, rest: Values)

  datatype Entries = NoEntry | Entry(key: Scalar, value: Value, rest: Entries)

  /** What is decoded. */
  datatype Lua =
    | LScalar(scalar: Scalar)
    | LTable(fields: map<string, Lua>)
    | LList(items: seq<Lua>)
    | LMap(entries: map<Scalar, Lua>)

  type Object = map<string, Lua>

  predicate ScalarFits(kind: Kind, s: Scalar) {
    match kind
    case TBool => s.Bool?
    case TString => s.Bytes?
    case _ => s.Int? && -(TWO64 / 2) <= s.n < TWO64 / 2
  }

  predicate ValueFits(schema: Schema, t: Type, v: Value)
    decreases v, 0
  {
    match t
    case Prim(kind) => v.ScalarV? && ScalarFits(kind, v.scalar)
    case Message(id) => v.TableV? && TableFits(schema, Fields(schema, id), v.table)
  }

  predicate FieldFits(schema: Schema, f: Field, v: Value)
    decreases v, 1
  {
    match f.shape
    case Single => ValueFits(schema, f.ty, v)
    case Repeated(_) => v.ListV? && ItemsFit(schema, f.ty, v.items)
    case Mapping(key) => v.MapV? && EntriesFit(schema, key, f.ty, v.entries)
  }

  predicate ItemsFit(schema: Schema, t: Type, vs: Values)
    decreases vs, 2
  {
    vs.Item? ==> ValueFits(schema, t, vs.value) && ItemsFit(schema, t, vs.rest)
  }

  predicate EntriesFit(schema: Schema, key: Kind, t: Type, es: Entries)
    decreases es, 2
  {
    es.Entry? ==> ScalarFits(key, es.key) && ValueFits(schema, t, es.value) && EntriesFit(schema, key, t, es.rest)
  }

  predicate Binds(table: Table, name: string) {
    table.Bind? && (table.name == name || Binds(table.rest, name))
  }

  /** The values fit the fields that have their names; other names are let pass. */
  predicate TableFits(schema: Schema, fields: seq<Field>, table: Table)
    decreases table, 2
  {
    table.Bind? ==>
      && !Binds(table.rest, table.name)
      && (ByName(fields, table.name).Some? ==> FieldFits(schema, ByName(fields, table.name).value, table.value))
      && TableFits(schema, fields, table.rest)
  }

  // ------------------------------------------------------------------------------------- scalars

  /** pb_wtypebytype. */
  function WireOf(t: Type): nat {
    match t
    case Message(_) => Skip.PB_TBYTES
    case Prim(kind) =>
      match kind
      case TString => Skip.PB_TBYTES
      case TFixed32 => Skip.PB_T32BIT
      case TSfixed32 => Skip.PB_T32BIT
      case TFixed64 => Skip.PB_T64BIT
      case TSfixed64 => Skip.PB_T64BIT
      case _ => Skip.PB_TVARINT
  }

  function Zero(kind: Kind): Scalar {
    match kind
    case TBool => Bool(false)
    case TString => Bytes([])
    case _ => Int(0)
  }

  /** The word that is written for an integer. */
  function Word(kind: Kind, n: int): nat {
    match kind
    case TInt32 => ExpandSig(n % TWO32)
    case TUint32 => n % TWO32
    case TFixed32 => n % TWO32
    case TSfixed32 => n % TWO32
    case TSint32 => Zigzag(n, TWO32)
    case TSint64 => Zigzag(n, TWO64)
    case _ => n % TWO64
  }

  function Zigzag(n: int, modulus: nat): nat
    requires modulus == TWO32 || modulus == TWO64
  {
    var value := Signed(n % modulus, modulus);
    ZigzagRoundTrip(value, 0, modulus);
    EncodeSint(value, modulus)
  }

  /** lpb_addtype. */
  function EncodeScalar(kind: Kind, s: Scalar): seq<Byte>
    requires ScalarFits(kind, s)
  {
    match kind
    case TBool => Encode(if s.b then 1 else 0)
    case TString => Encode(|s.s|) + s.s
    case TFixed32 => Buffer.LittleEndian(Word(kind, s.n), 4)
    case TSfixed32 => Buffer.LittleEndian(Word(kind, s.n), 4)
    case TFixed64 => Buffer.LittleEndian(Word(kind, s.n), 8)
    case TSfixed64 => Buffer.LittleEndian(Word(kind, s.n), 8)
    case _ => Encode(Word(kind, s.n))
  }

  /** A value that was read, and the bytes it took. */
  datatype Read<T> = Got(value: T, length: nat) | Bad

  function FromLittleEndian(s: seq<Byte>, k: nat): nat
    requires k <= |s|
  {
    if k == 0 then 0 else s[0] + 256 * FromLittleEndian(s[1..], k - 1)
  }

  /** The integer that is pushed for a word that was read. */
  function Pushed(kind: Kind, v: nat): int {
    match kind
    case TInt32 => Signed(v % TWO32, TWO32)
    case TSfixed32 => Signed(v % TWO32, TWO32)
    case TUint32 => v % TWO32
    case TFixed32 => v % TWO32
    case TSint32 => DecodeSint(v % TWO32, TWO32)
    case TSint64 => DecodeSint(v % TWO64, TWO64)
    case _ => Signed(v % TWO64, TWO64)
  }

  /** lpb_readbytes. */
  function ReadBytes(s: seq<Byte>): (r: Read<seq<Byte>>)
    ensures r.Got? ==> |r.value| < r.length <= |s|
  {
    match Decode(s)
    case None => Bad
    case Some(d) =>
      if d.value > Buffer.PB_MAX_SIZET || |s| - d.length < d.value then Bad
      else Got(s[d.length..d.length + d.value], d.length + d.value)
  }

  /** lpb_readtype. */
  function DecodeScalar(kind: Kind, s: seq<Byte>): (r: Read<Scalar>)
    ensures r.Got? ==> 0 < r.length <= |s|
  {
    match kind
    case TString =>
      (match ReadBytes(s)
       case Bad => Bad
       case Got(bytes, n) => Got(Bytes(bytes), n))
    case TFixed32 => DecodeFixed(kind, s, 4)
    case TSfixed32 => DecodeFixed(kind, s, 4)
    case TFixed64 => DecodeFixed(kind, s, 8)
    case TSfixed64 => DecodeFixed(kind, s, 8)
    case _ =>
      (match Decode(s)
       case None => Bad
       case Some(d) => Got(if kind == TBool then Bool(d.value != 0) else Int(Pushed(kind, d.value)), d.length))
  }

  function DecodeFixed(kind: Kind, s: seq<Byte>, k: nat): (r: Read<Scalar>)
    ensures r.Got? ==> k == r.length <= |s|
  {
    if |s| < k then Bad else Got(Int(Pushed(kind, FromLittleEndian(s, k))), k)
  }

  /** The scalar as far as the field's type can hold it. */
  function Norm(kind: Kind, s: Scalar): Scalar
    requires ScalarFits(kind, s)
  {
    match kind
    case TInt32 => Int(Signed(s.n % TWO32, TWO32))
    case TSint32 => Int(Signed(s.n % TWO32, TWO32))
    case TSfixed32 => Int(Signed(s.n % TWO32, TWO32))
    case TUint32 => Int(s.n % TWO32)
    case TFixed32 => Int(s.n % TWO32)
    case _ => s
  }

  lemma {:induction false} LittleEndianInverts(n: nat, k: nat, suffix: seq<Byte>)
    requires k == 4 ==> n < TWO32
    requires k == 8 ==> n < TWO64
    requires k == 4 || k == 8
    ensures FromLittleEndian(Buffer.LittleEndian(n, k) + suffix, k) == n
  {
    FromLittleEndianIs(n, k, suffix);
    if k == 4 {
      assert Pow256(4) == TWO32;
    } else {
      assert Pow256(8) == TWO64;
    }
  }

  function Pow256(k: nat): nat {
    if k == 0 then 1 else 256 * Pow256(k - 1)
  }

  lemma {:induction false} FromLittleEndianIs(n: nat, k: nat, suffix: seq<Byte>)
    ensures n < Pow256(k) ==> FromLittleEndian(Buffer.LittleEndian(n, k) + suffix, k) == n
  {
    if k > 0 {
      FromLittleEndianIs(n / 256, k - 1, suffix);
      var s := Buffer.LittleEndian(n, k) + suffix;
      assert s[1..] == Buffer.LittleEndian(n / 256, k - 1) + suffix;
    }
  }

  /** What is written for an integer is read as that integer, as far as the type can hold it. */
  lemma WordFits(kind: Kind, n: int)
    requires -(TWO64 / 2) <= n < TWO64 / 2 && kind != TBool && kind != TString
    ensures Word(kind, n) < TWO64
    ensures kind in {TUint32, TSint32, TFixed32, TSfixed32} ==> Word(kind, n) < TWO32
    ensures Int(Pushed(kind, Word(kind, n))) == Norm(kind, Int(n))
  {
    match kind {
      case TInt32 => ExpandedLow(n % TWO32);
      case TSint32 => ZigzagWord(n, TWO32);
      case TSint64 =>
        SignedOfWord(n);
        ZigzagWord(n, TWO64);
      case TUint32 => LowWord(n);
      case TFixed32 => LowWord(n);
      case TSfixed32 => LowWord(n);
      case _ => SignedOfWord(n);
    }
  }

  lemma LowWord(n: int)
    ensures (n % TWO32) % TWO32 == n % TWO32 < TWO64
  {
  }

  lemma ZigzagWord(n: int, modulus: nat)
    requires modulus == TWO32 || modulus == TWO64
    ensures Zigzag(n, modulus) % modulus == Zigzag(n, modulus) < modulus
    ensures DecodeSint(Zigzag(n, modulus), modulus) == Signed(n % modulus, modulus)
  {
    ZigzagRoundTrip(Signed(n % modulus, modulus), 0, modulus);
  }

  lemma SignedOfWord(n: int)
    requires -(TWO64 / 2) <= n < TWO64 / 2
    ensures Signed(n % TWO64, TWO64) == n
  {
  }

  /** A scalar in front of anything is read back, as far as its type can hold it. */
  lemma ScalarRoundTrip(kind: Kind, s: Scalar, suffix: seq<Byte>)
    requires ScalarFits(kind, s) && |EncodeScalar(kind, s)| <= Buffer.PB_MAX_SIZET
    ensures DecodeScalar(kind, EncodeScalar(kind, s) + suffix) == Got(Norm(kind, s), |EncodeScalar(kind, s)|)
  {
    match kind {
      case TBool => DecodeEncode(if s.b then 1 else 0, suffix);
      case TString =>
        DecodeEncode(|s.s|, s.s + suffix);
        assert EncodeScalar(kind, s) + suffix == Encode(|s.s|) + (s.s + suffix);
      case TFixed32 => FixedRoundTrip(kind, s.n, 4, suffix);
      case TSfixed32 => FixedRoundTrip(kind, s.n, 4, suffix);
      case TFixed64 => FixedRoundTrip(kind, s.n, 8, suffix);
      case TSfixed64 => FixedRoundTrip(kind, s.n, 8, suffix);
      case _ => VarintRoundTrip(kind, s.n, suffix);
    }
  }

  lemma VarintRoundTrip(kind: Kind, n: int, suffix: seq<Byte>)
    requires ScalarFits(kind, Int(n)) && WireOf(Prim(kind)) == Skip.PB_TVARINT && kind != TBool
    ensures DecodeScalar(kind, Encode(Word(kind, n)) + suffix) == Got(Norm(kind, Int(n)), |Encode(Word(kind, n))|)
  {
    WordFits(kind, n);
    DecodeEncode(Word(kind, n), suffix);
  }

  lemma FixedRoundTrip(kind: Kind, n: int, k: nat, suffix: seq<Byte>)
    requires -(TWO64 / 2) <= n < TWO64 / 2
    requires if k == 4 then kind in {TFixed32, TSfixed32} else k == 8 && kind in {TFixed64, TSfixed64}
    ensures DecodeFixed(kind, Buffer.LittleEndian(Word(kind, n), k) + suffix, k) == Got(Norm(kind, Int(n)), k)
  {
    WordFits(kind, n);
    LittleEndianInverts(Word(kind, n), k, suffix);
  }

  /** What fits the type is not changed. */
  lemma NormKeepsInRange(kind: Kind, s: Scalar)
    requires ScalarFits(kind, s)
    requires kind in {TInt32, TSint32, TSfixed32} ==> -(TWO32 / 2) <= s.n < TWO32 / 2
    requires kind in {TUint32, TFixed32} ==> 0 <= s.n < TWO32
    ensures Norm(kind, s) == s
  {
  }

  // ---------------------------------------------------------------------------------- the encoder

  /** pb_pair. */
  function Pair(number: nat, wire: nat): nat {
    number * 8 + wire
  }

  /** A length and so many bytes. */
  function Prefixed(body: seq<Byte>): seq<Byte> {
    Encode(|body|) + body
  }

  /** lpbE_field. */
  function EncodeValue(schema: Schema, t: Type, v: Value): seq<Byte>
    requires ValueFits(schema, t, v)
    decreases v, 0
  {
    match t
    case Prim(kind) => EncodeScalar(kind, v.scalar)
    case Message(id) => Prefixed(EncodeTable(schema, Fields(schema, id), v.table))
  }

  /** lpbE_tagfield; ignoreZero says that a zero scalar is not to be written. */
  function EncodeTagged(schema: Schema, number: nat, t: Type, v: Value, ignoreZero: bool): seq<Byte>
    requires ValueFits(schema, t, v)
    decreases v, 1
  {
    if ignoreZero && t.Prim? && v.scalar == Zero(t.kind) then []
    else Encode(Pair(number, WireOf(t))) + EncodeValue(schema, t, v)
  }

  /** What lpb_encode writes for one field. */
  function EncodeField(schema: Schema, f: Field, v: Value): seq<Byte>
    requires FieldFits(schema, f, v)
    decreases v, 2
  {
    match f.shape
    case Single => EncodeTagged(schema, f.number, f.ty, v, !f.oneof)
    case Repeated(packed) =>
      if packed then Encode(Pair(f.number, Skip.PB_TBYTES)) + Prefixed(EncodeItems(schema, f.ty, v.items))
      else EncodeTaggedItems(schema, f.number, f.ty, v.items)
    case Mapping(key) => EncodeEntries(schema, f.number, key, f.ty, v.entries)
  }

  /** lpbE_repeated, packed and not. */
  function EncodeItems(schema: Schema, t: Type, vs: Values): seq<Byte>
    requires ItemsFit(schema, t, vs)
    decreases vs, 3
  {
    if vs.NoValue? then [] else EncodeValue(schema, t, vs.value) + EncodeItems(schema, t, vs.rest)
  }

  function EncodeTaggedItems(schema: Schema, number: nat, t: Type, vs: Values): seq<Byte>
    requires ItemsFit(schema, t, vs)
    decreases vs, 3
  {
    if vs.NoValue? then []
    else EncodeTagged(schema, number, t, vs.value, false) + EncodeTaggedItems(schema, number, t, vs.rest)
  }

  /** lpbE_map: an entry is a message with the key as field 1 and the value as field 2. */
  function EncodeEntries(schema: Schema, number: nat, key: Kind, t: Type, es: Entries): seq<Byte>
    requires EntriesFit(schema, key, t, es)
    decreases es, 3
  {
    if es.NoEntry? then []
    else EncodeWholeEntry(schema, number, key, t, es.key, es.value) + EncodeEntries(schema, number, key, t, es.rest)
  }

  function EncodeWholeEntry(schema: Schema, number: nat, key: Kind, t: Type, k: Scalar, v: Value): seq<Byte>
    requires ScalarFits(key, k) && ValueFits(schema, t, v)
    decreases v, 3
  {
    Encode(Pair(number, Skip.PB_TBYTES)) + Prefixed(EncodeEntry(schema, key, t, k, v))
  }

  function EncodeEntry(schema: Schema, key: Kind, t: Type, k: Scalar, v: Value): seq<Byte>
    requires ScalarFits(key, k) && ValueFits(schema, t, v)
    decreases v, 2
  {
    EncodeKey(key, k) + EncodeTagged(schema, 2, t, v, true)
  }

  function EncodeKey(key: Kind, k: Scalar): seq<Byte>
    requires ScalarFits(key, k)
  {
    if k == Zero(key) then [] else Encode(Pair(1, WireOf(Prim(key)))) + EncodeScalar(key, k)
  }

  /** lpb_encode: the fields in the table's order; names that the type does not have are passed over. */
  function EncodeTable(schema: Schema, fields: seq<Field>, table: Table): seq<Byte>
    requires TableFits(schema, fields, table)
    decreases table, 3
  {
    match table
    case NoBinding => []
    case Bind(name, v, rest) =>
      (match ByName(fields, name)
       case None => []
       case Some(f) => EncodeField(schema, f, v)) + EncodeTable(schema, fields, rest)
  }

  // ---------------------------------------------------------------------------------- the decoder

  /** lpb_pushtypetable: fields that are absent from the bytes have these values. */
  function Defaults(fields: seq<Field>): Object {
    if fields == [] then map[]
    else
      var rest := Defaults(fields[1..]);
      var d := Default(fields[0]);
      if d == None then rest else rest[fields[0].name := d.value]
  }

  /** lpb_pushdefault, for fields outside of oneofs. */
  function Default(f: Field): Option<Lua> {
    if f.oneof then None
    else
      match f.shape
      case Repeated(_) => Some(LList([]))
      case Mapping(_) => Some(LMap(map[]))
      case Single => if f.ty.Prim? then Some(LScalar(Zero(f.ty.kind))) else None
  }

  /** lpb_fetchtable, for lists and for maps. */
  function ListAt(acc: Object, name: string): seq<Lua> {
    if name in acc && acc[name].LList? then acc[name].items else []
  }

  function MapAt(acc: Object, name: string): map<Scalar, Lua> {
    if name in acc && acc[name].LMap? then acc[name].entries else map[]
  }

  /** What a round of a decoding loop leaves: the table so far and how many bytes it took. */
  datatype Step = Go(acc: Object, length: nat) | Fail

  /** lpbD_message. */
  function DecodeTable(schema: Schema, fields: seq<Field>, s: seq<Byte>, acc: Object): Option<Object>
    decreases |s|, 3
  {
    match Decode(s)
    case None => Some(acc)
    case Some(d) => AfterKey(schema, fields, s[d.length..], d.value % TWO32, acc)
  }

  /** The same behind a key.  If an unknown field cannot be skipped, its value is read as keys. */
  function AfterKey(schema: Schema, fields: seq<Field>, t: seq<Byte>, tag: nat, acc: Object): Option<Object>
    decreases |t|, 4
  {
    match ByNumber(fields, Skip.FieldNumber(tag))
    case None => DecodeTable(schema, fields, t[Skip.SkipLength(t, tag)..], acc)
    case Some(f) =>
      match DecodeField(schema, f, tag, t, acc)
      case Fail => None
      case Go(acc', n) => DecodeTable(schema, fields, t[n..], acc')
  }

  /** One field, whose key was read: lpbD_map, lpbD_repeated or lpbD_field. */
  function DecodeField(schema: Schema, f: Field, tag: nat, t: seq<Byte>, acc: Object): (r: Step)
    ensures r.Go? ==> r.length <= |t|
    decreases |t|, 2
  {
    match f.shape
    case Single =>
      (match DecodeTyped(schema, f.ty, tag, t)
       case Bad => Fail
       case Got(v, n) => Go(acc[f.name := v], n))
    case Repeated(packed) =>
      if Skip.WireType(tag) != Skip.PB_TBYTES || (!packed && WireOf(f.ty) == Skip.PB_TBYTES) then
        (match DecodeTyped(schema, f.ty, tag, t)
         case Bad => Fail
         case Got(v, n) => Go(acc[f.name := LList(ListAt(acc, f.name) + [v])], n))
      else
        (match ReadBytes(t)
         case Bad => Fail
         case Got(p, n) =>
           match DecodeItems(schema, f.ty, p)
           case None => Fail
           case Some(vs) => Go(acc[f.name := LList(ListAt(acc, f.name) + vs)], n))
    case Mapping(key) =>
      (match ReadBytes(t)
       case Bad => Fail
       case Got(p, n) =>
         match DecodeEntry(schema, key, f.ty, p, None, None)
         case None => Fail
         case Some(entry) => Go(acc[f.name := LMap(WithEntry(MapAt(acc, f.name), entry))], n))
  }

  /** The key and the value of a map entry; a message value has no default, and then the entry is dropped. */
  datatype MapEntry = EntryOf(key: Scalar, value: Option<Lua>)

  function WithEntry(m: map<Scalar, Lua>, entry: MapEntry): map<Scalar, Lua> {
    if entry.value.Some? then m[entry.key := entry.value.value] else m
  }

  /** lpbD_field: the wire type must be the one of the field's type. */
  function DecodeTyped(schema: Schema, ty: Type, tag: nat, t: seq<Byte>): (r: Read<Lua>)
    ensures r.Got? ==> 0 < r.length <= |t|
    decreases |t|, 1
  {
    if WireOf(ty) == Skip.WireType(tag) then DecodeRaw(schema, ty, t) else Bad
  }

  /** lpbD_rawfield. */
  function DecodeRaw(schema: Schema, ty: Type, t: seq<Byte>): (r: Read<Lua>)
    ensures r.Got? ==> 0 < r.length <= |t|
    decreases |t|, 0
  {
    match ty
    case Prim(kind) =>
      (match DecodeScalar(kind, t)
       case Bad => Bad
       case Got(s, n) => Got(LScalar(s), n))
    case Message(id) =>
      (match ReadBytes(t)
       case Bad => Bad
       case Got(p, n) =>
         match DecodeTable(schema, Fields(schema, id), p, Defaults(Fields(schema, id)))
         case None => Bad
         case Some(o) => Got(LTable(o), n))
  }

  /** The loop of lpbD_repeated over a packed field. */
  function DecodeItems(schema: Schema, ty: Type, p: seq<Byte>): Option<seq<Lua>>
    decreases |p|, 3
  {
    if p == [] then Some([])
    else
      match DecodeRaw(schema, ty, p)
      case Bad => None
      case Got(v, n) =>
        match DecodeItems(schema, ty, p[n..])
        case None => None
        case Some(vs) => Some([v] + vs)
  }

  /** The loop of lpbD_map over one entry, and the defaults for what it did not find. */
  function DecodeEntry(schema: Schema, key: Kind, ty: Type, p: seq<Byte>, k: Option<Scalar>,
                       v: Option<Lua>): Option<MapEntry>
    decreases |p|, 3
  {
    match Decode(p)
    case None =>
      Some(EntryOf(if k.Some? then k.value else Zero(key),
                   if v.Some? then v else if ty.Prim? then Some(LScalar(Zero(ty.kind))) else None))
    case Some(d) => EntryAfterKey(schema, key, ty, p[d.length..], d.value % TWO32, k, v)
  }

  /** The same behind a key.  Fields other than 1 and 2 are not skipped: what follows is read as keys. */
  function EntryAfterKey(schema: Schema, key: Kind, ty: Type, t: seq<Byte>, tag: nat, k: Option<Scalar>,
                         v: Option<Lua>): Option<MapEntry>
    decreases |t|, 4
  {
    if Skip.FieldNumber(tag) == 1 then
      (match DecodeTyped(schema, Prim(key), tag, t)
       case Bad => None
       case Got(x, n) => DecodeEntry(schema, key, ty, t[n..], if x.LScalar? then Some(x.scalar) else k, v))
    else if Skip.FieldNumber(tag) == 2 then
      (match DecodeTyped(schema, ty, tag, t)
       case Bad => None
       case Got(x, n) => DecodeEntry(schema, key, ty, t[n..], k, Some(x)))
    else DecodeEntry(schema, key, ty, t, k, v)
  }

  // ---------------------------------------------------------------------------------- normal form

  /** What a table stands for: the names it binds, with values as far as the types can hold them, over the defaults. */
  function NormValue(schema: Schema, t: Type, v: Value): Lua
    requires ValueFits(schema, t, v)
    decreases v, 0
  {
    match t
    case Prim(kind) => LScalar(Norm(kind, v.scalar))
    case Message(id) => LTable(Defaults(Fields(schema, id)) + Present(schema, Fields(schema, id), v.table))
  }

  function NormField(schema: Schema, f: Field, v: Value): Lua
    requires FieldFits(schema, f, v)
    decreases v, 1
  {
    match f.shape
    case Single => NormValue(schema, f.ty, v)
    case Repeated(_) => LList(NormItems(schema, f.ty, v.items))
    case Mapping(key) => LMap(AddEntries(schema, key, f.ty, map[], v.entries))
  }

  function NormItems(schema: Schema, t: Type, vs: Values): seq<Lua>
    requires ItemsFit(schema, t, vs)
    decreases vs, 2
  {
    if vs.NoValue? then [] else [NormValue(schema, t, vs.value)] + NormItems(schema, t, vs.rest)
  }

  function AddEntries(schema: Schema, key: Kind, t: Type, m: map<Scalar, Lua>, es: Entries): map<Scalar, Lua>
    requires EntriesFit(schema, key, t, es)
    decreases es, 2
  {
    if es.NoEntry? then m
    else AddEntries(schema, key, t, m[Norm(key, es.key) := NormValue(schema, t, es.value)], es.rest)
  }

  function Present(schema: Schema, fields: seq<Field>, table: Table): Object
    requires TableFits(schema, fields, table)
    decreases table, 2
  {
    match table
    case NoBinding => map[]
    case Bind(name, v, rest) =>
      var others := Present(schema, fields, rest);
      match ByName(fields, name)
      case None => others
      case Some(f) => others[name := NormField(schema, f, v)]
  }

  // ------------------------------------------------------------------------------- the round trip

  lemma {:induction false} NameLeadsToNumber(fields: seq<Field>, name: string)
    requires FieldsOk(fields) && ByName(fields, name).Some?
    ensures var f := ByName(fields, name).value;
            f.name == name && FieldOk(f) && ByNumber(fields, f.number) == Some(f)
  {
    if fields[0].name != name {
      NameLeadsToNumber(fields[1..], name);
      var f := ByName(fields[1..], name).value;
      NumberIsThere(fields[1..], f.number);
    }
  }

  lemma {:induction false} NumberIsThere(fields: seq<Field>, number: nat)
    requires ByNumber(fields, number).Some?
    ensures exists i :: 0 <= i < |fields| && fields[i].number == number
  {
    if fields[0].number != number {
      NumberIsThere(fields[1..], number);
      var i :| 0 <= i < |fields[1..]| && fields[1..][i].number == number;
      assert fields[i + 1].number == number;
    }
  }

  lemma PairParts(number: nat, wire: nat)
    requires number < 0x2000_0000 && wire < 8
    ensures Pair(number, wire) < TWO32
    ensures Skip.FieldNumber(Pair(number, wire)) == number && Skip.WireType(Pair(number, wire)) == wire
  {
  }

  /** A key is read as the key it is. */
  lemma KeyIsRead(schema: Schema, fields: seq<Field>, tag: nat, t: seq<Byte>, acc: Object)
    requires tag < TWO32
    ensures DecodeTable(schema, fields, Encode(tag) + t, acc) == AfterKey(schema, fields, t, tag, acc)
  {
    DecodeEncode(tag, t);
    assert (Encode(tag) + t)[|Encode(tag)|..] == t;
  }

  lemma BytesAreRead(body: seq<Byte>, suffix: seq<Byte>)
    requires |body| <= Buffer.PB_MAX_SIZET
    ensures ReadBytes(Prefixed(body) + suffix) == Got(body, |Prefixed(body)|)
  {
    DecodeEncode(|body|, body + suffix);
    assert Prefixed(body) + suffix == Encode(|body|) + (body + suffix);
  }

  /** A field behind its key: what it leaves, and where the rest begins. */
  lemma FieldIsRead(schema: Schema, fields: seq<Field>, f: Field, tag: nat, t: seq<Byte>, acc: Object,
                    acc': Object, text: seq<Byte>, suffix: seq<Byte>)
    requires ByNumber(fields, Skip.FieldNumber(tag)) == Some(f) && t == text + suffix
    requires DecodeField(schema, f, tag, t, acc) == Go(acc', |text|)
    ensures AfterKey(schema, fields, t, tag, acc) == DecodeTable(schema, fields, suffix, acc')
  {
    assert t[|text|..] == suffix;
  }

  lemma SingleStep(schema: Schema, f: Field, tag: nat, t: seq<Byte>, acc: Object, x: Lua, n: nat)
    requires f.shape == Single && DecodeTyped(schema, f.ty, tag, t) == Got(x, n)
    ensures DecodeField(schema, f, tag, t, acc) == Go(acc[f.name := x], n)
  {
  }

  lemma RepeatedStep(schema: Schema, f: Field, tag: nat, t: seq<Byte>, acc: Object, x: Lua, n: nat)
    requires f.shape.Repeated? && FieldOk(f) && DecodeTyped(schema, f.ty, tag, t) == Got(x, n)
             && Skip.WireType(tag) == WireOf(f.ty)
    ensures DecodeField(schema, f, tag, t, acc) == Go(acc[f.name := LList(ListAt(acc, f.name) + [x])], n)
  {
  }

  lemma MappingStep(schema: Schema, f: Field, key: Kind, tag: nat, t: seq<Byte>, acc: Object, p: seq<Byte>, n: nat,
                    k: Scalar, x: Lua)
    requires f.shape == Mapping(key) && ReadBytes(t) == Got(p, n)
    requires DecodeEntry(schema, key, f.ty, p, None, None) == Some(EntryOf(k, Some(x)))
    ensures DecodeField(schema, f, tag, t, acc) == Go(acc[f.name := LMap(MapAt(acc, f.name)[k := x])], n)
  {
  }

  lemma PackedStep(schema: Schema, f: Field, tag: nat, t: seq<Byte>, acc: Object, p: seq<Byte>, n: nat, vs: seq<Lua>)
    requires f.shape.Repeated? && WireOf(f.ty) != Skip.PB_TBYTES
    requires Skip.WireType(tag) == Skip.PB_TBYTES && ReadBytes(t) == Got(p, n)
    requires DecodeItems(schema, f.ty, p) == Some(vs)
    ensures DecodeField(schema, f, tag, t, acc) == Go(acc[f.name := LList(ListAt(acc, f.name) + vs)], n)
  {
  }

  /** The field has its default value so far. */
  predicate Untouched(f: Field, acc: Object) {
    Default(f).Some? ==> f.name in acc && acc[f.name] == Default(f).value
  }

  predicate AllUntouched(fields: seq<Field>, table: Table, acc: Object) {
    table.Bind? ==>
      && (ByName(fields, table.name).Some? ==> Untouched(ByName(fields, table.name).value, acc))
      && AllUntouched(fields, table.rest, acc)
  }

  lemma {:induction false} UntouchedByOther(fields: seq<Field>, table: Table, acc: Object, name: string, x: Lua)
    requires AllUntouched(fields, table, acc) && !Binds(table, name) && FieldsOk(fields)
    ensures AllUntouched(fields, table, acc[name := x])
  {
    if table.Bind? {
      UntouchedByOther(fields, table.rest, acc, name, x);
      if ByName(fields, table.name).Some? {
        NameLeadsToNumber(fields, table.name);
      }
    }
  }

  lemma {:induction false} DefaultsAreThere(fields: seq<Field>, name: string)
    requires FieldsOk(fields) && ByName(fields, name).Some?
    ensures Untouched(ByName(fields, name).value, Defaults(fields))
  {
    if fields[0].name != name {
      DefaultsAreThere(fields[1..], name);
      NameLeadsToNumber(fields[1..], name);
    } else {
    }
  }

  lemma {:induction false} AllUntouchedAtFirst(fields: seq<Field>, table: Table)
    requires FieldsOk(fields)
    ensures AllUntouched(fields, table, Defaults(fields))
  {
    if table.Bind? {
      AllUntouchedAtFirst(fields, table.rest);
      if ByName(fields, table.name).Some? {
        DefaultsAreThere(fields, table.name);
      }
    }
  }

  lemma {:induction false} PresentBinds(schema: Schema, fields: seq<Field>, table: Table, name: string)
    requires TableFits(schema, fields, table) && !Binds(table, name)
    ensures name !in Present(schema, fields, table)
  {
    if table.Bind? {
      PresentBinds(schema, fields, table.rest, name);
    }
  }

  /** A value in front of anything is read back. */
  lemma {:induction false} ValueRoundTrip(schema: Schema, t: Type, v: Value, suffix: seq<Byte>)
    requires SchemaOk(schema) && ValueFits(schema, t, v) && |EncodeValue(schema, t, v)| <= Buffer.PB_MAX_SIZET
    ensures DecodeRaw(schema, t, EncodeValue(schema, t, v) + suffix) ==
              Got(NormValue(schema, t, v), |EncodeValue(schema, t, v)|)
    decreases v, 0
  {
    match t {
      case Prim(kind) => ScalarRoundTrip(kind, v.scalar, suffix);
      case Message(id) =>
        BytesAreRead(EncodeTable(schema, Fields(schema, id), v.table), suffix);
        MessageRoundTrip(schema, id, v.table);
    }
  }

  /** All fields of a table, in any order, in front of anything. */
  lemma {:induction false} TableRoundTrip(schema: Schema, fields: seq<Field>, table: Table, suffix: seq<Byte>,
                                          acc: Object)
    requires SchemaOk(schema) && FieldsOk(fields) && TableFits(schema, fields, table)
             && AllUntouched(fields, table, acc)
    requires |EncodeTable(schema, fields, table)| <= Buffer.PB_MAX_SIZET
    ensures DecodeTable(schema, fields, EncodeTable(schema, fields, table) + suffix, acc)
            == DecodeTable(schema, fields, suffix, acc + Present(schema, fields, table))
    decreases table, 4
  {
    match table {
      case NoBinding =>
        assert [] + suffix == suffix && acc + map[] == acc;
      case Bind(name, v, rest) =>
        var more := EncodeTable(schema, fields, rest);
        match ByName(fields, name) {
          case None =>
            assert EncodeTable(schema, fields, table) == more;
            TableRoundTrip(schema, fields, rest, suffix, acc);
          case Some(f) =>
            var x := NormField(schema, f, v);
            NameLeadsToNumber(fields, name);
            assert EncodeTable(schema, fields, table) == EncodeField(schema, f, v) + more;
            Associates(EncodeField(schema, f, v), more, suffix);
            FieldRoundTrip(schema, fields, f, v, more + suffix, acc);
            UntouchedByOther(fields, rest, acc, name, x);
            TableRoundTrip(schema, fields, rest, suffix, acc[name := x]);
            PresentBinds(schema, fields, rest, name);
            MergeOne(acc, name, x, Present(schema, fields, rest));
        }
    }
  }

  lemma MergeOne(acc: Object, name: string, x: Lua, others: Object)
    requires name !in others
    ensures acc[name := x] + others == acc + others[name := x]
  {
  }

  /** One field in front of anything. */
  lemma {:induction false} FieldRoundTrip(schema: Schema, fields: seq<Field>, f: Field, v: Value, suffix: seq<Byte>,
                                          acc: Object)
    requires SchemaOk(schema) && FieldOk(f) && ByNumber(fields, f.number) == Some(f)
    requires FieldFits(schema, f, v) && Untouched(f, acc) && |EncodeField(schema, f, v)| <= Buffer.PB_MAX_SIZET
    ensures DecodeTable(schema, fields, EncodeField(schema, f, v) + suffix, acc)
            == DecodeTable(schema, fields, suffix, acc[f.name := NormField(schema, f, v)])
    decreases v, 3
  {
    match f.shape {
      case Single => SingleRoundTrip(schema, fields, f, v, suffix, acc);
      case Repeated(packed) =>
        if packed {
          PackedRoundTrip(schema, fields, f, v.items, suffix, acc);
        } else {
          ItemsRoundTrip(schema, fields, f, v.items, suffix, acc);
        }
        assert [] + NormItems(schema, f.ty, v.items) == NormItems(schema, f.ty, v.items);
      case Mapping(key) => EntriesRoundTrip(schema, fields, f, key, v.entries, suffix, acc);
    }
  }

  lemma {:induction false} SingleRoundTrip(schema: Schema, fields: seq<Field>, f: Field, v: Value, suffix: seq<Byte>,
                                           acc: Object)
    requires SchemaOk(schema) && FieldOk(f) && ByNumber(fields, f.number) == Some(f) && f.shape == Single
    requires ValueFits(schema, f.ty, v) && Untouched(f, acc)
    requires |EncodeTagged(schema, f.number, f.ty, v, !f.oneof)| <= Buffer.PB_MAX_SIZET
    ensures DecodeTable(schema, fields, EncodeTagged(schema, f.number, f.ty, v, !f.oneof) + suffix, acc)
            == DecodeTable(schema, fields, suffix, acc[f.name := NormValue(schema, f.ty, v)])
    decreases v, 2
  {
    var wire := WireOf(f.ty);
    if !f.oneof && f.ty.Prim? && v.scalar == Zero(f.ty.kind) {
      assert [] + suffix == suffix;
      assert acc[f.name := NormValue(schema, f.ty, v)] == acc;
    } else {
      TaggedRoundTrip(schema, f, v, suffix);
      var tag, text := Pair(f.number, wire), EncodeValue(schema, f.ty, v);
      KeyIsRead(schema, fields, tag, text + suffix, acc);
      SingleStep(schema, f, tag, text + suffix, acc, NormValue(schema, f.ty, v), |text|);
      FieldIsRead(schema, fields, f, tag, text + suffix, acc, acc[f.name := NormValue(schema, f.ty, v)], text, suffix);
    }
  }

  /** A key and a value: how they are put together, and what the value is read as. */
  lemma {:induction false} TaggedRoundTrip(schema: Schema, f: Field, v: Value, suffix: seq<Byte>)
    requires SchemaOk(schema) && FieldOk(f) && ValueFits(schema, f.ty, v)
             && |EncodeValue(schema, f.ty, v)| <= Buffer.PB_MAX_SIZET
    ensures var tag, text := Pair(f.number, WireOf(f.ty)), EncodeValue(schema, f.ty, v);
            && tag < TWO32 && Skip.FieldNumber(tag) == f.number && Skip.WireType(tag) == WireOf(f.ty)
            && Encode(tag) + text + suffix == Encode(tag) + (text + suffix)
            && DecodeTyped(schema, f.ty, tag, text + suffix) == Got(NormValue(schema, f.ty, v), |text|)
    decreases v, 1
  {
    PairParts(f.number, WireOf(f.ty));
    Associates(Encode(Pair(f.number, WireOf(f.ty))), EncodeValue(schema, f.ty, v), suffix);
    ValueRoundTrip(schema, f.ty, v, suffix);
  }

  lemma {:induction false} ItemsRoundTrip(schema: Schema, fields: seq<Field>, f: Field, vs: Values, suffix: seq<Byte>,
                                          acc: Object)
    requires SchemaOk(schema) && FieldOk(f) && ByNumber(fields, f.number) == Some(f) && f.shape.Repeated?
    requires ItemsFit(schema, f.ty, vs) && f.name in acc && acc[f.name].LList?
    requires |EncodeTaggedItems(schema, f.number, f.ty, vs)| <= Buffer.PB_MAX_SIZET
    ensures DecodeTable(schema, fields, EncodeTaggedItems(schema, f.number, f.ty, vs) + suffix, acc)
            == DecodeTable(schema, fields, suffix,
                           acc[f.name := LList(ListAt(acc, f.name) + NormItems(schema, f.ty, vs))])
    decreases vs, 2
  {
    var list := ListAt(acc, f.name);
    if vs.NoValue? {
      assert [] + suffix == suffix && list + [] == list;
      assert acc[f.name := LList(list)] == acc;
    } else {
      var x := NormValue(schema, f.ty, vs.value);
      var first := EncodeTagged(schema, f.number, f.ty, vs.value, false);
      var more := EncodeTaggedItems(schema, f.number, f.ty, vs.rest);
      var acc' := acc[f.name := LList(list + [x])];
      assert first + more + suffix == first + (more + suffix);
      OneItemRoundTrip(schema, fields, f, vs.value, more + suffix, acc);
      ItemsRoundTrip(schema, fields, f, vs.rest, suffix, acc');
      ListGrows(acc, f.name, list, x, NormItems(schema, f.ty, vs.rest));
    }
  }

  lemma ListGrows(acc: Object, name: string, list: seq<Lua>, x: Lua, more: seq<Lua>)
    ensures acc[name := LList(list + [x])][name := LList(list + [x] + more)] == acc[name := LList(list + ([x] + more))]
  {
    assert list + [x] + more == list + ([x] + more);
  }

  lemma {:induction false} OneItemRoundTrip(schema: Schema, fields: seq<Field>, f: Field, v: Value, suffix: seq<Byte>,
                                            acc: Object)
    requires SchemaOk(schema) && FieldOk(f) && ByNumber(fields, f.number) == Some(f) && f.shape.Repeated?
    requires ValueFits(schema, f.ty, v) && |EncodeTagged(schema, f.number, f.ty, v, false)| <= Buffer.PB_MAX_SIZET
    ensures DecodeTable(schema, fields, EncodeTagged(schema, f.number, f.ty, v, false) + suffix, acc)
            == DecodeTable(schema, fields, suffix,
                           acc[f.name := LList(ListAt(acc, f.name) + [NormValue(schema, f.ty, v)])])
    decreases v, 2
  {
    var tag, text, x := Pair(f.number, WireOf(f.ty)), EncodeValue(schema, f.ty, v), NormValue(schema, f.ty, v);
    TaggedRoundTrip(schema, f, v, suffix);
    KeyIsRead(schema, fields, tag, text + suffix, acc);
    RepeatedStep(schema, f, tag, text + suffix, acc, x, |text|);
    FieldIsRead(schema, fields, f, tag, text + suffix, acc, acc[f.name := LList(ListAt(acc, f.name) + [x])], text,
                suffix);
  }

  lemma {:induction false} PackedItemsRoundTrip(schema: Schema, t: Type, vs: Values)
    requires SchemaOk(schema) && ItemsFit(schema, t, vs) && |EncodeItems(schema, t, vs)| <= Buffer.PB_MAX_SIZET
    ensures DecodeItems(schema, t, EncodeItems(schema, t, vs)) == Some(NormItems(schema, t, vs))
    decreases vs, 1
  {
    if vs.Item? {
      var text, more := EncodeValue(schema, t, vs.value), EncodeItems(schema, t, vs.rest);
      ValueRoundTrip(schema, t, vs.value, more);
      PackedItemsRoundTrip(schema, t, vs.rest);
      assert (text + more)[|text|..] == more;
    }
  }

  lemma {:induction false} PackedRoundTrip(schema: Schema, fields: seq<Field>, f: Field, vs: Values,
                                           suffix: seq<Byte>, acc: Object)
    requires SchemaOk(schema) && FieldOk(f) && ByNumber(fields, f.number) == Some(f)
    requires f.shape.Repeated? && WireOf(f.ty) != Skip.PB_TBYTES && ItemsFit(schema, f.ty, vs)
    requires |EncodeItems(schema, f.ty, vs)| <= Buffer.PB_MAX_SIZET
    ensures DecodeTable(schema, fields, Encode(Pair(f.number, Skip.PB_TBYTES))
                        + Prefixed(EncodeItems(schema, f.ty, vs)) + suffix, acc)
            == DecodeTable(schema, fields, suffix,
                           acc[f.name := LList(ListAt(acc, f.name) + NormItems(schema, f.ty, vs))])
    decreases vs, 2
  {
    var tag, body := Pair(f.number, Skip.PB_TBYTES), EncodeItems(schema, f.ty, vs);
    var text, xs := Prefixed(body), NormItems(schema, f.ty, vs);
    PairParts(f.number, Skip.PB_TBYTES);
    Associates(Encode(tag), text, suffix);
    KeyIsRead(schema, fields, tag, text + suffix, acc);
    BytesAreRead(body, suffix);
    PackedItemsRoundTrip(schema, f.ty, vs);
    PackedStep(schema, f, tag, text + suffix, acc, body, |text|, xs);
    FieldIsRead(schema, fields, f, tag, text + suffix, acc, acc[f.name := LList(ListAt(acc, f.name) + xs)], text,
                suffix);
  }

  lemma {:induction false} EntriesRoundTrip(schema: Schema, fields: seq<Field>, f: Field, key: Kind, es: Entries,
                                            suffix: seq<Byte>, acc: Object)
    requires SchemaOk(schema) && FieldOk(f) && ByNumber(fields, f.number) == Some(f) && f.shape == Mapping(key)
    requires EntriesFit(schema, key, f.ty, es) && f.name in acc && acc[f.name].LMap?
    requires |EncodeEntries(schema, f.number, key, f.ty, es)| <= Buffer.PB_MAX_SIZET
    ensures DecodeTable(schema, fields, EncodeEntries(schema, f.number, key, f.ty, es) + suffix, acc)
            == DecodeTable(schema, fields, suffix,
                           acc[f.name := LMap(AddEntries(schema, key, f.ty, MapAt(acc, f.name), es))])
    decreases es, 2
  {
    var m := MapAt(acc, f.name);
    if es.NoEntry? {
      assert [] + suffix == suffix;
      assert acc[f.name := LMap(m)] == acc;
    } else {
      var first := EncodeWholeEntry(schema, f.number, key, f.ty, es.key, es.value);
      var more := EncodeEntries(schema, f.number, key, f.ty, es.rest);
      var m' := m[Norm(key, es.key) := NormValue(schema, f.ty, es.value)];
      assert first + more + suffix == first + (more + suffix);
      OneEntryRoundTrip(schema, fields, f, key, es.key, es.value, more + suffix, acc);
      EntriesRoundTrip(schema, fields, f, key, es.rest, suffix, acc[f.name := LMap(m')]);
      MapGrows(acc, f.name, m', AddEntries(schema, key, f.ty, m', es.rest));
    }
  }

  lemma MapGrows(acc: Object, name: string, m: map<Scalar, Lua>, m': map<Scalar, Lua>)
    ensures acc[name := LMap(m)][name := LMap(m')] == acc[name := LMap(m')]
  {
  }

  lemma {:induction false} OneEntryRoundTrip(schema: Schema, fields: seq<Field>, f: Field, key: Kind, k: Scalar,
                                             v: Value, suffix: seq<Byte>, acc: Object)
    requires SchemaOk(schema) && FieldOk(f) && ByNumber(fields, f.number) == Some(f) && f.shape == Mapping(key)
    requires ScalarFits(key, k) && ValueFits(schema, f.ty, v)
    requires |EncodeEntry(schema, key, f.ty, k, v)| <= Buffer.PB_MAX_SIZET
    ensures DecodeTable(schema, fields, EncodeWholeEntry(schema, f.number, key, f.ty, k, v) + suffix, acc)
            == DecodeTable(schema, fields, suffix,
                           acc[f.name := LMap(MapAt(acc, f.name)[Norm(key, k) := NormValue(schema, f.ty, v)])])
    decreases v, 4
  {
    var body := EncodeEntry(schema, key, f.ty, k, v);
    var tag, text := Pair(f.number, Skip.PB_TBYTES), Prefixed(body);
    var l, x := Norm(key, k), NormValue(schema, f.ty, v);
    PairParts(f.number, Skip.PB_TBYTES);
    Associates(Encode(tag), text, suffix);
    KeyIsRead(schema, fields, tag, text + suffix, acc);
    BytesAreRead(body, suffix);
    EntryRoundTrip(schema, key, f.ty, k, v);
    MappingStep(schema, f, key, tag, text + suffix, acc, body, |text|, l, x);
    FieldIsRead(schema, fields, f, tag, text + suffix, acc, acc[f.name := LMap(MapAt(acc, f.name)[l := x])], text,
                suffix);
  }

  /** A map entry, of which a zero key and a zero value are not written. */
  lemma {:induction false} EntryRoundTrip(schema: Schema, key: Kind, t: Type, k: Scalar, v: Value)
    requires SchemaOk(schema) && ScalarFits(key, k) && ValueFits(schema, t, v)
    requires |EncodeEntry(schema, key, t, k, v)| <= Buffer.PB_MAX_SIZET
    ensures DecodeEntry(schema, key, t, EncodeEntry(schema, key, t, k, v), None, None)
            == Some(EntryOf(Norm(key, k), Some(NormValue(schema, t, v))))
    decreases v, 3
  {
    var tail := EncodeTagged(schema, 2, t, v, true);
    EntryText(schema, key, t, k, v);
    if k == Zero(key) {
      NormZero(key);
      EntryValueRoundTrip(schema, key, t, v, None);
    } else {
      EntryKeyRoundTrip(schema, key, t, k, tail, None);
      EntryValueRoundTrip(schema, key, t, v, Some(Norm(key, k)));
    }
  }

  lemma EntryText(schema: Schema, key: Kind, t: Type, k: Scalar, v: Value)
    requires ScalarFits(key, k) && ValueFits(schema, t, v)
    ensures EncodeEntry(schema, key, t, k, v)
            == if k == Zero(key) then EncodeTagged(schema, 2, t, v, true)
               else Encode(Pair(1, WireOf(Prim(key)))) + (EncodeScalar(key, k) + EncodeTagged(schema, 2, t, v, true))
  {
    var tail := EncodeTagged(schema, 2, t, v, true);
    if k == Zero(key) {
      assert [] + tail == tail;
    } else {
      var tag := Encode(Pair(1, WireOf(Prim(key))));
      assert tag + EncodeScalar(key, k) + tail == tag + (EncodeScalar(key, k) + tail);
    }
  }

  lemma NormZero(key: Kind)
    ensures Norm(key, Zero(key)) == Zero(key)
  {
  }

  lemma EntryKeyRoundTrip(schema: Schema, key: Kind, ty: Type, k: Scalar, tail: seq<Byte>,
                          v: Option<Lua>)
    requires ScalarFits(key, k) && |EncodeScalar(key, k)| <= Buffer.PB_MAX_SIZET
    ensures DecodeEntry(schema, key, ty, Encode(Pair(1, WireOf(Prim(key)))) + (EncodeScalar(key, k) + tail), None, v)
            == DecodeEntry(schema, key, ty, tail, Some(Norm(key, k)), v)
  {
    PairParts(1, WireOf(Prim(key)));
    EntryKeyIsRead(schema, key, ty, Pair(1, WireOf(Prim(key))), EncodeScalar(key, k) + tail, None, v);
    KeyRoundTrip(schema, key, ty, k, tail, v);
  }

  lemma KeyRoundTrip(schema: Schema, key: Kind, ty: Type, k: Scalar, tail: seq<Byte>, v: Option<Lua>)
    requires ScalarFits(key, k) && |EncodeScalar(key, k)| <= Buffer.PB_MAX_SIZET
    ensures EntryAfterKey(schema, key, ty, EncodeScalar(key, k) + tail, Pair(1, WireOf(Prim(key))), None, v)
            == DecodeEntry(schema, key, ty, tail, Some(Norm(key, k)), v)
  {
    var text := EncodeScalar(key, k);
    PairParts(1, WireOf(Prim(key)));
    ScalarRoundTrip(key, k, tail);
    assert (text + tail)[|text|..] == tail;
    assert DecodeTyped(schema, Prim(key), Pair(1, WireOf(Prim(key))), text + tail) ==
      Got(LScalar(Norm(key, k)), |text|);
  }

  lemma EntryKeyIsRead(schema: Schema, key: Kind, ty: Type, tag: nat, t: seq<Byte>, k: Option<Scalar>, v: Option<Lua>)
    requires tag < TWO32
    ensures DecodeEntry(schema, key, ty, Encode(tag) + t, k, v) == EntryAfterKey(schema, key, ty, t, tag, k, v)
  {
    DecodeEncode(tag, t);
    assert (Encode(tag) + t)[|Encode(tag)|..] == t;
  }

  lemma {:induction false} EntryValueRoundTrip(schema: Schema, key: Kind, t: Type, v: Value, k: Option<Scalar>)
    requires SchemaOk(schema) && ValueFits(schema, t, v)
    requires |EncodeTagged(schema, 2, t, v, true)| <= Buffer.PB_MAX_SIZET
    ensures DecodeEntry(schema, key, t, EncodeTagged(schema, 2, t, v, true), k, None)
            == Some(EntryOf(if k.Some? then k.value else Zero(key), Some(NormValue(schema, t, v))))
    decreases v, 2
  {
    if !(t.Prim? && v.scalar == Zero(t.kind)) {
      var tag, text := Pair(2, WireOf(t)), EncodeValue(schema, t, v);
      TaggedRoundTrip(schema, Field("value", 2, t, Single, false), v, []);
      assert text + [] == text;
      EntryKeyIsRead(schema, key, t, tag, text, k, None);
      EntryValueStep(schema, key, t, tag, text, k, NormValue(schema, t, v));
    }
  }

  lemma EntryValueStep(schema: Schema, key: Kind, ty: Type, tag: nat, t: seq<Byte>, k: Option<Scalar>, x: Lua)
    requires Skip.FieldNumber(tag) == 2 && DecodeTyped(schema, ty, tag, t) == Got(x, |t|)
    ensures EntryAfterKey(schema, key, ty, t, tag, k, None) ==
              Some(EntryOf(if k.Some? then k.value else Zero(key), Some(x)))
  {
    assert t[|t|..] == [];
  }

  /**
   Decoding what was encoded gives the table back: every bound name that the type has, with its value
   as far as the field's type can hold it, and the defaults for the others.  The table may list its
   names, and its maps their keys, in any order.
   */
  lemma {:induction false} MessageRoundTrip(schema: Schema, id: nat, table: Table)
    requires SchemaOk(schema) && TableFits(schema, Fields(schema, id), table)
    requires |EncodeTable(schema, Fields(schema, id), table)| <= Buffer.PB_MAX_SIZET
    ensures DecodeTable(schema, Fields(schema, id), EncodeTable(schema, Fields(schema, id), table),
                        Defaults(Fields(schema, id)))
            == Some(Defaults(Fields(schema, id)) + Present(schema, Fields(schema, id), table))
    decreases table, 5
  {
    var fields := Fields(schema, id);
    AllUntouchedAtFirst(fields, table);
    TableRoundTrip(schema, fields, table, [], Defaults(fields));
    assert EncodeTable(schema, fields, table) + [] == EncodeTable(schema, fields, table);
  }

  // ------------------------------------------------------------------- the order does not matter

  function Find(table: Table, name: string): Option<Value> {
    match table
    case NoBinding => None
    case Bind(n, v, rest) => if n == name then Some(v) else Find(rest, name)
  }

  /** What is decoded for a name depends on the value that is bound to it, and on nothing else. */
  lemma {:induction false} PresentIs(schema: Schema, fields: seq<Field>, table: Table, name: string)
    requires TableFits(schema, fields, table)
    ensures name in Present(schema, fields, table) <==> Find(table, name).Some? && ByName(fields, name).Some?
    ensures name in Present(schema, fields, table) ==>
              var f, v := ByName(fields, name).value, Find(table, name).value;
              FieldFits(schema, f, v) && Present(schema, fields, table)[name] == NormField(schema, f, v)
  {
    if table.Bind? {
      PresentIs(schema, fields, table.rest, name);
    }
  }

  /** Two tables with the same bindings are decoded alike, whatever the order they were encoded in. */
  lemma OrderOfNames(schema: Schema, fields: seq<Field>, table: Table, table': Table)
    requires TableFits(schema, fields, table) && TableFits(schema, fields, table')
    requires forall name :: Find(table, name) == Find(table', name)
    ensures Present(schema, fields, table) == Present(schema, fields, table')
  {
    var o, o' := Present(schema, fields, table), Present(schema, fields, table');
    forall name
      ensures name in o <==> name in o'
      ensures name in o ==> o[name] == o'[name]
    {
      PresentIs(schema, fields, table, name);
      PresentIs(schema, fields, table', name);
      assert Find(table, name) == Find(table', name);
    }
    assert o == o';
  }

  /** Neighbouring map entries with different keys may change places. */
  lemma OrderOfKeys(schema: Schema, key: Kind, t: Type, m: map<Scalar, Lua>, k: Scalar, v: Value, l: Scalar, w: Value,
                    rest: Entries)
    requires ScalarFits(key, k) && ScalarFits(key, l) && ValueFits(schema, t, v) && ValueFits(schema, t, w)
    requires EntriesFit(schema, key, t, Entry(k, v, Entry(l, w, rest)))
             && EntriesFit(schema, key, t, Entry(l, w, Entry(k, v, rest)))
    requires Norm(key, k) != Norm(key, l)
    ensures AddEntries(schema, key, t, m, Entry(k, v, Entry(l, w, rest))) ==
              AddEntries(schema, key, t, m, Entry(l, w, Entry(k, v, rest)))
  {
    var x, y := NormValue(schema, t, v), NormValue(schema, t, w);
    assert m[Norm(key, k) := x][Norm(key, l) := y] == m[Norm(key, l) := y][Norm(key, k) := x];
  }
}
