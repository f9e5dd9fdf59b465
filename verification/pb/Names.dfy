/**
 The name table: strings are interned in a hash table of lists, with 16 bits each for an entry's length
 and its reference count, and pb_name may be helped by a cache that is keyed by the string's address.
 An entry's identity is its id; a bucket is the list that hangs on it, first entry first.
 */
module Names {
  import opened Bytes
  import opened NameHash
  import opened Options
  import Arith

  const PB_MIN_STRTABLE_SIZE := 16
  const PB_CACHE_SIZE := 53
  const MAX_BUCKETS := (0xFFFF_FFFF - 100) / 8
  const LENGTHS := 0x1_0000
  const COUNTS := 0x1_0000

  /** pb_NameEntry and the string behind it. */
  datatype Name = Name(id: nat, hash: nat, length: nat, refcount: nat, text: seq<Byte>)

  // -------------------------------------------------------------------------------- the lookup

  /** What pbN_getname compares: the stored hash and length, and so many bytes. */
  predicate Matches(n: Name, s: seq<Byte>, hash: nat) {
    n.hash == hash && n.length == |s| && |s| <= |n.text| && n.text[..|s|] == s
  }

  function FirstMatch(bucket: seq<Name>, s: seq<Byte>, hash: nat): Option<Name> {
    if bucket == [] then None
    else if Matches(bucket[0], s, hash) then Some(bucket[0])
    else FirstMatch(bucket[1..], s, hash)
  }

  /** pbN_getname. */
  function GetName(buckets: seq<seq<Name>>, s: seq<Byte>, hash: nat): Option<Name> {
    if buckets == [] then None else FirstMatch(buckets[Arith.Wrap(hash, |buckets|)], s, hash)
  }

  /** pb_name without a cache. */
  function NameOf(buckets: seq<seq<Name>>, s: seq<Byte>): Option<Name> {
    GetName(buckets, s, CalcHash(s))
  }

  lemma {:induction false} FirstMatchIs(bucket: seq<Name>, s: seq<Byte>, hash: nat)
    ensures match FirstMatch(bucket, s, hash)
            case None => forall n | n in bucket :: !Matches(n, s, hash)
            case Some(n) => n in bucket && Matches(n, s, hash)
  {
    if bucket != [] {
      FirstMatchIs(bucket[1..], s, hash);
    }
  }

  // ----------------------------------------------------------------------------- the invariant

  /** The entries by identity. */
  type Stock = map<nat, Name>

  predicate Stored(all: Stock, n: Name) {
    n.id in all && all[n.id] == n
  }

  /** An entry is what pbN_newname makes it. */
  ghost predicate NameOk(n: Name, id: nat) {
    n.id == id && n.length == |n.text| % LENGTHS && n.refcount < COUNTS
  }

  /** Its hash is that of its text. */
  ghost predicate Hashed(n: Name) {
    n.hash == CalcHash(n.text)
  }

  /** No two entries have one text that fits the length. */
  ghost predicate NamesOk(all: Stock) {
    && (forall id {:trigger all[id]} | id in all :: NameOk(all[id], id))
    && (forall id {:trigger Hashed(all[id])} | id in all :: Hashed(all[id]))
    && (forall i, j :: Apart(all, i, j))
  }

  predicate Apart(all: Stock, i: nat, j: nat) {
    i in all && j in all && all[i].text == all[j].text && |all[i].text| < LENGTHS ==> i == j
  }

  ghost predicate BucketOk(bucket: seq<Name>, i: nat, size: nat, all: Stock)
    requires size > 0
  {
    && (forall n :: n in bucket <==> Stored(all, n) && Arith.Wrap(n.hash, size) == i)
    && (forall j, k | 0 <= j < k < |bucket| :: bucket[j] != bucket[k])
  }

  ghost predicate TableOk(buckets: seq<seq<Name>>, all: Stock) {
    && (buckets == [] ==> all == map[])
    && (forall i {:trigger buckets[i]} | 0 <= i < |buckets| :: BucketOk(buckets[i], i, |buckets|, all))
    && NamesOk(all)
  }

  /** A lookup finds an entry that matches, if there is one. */
  lemma GetNameIs(buckets: seq<seq<Name>>, all: Stock, s: seq<Byte>, hash: nat)
    requires TableOk(buckets, all)
    ensures match GetName(buckets, s, hash)
            case None => forall n | Stored(all, n) :: !Matches(n, s, hash)
            case Some(n) => Stored(all, n) && Matches(n, s, hash)
  {
    if buckets != [] {
      var i := Arith.Wrap(hash, |buckets|);
      FirstMatchIs(buckets[i], s, hash);
      assert BucketOk(buckets[i], i, |buckets|, all);
    }
  }

  /** No stored name is too long for its length field. */
  ghost predicate AllShort(all: Stock) {
    forall id | id in all :: |all[id].text| < LENGTHS
  }

  /** With short names, a string finds its own entry and nothing else. */
  lemma LookupIsExact(buckets: seq<seq<Name>>, all: Stock, s: seq<Byte>)
    requires TableOk(buckets, all) && AllShort(all)
    ensures match NameOf(buckets, s)
            case None => forall n | Stored(all, n) :: n.text != s
            case Some(n) => Stored(all, n) && n.text == s
  {
    var hash := CalcHash(s);
    GetNameIs(buckets, all, s, hash);
    forall n | Stored(all, n) && n.text == s
      ensures Matches(n, s, hash)
    {
      assert Hashed(n);
      assert n.text[..|s|] == s;
    }
    forall n | Stored(all, n) && Matches(n, s, hash)
      ensures n.text == s
    {
      assert n.length == |n.text|;
    }
  }

  /** A string of 65536 bytes or more never finds an entry, so equal ones do not share. */
  lemma LongStringsAreNotFound(buckets: seq<seq<Name>>, all: Stock, s: seq<Byte>, hash: nat)
    requires TableOk(buckets, all) && |s| >= LENGTHS
    ensures GetName(buckets, s, hash) == None
  {
    GetNameIs(buckets, all, s, hash);
  }

  // --------------------------------------------------------------------------------- the cache

  datatype Slot = Slot(address: nat, hash: nat)

  /** pb_Cache: each line has two slots, the one used last first. */
  datatype Line = Line(first: Slot, second: Slot)

  /** What pb_name returns with this line of a cache for the string at an address, and the line afterwards. */
  function CachedName(buckets: seq<seq<Name>>, s: seq<Byte>, address: nat, line: Line): (Option<Name>, Line) {
    var hash := CalcHash(s);
    if line.first.address == address then
      var entry := GetName(buckets, s, line.first.hash);
      if entry.Some? then (entry, line) else (GetName(buckets, s, hash), line.(first := Slot(address, hash)))
    else if line.second.address == address then
      var entry := GetName(buckets, s, line.second.hash);
      if entry.Some? then (entry, line) else (GetName(buckets, s, hash), line.(second := Slot(address, hash)))
    else (GetName(buckets, s, hash), Line(Slot(address, hash), line.first))
  }

  /** An entry that a string finds under a hash that is not its own: the string is the beginning of a longer name. */
  ghost predicate Misleads(all: Stock, s: seq<Byte>) {
    exists n :: Stored(all, n) && Matches(n, s, n.hash) && n.hash != CalcHash(s)
  }

  /** Whatever is in the cache, stale or not, pb_name returns what it returns without, if names are short. */
  lemma CacheIsTransparent(buckets: seq<seq<Name>>, all: Stock, s: seq<Byte>, address: nat, line: Line)
    requires TableOk(buckets, all) && AllShort(all)
    ensures CachedName(buckets, s, address, line).0 == NameOf(buckets, s)
  {
    ShortNamesDoNotMislead(all, s);
    WhenCacheIsTransparent(buckets, all, s, address, line);
  }

  lemma ShortNamesDoNotMislead(all: Stock, s: seq<Byte>)
    requires NamesOk(all) && AllShort(all)
    ensures !Misleads(all, s)
  {
    forall n | Stored(all, n) && Matches(n, s, n.hash)
      ensures n.hash == CalcHash(s)
    {
      assert Hashed(all[n.id]);
      assert n.text[..|s|] == n.text;
    }
  }

  lemma WhenCacheIsTransparent(buckets: seq<seq<Name>>, all: Stock, s: seq<Byte>, address: nat, line: Line)
    requires TableOk(buckets, all) && !Misleads(all, s)
    ensures CachedName(buckets, s, address, line).0 == NameOf(buckets, s)
  {
    RightOrNothing(buckets, all, s, line.first.hash);
    RightOrNothing(buckets, all, s, line.second.hash);
  }

  lemma RightOrNothing(buckets: seq<seq<Name>>, all: Stock, s: seq<Byte>, hash: nat)
    requires TableOk(buckets, all) && !Misleads(all, s)
    ensures GetName(buckets, s, hash).Some? ==> hash == CalcHash(s)
  {
    GetNameIs(buckets, all, s, hash);
    var entry := GetName(buckets, s, hash);
    assert entry.Some? ==> Matches(entry.value, s, entry.value.hash);
  }

  /**
   In general the cache is transparent for a string, whatever it holds, just if no stored name misleads
   it: one of 65536 bytes or more, whose length the string has in 16 bits, that begins with the string.
   */
  lemma CacheIsTransparentExactlyWhen(buckets: seq<seq<Name>>, all: Stock, s: seq<Byte>, address: nat)
    requires TableOk(buckets, all)
    ensures (forall line :: CachedName(buckets, s, address, line).0 == NameOf(buckets, s)) <==> !Misleads(all, s)
  {
    if !Misleads(all, s) {
      forall line
        ensures CachedName(buckets, s, address, line).0 == NameOf(buckets, s)
      {
        WhenCacheIsTransparent(buckets, all, s, address, line);
      }
    } else {
      var n :| Stored(all, n) && Matches(n, s, n.hash) && n.hash != CalcHash(s);
      var line := Line(Slot(address, n.hash), Slot(address, n.hash));
      GetNameIs(buckets, all, s, n.hash);
      GetNameIs(buckets, all, s, CalcHash(s));
      assert CachedName(buckets, s, address, line).0 != NameOf(buckets, s);
    }
  }

  /** The entry of a name of 65536 zero bytes, just made: its length is 0 in 16 bits. */
  function LongName(): Name {
    Name(0, CalcHash(Zeros(LENGTHS)), 0, 1, Zeros(LENGTHS))
  }

  /** It misleads the empty string, whose length it has and whose hash it has not. */
  lemma LongNameMisleads()
    ensures NamesOk(map[0 := LongName()]) && Misleads(map[0 := LongName()], [])
  {
    var n, all := LongName(), map[0 := LongName()];
    HashesDiffer();
    assert n.text[..0] == [] && Stored(all, n) && Matches(n, [], n.hash);
    forall i, j
      ensures Apart(all, i, j)
    {
    }
  }

  /** With a cache line that has this name's hash for an address, the empty string there finds the name. */
  lemma StaleLineAnswers(buckets: seq<seq<Name>>, address: nat, line: Line)
    requires TableOk(buckets, map[0 := LongName()]) && line.first == Slot(address, LongName().hash)
    ensures CachedName(buckets, [], address, line).0 == Some(LongName()) && NameOf(buckets, []) == None
  {
    var n, all := LongName(), map[0 := LongName()];
    HashesDiffer();
    GetNameIs(buckets, all, [], n.hash);
    GetNameIs(buckets, all, [], CalcHash([]));
    assert n.text[..0] == [] && Stored(all, n) && Matches(n, [], n.hash);
  }

  // --------------------------------------------------------------------------------- the table

  /** The bucket with one entry more in front. */
  lemma PushedOk(bucket: seq<Name>, i: nat, size: nat, all: Stock, n: Name)
    requires size > 0 && BucketOk(bucket, i, size, all) && n.id !in all
    ensures BucketOk(if Arith.Wrap(n.hash, size) == i then [n] + bucket else bucket, i, size, all[n.id := n])
  {
    var bucket' := if Arith.Wrap(n.hash, size) == i then [n] + bucket else bucket;
    forall m
      ensures m in bucket' <==> Stored(all[n.id := n], m) && Arith.Wrap(m.hash, size) == i
    {
      assert m in bucket' <==> m in bucket || (m == n && Arith.Wrap(n.hash, size) == i);
      assert m in bucket ==> Stored(all, m);
    }
    assert n !in bucket;
  }

  /** Of entries that are all different, one is cut out: the others stay, and stay different. */
  lemma CutMembers(bucket: seq<Name>, j: nat)
    requires j < |bucket| && forall k, l | 0 <= k < l < |bucket| :: bucket[k] != bucket[l]
    ensures var cut := bucket[..j] + bucket[j + 1..];
            && (forall m :: m in cut <==> m in bucket && m != bucket[j])
            && (forall k, l | 0 <= k < l < |cut| :: cut[k] != cut[l])
  {
    var cut := bucket[..j] + bucket[j + 1..];
    assert forall k | 0 <= k < |cut| :: cut[k] == bucket[if k < j then k else k + 1];
    forall m | m in bucket && m != bucket[j]
      ensures m in cut
    {
      var k :| 0 <= k < |bucket| && bucket[k] == m;
      assert cut[if k < j then k else k - 1] == m;
    }
  }

  lemma CutOk(bucket: seq<Name>, i: nat, size: nat, all: Stock, j: nat)
    requires size > 0 && BucketOk(bucket, i, size, all) && j < |bucket|
    ensures BucketOk(bucket[..j] + bucket[j + 1..], i, size, all - {bucket[j].id})
  {
    CutMembers(bucket, j);
    assert bucket[j] in bucket;
  }

  lemma ReplacedOk(bucket: seq<Name>, i: nat, size: nat, all: Stock, j: nat, n: Name)
    requires size > 0 && BucketOk(bucket, i, size, all) && j < |bucket| && bucket[j].hash == n.hash
             && bucket[j].id == n.id
    ensures BucketOk(bucket[j := n], i, size, all[n.id := n])
  {
    var replaced := bucket[j := n];
    assert bucket[j] in bucket;
    forall m
      ensures m in replaced <==> Stored(all[n.id := n], m) && Arith.Wrap(m.hash, size) == i
    {
      if m in bucket && m != bucket[j] {
        var k :| 0 <= k < |bucket| && bucket[k] == m;
        assert replaced[k] == m;
      }
      if m == n {
        assert replaced[j] == n;
      }
      if m in replaced {
        var k :| 0 <= k < |replaced| && replaced[k] == m;
        assert k != j ==> bucket[k] in bucket;
      }
    }
    forall k | 0 <= k < |bucket| && k != j
      ensures bucket[k] != n
    {
      assert bucket[k] in bucket;
    }
  }

  /** A bucket does not notice what happens to an entry that belongs elsewhere. */
  lemma OtherBucketOk(bucket: seq<Name>, i: nat, size: nat, all: Stock, n: Name, n': Name)
    requires size > 0 && BucketOk(bucket, i, size, all) && Stored(all, n)
    requires Arith.Wrap(n.hash, size) != i && n'.hash == n.hash && n'.id == n.id
    ensures BucketOk(bucket, i, size, all - {n.id}) && BucketOk(bucket, i, size, all[n.id := n'])
  {
  }

  /** The same entry with another reference count. */
  function Counted(n: Name, refcount: nat): Name {
    n.(refcount := refcount)
  }

  /** One entry, and nothing else, has one use more. */
  ghost predicate OnceMore(all: Stock, uses: map<nat, nat>, n: Name, n': Name, all': Stock, uses': map<nat, nat>) {
    && n' == Counted(n, (n.refcount + 1) % COUNTS) && all' == all[n.id := n']
    && n.id in uses && uses' == uses[n.id := uses[n.id] + 1]
  }

  /** The counts are right, as far as 16 bits can tell, and identities are not used up. */
  ghost predicate BooksOk(all: Stock, uses: map<nat, nat>, count: nat, nextId: nat) {
    && count == |all|
    && (forall id {:trigger all[id]} | id in all :: BookOk(all[id], uses, nextId, id))
  }

  predicate BookOk(n: Name, uses: map<nat, nat>, nextId: nat, id: nat) {
    id < nextId && id in uses && n.refcount == uses[id] % COUNTS
  }

  lemma BooksUsed(all: Stock, uses: map<nat, nat>, count: nat, nextId: nat, n: Name, k: nat)
    requires BooksOk(all, uses, count, nextId) && n.id in all && n.refcount == k % COUNTS
    ensures BooksOk(all[n.id := n], uses[n.id := k], count, nextId)
  {
    assert all[n.id := n].Keys == all.Keys;
    assert |all[n.id := n].Keys| == |all[n.id := n]| && |all.Keys| == |all|;
  }

  lemma BooksAdded(all: Stock, uses: map<nat, nat>, count: nat, nextId: nat, n: Name)
    requires BooksOk(all, uses, count, nextId) && n.id == nextId && n.refcount == 0
    ensures n.id !in all && BooksOk(all[n.id := n], uses[n.id := 0], count + 1, nextId + 1)
  {
  }

  lemma BooksRemoved(all: Stock, uses: map<nat, nat>, count: nat, nextId: nat, id: nat, k: nat)
    requires BooksOk(all, uses, count, nextId) && id in all
    ensures count > 0 && BooksOk(all - {id}, uses[id := k], count - 1, nextId)
  {
    assert (all - {id}).Keys == all.Keys - {id};
    assert |all.Keys| == |all| && |(all - {id}).Keys| == |all - {id}|;
  }

  lemma CountMoves(uses: nat)
    ensures (uses % COUNTS + 1) % COUNTS == (uses + 1) % COUNTS
    ensures uses % COUNTS > 1 ==> uses % COUNTS - 1 == (uses - 1) % COUNTS
  {
  }

  /**
   pb_NameTable.  maxBuckets is the largest array of lists that limits and allocator allow.  The ghost
   fields are the entries, and how often each is in use: by calls of pb_newname or pb_usename that no
   pb_delname has answered.
   */
  class NameTable {
    const maxBuckets: nat
    var buckets: array<seq<Name>>
    var count: nat
    var nextId: nat
    ghost var all: Stock
    ghost var uses: map<nat, nat>

    ghost predicate Valid()
      reads this, buckets
    {
      TableOk(buckets[..], all) && BooksOk(all, uses, count, nextId)
    }

    /** pbN_init. */
    constructor (maxBuckets: nat)
      ensures Valid() && all == map[] && uses == map[] && fresh(buckets)
      ensures buckets.Length == count == nextId == 0 && this.maxBuckets == maxBuckets
    {
      this.maxBuckets := maxBuckets;
      buckets := new seq<Name>[0];
      count, nextId := 0, 0;
      all, uses := map[], map[];
    }

    /** The list that a hash belongs to gets an entry in front. */
    method Push(hash: array<seq<Name>>, n: Name, ghost done: Stock)
      requires hash.Length > 0 && n.id !in done && Rehashed(hash[..], done)
      modifies hash
      ensures Rehashed(hash[..], done[n.id := n])
    {
      var i := Arith.Wrap(n.hash, hash.Length);
      forall k | 0 <= k < hash.Length
        ensures BucketOk(if i == k then [n] + hash[k] else hash[k], k, hash.Length, done[n.id := n])
      {
        PushedOk(hash[k], k, hash.Length, done, n);
      }
      hash[i] := [n] + hash[i];
    }

    /** pbN_resize: the entries are moved over, list by list, each to the front of its new list. */
    method Resize(request: nat) returns (newsize: nat)
      requires Valid()
      modifies this`buckets
      ensures Valid() && (newsize == 0 ==> buckets == old(buckets))
      ensures newsize != 0 ==> fresh(buckets) && buckets.Length == newsize >= request
      ensures newsize != 0 <==> request <= NewSize(PB_MIN_STRTABLE_SIZE, request) <= maxBuckets
    {
      newsize := PB_MIN_STRTABLE_SIZE;
      while newsize < request && newsize < MAX_BUCKETS
        invariant newsize > 0 && NewSize(newsize, request) == NewSize(PB_MIN_STRTABLE_SIZE, request)
        decreases request - newsize
      {
        newsize := newsize * 2;
      }
      if newsize < request || newsize > maxBuckets {
        return 0;
      }
      var hash := new seq<Name>[newsize](_ => []);
      ghost var done: Stock := map[];
      var i := 0;
      while i < buckets.Length
        invariant 0 <= i <= buckets.Length && hash.Length == newsize && Rehashed(hash[..], done)
        invariant forall n :: Stored(done, n) <==> Stored(all, n) && Arith.Wrap(n.hash, buckets.Length) < i
        modifies hash
      {
        assert BucketOk(buckets[..][i], i, buckets.Length, all);
        done := Move(buckets[i], hash, done);
        i := i + 1;
      }
      SameStock(done, all);
      buckets := hash;
    }

    /** One list is moved over. */
    method Move(entry: seq<Name>, hash: array<seq<Name>>, ghost before: Stock) returns (ghost done: Stock)
      requires hash.Length > 0 && Rehashed(hash[..], before) && NamesOk(all)
      requires forall n ::
                 (n in entry ==> Stored(all, n) && !Stored(before, n)) && (Stored(before, n) ==> Stored(all, n))
      requires forall j, k | 0 <= j < k < |entry| :: entry[j] != entry[k]
      modifies hash
      ensures Rehashed(hash[..], done) && forall n :: Stored(done, n) <==> Stored(before, n) || n in entry
    {
      done := before;
      var j := 0;
      while j < |entry|
        invariant 0 <= j <= |entry| && Rehashed(hash[..], done)
        invariant forall n :: Stored(done, n) <==> Stored(before, n) || n in entry[..j]
      {
        assert entry[j] in entry;
        NotYetMoved(done, all, entry[j]);
        Push(hash, entry[j], done);
        assert entry[..j + 1] == entry[..j] + [entry[j]];
        done := done[entry[j].id := entry[j]];
        j := j + 1;
      }
      assert entry[..|entry|] == entry;
    }

    /** pbN_getname. */
    method Get(s: seq<Byte>, hash: nat) returns (r: Option<Name>)
      requires Valid()
      ensures r == GetName(buckets[..], s, hash)
    {
      if buckets.Length == 0 {
        return None;
      }
      var bucket := buckets[Arith.Wrap(hash, buckets.Length)];
      var j := 0;
      while j < |bucket|
        invariant 0 <= j <= |bucket| && FirstMatch(bucket[j..], s, hash) == FirstMatch(bucket, s, hash)
      {
        if Matches(bucket[j], s, hash) {
          return Some(bucket[j]);
        }
        assert bucket[j..][1..] == bucket[j + 1..];
        j := j + 1;
      }
      return None;
    }

    /** An entry's reference count is changed in place. */
    method Recount(n: Name, refcount: nat)
      requires TableOk(buckets[..], all) && Stored(all, n) && refcount < COUNTS
      modifies this`all, buckets
      ensures TableOk(buckets[..], all) && all == old(all)[n.id := Counted(n, refcount)]
    {
      var i, n' := Arith.Wrap(n.hash, buckets.Length), Counted(n, refcount);
      assert BucketOk(buckets[..][i], i, buckets.Length, all);
      var bucket := buckets[i];
      var j: nat :| j < |bucket| && bucket[j] == n;
      ReplacedOk(bucket, i, buckets.Length, all, j, n');
      RecountedOk(all, n, refcount);
      forall k | 0 <= k < buckets.Length && k != i
        ensures BucketOk(buckets[k], k, buckets.Length, all[n.id := n'])
      {
        assert BucketOk(buckets[..][k], k, buckets.Length, all);
        OtherBucketOk(buckets[k], k, buckets.Length, all, n, n');
      }
      buckets[i] := bucket[j := n'];
      all := all[n.id := n'];
    }

    /** pb_usename. */
    method Use(n: Name) returns (n': Name)
      requires Valid() && Stored(all, n)
      modifies this`all, this`uses, buckets
      ensures Valid() && OnceMore(old(all), old(uses), n, n', all, uses)
    {
      n' := Counted(n, (n.refcount + 1) % COUNTS);
      CountMoves(uses[n.id]);
      BooksUsed(all, uses, count, nextId, n', uses[n.id] + 1);
      assert Counted(n, n'.refcount) == n';
      Recount(n, n'.refcount);
      uses := uses[n.id := uses[n.id] + 1];
    }

    /** pbN_newname: an entry in front of its list, in a table that is made larger if it is full. */
    method Add(s: seq<Byte>, hash: nat, granted: bool) returns (r: Option<Name>)
      requires Valid() && hash == CalcHash(s) && Absent(all, s)
      modifies this, buckets
      ensures Valid() && (buckets == old(buckets) || fresh(buckets))
      ensures r.Some? <==> granted && (old(count) < old(buckets.Length) || old(CanGrow()))
      ensures r.None? ==> all == old(all) && uses == old(uses)
      ensures r.Some? ==>
                && r.value == Name(old(nextId), hash, |s| % LENGTHS, 0, s) && r.value.id !in old(all)
                && all == old(all)[r.value.id := r.value] && uses == old(uses)[r.value.id := 0]
    {
      if count >= buckets.Length {
        var grown := Resize(buckets.Length * 2);
        if grown == 0 {
          return None;
        }
      }
      if !granted {
        return None;
      }
      var n := Name(nextId, hash, |s| % LENGTHS, 0, s);
      BooksAdded(all, uses, count, nextId, n);
      AddedOk(all, n);
      Push(buckets, n, all);
      all := all[n.id := n];
      uses := uses[n.id := 0];
      nextId, count := nextId + 1, count + 1;
      return Some(n);
    }

    ghost predicate CanGrow()
      reads this
    {
      buckets.Length * 2 <= NewSize(PB_MIN_STRTABLE_SIZE, buckets.Length * 2) <= maxBuckets
    }

    /** pb_newname: the string's entry, found or made, with one more use. */
    method New(s: seq<Byte>, granted: bool) returns (r: Option<Name>)
      requires Valid()
      modifies this, buckets
      ensures Valid() && (buckets == old(buckets) || fresh(buckets))
      ensures match old(NameOf(buckets[..], s))
              case Some(n) => r.Some? && OnceMore(old(all), old(uses), n, r.value, all, uses)
              case None =>
                && (r.Some? <==> granted && (old(count) < old(buckets.Length) || old(CanGrow())))
                && (r.None? ==> all == old(all) && uses == old(uses))
                && (r.Some? ==>
                      && r.value == Name(old(nextId), CalcHash(s), |s| % LENGTHS, 1, s) && r.value.id !in old(all)
                      && all == old(all)[r.value.id := r.value] && uses == old(uses)[r.value.id := 1])
    {
      var hash := HashOf(s);
      var entry := Get(s, hash);
      GetNameIs(buckets[..], all, s, hash);
      if entry == None {
        NotThere(all, s);
        r := AddUsed(s, hash, granted);
      } else {
        var n := Use(entry.value);
        r := Some(n);
      }
    }

    /** A new entry, and its first use. */
    method AddUsed(s: seq<Byte>, hash: nat, granted: bool) returns (r: Option<Name>)
      requires Valid() && hash == CalcHash(s) && Absent(all, s)
      modifies this, buckets
      ensures Valid() && (buckets == old(buckets) || fresh(buckets))
      ensures r.Some? <==> granted && (old(count) < old(buckets.Length) || old(CanGrow()))
      ensures r.None? ==> all == old(all) && uses == old(uses)
      ensures r.Some? ==>
                && r.value == Name(old(nextId), hash, |s| % LENGTHS, 1, s) && r.value.id !in old(all)
                && all == old(all)[r.value.id := r.value] && uses == old(uses)[r.value.id := 1]
    {
      var entry := Add(s, hash, granted);
      if entry == None {
        return None;
      }
      ghost var id := entry.value.id;
      Twice(old(all), id, entry.value, Counted(entry.value, 1));
      Twice(old(uses), id, 0, 1);
      var n := Use(entry.value);
      return Some(n);
    }

    /** pb_delname: one use less; the entry goes with its last use, as far as 16 bits can tell. */
    method Delete(n: Name) returns (ghost removed: bool)
      requires Valid() && Stored(all, n) && n.id in uses && uses[n.id] > 0
      modifies this, buckets
      ensures Valid() && buckets == old(buckets) && uses == old(uses)[n.id := old(uses)[n.id] - 1]
      ensures removed <==> old(uses)[n.id] % COUNTS <= 1
      ensures all == if removed then old(all) - {n.id} else old(all)[n.id := Counted(n, n.refcount - 1)]
    {
      removed := n.refcount <= 1;
      ghost var k := uses[n.id] - 1;
      if n.refcount <= 1 {
        BooksRemoved(all, uses, count, nextId, n.id, k);
        Unlink(n);
        count := count - 1;
      } else {
        CountMoves(uses[n.id]);
        BooksUsed(all, uses, count, nextId, Counted(n, n.refcount - 1), k);
        Recount(n, n.refcount - 1);
      }
      uses := uses[n.id := k];
    }

    /** pbN_delname: the list is walked to the entry, which is taken out. */
    method Unlink(n: Name)
      requires TableOk(buckets[..], all) && Stored(all, n)
      modifies this`all, buckets
      ensures TableOk(buckets[..], all) && all == old(all) - {n.id}
    {
      var i := Arith.Wrap(n.hash, buckets.Length);
      assert BucketOk(buckets[..][i], i, buckets.Length, all);
      var bucket := buckets[i];
      var j := 0;
      while bucket[j] != n
        invariant 0 <= j < |bucket| && n !in bucket[..j]
        decreases |bucket| - j
      {
        assert n in bucket[j..];
        j := j + 1;
      }
      CutOk(bucket, i, buckets.Length, all, j);
      RemovedOk(all, n.id);
      forall k | 0 <= k < buckets.Length && k != i
        ensures BucketOk(buckets[k], k, buckets.Length, all - {n.id})
      {
        assert BucketOk(buckets[..][k], k, buckets.Length, all);
        OtherBucketOk(buckets[k], k, buckets.Length, all, n, n);
      }
      buckets[i] := bucket[..j] + bucket[j + 1..];
      all := all - {n.id};
    }
  }

  lemma Twice<V>(m: map<nat, V>, id: nat, v: V, w: V)
    ensures m[id := v][id := w] == m[id := w]
  {
  }

  predicate ById(all: Stock) {
    forall id | id in all :: all[id].id == id
  }

  /** The lists hold just these entries. */
  ghost predicate Rehashed(hash: seq<seq<Name>>, done: Stock) {
    && (forall i {:trigger hash[i]} | 0 <= i < |hash| :: BucketOk(hash[i], i, |hash|, done))
    && ById(done)
  }

  lemma NotYetMoved(done: Stock, all: Stock, n: Name)
    requires NamesOk(all) && Stored(all, n) && !Stored(done, n)
    requires forall m :: Stored(done, m) ==> Stored(all, m)
    requires ById(done)
    ensures n.id !in done
  {
    if n.id in done {
      assert Stored(done, done[n.id]);
    }
  }

  lemma SameStock(done: Stock, all: Stock)
    requires NamesOk(all) && forall m :: Stored(done, m) <==> Stored(all, m)
    requires ById(done)
    ensures done == all
  {
    forall id
      ensures id in done <==> id in all
      ensures id in done ==> done[id] == all[id]
    {
      if id in all {
        assert NameOk(all[id], id) && Stored(all, all[id]);
      }
      if id in done {
        assert Stored(done, done[id]);
      }
    }
  }

  /** The string is not stored, or is too long to be found. */
  ghost predicate Absent(all: Stock, s: seq<Byte>) {
    forall id | id in all :: all[id].text == s ==> |s| >= LENGTHS
  }

  lemma AddedOk(all: Stock, n: Name)
    requires NamesOk(all) && n.id !in all && NameOk(n, n.id) && Hashed(n) && Absent(all, n.text)
    ensures NamesOk(all[n.id := n])
  {
    var all' := all[n.id := n];
    forall i, j
      ensures Apart(all', i, j)
    {
      assert Apart(all, i, j);
    }
    forall id | id in all'
      ensures Hashed(all'[id])
    {
      assert id in all ==> Hashed(all[id]);
    }
  }

  lemma RecountedOk(all: Stock, n: Name, refcount: nat)
    requires NamesOk(all) && Stored(all, n) && refcount < COUNTS
    ensures NamesOk(all[n.id := Counted(n, refcount)])
  {
    var all' := all[n.id := Counted(n, refcount)];
    forall i, j
      ensures Apart(all', i, j)
    {
      assert Apart(all, i, j);
    }
    forall id | id in all'
      ensures Hashed(all'[id])
    {
      assert id in all ==> Hashed(all[id]);
    }
  }

  lemma RemovedOk(all: Stock, id: nat)
    requires NamesOk(all)
    ensures NamesOk(all - {id})
  {
    forall i, j
      ensures Apart(all - {id}, i, j)
    {
      assert Apart(all, i, j);
    }
    forall other | other in all - {id}
      ensures Hashed((all - {id})[other])
    {
      assert Hashed(all[other]);
    }
  }

  lemma NotThere(all: Stock, s: seq<Byte>)
    requires NamesOk(all) && forall n | Stored(all, n) :: !Matches(n, s, CalcHash(s))
    ensures Absent(all, s)
  {
    forall id | id in all && all[id].text == s
      ensures |s| >= LENGTHS
    {
      assert NameOk(all[id], id) && Hashed(all[id]) && Stored(all, all[id]);
      assert all[id].text[..|s|] == s;
    }
  }

  /** Equal strings share one entry: whoever asks for a short string twice gets one identity. */
  lemma EqualStringsShare(all: Stock, n: Name, m: Name)
    requires NamesOk(all) && Stored(all, n) && Stored(all, m) && |n.text| < LENGTHS
    ensures n.text == m.text <==> n.id == m.id
  {
    assert Apart(all, n.id, m.id);
  }

  /** pb_Cache: lines of two slots; hash is the last one used. */
  class Cache {
    var slots: array<Line>
    var hash: nat

    constructor ()
      ensures slots.Length == PB_CACHE_SIZE && fresh(slots)
      ensures forall i | 0 <= i < PB_CACHE_SIZE :: slots[i] == Line(Slot(0, 0), Slot(0, 0))
    {
      slots := new Line[PB_CACHE_SIZE](_ => Line(Slot(0, 0), Slot(0, 0)));
      hash := 0;
    }

    /** pb_name with a cache, for a string at an address that is not null. */
    method NameAt(t: NameTable, s: seq<Byte>, address: nat) returns (r: Option<Name>)
      requires t.Valid() && slots.Length == PB_CACHE_SIZE && address > 0
      modifies this`hash, slots
      ensures var i := LineOf(address);
              && (r, slots[i]) == old(CachedName(t.buckets[..], s, address, slots[i]))
              && forall k | 0 <= k < PB_CACHE_SIZE && k != i :: slots[k] == old(slots[k])
      ensures AllShort(t.all) ==> r == NameOf(t.buckets[..], s)
    {
      var i := LineOf(address);
      var line := slots[i];
      CacheIfShort(t.buckets[..], t.all, s, address, line);
      r := None;
      var second := false;
      if line.first.address == address {
        hash := line.first.hash;
        r := t.Get(s, hash);
      } else if line.second.address == address {
        hash := line.second.hash;
        r := t.Get(s, hash);
        second := true;
      } else {
        slots[i] := Line(Slot(address, line.first.hash), line.first);
      }
      if r == None {
        hash := HashOf(s);
        slots[i] := if second then slots[i].(second := Slot(address, hash))
          else slots[i].(first := Slot(address, hash));
        r := t.Get(s, hash);
      }
    }
  }

  /** Which line of a cache is for the strings at an address: a 64-bit product, and its remainder. */
  function LineOf(address: nat): (i: nat)
    ensures i < PB_CACHE_SIZE
  {
    address * 2654435761 % TWO64 % PB_CACHE_SIZE
  }

  /** A new table with one name in it, in its smallest size. */
  method Interned(s: seq<Byte>) returns (t: NameTable, n: Name)
    ensures fresh(t) && fresh(t.buckets) && t.Valid()
    ensures n == Name(0, CalcHash(s), |s| % LENGTHS, 1, s) && t.all == map[0 := n] && t.uses == map[0 := 1]
  {
    t := new NameTable(PB_MIN_STRTABLE_SIZE);
    assert NameOf(t.buckets[..], s) == None;
    var r := t.New(s, true);
    n := r.value;
  }

  /**
   How this comes about: a long name is interned; it is looked up, without success, and leaves its hash
   in the cache; then the empty string is looked up at the same address.
   */
  method StaleCacheAnswers(address: nat) returns (t: NameTable, r: Option<Name>)
    requires address > 0
    ensures t.Valid() && r == Some(LongName()) && NameOf(t.buckets[..], []) == None
  {
    var n: Name;
    t, n := Interned(Zeros(LENGTHS));
    var cache := new Cache();
    r := cache.NameAt(t, Zeros(LENGTHS), address);
    StaleLineAnswers(t.buckets[..], address, cache.slots[LineOf(address)]);
    r := cache.NameAt(t, [], address);
  }

  /** So many calls of pb_usename. */
  method UseTimes(t: NameTable, n: Name, k: nat) returns (n': Name)
    requires t.Valid() && Stored(t.all, n)
    modifies t`all, t`uses, t.buckets
    ensures t.Valid() && Stored(t.all, n') && n'.id == n.id && n.id in old(t.uses)
    ensures t.uses == old(t.uses)[n.id := old(t.uses)[n.id] + k]
  {
    n' := n;
    Twice(t.uses, n.id, t.uses[n.id], t.uses[n.id]);
    for i := 0 to k
      invariant t.Valid() && Stored(t.all, n') && n'.id == n.id && t.uses == old(t.uses)[n.id := old(t.uses)[n.id] + i]
      modifies t`all, t`uses, t.buckets
    {
      Twice(old(t.uses), n.id, old(t.uses)[n.id] + i, old(t.uses)[n.id] + i + 1);
      n' := t.Use(n');
    }
  }

  /** A name with 65537 uses is removed by the next pb_delname, although it is used 65536 times still. */
  method OverusedNameIsRemoved(s: seq<Byte>) returns (t: NameTable, n: Name)
    ensures t.Valid() && n.id !in t.all && n.id in t.uses && t.uses[n.id] == COUNTS
  {
    t, n := Interned(s);
    n := UseTimes(t, n, COUNTS);
    ghost var removed := t.Delete(n);
  }

  lemma CacheIfShort(buckets: seq<seq<Name>>, all: Stock, s: seq<Byte>, address: nat, line: Line)
    requires TableOk(buckets, all)
    ensures AllShort(all) ==> CachedName(buckets, s, address, line).0 == NameOf(buckets, s)
  {
    if AllShort(all) {
      CacheIsTransparent(buckets, all, s, address, line);
    }
  }

  /** The size that pbN_resize comes to. */
  function NewSize(n: nat, request: nat): (size: nat)
    requires n > 0
    ensures n <= size
    decreases request - n
  {
    if n < request && n < MAX_BUCKETS then NewSize(2 * n, request) else n
  }
}
