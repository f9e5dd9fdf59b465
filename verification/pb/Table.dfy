/**
 pb_Table: an open hash table whose colliding entries are chained through the free slots of its one
 array (chained scatter with Brent's variation: an entry that sits in another key's main position is
 moved out of it).  Offsets and lastfree count entries.  Slot 0 belongs to key 0.
 */
module Table {
  import opened Options
  import Arith

  const PB_MIN_HASHTABLE_SIZE := 8

  /** next is the distance to the next entry of the chain, 0 at its end; key 0 marks an empty slot. */
  datatype Entry<V> = Entry(next: int, key: int, payload: V)

  /** pbT_hash: the main position of a key. */
  function MainSlot(key: int, size: nat): (m: nat)
    requires size >= 2
    ensures m < size && (key == 0 <==> m == 0)
  {
    if key == 0 then 0
    else
      var h := Arith.Wrap(key * 2654435761, size);
      if h == 0 then 1 else h
  }

  // ------------------------------------------------------------------------------------ chains

  /** The a-th slot of chain c: its key belongs to main position m, its link leads to the next slot. */
  ghost predicate LinkAt<V>(es: seq<Entry<V>>, c: seq<nat>, m: nat, a: nat) {
    a < |c| && |es| >= 2 ==>
      && 1 <= c[a] < |es| && es[c[a]].key != 0 && MainSlot(es[c[a]].key, |es|) == m
      && es[c[a]].next == if a + 1 < |c| then c[a + 1] as int - c[a] else 0
  }

  /** All keys with main position m are on one chain, which starts there. */
  ghost predicate ChainOk<V>(es: seq<Entry<V>>, c: seq<nat>, m: nat) {
    && (c != [] ==> c[0] == m)
    && (forall a: nat {:trigger LinkAt(es, c, m, a)} | a < |c| :: LinkAt(es, c, m, a))
    && (forall a, b | 0 <= a < b < |c| :: c[a] != c[b])
  }

  ghost predicate OnChain<V>(es: seq<Entry<V>>, chains: seq<seq<nat>>, i: nat) {
    i < |es| == |chains| && |es| >= 2 && es[i].key != 0 ==> i in chains[MainSlot(es[i].key, |es|)]
  }

  ghost predicate Linked<V>(es: seq<Entry<V>>, chains: seq<seq<nat>>) {
    && |chains| == |es| >= 2 && es[0].key == 0
    && (forall i | 0 <= i < |es| && es[i].key == 0 :: es[i].next == 0)
    && (forall m: nat {:trigger ChainOk(es, chains[m], m)} | m < |es| :: ChainOk(es, chains[m], m))
    && (forall i: nat {:trigger OnChain(es, chains, i)} | i < |es| :: OnChain(es, chains, i))
  }

  ghost predicate HasKey<V>(es: seq<Entry<V>>, i: nat, key: int) {
    i < |es| && es[i].key == key
  }

  /** The table as a map on its non-zero keys. */
  ghost predicate Holds<V>(es: seq<Entry<V>>, contents: map<int, V>) {
    && (forall i | 0 <= i < |es| && es[i].key != 0 :: es[i].key in contents && contents[es[i].key] == es[i].payload)
    && (forall key | key in contents :: key != 0 && exists i: nat :: HasKey(es, i, key))
    && (forall i, j | 0 <= i < j < |es| && es[i].key != 0 :: es[i].key != es[j].key)
  }

  ghost predicate FullFrom<V>(es: seq<Entry<V>>, from: nat) {
    forall i | from <= i < |es| :: es[i].key != 0
  }

  lemma NotAnEmptyChain<V>(es: seq<Entry<V>>, chains: seq<seq<nat>>, m: nat)
    requires Linked(es, chains) && m < |es| && (es[m].key == 0 || MainSlot(es[m].key, |es|) != m)
    ensures chains[m] == []
  {
    assert ChainOk(es, chains[m], m);
    assert chains[m] != [] ==> LinkAt(es, chains[m], m, 0);
  }

  /** A slot that changes is not on the chain. */
  lemma ChainKept<V>(es: seq<Entry<V>>, es': seq<Entry<V>>, c: seq<nat>, m: nat)
    requires ChainOk(es, c, m) && |es'| == |es| >= 2
    requires forall a | 0 <= a < |c| && c[a] < |es| :: es'[c[a]] == es[c[a]]
    ensures ChainOk(es', c, m)
  {
    forall a: nat | a < |c|
      ensures LinkAt(es', c, m, a)
    {
      assert LinkAt(es, c, m, a);
    }
  }

  /** A slot that is on a chain has a key that belongs there. */
  lemma OnItsChain<V>(es: seq<Entry<V>>, chains: seq<seq<nat>>, m: nat, i: nat)
    requires Linked(es, chains) && m < |es| && i in chains[m]
    ensures 1 <= i < |es| && es[i].key != 0 && MainSlot(es[i].key, |es|) == m
  {
    assert ChainOk(es, chains[m], m);
    var a :| 0 <= a < |chains[m]| && chains[m][a] == i;
    assert LinkAt(es, chains[m], m, a);
  }

  /** The main position of the new key is empty. */
  lemma PutFirst<V>(es: seq<Entry<V>>, chains: seq<seq<nat>>, m: nat, key: int, zero: V)
    requires Linked(es, chains) && key != 0 && m == MainSlot(key, |es|) && es[m].key == 0
    ensures Linked(es[m := Entry(0, key, zero)], chains[m := [m]])
  {
    var es', chains' := es[m := Entry(0, key, zero)], chains[m := [m]];
    NotAnEmptyChain(es, chains, m);
    forall k: nat | k < |es'|
      ensures ChainOk(es', chains'[k], k)
    {
      assert ChainOk(es, chains[k], k);
      if k == m {
        assert LinkAt(es', [m], m, 0);
      } else {
        forall a | 0 <= a < |chains[k]|
          ensures chains[k][a] != m
        {
          OnItsChain(es, chains, k, chains[k][a]);
        }
        ChainKept(es, es', chains[k], k);
      }
    }
    forall i: nat | i < |es'|
      ensures OnChain(es', chains', i)
    {
      assert OnChain(es, chains, i);
    }
  }

  /** The chain with slot f behind its head. */
  function Behind(c: seq<nat>, f: nat): seq<nat> {
    if c == [] then [f] else [c[0], f] + c[1..]
  }

  /** The new key goes into the free slot f, behind the head of its chain. */
  lemma PutSecond<V>(es: seq<Entry<V>>, chains: seq<seq<nat>>, m: nat, f: nat, key: int, zero: V)
    requires Linked(es, chains) && key != 0 && m == MainSlot(key, |es|)
    requires es[m].key != 0 && MainSlot(es[m].key, |es|) == m && 1 <= f < |es| && es[f].key == 0
    ensures var next := if es[m].next != 0 then m - f + es[m].next else 0;
            Linked(es[f := Entry(next, key, zero)][m := es[m].(next := f - m)], chains[m := Behind(chains[m], f)])
  {
    var next := if es[m].next != 0 then m - f + es[m].next else 0;
    var es', c := es[f := Entry(next, key, zero)][m := es[m].(next := f - m)], chains[m];
    assert OnChain(es, chains, m) && ChainOk(es, c, m);
    var c' := Behind(c, f);
    var chains' := chains[m := c'];
    assert f !in c by {
      if f in c {
        OnItsChain(es, chains, m, f);
      }
    }
    assert LinkAt(es, c, m, 0);
    forall a: nat | a < |c'|
      ensures LinkAt(es', c', m, a)
    {
      if a >= 1 && a - 1 < |c| {
        assert LinkAt(es, c, m, a - 1);
      }
    }
    assert ChainOk(es', c', m);
    OthersKept(es, chains, es', m, m, f);
    forall i: nat | i < |es'|
      ensures OnChain(es', chains', i)
    {
      assert OnChain(es, chains, i);
      if i == f {
        assert c'[1] == f;
      } else if es[i].key != 0 && MainSlot(es[i].key, |es|) == m {
        var a :| 0 <= a < |c| && c[a] == i;
        assert c'[if a == 0 then 0 else a + 1] == i;
      }
    }
  }

  /** Chains other than p and q do not notice changes in the slots of these chains and in a free slot. */
  lemma OthersKept<V>(es: seq<Entry<V>>, chains: seq<seq<nat>>, es': seq<Entry<V>>, p: nat, q: nat, f: nat)
    requires Linked(es, chains) && |es'| == |es| && p < |es| && q < |es| && f < |es| && es[f].key == 0
    requires forall i | 0 <= i < |es| && i != f && es'[i] != es[i] ::
               es[i].key != 0 && MainSlot(es[i].key, |es|) in {p, q}
    ensures forall k: nat | k < |es| && k != p && k != q :: ChainOk(es', chains[k], k)
  {
    forall k: nat | k < |es| && k != p && k != q
      ensures ChainOk(es', chains[k], k)
    {
      assert ChainOk(es, chains[k], k);
      forall a | 0 <= a < |chains[k]| && chains[k][a] < |es|
        ensures es'[chains[k][a]] == es[chains[k][a]]
      {
        OnItsChain(es, chains, k, chains[k][a]);
      }
      ChainKept(es, es', chains[k], k);
    }
  }

  /** Slot f takes the place of m on the chain of home, and m starts a chain of its own. */
  function Moved(chains: seq<seq<nat>>, home: nat, a: nat, m: nat, f: nat): seq<seq<nat>>
    requires home < |chains| && m < |chains| && a < |chains[home]|
  {
    var longer: seq<nat> := chains[home][a := f];
    var alone: seq<nat> := [m];
    chains[home := longer][m := alone]
  }

  /** The array after the entry in slot m went to slot f: p is the slot before m on its chain. */
  function Relocated<V>(es: seq<Entry<V>>, m: nat, p: nat, f: nat, key: int, zero: V): seq<Entry<V>>
    requires m < |es| && p < |es| && f < |es|
  {
    es[p := es[p].(next := f - p)]
      [f := es[m].(next := if es[m].next != 0 then es[m].next + (m - f) else 0)]
      [m := Entry(0, key, zero)]
  }

  /** The main position is taken by an entry of another chain, which moves to the free slot f. */
  lemma PutMoving<V>(es: seq<Entry<V>>, chains: seq<seq<nat>>, m: nat, a: nat, f: nat, key: int, zero: V)
    requires Linked(es, chains) && key != 0 && m == MainSlot(key, |es|)
    requires es[m].key != 0 && 1 <= f < |es| && es[f].key == 0
    requires var home := MainSlot(es[m].key, |es|);
             home != m && 0 < a < |chains[home]| && chains[home][a] == m && chains[home][a - 1] < |es|
    ensures var home := MainSlot(es[m].key, |es|);
            Linked(Relocated(es, m, chains[home][a - 1], f, key, zero), Moved(chains, home, a, m, f))
  {
    var home := MainSlot(es[m].key, |es|);
    var c, p := chains[home], chains[home][a - 1];
    var es', c' := Relocated(es, m, p, f, key, zero), c[a := f];
    var chains' := Moved(chains, home, a, m, f);
    assert ChainOk(es, c, home);
    assert LinkAt(es, c, home, a) && LinkAt(es, c, home, a - 1);
    assert f !in c by {
      if f in c {
        OnItsChain(es, chains, home, f);
      }
    }
    MovedChain(es, c, home, a, f, key, zero);
    NotAnEmptyChain(es, chains, m);
    assert LinkAt(es', [m], m, 0);
    OthersKept(es, chains, es', home, home, f);
    forall i: nat | i < |es'|
      ensures OnChain(es', chains', i)
    {
      assert OnChain(es, chains, i);
      if i == f {
        assert c'[a] == f;
      } else if es[i].key != 0 && MainSlot(es[i].key, |es|) == home {
        var b :| 0 <= b < |c| && c[b] == i;
        assert b != a ==> c'[b] == i;
      }
    }
  }

  lemma MovedChain<V>(es: seq<Entry<V>>, c: seq<nat>, home: nat, a: nat, f: nat, key: int, zero: V)
    requires |es| >= 2 && ChainOk(es, c, home) && 0 < a < |c| && f !in c && 1 <= f < |es|
    requires c[a] < |es| && c[a - 1] < |es|
    ensures ChainOk(Relocated(es, c[a], c[a - 1], f, key, zero), c[a := f], home)
  {
    var es', c' := Relocated(es, c[a], c[a - 1], f, key, zero), c[a := f];
    assert LinkAt(es, c, home, a) && LinkAt(es, c, home, a - 1);
    forall b: nat | b < |c'|
      ensures LinkAt(es', c', home, b)
    {
      assert LinkAt(es, c, home, b);
    }
  }

  // ---------------------------------------------------------------------------- contents and room

  /** The array size that pb_resizetable comes to: doubled from n while below the limit and the request. */
  function NewSize(n: nat, limit: nat, request: nat): (size: nat)
    requires n > 0
    ensures n <= size
    decreases limit - n
  {
    if n < limit && n < request then NewSize(2 * n, limit, request) else n
  }

  /** A key was added in some slot; another entry may have moved. */
  lemma HoldsMore<V>(es: seq<Entry<V>>, es': seq<Entry<V>>, contents: map<int, V>, key: int, zero: V, i: nat, m: nat,
                     f: nat)
    requires Holds(es, contents) && key != 0 && key !in contents && |es'| == |es| && m < |es| && f < |es|
    requires i < |es| && es'[i].key == key && es'[i].payload == zero
    requires (i == m && es[m].key == 0) || (i == f && es[f].key == 0 && es'[m].key == es[m].key
                                            && es'[m].payload == es[m].payload)
             || (i == m && m != f && es[f].key == 0 && es'[f].key == es[m].key && es'[f].payload == es[m].payload)
    requires forall j | 0 <= j < |es| && j != m && j != f :: es'[j].key == es[j].key && es'[j].payload == es[j].payload
    requires i == m && es[m].key == 0 && f != m ==> es'[f].key == es[f].key && es'[f].payload == es[f].payload
    ensures Holds(es', contents[key := zero])
  {
    var contents' := contents[key := zero];
    forall k | k in contents'
      ensures k != 0 && exists j: nat :: HasKey(es', j, k)
    {
      if k == key {
        assert HasKey(es', i, k);
      } else {
        var j: nat :| HasKey(es, j, k);
        if i == m && j == m {
          assert HasKey(es', f, k);
        } else {
          assert HasKey(es', j, k);
        }
      }
    }
  }

  function KeysUpTo<V>(es: seq<Entry<V>>, n: nat): set<int>
    requires n <= |es|
  {
    if n == 0 then {}
    else KeysUpTo(es, n - 1) + (if es[n - 1].key != 0 then {es[n - 1].key} else {})
  }

  lemma {:induction false} KeysUpToAre<V>(es: seq<Entry<V>>, n: nat, contents: map<int, V>)
    requires n <= |es| && Holds(es, contents)
    ensures forall key :: key in KeysUpTo(es, n) <==> key != 0 && exists i :: 0 <= i < n && es[i].key == key
    ensures KeysUpTo(es, n) <= contents.Keys
  {
    if n > 0 {
      KeysUpToAre(es, n - 1, contents);
    }
  }

  lemma {:induction false} KeysCount<V>(es: seq<Entry<V>>, n: nat, contents: map<int, V>)
    requires 1 <= n <= |es| && Holds(es, contents) && es[0].key == 0 && forall i | 1 <= i < n :: es[i].key != 0
    ensures |KeysUpTo(es, n)| == n - 1
  {
    if n > 1 {
      KeysCount(es, n - 1, contents);
      KeysUpToAre(es, n - 1, contents);
    } else {
      assert KeysUpTo(es, 1) == {};
    }
  }

  /** A table whose slots but the first are all taken holds that many keys. */
  lemma FullTable<V>(es: seq<Entry<V>>, contents: map<int, V>)
    requires |es| >= 1 && Holds(es, contents) && es[0].key == 0 && FullFrom(es, 1)
    ensures |contents| >= |es| - 1
  {
    KeysCount(es, |es|, contents);
    KeysUpToAre(es, |es|, contents);
    Arith.SubsetSize(KeysUpTo(es, |es|), contents.Keys);
    assert |contents.Keys| == |contents|;
  }

  lemma {:induction false} KeysBound<V>(es: seq<Entry<V>>, n: nat, i: nat)
    requires 1 <= i < |es| && n <= |es| && es[0].key == 0 && es[i].key == 0
    ensures |KeysUpTo(es, n)| <= n
    ensures n > 0 ==> |KeysUpTo(es, n)| <= n - 1
    ensures n > i ==> |KeysUpTo(es, n)| <= n - 2
  {
    if n > 0 {
      KeysBound(es, n - 1, i);
    }
  }

  /** An empty slot above the first leaves room for a key. */
  lemma EmptySlotIsRoom<V>(es: seq<Entry<V>>, contents: map<int, V>, i: nat)
    requires Holds(es, contents) && 1 <= i < |es| && es[0].key == 0 && es[i].key == 0
    ensures |contents| < |es| - 1
  {
    KeysBound(es, |es|, i);
    KeysUpToAre(es, |es|, contents);
    forall key | key in contents
      ensures key in KeysUpTo(es, |es|)
    {
      var j: nat :| HasKey(es, j, key);
    }
    assert contents.Keys == KeysUpTo(es, |es|);
    assert |contents.Keys| == |contents|;
  }

  // ----------------------------------------------------------------------------------- the table

  /**
   The table.  maxEntries is the largest array the allocator grants, and limit is
   PB_MAX_HASHSIZE / entry_size.  The ghost fields are the map that the table stands for on non-zero
   keys and, for each main position, the slots on its chain.
   */
  class Table<V(==)> {
    const zero: V
    const limit: nat
    const maxEntries: nat
    var size: nat
    var lastfree: nat
    var hasZero: bool
    var hash: array<Entry<V>>
    ghost var contents: map<int, V>
    ghost var chains: seq<seq<nat>>

    ghost predicate Sound()
      reads this, hash
    {
      && hash.Length == size
      && if size == 0 then contents == map[] && !hasZero && chains == [] && lastfree == 0
         else
           && 1 <= lastfree <= size
           && Linked(hash[..], chains) && Holds(hash[..], contents)
           && (!hasZero ==> hash[0].payload == zero)
    }

    /** No slot from lastfree on is empty. */
    ghost predicate Valid()
      reads this, hash
    {
      Sound() && FullFrom(hash[..], lastfree)
    }

    /** There is a slot for one more key. */
    ghost predicate HasRoom()
      reads this
    {
      size >= 2 && |contents| < size - 1
    }

    /** The limits allow an array of twice the size. */
    ghost predicate CanGrow()
      reads this
    {
      size * 2 <= NewSize(PB_MIN_HASHTABLE_SIZE, limit, size * 2) <= maxEntries
    }

    /** pb_inittable. */
    constructor (zero: V, limit: nat, maxEntries: nat)
      ensures Valid() && fresh(hash) && contents == map[] && !hasZero && size == 0
      ensures this.zero == zero && this.limit == limit && this.maxEntries == maxEntries
    {
      this.zero, this.limit, this.maxEntries := zero, limit, maxEntries;
      size, lastfree, hasZero := 0, 0, false;
      hash := new Entry<V>[0];
      contents, chains := map[], [];
    }

    /** pb_gettable: the slot of the key's entry, if the key is there. */
    method Get(key: int) returns (r: Option<nat>)
      requires Valid()
      ensures key != 0 ==> (r.Some? <==> key in contents)
      ensures key == 0 ==> (r.Some? <==> hasZero)
      ensures r.Some? ==> r.value < hash.Length && hash[r.value].key == key && (key == 0 ==> r.value == 0)
      ensures r.Some? && key != 0 ==> hash[r.value].payload == contents[key]
    {
      if size == 0 {
        return None;
      }
      if key == 0 {
        return if hasZero then Some(0) else None;
      }
      var i: nat := MainSlot(key, size);
      ghost var home := MainSlot(if hash[i].key == 0 then key else hash[i].key, size);
      ghost var c := chains[home];
      ghost var a: nat := 0;
      WalkStarts(hash[..], chains, key, i);
      if i in c {
        a :| a < |c| && c[a] == i;
      }
      while hash[i].key != key
        invariant i < size && (if c == [] then hash[i].key == 0 else a < |c| && c[a] == i && ChainOk(hash[..], c, home))
        invariant key in contents ==> exists b :: a <= b < |c| && c[b] < size && hash[c[b]].key == key
        decreases |c| - a
      {
        assert c != [] ==> LinkAt(hash[..], c, home, a);
        if hash[i].next == 0 {
          return None;
        }
        a := a + 1;
        assert LinkAt(hash[..], c, home, a);
        i := i + hash[i].next;
      }
      return Some(i);
    }

    /** What slot 0 holds, or would hold if the array existed. */
    function ZeroPayload(): V
      reads this, hash
    {
      if hash.Length == 0 then zero else hash[0].payload
    }

    /** A copy of t's header with a cleared array of the given size. */
    constructor Sized(t: Table<V>, newsize: nat)
      requires newsize >= 2
      ensures Valid() && fresh(hash) && contents == map[] && hasZero == t.hasZero && size == newsize
      ensures this.zero == t.zero && this.limit == t.limit && this.maxEntries == t.maxEntries && hash[0].payload == zero
    {
      this.zero, this.limit, this.maxEntries := t.zero, t.limit, t.maxEntries;
      size, lastfree, hasZero := newsize, newsize, t.hasZero;
      var cleared := new Entry<V>[newsize](_ => Entry(0, 0, t.zero));
      hash := cleared;
      contents, chains := map[], seq(newsize, _ => []);
      new;
      forall m: nat | m < size
        ensures ChainOk(hash[..], chains[m], m)
      {
      }
    }

    /** The caller writes through the entry it got. */
    method SetPayload(i: nat, v: V)
      requires Valid() && i < hash.Length && (hash[i].key != 0 || (i == 0 && hasZero))
      modifies this`contents, hash
      ensures Valid()
      ensures contents == if hash[i].key == 0 then old(contents) else old(contents)[hash[i].key := v]
      ensures hash[..] == old(hash[..])[i := old(hash[i]).(payload := v)]
    {
      ghost var es := hash[..];
      hash[i] := hash[i].(payload := v);
      if hash[i].key != 0 {
        contents := contents[hash[i].key := v];
      }
      PayloadSet(es, chains, old(contents), i, v);
      assert hash[..] == es[i := es[i].(payload := v)];
    }

    /** lastfree moves down to the next empty slot, if there is one above slot 0. */
    method FindFree() returns (f: Option<nat>)
      requires Valid() && size >= 2
      modifies this`lastfree
      ensures Sound()
      ensures f.Some? ==>
                && f.value == lastfree && 1 <= f.value < size && hash[f.value].key == 0
                && FullFrom(hash[..], lastfree + 1)
      ensures f.None? ==> lastfree == 1 && FullFrom(hash[..], 1)
    {
      while lastfree > 1
        invariant 1 <= lastfree <= size && FullFrom(hash[..], lastfree)
      {
        lastfree := lastfree - 1;
        if hash[lastfree].key == 0 && hash[lastfree].next == 0 {
          return Some(lastfree);
        }
      }
      return None;
    }

    /** The slot before m on the chain of the key in slot m. */
    method Before(m: nat) returns (p: nat, ghost a: nat)
      requires Sound() && m < size && hash[m].key != 0 && MainSlot(hash[m].key, size) != m
      ensures p < size
      ensures var c := chains[MainSlot(hash[m].key, size)]; a + 1 < |c| && c[a] == p && c[a + 1] == m
    {
      var on: nat := MainSlot(hash[m].key, size);
      ghost var home := on;
      ghost var c := chains[home];
      assert OnChain(hash[..], chains, m) && ChainOk(hash[..], c, home);
      ghost var b: nat :| b < |c| && c[b] == m;
      a := 0;
      while on + hash[on].next != m
        invariant on < size && a < b && c[a] == on
        decreases b - a
      {
        assert LinkAt(hash[..], c, home, a);
        assert a + 1 != b;
        a := a + 1;
        assert LinkAt(hash[..], c, home, a);
        on := on + hash[on].next;
      }
      assert LinkAt(hash[..], c, home, a);
      p := on;
    }

    /** Slot 0 is made the entry of key 0. */
    method PlaceZero()
      requires Valid() && size >= 2
      modifies this`hasZero, hash
      ensures Valid() && hasZero && hash[..] == old(hash[..])[0 := old(hash[0]).(payload := zero)]
    {
      ghost var es := hash[..];
      hasZero := true;
      hash[0] := hash[0].(key := 0, payload := zero);
      PayloadSet(es, chains, contents, 0, zero);
      assert hash[..] == es[0 := es[0].(payload := zero)];
    }

    /** The main position is empty. */
    method PlaceFirst(m: nat, key: int)
      requires Valid() && size >= 2 && key != 0 && key !in contents && m == MainSlot(key, size) && hash[m].key == 0
      modifies this`contents, this`chains, hash
      ensures Valid() && contents == old(contents)[key := zero] && hash[..] == old(hash[..])[m := Entry(0, key, zero)]
    {
      ghost var es := hash[..];
      hash[m] := hash[m].(key := key, payload := zero);
      assert hash[..] == es[m := Entry(0, key, zero)];
      PutFirst(es, chains, m, key, zero);
      HoldsMore(es, hash[..], contents, key, zero, m, m, m);
      contents, chains := contents[key := zero], chains[m := [m]];
    }

    method MoveEntry(m: nat, p: nat, f: nat, key: int)
      requires m < hash.Length && p < hash.Length && f < hash.Length && m != p && m != f && p != f
      modifies hash
      ensures hash[..] == Relocated(old(hash[..]), m, p, f, key, zero)
    {
      hash[p] := hash[p].(next := f - p);
      hash[f] := hash[m];
      if hash[m].next != 0 {
        hash[f] := hash[f].(next := hash[f].next + (m - f));
        hash[m] := hash[m].(next := 0);
      }
      hash[m] := hash[m].(key := key, payload := zero);
    }

    /** The main position is taken by an entry that belongs elsewhere: that one moves to slot f. */
    method PlaceMoving(m: nat, f: nat, key: int)
      requires Sound() && size >= 2 && key != 0 && key !in contents && m == MainSlot(key, size)
      requires hash[m].key != 0 && MainSlot(hash[m].key, size) != m && 1 <= f < size && hash[f].key == 0
      requires FullFrom(hash[..], f + 1) && lastfree == f
      modifies this`contents, this`chains, hash
      ensures Valid() && contents == old(contents)[key := zero]
      ensures hash[m] == Entry(0, key, zero) && hash[0] == old(hash[0])
    {
      ghost var es := hash[..];
      ghost var on: nat := MainSlot(hash[m].key, size);
      var p, a := Before(m);
      assert chains[on][a] == p && ChainOk(es, chains[on], on);
      OnItsChain(es, chains, on, p);
      MoveEntry(m, p, f, key);
      PutMoving(es, chains, m, a + 1, f, key, zero);
      HoldsMore(es, hash[..], contents, key, zero, m, m, f);
      contents, chains := contents[key := zero], Moved(chains, on, a + 1, m, f);
    }

    /** The main position is taken by an entry of the same chain: the new key goes behind it. */
    method PlaceBehind(m: nat, f: nat, key: int)
      requires Sound() && size >= 2 && key != 0 && key !in contents && m == MainSlot(key, size)
      requires hash[m].key != 0 && MainSlot(hash[m].key, size) == m && 1 <= f < size && hash[f].key == 0
      requires FullFrom(hash[..], f + 1) && lastfree == f
      modifies this`contents, this`chains, hash
      ensures Valid() && contents == old(contents)[key := zero]
      ensures hash[f].key == key && hash[f].payload == zero && hash[0] == old(hash[0])
    {
      ghost var es := hash[..];
      if hash[m].next != 0 {
        hash[f] := hash[f].(next := m - f + hash[m].next);
      }
      hash[m] := hash[m].(next := f - m);
      hash[f] := hash[f].(key := key, payload := zero);
      var next := if es[m].next != 0 then m - f + es[m].next else 0;
      assert hash[..] == es[f := Entry(next, key, zero)][m := es[m].(next := f - m)];
      PutSecond(es, chains, m, f, key, zero);
      HoldsMore(es, hash[..], contents, key, zero, f, m, f);
      contents, chains := contents[key := zero], chains[m := Behind(chains[m], f)];
    }

    /**
     pbT_newkey: an entry with zero payload for a key that has none.  While there is room the array
     stays; the table grows only when every slot but the first is taken, and then once.
     */
    method NewKey(key: int) returns (r: Option<nat>)
      requires Valid() && key !in contents
      modifies this, hash
      ensures Valid() && (hash == old(hash) || fresh(hash))
      ensures old(HasRoom()) || (key == 0 && old(size) != 0) ==> r.Some? && hash == old(hash)
      ensures r == None <==> !old(HasRoom()) && !old(CanGrow()) && (key != 0 || old(size) == 0)
      ensures r.Some? ==> r.value < hash.Length && hash[r.value].key == key && hash[r.value].payload == zero
      ensures contents == if r.Some? && key != 0 then old(contents)[key := zero] else old(contents)
      ensures key == 0 && r.Some? ==> hasZero && r.value == 0
      ensures key != 0 || r.None? ==> ZeroPayload() == old(ZeroPayload())
      ensures key != 0 || r.None? ==> (hasZero <==> old(hasZero) || (hash != old(hash) && old(size) != 0))
      decreases if HasRoom() then 0 else 2, 1
    {
      if size == 0 {
        var grown := Grow(size * 2);
        if grown == 0 {
          return None;
        }
      }
      if key == 0 {
        PlaceZero();
        return Some(0);
      }
      r := Place(key);
    }

    /** A key that is not zero gets a slot, of this array or of a larger one. */
    method Place(key: int) returns (r: Option<nat>)
      requires Valid() && size >= 2 && key != 0 && key !in contents
      modifies this, hash
      ensures Valid() && (hash == old(hash) || fresh(hash))
      ensures old(HasRoom()) ==> r.Some? && hash == old(hash)
      ensures r == None <==> !old(HasRoom()) && !old(CanGrow())
      ensures r.Some? ==> r.value < hash.Length && hash[r.value].key == key && hash[r.value].payload == zero
      ensures contents == if r.Some? then old(contents)[key := zero] else old(contents)
      ensures ZeroPayload() == old(ZeroPayload())
      ensures hasZero <==> old(hasZero) || hash != old(hash)
      decreases if HasRoom() then 0 else 2, 0
    {
      var m: nat := MainSlot(key, size);
      if hash[m].key == 0 {
        EmptySlotIsRoom(hash[..], contents, m);
        PlaceFirst(m, key);
        return Some(m);
      }
      var free := FindFree();
      if free == None {
        FullTable(hash[..], contents);
        r := GrowFor(key);
        return;
      }
      EmptySlotIsRoom(hash[..], contents, free.value);
      if MainSlot(hash[m].key, size) != m {
        PlaceMoving(m, free.value, key);
        return Some(m);
      } else {
        PlaceBehind(m, free.value, key);
        return Some(free.value);
      }
    }

    /** No slot is left: the key goes into a larger array, where there is one. */
    method GrowFor(key: int) returns (r: Option<nat>)
      requires Valid() && size >= 2 && FullFrom(hash[..], 1) && key != 0 && key !in contents
      modifies this
      ensures Valid()
      ensures r == None <==> !old(CanGrow())
      ensures r == None ==> hash == old(hash) && contents == old(contents) && hasZero == old(hasZero)
      ensures r.Some? ==>
                && fresh(hash) && contents == old(contents)[key := zero]
                && hasZero && ZeroPayload() == old(hash[0].payload)
                && r.value < hash.Length && hash[r.value].key == key && hash[r.value].payload == zero
      decreases 1, 1
    {
      var grown := Grow(size * 2);
      if grown == 0 {
        return None;
      }
      r := NewKey(key);
    }

    /** An entry of another table is inserted here. */
    method CopyEntry(e: Entry<V>)
      requires Valid() && e.key !in contents && HasRoom()
      modifies this, hash
      ensures Valid() && hash == old(hash) && size == old(size)
      ensures contents == if e.key == 0 then old(contents) else old(contents)[e.key := e.payload]
      ensures if e.key == 0 then hasZero && hash[0].payload == e.payload
              else hasZero == old(hasZero) && hash[0].payload == old(hash[0].payload)
      decreases 0, 2
    {
      var i := NewKey(e.key);
      SetPayload(i.value, e.payload);
    }

    /** A larger table with the same entries. */
    method Refilled(newsize: nat) returns (nt: Table<V>)
      requires Valid() && (size == 0 || FullFrom(hash[..], 1)) && newsize >= 2 * size
               && newsize >= PB_MIN_HASHTABLE_SIZE
      ensures nt.Valid() && fresh(nt) && fresh(nt.hash) && nt.zero == zero && nt.size == newsize && nt.HasRoom()
      ensures nt.contents == contents && nt.hasZero == (hasZero || size != 0) && nt.hash[0].payload == ZeroPayload()
      decreases 0, 3
    {
      nt := new Table<V>.Sized(this, newsize);
      var i := 0;
      while i < size
        invariant 0 <= i <= size && Valid() && nt.Valid() && fresh(nt) && fresh(nt.hash) && nt.size == newsize
        invariant nt.zero == zero && nt.limit == limit && nt.maxEntries == maxEntries
        invariant |nt.contents| <= i
        invariant Copied(hash[..], i, nt.contents)
        invariant if i == 0 then nt.hasZero == hasZero && nt.hash[0].payload == zero
                  else nt.hasZero && nt.hash[0].payload == hash[0].payload
      {
        CopiedOne(hash[..], contents, i, nt.contents);
        nt.CopyEntry(hash[i]);
        i := i + 1;
      }
      CopiedAll(hash[..], contents, nt.contents);
    }

    /**
     pb_resizetable as pbT_newkey calls it: on a table without an array, or one that is full.  No
     insertion into the larger array makes that one grow.
     */
    method Grow(request: nat) returns (newsize: nat)
      requires Valid() && request == size * 2 && (size == 0 || FullFrom(hash[..], 1))
      modifies this
      ensures Valid()
      ensures newsize == if old(CanGrow()) then NewSize(PB_MIN_HASHTABLE_SIZE, limit, request) else 0
      ensures newsize == 0 ==>
                hash == old(hash) && size == old(size) && contents == old(contents) && hasZero == old(hasZero)
      ensures newsize != 0 ==>
                && fresh(hash) && size == newsize && newsize >= PB_MIN_HASHTABLE_SIZE && newsize >= request
                && contents == old(contents) && HasRoom() && hash[0].payload == old(ZeroPayload())
                && hasZero == (old(hasZero) || old(size) != 0)
      decreases 1, 0
    {
      newsize := PB_MIN_HASHTABLE_SIZE;
      while newsize < limit && newsize < request
        invariant newsize >= PB_MIN_HASHTABLE_SIZE
        invariant NewSize(newsize, limit, request) == NewSize(PB_MIN_HASHTABLE_SIZE, limit, request)
        decreases limit - newsize
      {
        newsize := newsize * 2;
      }
      if newsize < request || newsize > maxEntries {
        return 0;
      }
      var nt := Refilled(newsize);
      size, lastfree, hasZero, hash := nt.size, nt.lastfree, nt.hasZero, nt.hash;
      contents, chains := nt.contents, nt.chains;
    }

    /** pb_settable: the slot of the key's entry, made if there is none; nothing if the table cannot grow. */
    method Set(key: int) returns (r: Option<nat>)
      requires Valid()
      modifies this, hash
      ensures Valid() && (hash == old(hash) || fresh(hash))
      ensures r.None? <==>
                && !old(HasRoom()) && !old(CanGrow())
                && (if key == 0 then old(size) == 0 else key !in old(contents))
      ensures r.Some? ==> r.value < hash.Length && hash[r.value].key == key && (key == 0 ==> r.value == 0 && hasZero)
      ensures contents == if r.Some? && key != 0 && key !in old(contents) then old(contents)[key := zero]
              else old(contents)
      ensures r.Some? && key != 0 ==> hash[r.value].payload == contents[key]
      ensures ZeroPayload() == if key == 0 && r.Some? && !old(hasZero) then zero else old(ZeroPayload())
      ensures key != 0 || r.None? ==> (hasZero <==> old(hasZero) || (hash != old(hash) && old(size) != 0))
    {
      r := Get(key);
      if r == None {
        r := NewKey(key);
      }
    }

    /** pb_nextentry: the entry after the given one, or the first. */
    method NextEntry(at: Option<nat>) returns (r: Option<nat>)
      requires Valid() && (at.Some? ==> at.value < size)
      ensures r == Following(hash[..], hasZero, at)
    {
      var i := if at.Some? then at.value else 0;
      if at == None && hasZero {
        return Some(0);
      }
      i := i + 1;
      while i < size
        invariant NextSlot(hash[..], i) == Following(hash[..], hasZero, at)
      {
        if hash[i].key != 0 {
          return Some(i);
        }
        i := i + 1;
      }
      return None;
    }
  }

  /** The first slot from the given one on that has a key. */
  function NextSlot<V>(es: seq<Entry<V>>, from: nat): Option<nat>
    decreases |es| - from
  {
    if from >= |es| then None
    else if es[from].key != 0 then Some(from)
    else NextSlot(es, from + 1)
  }

  function Following<V>(es: seq<Entry<V>>, hasZero: bool, at: Option<nat>): Option<nat> {
    match at
    case None => if hasZero then Some(0) else NextSlot(es, 1)
    case Some(i) => NextSlot(es, i + 1)
  }

  lemma {:induction false} NextSlotIsNext<V>(es: seq<Entry<V>>, from: nat)
    ensures match NextSlot(es, from)
            case None => forall j | from <= j < |es| :: es[j].key == 0
            case Some(i) => from <= i < |es| && es[i].key != 0 && forall j | from <= j < i :: es[j].key == 0
    decreases |es| - from
  {
    if from < |es| {
      NextSlotIsNext(es, from + 1);
    }
  }

  /** The slots that calls of pb_nextentry visit, each starting from the one before. */
  function Visits<V>(es: seq<Entry<V>>, hasZero: bool, at: Option<nat>): seq<nat>
    decreases if at == None then |es| + 1 else |es| - at.value
  {
    var next := Following(es, hasZero, at);
    NextSlotIsNext(es, if at == None then 1 else at.value + 1);
    if next == None || next.value >= |es| then [] else [next.value] + Visits(es, hasZero, next)
  }

  ghost predicate IsVisited<V>(es: seq<Entry<V>>, hasZero: bool, at: Option<nat>, i: nat) {
    i < |es| && match at
                case None => if i == 0 then hasZero else es[i].key != 0
                case Some(j) => j < i && es[i].key != 0
  }

  predicate Increasing(v: seq<nat>) {
    forall a, b | 0 <= a < b < |v| :: v[a] < v[b]
  }

  lemma {:induction false} VisitsInOrder<V>(es: seq<Entry<V>>, hasZero: bool, at: Option<nat>)
    ensures var v := Visits(es, hasZero, at);
            && (forall i: nat :: i in v <==> IsVisited(es, hasZero, at, i))
            && Increasing(v)
    decreases if at == None then |es| + 1 else |es| - at.value
  {
    var next := Following(es, hasZero, at);
    NextSlotIsNext(es, if at == None then 1 else at.value + 1);
    if next.Some? && next.value < |es| {
      VisitsInOrder(es, hasZero, next);
      var rest := Visits(es, hasZero, next);
      assert Visits(es, hasZero, at) == [next.value] + rest;
      forall b | 0 <= b < |rest|
        ensures next.value < rest[b]
      {
        assert rest[b] in rest;
        assert IsVisited(es, hasZero, next, rest[b]);
      }
      forall i: nat
        ensures i in Visits(es, hasZero, at) <==> IsVisited(es, hasZero, at, i)
      {
        assert i in Visits(es, hasZero, at) <==> i == next.value || i in rest;
        assert i in rest <==> IsVisited(es, hasZero, next, i);
      }
      forall a, b | 0 <= a < b < |rest| + 1
        ensures Visits(es, hasZero, at)[a] < Visits(es, hasZero, at)[b]
      {
        assert Visits(es, hasZero, at)[b] == rest[b - 1];
        assert a > 0 ==> Visits(es, hasZero, at)[a] == rest[a - 1];
      }
    }
  }

  /** A full iteration comes upon every non-zero key exactly once, and upon key 0 first, if it is there. */
  lemma EveryKeyVisitedOnce<V>(es: seq<Entry<V>>, chains: seq<seq<nat>>, contents: map<int, V>, hasZero: bool)
    requires Linked(es, chains) && Holds(es, contents)
    ensures var v := Visits(es, hasZero, None);
            && (forall a | 0 <= a < |v| :: v[a] < |es|)
            && (forall a, b | 0 <= a < b < |v| && v[b] < |es| && v[a] < |es| :: es[v[a]].key != es[v[b]].key)
            && (forall key :: key in contents <==> key != 0 && exists a :: 0 <= a < |v| && HasKey(es, v[a], key))
            && (0 in v <==> hasZero)
  {
    var v := Visits(es, hasZero, None);
    VisitsInOrder(es, hasZero, None);
    forall a | 0 <= a < |v|
      ensures v[a] < |es| && (v[a] == 0 || es[v[a]].key != 0)
    {
      assert v[a] in v;
      assert IsVisited(es, hasZero, None, v[a]);
    }
    forall a, b | 0 <= a < b < |v|
      ensures es[v[a]].key != es[v[b]].key
    {
      assert v[a] < v[b];
    }
    forall key | key in contents
      ensures exists a :: 0 <= a < |v| && HasKey(es, v[a], key)
    {
      var i: nat :| HasKey(es, i, key);
      assert IsVisited(es, hasZero, None, i);
      var a :| 0 <= a < |v| && v[a] == i;
      assert HasKey(es, v[a], key);
    }
  }

  /** The first n slots, as a map. */
  ghost predicate Copied<V>(es: seq<Entry<V>>, n: nat, contents: map<int, V>) {
    && n <= |es|
    && (forall i | 0 <= i < n && es[i].key != 0 :: es[i].key in contents && contents[es[i].key] == es[i].payload)
    && (forall key | key in contents :: key != 0 && exists i: nat :: i < n && HasKey(es, i, key))
  }

  lemma CopiedOne<V>(es: seq<Entry<V>>, contents: map<int, V>, n: nat, copy: map<int, V>)
    requires Copied(es, n, copy) && Holds(es, contents) && n < |es|
    ensures es[n].key !in copy
    ensures Copied(es, n + 1, if es[n].key == 0 then copy else copy[es[n].key := es[n].payload])
  {
    var copy' := if es[n].key == 0 then copy else copy[es[n].key := es[n].payload];
    assert forall i: nat | i < n :: HasKey(es, i, es[n].key) ==> es[n].key == 0;
    forall key | key in copy'
      ensures key != 0 && exists i: nat :: i < n + 1 && HasKey(es, i, key)
    {
      if key in copy {
        var i: nat :| i < n && HasKey(es, i, key);
      } else {
        assert HasKey(es, n, key);
      }
    }
  }

  lemma CopiedAll<V>(es: seq<Entry<V>>, contents: map<int, V>, copy: map<int, V>)
    requires Copied(es, |es|, copy) && Holds(es, contents)
    ensures copy == contents
  {
    forall key | key in contents
      ensures key in copy && copy[key] == contents[key]
    {
      var i: nat :| HasKey(es, i, key);
    }
    forall key | key in copy
      ensures key in contents
    {
      var i: nat :| i < |es| && HasKey(es, i, key);
    }
  }

  lemma PayloadSet<V>(es: seq<Entry<V>>, chains: seq<seq<nat>>, contents: map<int, V>, i: nat, v: V)
    requires Linked(es, chains) && Holds(es, contents) && i < |es|
    ensures Linked(es[i := es[i].(payload := v)], chains)
    ensures Holds(es[i := es[i].(payload := v)], if es[i].key == 0 then contents else contents[es[i].key := v])
  {
    var es' := es[i := es[i].(payload := v)];
    forall m: nat | m < |es'|
      ensures ChainOk(es', chains[m], m)
    {
      assert ChainOk(es, chains[m], m);
      forall a: nat | a < |chains[m]|
        ensures LinkAt(es', chains[m], m, a)
      {
        assert LinkAt(es, chains[m], m, a);
      }
    }
    forall j: nat | j < |es'|
      ensures OnChain(es', chains, j)
    {
      assert OnChain(es, chains, j);
    }
    forall key | key in contents || (es[i].key != 0 && key == es[i].key)
      ensures key != 0 && exists j: nat :: HasKey(es', j, key)
    {
      var j: nat :| HasKey(es, j, key);
      assert HasKey(es', j, key);
    }
  }

  /** The search for a key starts on the chain that the key would be on, or on one where it is not. */
  lemma WalkStarts<V>(es: seq<Entry<V>>, chains: seq<seq<nat>>, key: int, i: nat)
    requires Linked(es, chains) && key != 0 && i == MainSlot(key, |es|)
    ensures var home := MainSlot(if es[i].key == 0 then key else es[i].key, |es|);
            var c := chains[home];
            && ChainOk(es, c, home)
            && (if es[i].key == 0 then c == [] else i in c)
            && (forall j | 0 <= j < |es| && es[j].key == key :: j in c)
            && (home == i && c != [] ==> c[0] == i)
            && (home != i ==> forall j | 0 <= j < |es| :: es[j].key != key)
  {
    var home := MainSlot(if es[i].key == 0 then key else es[i].key, |es|);
    assert ChainOk(es, chains[home], home);
    assert OnChain(es, chains, i);
    if es[i].key == 0 || home != i {
      NotAnEmptyChain(es, chains, i);
    }
    forall j | 0 <= j < |es| && es[j].key == key
      ensures j in chains[i]
    {
      assert OnChain(es, chains, j);
    }
  }
}
