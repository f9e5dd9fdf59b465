/**
 When an implicit sub-queue's block index grows: not before its ring is full, that is, not unless the block as many
 numbers back as the ring has slots is still out.  Slots that were never used are recognised by their keys, whatever
 their values hold.
 */
module ImplicitIndex {
  import opened Options
  import opened Blocks
  import opened ImplicitProducer
  import Arith
  import ImplicitCalls

  /** The slot for block number j was not used yet. */
  predicate Unused(h: Header, keys: map<EntryId, Option<nat>>, j: int) {
    && 0 <= j - h.off < |h.index|
    && h.index[j - h.off] in keys && keys[h.index[j - h.off]] == None
  }

  /** The slots behind the last number that has an entry are unused, once round the ring. */
  ghost predicate RingOk(h: Header, keys: map<EntryId, Option<nat>>, lo: nat) {
    && h.capacity > 0 && |h.index| == h.capacity && Distinct(h.index)
    && 0 <= h.off <= h.limit && lo <= Max(h.off, h.limit - h.capacity)
    && forall j: nat {:trigger Unused(h, keys, j)} | h.limit <= j < h.off + h.capacity :: Unused(h, keys, j)
  }

  /** No slot of the ring was free when the producer looked. */
  predicate WasFull(s: State)
    requires |s.headers| > 0
  {
    var h := Last(s.headers);
    |s.entryOf| == |s.owner| && |s.owner| >= h.off + h.capacity
  }

  ghost predicate Ok(s: State) {
    && |s.headers| > 0 && RingOk(Last(s.headers), s.keys, s.lo) && Last(s.headers).off <= |s.owner|
    && (s.pc.ReadValue? ==>
          var h := Last(s.headers);
          h.index[NewTail(h)] in s.keys && s.keys[h.index[NewTail(h)]] != None)
    && (s.pc.Growing? ==> WasFull(s))
  }

  lemma InitIsOk(s: State)
    requires Init(s)
    ensures Ok(s)
  {
  }

  lemma LastIsOk(s: State)
    requires Inv(s)
    ensures HeaderOk(Last(s.headers), s.entryOf, s.keys, s.lo) && Last(s.headers).limit == |s.entryOf|
  {
    assert HeaderOk(s.headers[|s.headers| - 1], s.entryOf, s.keys, s.lo);
  }

  /** The slot that the producer is about to use is the one of the next block number, and of the one a ring back. */
  lemma NextSlot(s: State)
    requires Inv(s) && Ok(s) && (s.pc.ReadKey? || s.pc.ReadValue?)
    ensures var h, p := Last(s.headers), |s.owner|;
            && NewTail(h) == SlotOf(h, p)
            && (|s.entryOf| == p ==> p >= h.off && (p < h.off + h.capacity ==> NewTail(h) == p - h.off))
            && (|s.entryOf| > p ==> h.index[NewTail(h)] in s.values && s.values[h.index[NewTail(h)]] == None)
            && (|s.entryOf| == p && p >= h.off + h.capacity ==>
                  s.lo <= p - h.capacity && s.entryOf[p - h.capacity] == h.index[NewTail(h)])
  {
    var h, p := Last(s.headers), |s.owner|;
    LastIsOk(s);
    NewTailSlot(h);
    if |s.entryOf| > p {
      assert EntryOk(h, s.entryOf, p);
    } else if p >= h.off + h.capacity {
      OldestSharesSlot(h, s.entryOf, s.keys, s.lo, p);
    }
  }

  /** The producer goes on to ask for a larger index only if, when it looked, the block a ring back was still out. */
  lemma GrowsOnlyWhenFull(s: State, c: Choice)
    requires Inv(s) && Ok(s) && ProducerCan(s, c) && (s.pc.ReadKey? || s.pc.ReadValue?)
    ensures var s', h := ProducerStep(s, c), Last(s.headers);
            s'.pc.Growing? ==> WasFull(s) && |s.owner| - h.capacity !in s.nulled
  {
    var h, p := Last(s.headers), |s.owner|;
    NextSlot(s);
    LastIsOk(s);
    if |s.entryOf| == p {
      if p < h.off + h.capacity {
        assert Unused(h, s.keys, p);
      } else {
        assert ValueOk(s, p - h.capacity);
      }
    }
  }

  // ------------------------------------------------------------------------------ in every run

  /** A step that leaves the ring alone. */
  predicate SameRing(s: State, s': State) {
    && |s.headers| > 0 && |s'.headers| > 0 && s'.keys == s.keys && s'.lo == s.lo
    && var h, h' := Last(s.headers), Last(s'.headers);
    && h' == h.(tail := h'.tail, number := h'.number)
    && s'.owner == s.owner
  }

  lemma SameRingOk(s: State, s': State)
    requires Ok(s) && SameRing(s, s') && !s'.pc.ReadValue? && !s'.pc.Growing?
    ensures Ok(s')
  {
    var h, h' := Last(s.headers), Last(s'.headers);
    forall j: nat | h'.limit <= j < h'.off + h'.capacity
      ensures Unused(h', s'.keys, j)
    {
      assert Unused(h, s.keys, j);
    }
  }

  lemma ReadingOk(s: State, c: Choice)
    requires Inv(s) && Ok(s) && ProducerCan(s, c) && (s.pc.ReadKey? || s.pc.ReadValue?)
    ensures Ok(ProducerStep(s, c))
  {
    GrowsOnlyWhenFull(s, c);
  }

  lemma TailOk(s: State, c: Choice)
    requires Inv(s) && Ok(s) && ProducerCan(s, c) && (s.pc.SetTail? || s.pc.RewindTail?)
    ensures Ok(ProducerStep(s, c))
  {
    SameRingOk(s, ProducerStep(s, c));
  }

  lemma BlockOk(s: State, c: Choice)
    requires Inv(s) && Ok(s) && ProducerCan(s, c)
    requires s.pc.Requisition? || s.pc.ClearValue? || s.pc.ResetCount? || s.pc.SetValue?
    ensures Ok(ProducerStep(s, c))
  {
  }

  lemma ElementOk(s: State, c: Choice)
    requires Inv(s) && Ok(s) && ProducerCan(s, c) && (s.pc.Constructing? || s.pc.Advancing?)
    ensures Ok(ProducerStep(s, c))
  {
  }

  /** The new ring: its upper half is unused, and the old one was full. */
  lemma GrownRingOk(h: Header, keys: map<EntryId, Option<nat>>, keys': map<EntryId, Option<nat>>, lo: nat,
                    ids: seq<EntryId>)
    requires RingOk(h, keys, lo) && h.limit >= h.off + h.capacity && h.number == h.limit - 1 && |ids| == h.capacity
    requires Distinct(ids) && (forall i | 0 <= i < |h.index| :: h.index[i] in keys) && forall e | e in ids :: e !in keys
    requires keys' == keys + NoKeys(ids)
    ensures RingOk(Grown(h, ids), keys', lo)
  {
    var g := Grown(h, ids);
    GrownIndexDistinct(h, ids);
    forall j: nat | g.limit <= j < g.off + g.capacity
      ensures Unused(g, keys', j)
    {
      assert g.index[j - g.off] == ids[j - h.limit];
    }
  }

  lemma GrowingOk(s: State, c: Choice)
    requires Inv(s) && Ok(s) && ProducerCan(s, c) && s.pc.Growing?
    ensures Ok(ProducerStep(s, c))
  {
    LastIsOk(s);
    if c.Entries? {
      GrownRingOk(Last(s.headers), s.keys, ProducerStep(s, c).keys, s.lo, c.ids);
    }
  }

  /** Setting the key of the next number uses its slot, and no other. */
  lemma KeyedRingOk(h: Header, h': Header, keys: map<EntryId, Option<nat>>, lo: nat, p: nat, e: EntryId,
                    key: Option<nat>)
    requires RingOk(h, keys, lo) && h.off <= p <= h.limit <= p + 1 && h.index[SlotOf(h, p)] == e
    requires h' == h.(limit := p + 1)
    ensures RingOk(h', keys[e := key], Max(lo, p + 1 - h.capacity))
  {
    var keys' := keys[e := key];
    forall j: nat | h'.limit <= j < h'.off + h'.capacity
      ensures Unused(h', keys', j)
    {
      assert Unused(h, keys, j);
      assert SlotOf(h, p) == p - h.off;
    }
  }

  lemma KeyStepOk(s: State, c: Choice)
    requires Inv(s) && Ok(s) && ProducerCan(s, c) && s.pc.SetKey?
    ensures Ok(ProducerStep(s, c))
  {
    LastIsOk(s);
    var h, p := Last(s.headers), |s.owner|;
    KeyedRingOk(h, h.(limit := p + 1), s.keys, s.lo, p, s.pc.entry, Some(s.tailIndex));
  }

  lemma ProducerKeepsOk(s: State, c: Choice)
    requires Inv(s) && Ok(s) && ProducerCan(s, c)
    ensures Ok(ProducerStep(s, c))
  {
    if s.pc.ReadKey? || s.pc.ReadValue? {
      ReadingOk(s, c);
    } else if s.pc.Growing? {
      GrowingOk(s, c);
    } else if s.pc.SetKey? {
      KeyStepOk(s, c);
    } else if s.pc.SetTail? || s.pc.RewindTail? {
      TailOk(s, c);
    } else if s.pc.Constructing? || s.pc.Advancing? {
      ElementOk(s, c);
    } else {
      BlockOk(s, c);
    }
  }

  lemma ConsumerKeepsOk(s: State, t: Tid)
    requires Ok(s) && ConsumerCan(s, t)
    ensures Ok(ConsumerStep(s, t))
  {
  }

  /** A step that touches neither the ring nor the producer's place. */
  predicate Aside(s: State, s': State) {
    s'.headers == s.headers && s'.keys == s.keys && s'.lo == s.lo && s'.entryOf == s.entryOf && s'.owner == s.owner
      && !s'.pc.ReadValue? && !s'.pc.Growing?
  }

  lemma BeginKeepsOk(s: State, item: Item)
    requires Ok(s) && s.pc == Ready
    ensures Ok(BeginEnqueue(s, item))
  {
    AsideOk(s, BeginEnqueue(s, item));
  }

  lemma AsideOk(s: State, s': State)
    requires Ok(s) && Aside(s, s')
    ensures Ok(s')
  {
  }

  lemma ClaimKeepsOk(s: State, t: Tid, count: nat)
    requires Ok(s) && CanClaim(s, t, count)
    ensures Ok(Claim(s, t, count))
  {
  }

  lemma NextKeepsOk(s: State, s': State)
    requires Inv(s) && Ok(s) && Next(false, s, s')
    ensures Ok(s')
  {
    if item :| s.pc == Ready && s' == BeginEnqueue(s, item) {
      BeginKeepsOk(s, item);
    } else if c :| ProducerCan(s, c) && s' == ProducerStep(s, c) {
      ProducerKeepsOk(s, c);
    } else if t, count: nat :| CanClaim(s, t, count) && s' == Claim(s, t, count) {
      ClaimKeepsOk(s, t, count);
    } else {
      var t :| ConsumerCan(s, t) && s' == ConsumerStep(s, t);
      ConsumerKeepsOk(s, t);
    }
  }

  lemma {:induction false} RunIsOk(states: seq<State>, i: nat)
    requires Run(false, states) && i < |states|
    ensures Ok(states[i])
  {
    if i == 0 {
      InitIsOk(states[0]);
    } else {
      RunHasInv(states, i - 1);
      RunIsOk(states, i - 1);
      NextKeepsOk(states[i - 1], states[i]);
    }
  }

  /**
   In every run the index grows only when its ring is full: the producer goes on to ask for a larger one only if it
   saw, a moment ago, that the block a whole ring back was not handed back yet.
   */
  lemma IndexGrowsOnlyWhenFull(states: seq<State>, i: nat, c: Choice)
    requires Run(false, states) && i < |states| && ProducerCan(states[i], c)
    requires ProducerStep(states[i], c).pc.Growing?
    ensures var s, capacity := states[i], Last(states[i].headers).capacity;
            |s.owner| >= capacity && |s.owner| - capacity !in s.nulled
  {
    RunHasInv(states, i);
    RunIsOk(states, i);
    OnlyAfterReading(states[i], c);
    GrowsOnlyWhenFull(states[i], c);
  }

  /** No other step leads there: they are all nearer to the end of the call. */
  lemma OnlyAfterReading(s: State, c: Choice)
    requires ProducerCan(s, c) && ProducerStep(s, c).pc.Growing?
    ensures s.pc.ReadKey? || s.pc.ReadValue?
  {
    if ImplicitCalls.Backs(s.pc) {
      ImplicitCalls.BackingOnwards(s, c, ProducerStep(s, c).pc.item);
    } else {
      ImplicitCalls.EnqueueStep(s, c, s.pc.item);
    }
  }
}
