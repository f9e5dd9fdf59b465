/**
 A queue as a whole: the free list, and the sub-queues that get blocks from it and hand them back, each with
 its counters.  A block comes from the allocator or the initial pool, or from try_get; an implicit producer's
 consumers give it to add.  Nothing tests whether a block that is handed out is in use, whether one that is
 handed back belongs to somebody, or, but for the counters, whether indices that are claimed exist; the
 parts' own runs, in which all this is so, are all that can happen if every call asks for something.
 */
module BlockPool {
  import F = FreeList
  import E = ExplicitProducer
  import I = ImplicitProducer
  import X = ExplicitQueue
  import Y = ImplicitQueue
  import Indices
  import opened Blocks

  type Block = nat
  type Tid = nat

  datatype State = State(list: F.State, explicits: seq<X.State>, implicits: seq<Y.State>)

  ghost predicate Init(s: State) {
    && F.Init(s.list)
    && (forall k | 0 <= k < |s.explicits| :: X.Init(s.explicits[k]))
    && (forall k | 0 <= k < |s.implicits| :: Y.Init(s.implicits[k]))
  }

  // ---------------------------------------------------------------------------------------- steps

  /** Thread t's try_get returns block b. */
  predicate Takes(list: F.State, list': F.State, b: Block, t: Tid) {
    && t in list.threads && F.CanAdvance(list, t) && list.threads[t] == F.Taking(b)
    && list' == F.Advance(list, t)
  }

  /** Block b gets into the hands of a caller: it is new, or a thread's try_get returns it. */
  ghost predicate HandsOut(list: F.State, list': F.State, b: Block) {
    || (b !in list.nodes && list' == F.Create(list, b))
    || (exists t :: Takes(list, list', b, t))
  }

  /** The list works, and nothing changes hands. */
  ghost predicate ListMoves(s: State, s': State) {
    && F.Next(s.list, s'.list) && s'.list.owned == s.list.owned
    && s'.explicits == s.explicits && s'.implicits == s.implicits
  }

  /** requisition_block returns block b to explicit producer k. */
  ghost predicate ExplicitGets(s: State, s': State, k: nat, b: Block, flags: seq<bool>) {
    && k < |s.explicits| && s.explicits[k].sub.producer.pc.Requisition? && |flags| == BLOCK_SIZE
    && HandsOut(s.list, s'.list, b) && s'.implicits == s.implicits
    && s'.explicits == s.explicits[k := s.explicits[k].(sub := WithBlock(s.explicits[k].sub, b, flags))]
  }

  function WithBlock(e: E.State, b: Block, flags: seq<bool>): E.State
    requires e.producer.pc.Requisition?
  {
    e.(emptyFlags := e.emptyFlags[b := flags],
       producer := e.producer.(pc := E.Clearing(e.producer.pc.item, b, true, 0)))
  }

  /** Any other step of explicit producer k and its consumers. */
  ghost predicate ExplicitMoves(sizes: iset<nat>, s: State, s': State, k: nat) {
    && k < |s.explicits| && s'.list == s.list && s'.implicits == s.implicits
    && |s'.explicits| == |s.explicits| && s'.explicits == s.explicits[k := s'.explicits[k]]
    && X.Next(sizes, s.explicits[k], s'.explicits[k])
    && !(s.explicits[k].sub.producer.pc.Requisition? && s'.explicits[k].sub.producer.pc.Clearing?)
  }

  ghost predicate ImplicitGets(s: State, s': State, k: nat, b: Block) {
    && k < |s.implicits| && s.implicits[k].sub.pc.Requisition?
    && HandsOut(s.list, s'.list, b) && s'.explicits == s.explicits
    && var i := s.implicits[k].sub;
    s'.implicits == s.implicits[k := s.implicits[k].(sub := i.(pc := I.ResetCount(i.pc.item, i.pc.entry, b)))]
  }

  /** Consumer t of implicit producer k calls add_block_to_free_list. */
  ghost predicate ImplicitReturns(s: State, s': State, k: nat, t: Tid) {
    && k < |s.implicits| && I.ConsumerCan(s.implicits[k].sub, t) && s.implicits[k].sub.consumers[t].Freeing?
    && t in s.list.threads && s.list.threads[t] == F.Idle && s'.explicits == s.explicits
    && var b := s.implicits[k].sub.consumers[t].block;
    && s'.list == s.list.(owned := s.list.owned - {b}, threads := s.list.threads[t := F.Adding(b)])
    && s'.implicits == s.implicits[k := s.implicits[k].(sub := I.ConsumerStep(s.implicits[k].sub, t))]
  }

  ghost predicate ImplicitMoves(sizes: iset<nat>, s: State, s': State, k: nat) {
    && k < |s.implicits| && s'.list == s.list && s'.explicits == s.explicits
    && |s'.implicits| == |s.implicits| && s'.implicits == s.implicits[k := s'.implicits[k]]
    && Y.Next(sizes, s.implicits[k], s'.implicits[k]) && s'.implicits[k].sub.freed == s.implicits[k].sub.freed
    && !(s.implicits[k].sub.pc.Requisition? && s'.implicits[k].sub.pc.ResetCount?)
  }

  ghost predicate ExplicitNext(sizes: iset<nat>, s: State, s': State, k: nat) {
    ExplicitMoves(sizes, s, s', k) || exists b, flags :: ExplicitGets(s, s', k, b, flags)
  }

  ghost predicate ImplicitNext(sizes: iset<nat>, s: State, s': State, k: nat) {
    || ImplicitMoves(sizes, s, s', k)
    || (exists t :: ImplicitReturns(s, s', k, t)) || exists b :: ImplicitGets(s, s', k, b)
  }

  ghost predicate Next(sizes: iset<nat>, s: State, s': State) {
    ListMoves(s, s') || (exists k :: ExplicitNext(sizes, s, s', k)) || exists k :: ImplicitNext(sizes, s, s', k)
  }

  /** sizes: what dequeues may ask for. */
  ghost predicate Run(sizes: iset<nat>, states: seq<State>) {
    && |states| > 0
    && Init(states[0])
    && forall i | 0 <= i < |states| - 1 :: Next(sizes, states[i], states[i + 1])
  }

  /** There are runs with any threads and so many sub-queues of each kind. */
  lemma RunsBegin(sizes: iset<nat>, tids: set<Tid>, explicits: nat, implicits: nat, size: nat) returns (s: State)
    requires size > 0
    ensures |s.explicits| == explicits && |s.implicits| == implicits && s.list.threads.Keys == tids && Run(sizes, [s])
    ensures forall k | 0 <= k < implicits ::
              && Y.Fresh(s.implicits[k])
              && s.implicits[k].sub.consumers.Keys == s.implicits[k].counters.threads.Keys == tids
  {
    var list := F.RunsBegin(tids);
    var x := X.RunsBegin(sizes, tids, size);
    var y := Y.RunsBegin(sizes, tids, size);
    assert F.Init([list][0]) && X.Init([x][0]) && Y.Init([y][0]);
    s := State(list, seq(explicits, _ => x), seq(implicits, _ => y));
  }

  // -------------------------------------------------------------------------------- who has a block

  /** Explicit producer e has the block: it is in its ring, or about to be linked in. */
  predicate ExplicitHas(e: E.State, b: Block) {
    || !E.BlockIsFree(e, b)
    || (e.producer.pc.Clearing? && e.producer.pc.isNew && e.producer.pc.block == b)
  }

  /** Implicit producer i has the block: it was not handed back, or is about to be used. */
  ghost predicate ImplicitHas(i: I.State, b: Block) {
    || I.InUse(i, b)
    || (i.pc.ResetCount? && i.pc.block == b)
    || (i.pc.SetValue? && i.pc.block == b)
  }

  /** Sub-queues by one numbering, the explicit ones first. */
  ghost predicate Has(s: State, q: nat, b: Block) {
    if q < |s.explicits| then ExplicitHas(s.explicits[q].sub, b)
    else q - |s.explicits| < |s.implicits| && ImplicitHas(s.implicits[q - |s.explicits|].sub, b)
  }

  /** What a sub-queue has is in callers' hands, and nobody else has it. */
  ghost predicate HandsOk(s: State) {
    && (forall q: nat, b | Has(s, q, b) :: b in s.list.owned)
    && (forall q: nat, r: nat, b | Has(s, q, b) && Has(s, r, b) :: q == r)
  }

  ghost predicate Inv(s: State) {
    && F.Inv(s.list)
    && (forall k | 0 <= k < |s.explicits| :: X.Inv(s.explicits[k]))
    && (forall k | 0 <= k < |s.implicits| :: Y.Inv(s.implicits[k]))
    && HandsOk(s)
  }

  // --------------------------------------------------------------- what steps do to who has a block

  /** A block that is handed out was in nobody's hands. */
  lemma HandedOutIsNobodys(list: F.State, list': F.State, b: Block)
    requires F.Inv(list) && HandsOut(list, list', b)
    ensures b !in list.owned && list'.owned == list.owned + {b} && F.Next(list, list')
  {
    if t :| Takes(list, list', b, t) {
      assert F.PcOk(list.nodes, list.next, list.threads[t]);
      assert F.Claimant(list, t, b) && F.NodeOk(list, b);
    }
  }

  /** No block is on its way into the ring of e' that was not on its way into that of e. */
  predicate NoneOnItsWay(e: E.Producer, e': E.Producer) {
    e'.pc.Clearing? && e'.pc.isNew ==> e.pc.Clearing? && e.pc.isNew && e'.pc.block == e.pc.block
  }

  /** The ring stays, or its oldest block is reused, or the block on its way is linked in. */
  predicate ExplicitStays(e: E.State, e': E.State) {
    && NoneOnItsWay(e.producer, e'.producer)
    && (|| (e'.owner == e.owner && e'.producer.slotsUsed == e.producer.slotsUsed)
        || (&& 0 < e.producer.slotsUsed <= |e.owner| && e'.producer.slotsUsed == e.producer.slotsUsed
            && e'.owner == e.owner + [e.owner[E.Oldest(e)]])
        || (&& e.producer.pc.Clearing? && e.producer.pc.isNew && e'.producer.slotsUsed == e.producer.slotsUsed + 1
            && e'.owner == e.owner + [e.producer.pc.block]))
  }

  lemma StayingKeeps(e: E.State, e': E.State, b: Block)
    requires ExplicitStays(e, e') && e.producer.slotsUsed <= |e.owner| && ExplicitHas(e', b)
    ensures ExplicitHas(e, b)
  {
    if !E.BlockIsFree(e', b) && e'.owner != e.owner {
      var j :| E.Oldest(e') <= j < |e'.owner| && e'.owner[j] == b;
      if j < |e.owner| {
        assert e.owner[E.Oldest(e)..][j - E.Oldest(e)] == b;
      } else if e'.producer.slotsUsed == e.producer.slotsUsed {
        assert e.owner[E.Oldest(e)..][0] == b;
      }
    }
  }

  lemma ProducerStays(e: E.State, c: E.Choice)
    requires E.Inv(e) && E.ProducerCan(e, c) && !(e.producer.pc.Requisition? && c.Gets?)
    ensures ExplicitStays(e, E.ProducerStep(e, c))
  {
  }

  lemma ConsumerStays(e: E.State, t: Tid)
    requires E.ConsumerCan(e, t)
    ensures ExplicitStays(e, E.ConsumerStep(e, t))
  {
  }

  lemma NextStays(e: E.State, e': E.State)
    requires E.Inv(e) && (e' == e || E.Next(e, e')) && !(e.producer.pc.Requisition? && e'.producer.pc.Clearing?)
    ensures ExplicitStays(e, e')
  {
    if c :| E.ProducerCan(e, c) && e' == E.ProducerStep(e, c) {
      ProducerStays(e, c);
    } else if t :| E.ConsumerCan(e, t) && e' == E.ConsumerStep(e, t) {
      ConsumerStays(e, t);
    }
  }

  /** No block is on its way into use in i' that was not in i. */
  predicate NoneOnItsWayIn(pc: I.ProducerPc, pc': I.ProducerPc) {
    pc'.ResetCount? || pc'.SetValue? ==> (pc.ResetCount? || pc.SetValue?) && pc'.block == pc.block
  }

  /** The blocks in use stay, and the one on its way comes to them at most. */
  predicate ImplicitStays(i: I.State, i': I.State) {
    && NoneOnItsWayIn(i.pc, i'.pc) && i'.freed == i.freed
    && (i'.owner == i.owner || (i.pc.SetValue? && i'.owner == i.owner + [i.pc.block]))
  }

  lemma ImplicitStayingKeeps(i: I.State, i': I.State, b: Block)
    requires ImplicitStays(i, i') && ImplicitHas(i', b)
    ensures ImplicitHas(i, b)
  {
    if I.InUse(i', b) {
      var k :| 0 <= k < |i'.owner| && k !in i'.freed && i'.owner[k] == b;
      assert k < |i.owner| ==> i.owner[k] == b;
    }
  }

  lemma ImplicitProducerStays(i: I.State, c: I.Choice)
    requires I.ProducerCan(i, c) && !(i.pc.Requisition? && c.Gets?)
    ensures ImplicitStays(i, I.ProducerStep(i, c))
  {
    I.StepHasFrame(i, c);
  }

  lemma ImplicitConsumerStays(i: I.State, t: Tid)
    requires I.ConsumerCan(i, t) && I.ConsumerStep(i, t).freed == i.freed
    ensures ImplicitStays(i, I.ConsumerStep(i, t))
  {
    if i.consumers[t].Freeing? {
      assert false;
    }
  }

  lemma ImplicitBeginningStays(i: I.State, item: I.Item)
    requires i.pc == I.Ready
    ensures ImplicitStays(i, I.BeginEnqueue(i, item))
  {
  }

  lemma ImplicitClaimStays(i: I.State, t: Tid, count: nat)
    requires I.CanClaim(i, t, count)
    ensures ImplicitStays(i, I.Claim(i, t, count))
  {
  }

  lemma ImplicitNextStays(i: I.State, i': I.State)
    requires (i' == i || I.Next(true, i, i')) && i'.freed == i.freed && !(i.pc.Requisition? && i'.pc.ResetCount?)
    ensures ImplicitStays(i, i')
  {
    if i' == i {
    } else if item :| i.pc == I.Ready && i' == I.BeginEnqueue(i, item) {
      ImplicitBeginningStays(i, item);
    } else if t, count: nat :| I.CanClaim(i, t, count) && i' == I.Claim(i, t, count) {
      ImplicitClaimStays(i, t, count);
    } else if t :| I.ConsumerCan(i, t) && i' == I.ConsumerStep(i, t) {
      ImplicitConsumerStays(i, t);
    } else {
      var c :| I.ProducerCan(i, c) && i' == I.ProducerStep(i, c);
      ImplicitProducerStays(i, c);
    }
  }

  /** A consumer that hands a block back is the one that has it, and then the producer has it no more. */
  lemma ReturnedIsGone(i: I.State, t: Tid, b: Block)
    requires I.Inv(i) && I.ConsumerCan(i, t) && i.consumers[t].Freeing?
    ensures ImplicitHas(i, i.consumers[t].block)
    ensures ImplicitHas(I.ConsumerStep(i, t), b) ==> ImplicitHas(i, b) && b != i.consumers[t].block
  {
    var i', pc := I.ConsumerStep(i, t), i.consumers[t];
    assert I.ConsumerOk(i.headers, i.entryOf, i.owner, pc);
    assert I.Returns(i, t, pc.number);
    assert pc.number < |i.owner| && pc.number !in i.freed && i.owner[pc.number] == pc.block;
    assert I.InUse(i, pc.block);
    assert i'.freed == i.freed + [pc.number] && i'.owner == i.owner && i'.pc == i.pc;
    if I.InUse(i', b) {
      var k :| 0 <= k < |i'.owner| && k !in i'.freed && i'.owner[k] == b;
      assert k !in i.freed && k != pc.number;
    }
  }

  // -------------------------------------------------------------------------- the parts' own steps

  /** What explicit producer k gets is free there, so that this is a step it may take. */
  lemma ExplicitGetsIsStep(sizes: iset<nat>, s: State, s': State, k: nat, b: Block, flags: seq<bool>)
    requires Inv(s) && ExplicitGets(s, s', k, b, flags)
    ensures E.BlockIsFree(s.explicits[k].sub, b) && X.Next(sizes, s.explicits[k], s'.explicits[k])
  {
    var e := s.explicits[k].sub;
    HandedOutIsNobodys(s.list, s'.list, b);
    assert !Has(s, k, b);
    assert E.HeaderOk(e.headers[|e.headers| - 1], e.owner, E.Oldest(e));
    assert E.ProducerCan(e, E.Gets(b, flags));
    assert s'.explicits[k].sub == E.ProducerStep(e, E.Gets(b, flags));
  }

  lemma ImplicitGetsIsStep(sizes: iset<nat>, s: State, s': State, k: nat, b: Block)
    requires Inv(s) && ImplicitGets(s, s', k, b)
    ensures !I.InUse(s.implicits[k].sub, b) && Y.Next(sizes, s.implicits[k], s'.implicits[k])
  {
    var i := s.implicits[k].sub;
    HandedOutIsNobodys(s.list, s'.list, b);
    assert !Has(s, |s.explicits| + k, b);
    assert I.HeaderOk(i.headers[|i.headers| - 1], i.entryOf, i.keys, i.lo);
    assert I.ProducerCan(i, I.Gets(b));
    assert s'.implicits[k].sub == I.ProducerStep(i, I.Gets(b));
  }

  /** What is handed back is in the hands of a caller, so that add may take it. */
  lemma ImplicitReturnsIsStep(sizes: iset<nat>, s: State, s': State, k: nat, t: Tid)
    requires Inv(s) && ImplicitReturns(s, s', k, t)
    ensures s.implicits[k].sub.consumers[t].block in s.list.owned
    ensures F.Next(s.list, s'.list) && Y.Next(sizes, s.implicits[k], s'.implicits[k])
  {
    var b := s.implicits[k].sub.consumers[t].block;
    ReturnedIsGone(s.implicits[k].sub, t, b);
    assert Has(s, |s.explicits| + k, b);
    assert s'.list == F.BeginAdd(s.list, t, b);
    assert Y.Consumes(s.implicits[k], s'.implicits[k], t);
  }

  /** What a step is for each part: nothing, or a step of its own. */
  ghost predicate PartsStep(sizes: iset<nat>, s: State, s': State) {
    && (s'.list == s.list || F.Next(s.list, s'.list))
    && |s'.explicits| == |s.explicits| && |s'.implicits| == |s.implicits|
    && (forall k | 0 <= k < |s.explicits| ::
        s'.explicits[k] == s.explicits[k] || X.Next(sizes, s.explicits[k], s'.explicits[k]))
    && (forall k | 0 <= k < |s.implicits| ::
        s'.implicits[k] == s.implicits[k] || Y.Next(sizes, s.implicits[k], s'.implicits[k]))
  }

  lemma StepOfExplicit(sizes: iset<nat>, s: State, s': State, k: nat)
    requires k < |s.explicits| && (s'.list == s.list || F.Next(s.list, s'.list)) && s'.implicits == s.implicits
    requires |s'.explicits| == |s.explicits| && s'.explicits == s.explicits[k := s'.explicits[k]]
    requires X.Next(sizes, s.explicits[k], s'.explicits[k])
    ensures PartsStep(sizes, s, s')
  {
  }

  lemma StepOfImplicit(sizes: iset<nat>, s: State, s': State, k: nat)
    requires k < |s.implicits| && (s'.list == s.list || F.Next(s.list, s'.list)) && s'.explicits == s.explicits
    requires |s'.implicits| == |s.implicits| && s'.implicits == s.implicits[k := s'.implicits[k]]
    requires Y.Next(sizes, s.implicits[k], s'.implicits[k])
    ensures PartsStep(sizes, s, s')
  {
  }

  lemma StepOfExplicitPart(sizes: iset<nat>, s: State, s': State, k: nat)
    requires Inv(s) && ExplicitNext(sizes, s, s', k)
    ensures PartsStep(sizes, s, s')
  {
    if !ExplicitMoves(sizes, s, s', k) {
      var b, flags :| ExplicitGets(s, s', k, b, flags);
      HandedOutIsNobodys(s.list, s'.list, b);
      ExplicitGetsIsStep(sizes, s, s', k, b, flags);
    }
    StepOfExplicit(sizes, s, s', k);
  }

  lemma StepOfImplicitPart(sizes: iset<nat>, s: State, s': State, k: nat)
    requires Inv(s) && ImplicitNext(sizes, s, s', k)
    ensures PartsStep(sizes, s, s')
  {
    if t :| ImplicitReturns(s, s', k, t) {
      ImplicitReturnsIsStep(sizes, s, s', k, t);
    } else if b :| ImplicitGets(s, s', k, b) {
      HandedOutIsNobodys(s.list, s'.list, b);
      ImplicitGetsIsStep(sizes, s, s', k, b);
    }
    StepOfImplicit(sizes, s, s', k);
  }

  lemma StepOfParts(sizes: iset<nat>, s: State, s': State)
    requires Inv(s) && Next(sizes, s, s')
    ensures PartsStep(sizes, s, s')
  {
    if k :| ExplicitNext(sizes, s, s', k) {
      StepOfExplicitPart(sizes, s, s', k);
    } else if k :| ImplicitNext(sizes, s, s', k) {
      StepOfImplicitPart(sizes, s, s', k);
    }
  }

  // ------------------------------------------------------------------------------- the invariant

  lemma HandsKept(s: State, s': State)
    requires HandsOk(s) && s.list.owned <= s'.list.owned && forall q: nat, b | Has(s', q, b) :: Has(s, q, b)
    ensures HandsOk(s')
  {
  }

  lemma HandsGained(s: State, s': State, q: nat, b: Block)
    requires HandsOk(s) && b !in s.list.owned && s'.list.owned == s.list.owned + {b}
    requires forall r: nat, c | Has(s', r, c) :: Has(s, r, c) || (r == q && c == b)
    ensures HandsOk(s')
  {
  }

  lemma HandsLost(s: State, s': State, q: nat, b: Block)
    requires HandsOk(s) && Has(s, q, b) && s'.list.owned == s.list.owned - {b}
    requires forall r: nat, c | Has(s', r, c) :: Has(s, r, c) && (r == q ==> c != b)
    ensures HandsOk(s')
  {
  }

  /** Where explicit producer k alone changed, what the others have did not. */
  lemma ElsewhereThan(s: State, s': State, k: nat, q: nat, b: Block)
    requires k < |s.explicits| == |s'.explicits| && s'.explicits == s.explicits[k := s'.explicits[k]]
    requires s'.implicits == s.implicits && Has(s', q, b)
    ensures if q == k then ExplicitHas(s'.explicits[k].sub, b) else Has(s, q, b)
  {
  }

  lemma ElsewhereThanImplicit(s: State, s': State, k: nat, q: nat, b: Block)
    requires k < |s.implicits| == |s'.implicits| && s'.implicits == s.implicits[k := s'.implicits[k]]
    requires s'.explicits == s.explicits && Has(s', q, b)
    ensures if q == |s.explicits| + k then ImplicitHas(s'.implicits[k].sub, b) else Has(s, q, b)
  {
  }

  lemma ExplicitGains(e: E.State, e': E.State, b: Block, c: Block)
    requires e'.owner == e.owner && e'.producer.slotsUsed == e.producer.slotsUsed
    requires e'.producer.pc.Clearing? && e'.producer.pc.block == b && ExplicitHas(e', c) && c != b
    ensures ExplicitHas(e, c)
  {
  }

  lemma ExplicitGetsHands(s: State, s': State, k: nat, b: Block, flags: seq<bool>)
    requires HandsOk(s) && b !in s.list.owned && s'.list.owned == s.list.owned + {b}
    requires ExplicitGets(s, s', k, b, flags)
    ensures HandsOk(s')
  {
    forall r: nat, c | Has(s', r, c)
      ensures Has(s, r, c) || (r == k && c == b)
    {
      ElsewhereThan(s, s', k, r, c);
      if r == k && c != b {
        ExplicitGains(s.explicits[k].sub, s'.explicits[k].sub, b, c);
      }
    }
    HandsGained(s, s', k, b);
  }

  lemma ImplicitGains(i: I.State, i': I.State, b: Block, c: Block)
    requires i'.owner == i.owner && i'.freed == i.freed
    requires i'.pc.ResetCount? && i'.pc.block == b && ImplicitHas(i', c) && c != b
    ensures ImplicitHas(i, c)
  {
    assert I.InUse(i', c) ==> I.InUse(i, c);
  }

  lemma ImplicitGetsHands(s: State, s': State, k: nat, b: Block)
    requires HandsOk(s) && b !in s.list.owned && s'.list.owned == s.list.owned + {b} && ImplicitGets(s, s', k, b)
    ensures HandsOk(s')
  {
    var q := |s.explicits| + k;
    forall r: nat, c | Has(s', r, c)
      ensures Has(s, r, c) || (r == q && c == b)
    {
      ElsewhereThanImplicit(s, s', k, r, c);
      if r == q && c != b {
        ImplicitGains(s.implicits[k].sub, s'.implicits[k].sub, b, c);
      }
    }
    HandsGained(s, s', q, b);
  }

  lemma ImplicitReturnsHands(s: State, s': State, k: nat, t: Tid)
    requires HandsOk(s) && ImplicitReturns(s, s', k, t) && I.Inv(s.implicits[k].sub)
    ensures HandsOk(s')
  {
    var q, b := |s.explicits| + k, s.implicits[k].sub.consumers[t].block;
    ReturnedIsGone(s.implicits[k].sub, t, b);
    assert Has(s, q, b);
    forall r: nat, c | Has(s', r, c)
      ensures Has(s, r, c) && (r == q ==> c != b)
    {
      ElsewhereThanImplicit(s, s', k, r, c);
      if r == q {
        ReturnedIsGone(s.implicits[k].sub, t, c);
      }
    }
    HandsLost(s, s', q, b);
  }

  lemma ExplicitMovesHands(sizes: iset<nat>, s: State, s': State, k: nat)
    requires HandsOk(s) && ExplicitMoves(sizes, s, s', k) && X.Inv(s.explicits[k])
    ensures HandsOk(s')
  {
    X.StepOfSub(sizes, s.explicits[k], s'.explicits[k]);
    NextStays(s.explicits[k].sub, s'.explicits[k].sub);
    forall r: nat, c | Has(s', r, c)
      ensures Has(s, r, c)
    {
      ElsewhereThan(s, s', k, r, c);
      if r == k {
        StayingKeeps(s.explicits[k].sub, s'.explicits[k].sub, c);
      }
    }
    HandsKept(s, s');
  }

  lemma ImplicitMovesHands(sizes: iset<nat>, s: State, s': State, k: nat)
    requires HandsOk(s) && ImplicitMoves(sizes, s, s', k) && Y.Inv(s.implicits[k])
    ensures HandsOk(s')
  {
    Y.StepOfSub(sizes, s.implicits[k], s'.implicits[k]);
    ImplicitNextStays(s.implicits[k].sub, s'.implicits[k].sub);
    forall r: nat, c | Has(s', r, c)
      ensures Has(s, r, c)
    {
      ElsewhereThanImplicit(s, s', k, r, c);
      if r == |s.explicits| + k {
        ImplicitStayingKeeps(s.implicits[k].sub, s'.implicits[k].sub, c);
      }
    }
    HandsKept(s, s');
  }

  lemma ListMovesHands(s: State, s': State)
    requires HandsOk(s) && ListMoves(s, s')
    ensures HandsOk(s')
  {
    forall q: nat, b | Has(s', q, b)
      ensures Has(s, q, b)
    {
    }
    HandsKept(s, s');
  }

  lemma ExplicitNextKeepsHands(sizes: iset<nat>, s: State, s': State, k: nat)
    requires Inv(s) && ExplicitNext(sizes, s, s', k)
    ensures HandsOk(s')
  {
    if ExplicitMoves(sizes, s, s', k) {
      ExplicitMovesHands(sizes, s, s', k);
    } else {
      var b, flags :| ExplicitGets(s, s', k, b, flags);
      HandedOutIsNobodys(s.list, s'.list, b);
      ExplicitGetsHands(s, s', k, b, flags);
    }
  }

  lemma ImplicitNextKeepsHands(sizes: iset<nat>, s: State, s': State, k: nat)
    requires Inv(s) && ImplicitNext(sizes, s, s', k)
    ensures HandsOk(s')
  {
    if ImplicitMoves(sizes, s, s', k) {
      ImplicitMovesHands(sizes, s, s', k);
    } else if t :| ImplicitReturns(s, s', k, t) {
      ImplicitReturnsHands(s, s', k, t);
    } else {
      var b :| ImplicitGets(s, s', k, b);
      HandedOutIsNobodys(s.list, s'.list, b);
      ImplicitGetsHands(s, s', k, b);
    }
  }

  lemma NextKeepsHands(sizes: iset<nat>, s: State, s': State)
    requires Inv(s) && Next(sizes, s, s')
    ensures HandsOk(s')
  {
    if ListMoves(s, s') {
      ListMovesHands(s, s');
    } else if k :| ExplicitNext(sizes, s, s', k) {
      ExplicitNextKeepsHands(sizes, s, s', k);
    } else {
      var k :| ImplicitNext(sizes, s, s', k);
      ImplicitNextKeepsHands(sizes, s, s', k);
    }
  }

  lemma PartsKeepInv(sizes: iset<nat>, s: State, s': State)
    requires Inv(s) && PartsStep(sizes, s, s') && 0 !in sizes
    ensures F.Inv(s'.list)
    ensures forall k | 0 <= k < |s'.explicits| :: X.Inv(s'.explicits[k])
    ensures forall k | 0 <= k < |s'.implicits| :: Y.Inv(s'.implicits[k])
  {
    if s'.list != s.list {
      F.NextKeepsInv(s.list, s'.list);
    }
    forall k | 0 <= k < |s'.explicits|
      ensures X.Inv(s'.explicits[k])
    {
      if s'.explicits[k] != s.explicits[k] {
        X.NextKeepsInv(sizes, s.explicits[k], s'.explicits[k]);
      }
    }
    forall k | 0 <= k < |s'.implicits|
      ensures Y.Inv(s'.implicits[k])
    {
      if s'.implicits[k] != s.implicits[k] {
        Y.NextKeepsInv(sizes, s.implicits[k], s'.implicits[k]);
      }
    }
  }

  lemma InitHasInv(s: State)
    requires Init(s)
    ensures Inv(s)
  {
    F.InitHasInv(s.list);
    forall k | 0 <= k < |s.explicits|
      ensures X.Inv(s.explicits[k]) && forall b :: !ExplicitHas(s.explicits[k].sub, b)
    {
      X.InitHasInv(s.explicits[k]);
    }
    forall k | 0 <= k < |s.implicits|
      ensures Y.Inv(s.implicits[k]) && forall b :: !ImplicitHas(s.implicits[k].sub, b)
    {
      Y.InitHasInv(s.implicits[k]);
    }
  }

  lemma {:induction false} RunHasInv(sizes: iset<nat>, states: seq<State>, i: nat)
    requires Run(sizes, states) && 0 !in sizes && i < |states|
    ensures Inv(states[i])
  {
    if i == 0 {
      InitHasInv(states[0]);
    } else {
      RunHasInv(sizes, states, i - 1);
      assert Next(sizes, states[i - 1], states[i - 1 + 1]);
      StepOfParts(sizes, states[i - 1], states[i]);
      PartsKeepInv(sizes, states[i - 1], states[i]);
      NextKeepsHands(sizes, states[i - 1], states[i]);
    }
  }

  // ------------------------------------------------------------------------------------- results

  /** No two sub-queues ever have the same block, and no block that a sub-queue has is on the free list. */
  lemma NoBlockIsShared(sizes: iset<nat>, states: seq<State>, i: nat, b: Block)
    requires Run(sizes, states) && 0 !in sizes && i < |states|
    ensures forall q: nat, r: nat :: Has(states[i], q, b) && Has(states[i], r, b) ==> q == r
    ensures forall q: nat :: Has(states[i], q, b) ==> b !in states[i].list.list
  {
    RunHasInv(sizes, states, i);
    if b in states[i].list.list {
      assert F.NodeOk(states[i].list, b);
    }
  }

  /** The pool keeps its promise: what requisition_block returns is free for the producer that gets it. */
  lemma PromiseIsKept(sizes: iset<nat>, states: seq<State>, i: nat, k: nat, b: Block, flags: seq<bool>)
    requires Run(sizes, states) && 0 !in sizes && i + 1 < |states|
    ensures ExplicitGets(states[i], states[i + 1], k, b, flags) ==> E.BlockIsFree(states[i].explicits[k].sub, b)
    ensures ImplicitGets(states[i], states[i + 1], k, b) ==> !I.InUse(states[i].implicits[k].sub, b)
  {
    RunHasInv(sizes, states, i);
    if ExplicitGets(states[i], states[i + 1], k, b, flags) {
      ExplicitGetsIsStep(sizes, states[i], states[i + 1], k, b, flags);
    }
    if ImplicitGets(states[i], states[i + 1], k, b) {
      ImplicitGetsIsStep(sizes, states[i], states[i + 1], k, b);
    }
  }

  /** And so do the counters: indices that a consumer is about to claim exist. */
  lemma ClaimedIndicesExist(sizes: iset<nat>, states: seq<State>, i: nat, k: nat, t: Tid)
    requires Run(sizes, states) && 0 !in sizes && i < |states|
    ensures k < |states[i].explicits| && Indices.Claiming(states[i].explicits[k].counters, t) ==>
              var x := states[i].explicits[k];
              x.sub.headIndex + x.counters.threads[t].actual <= |x.sub.items|
    ensures k < |states[i].implicits| && Indices.Claiming(states[i].implicits[k].counters, t) ==>
              var y := states[i].implicits[k];
              y.sub.headIndex + y.counters.threads[t].actual <= |y.sub.items|
  {
    RunHasInv(sizes, states, i);
    if k < |states[i].explicits| && Indices.Claiming(states[i].explicits[k].counters, t) {
      X.ClaimFits(states[i].explicits[k], t);
    }
    if k < |states[i].implicits| && Indices.Claiming(states[i].implicits[k].counters, t) {
      Y.ClaimFits(states[i].implicits[k], t);
    }
  }

  lemma RunGoesOn(sizes: iset<nat>, states: seq<State>, s: State)
    requires Run(sizes, states) && Next(sizes, states[|states| - 1], s)
    ensures Run(sizes, states + [s])
  {
    var states' := states + [s];
    forall i | 0 <= i < |states'| - 1
      ensures Next(sizes, states'[i], states'[i + 1])
    {
      assert states'[i] == states[i];
    }
  }

  /** Whoever hands a block back has it in hand. */
  ghost predicate HandsBackOwn(s: State) {
    forall k, t | 0 <= k < |s.implicits| && t in s.implicits[k].sub.consumers
                  && s.implicits[k].sub.consumers[t].Freeing? ::
      s.implicits[k].sub.consumers[t].block in s.list.owned
  }

  lemma BlocksComeFromTheirOwners(sizes: iset<nat>, states: seq<State>, i: nat)
    requires Run(sizes, states) && 0 !in sizes && i < |states|
    ensures HandsBackOwn(states[i])
  {
    RunHasInv(sizes, states, i);
    var s := states[i];
    forall k, t | 0 <= k < |s.implicits| && t in s.implicits[k].sub.consumers
                  && s.implicits[k].sub.consumers[t].Freeing?
      ensures s.implicits[k].sub.consumers[t].block in s.list.owned
    {
      I.NeverStuck(s.implicits[k].sub, t);
      ReturnedIsGone(s.implicits[k].sub, t, 0);
      assert Has(s, |s.explicits| + k, s.implicits[k].sub.consumers[t].block);
    }
  }

  lemma RunStep(sizes: iset<nat>, states: seq<State>, i: nat)
    requires Run(sizes, states) && 0 !in sizes && i + 1 < |states|
    ensures PartsStep(sizes, states[i], states[i + 1])
  {
    RunHasInv(sizes, states, i);
    StepOfParts(sizes, states[i], states[i + 1]);
  }

  /** Whatever the whole does, the list does in a run of its own. */
  lemma {:induction false} ListRuns(sizes: iset<nat>, states: seq<State>, i: nat) returns (fs: seq<F.State>)
    requires Run(sizes, states) && 0 !in sizes && i < |states|
    ensures F.Run(fs) && fs[|fs| - 1] == states[i].list
  {
    if i == 0 {
      fs := [states[0].list];
    } else {
      fs := ListRuns(sizes, states, i - 1);
      RunStep(sizes, states, i - 1);
      if states[i].list != states[i - 1].list {
        F.RunGoesOn(fs, states[i].list);
        fs := fs + [states[i].list];
      }
    }
  }

  /** And so does each explicit sub-queue. */
  lemma {:induction false} ExplicitRuns(sizes: iset<nat>, states: seq<State>, i: nat, k: nat) returns (xs: seq<X.State>)
    requires Run(sizes, states) && 0 !in sizes && i < |states| && k < |states[0].explicits|
    ensures |states[i].explicits| == |states[0].explicits|
    ensures X.Run(sizes, xs) && xs[|xs| - 1] == states[i].explicits[k]
  {
    if i == 0 {
      xs := [states[0].explicits[k]];
    } else {
      xs := ExplicitRuns(sizes, states, i - 1, k);
      RunStep(sizes, states, i - 1);
      if states[i].explicits[k] != states[i - 1].explicits[k] {
        X.RunGoesOn(sizes, xs, states[i].explicits[k]);
        xs := xs + [states[i].explicits[k]];
      }
    }
  }

  /** And each implicit one. */
  lemma {:induction false} ImplicitRuns(sizes: iset<nat>, states: seq<State>, i: nat, k: nat) returns (ys: seq<Y.State>)
    requires Run(sizes, states) && 0 !in sizes && i < |states| && k < |states[0].implicits|
    ensures |states[i].implicits| == |states[0].implicits|
    ensures Y.Run(sizes, ys) && ys[|ys| - 1] == states[i].implicits[k]
  {
    if i == 0 {
      ys := [states[0].implicits[k]];
    } else {
      ys := ImplicitRuns(sizes, states, i - 1, k);
      RunStep(sizes, states, i - 1);
      if states[i].implicits[k] != states[i - 1].implicits[k] {
        Y.RunGoesOn(sizes, ys, states[i].implicits[k]);
        ys := ys + [states[i].implicits[k]];
      }
    }
  }
}
