/**
 An implicit sub-queue with one consumer thread, which may ask for no elements, too.  While it looks up the
 block of an index that it did not claim, nobody else can claim the index: with or without the claim, the
 sub-queue is as it should be.
 */
module OneConsumer {
  import C = IndexClaims
  import I = ImplicitProducer
  import Indices
  import opened Blocks
  import opened ImplicitQueue

  // ------------------------------------------------------------------------- what the counters say

  /** Alone, the consumer always sees the counters as they are. */
  predicate Alone(c: C.State, t: Tid) {
    && c.threads.Keys == {t} && c.headIndex <= c.tailIndex
    && match c.threads[t]
       case Idle => c.optimisticCount - c.overcommit == c.headIndex
       case GotTail(_, tail) => c.optimisticCount - c.overcommit == c.headIndex && tail <= c.tailIndex
       case GotOver(_, tail, over) =>
         over == c.overcommit && c.optimisticCount - over == c.headIndex && tail <= c.tailIndex
       case Wanting(_, over) =>
         over == c.overcommit && c.optimisticCount - over == c.headIndex && c.headIndex < c.tailIndex
       case Ticketed(desired, over, ticket, _) =>
         over == c.overcommit && ticket - over == c.headIndex < c.tailIndex && c.optimisticCount == ticket + desired
       case Passed(excess, actual, over, ticket, _) =>
         && over == c.overcommit && ticket - over == c.headIndex < c.tailIndex
         && c.optimisticCount == ticket + actual + excess && c.headIndex + actual <= c.tailIndex
       case Returned(actual, _, _, _) =>
         && c.headIndex < c.tailIndex && c.headIndex + actual <= c.tailIndex
         && c.optimisticCount - c.overcommit == c.headIndex + actual
       case GivingBack(_, _) => false
  }

  lemma CountsAlone(sizes: iset<nat>, c: C.State, c': C.State, t: Tid)
    requires Alone(c, t) && Indices.Counts(sizes, c, c')
    ensures Alone(c', t) && c'.tailIndex == c.tailIndex && c'.headIndex == c.headIndex
  {
    if u, max :| Indices.Begins(sizes, c, c', u, max) {
      assert u == t;
    } else {
      var u :| Indices.Tests(c, c', u);
      assert u == t;
    }
  }

  lemma ClaimsAlone(c: C.State, t: Tid)
    requires Alone(c, t) && Indices.Claiming(c, t)
    ensures Alone(C.Advance(c, t), t)
  {
  }

  // ------------------------------------------------------------------------------- the two pictures

  /** The consumer claimed no index. */
  predicate HasNone(pc: I.ConsumerPc) {
    match pc
    case Claimed(first, last) => first == last
    case GotHeader(first, last, _) => first == last
    case GotTail(first, last, _, _, _) => first == last
    case AtEntry(index, last, _, _) => index == last
    case Reading(_, _, start, index, end, last, _, _) => start == index == end == last
    case _ => false
  }

  function First(pc: I.ConsumerPc): nat
    requires HasNone(pc)
  {
    if pc.AtEntry? || pc.Reading? then pc.index else pc.first
  }

  /** The same consumer, if it had claimed one index. */
  function Longer(pc: I.ConsumerPc): I.ConsumerPc
    requires HasNone(pc)
  {
    match pc
    case Claimed(first, last) => I.Claimed(first, last + 1)
    case GotHeader(first, last, h) => I.GotHeader(first, last + 1, h)
    case GotTail(first, last, h, tail, at) => I.GotTail(first, last + 1, h, tail, at)
    case AtEntry(index, last, h, slot) => I.AtEntry(index, last + 1, h, slot)
    case Reading(e, b, start, index, end, last, h, slot) => I.Reading(e, b, start, index, end + 1, last + 1, h, slot)
  }

  /** The sub-queue without the call that asks for none. */
  function Without(s: I.State, t: Tid): I.State {
    s.(consumers := s.consumers[t := I.Idle])
  }

  /** And with a call for one element in its place. */
  function WithOne(s: I.State, t: Tid): I.State
    requires t in s.consumers && HasNone(s.consumers[t])
  {
    s.(headIndex := s.headIndex + 1, consumers := s.consumers[t := Longer(s.consumers[t])])
  }

  ghost predicate SubOk(s: I.State, t: Tid) {
    && s.consumers.Keys == {t}
    && if HasNone(s.consumers[t]) then
         && First(s.consumers[t]) == s.headIndex < s.tailIndex
         && I.Inv(Without(s, t)) && I.Inv(WithOne(s, t))
       else I.Inv(s)
  }

  // --------------------------------------------------------------------------------- steps keep them

  /** The same state for whoever looks at neither headIndex nor the consumers. */
  function Other(s: I.State, head: nat, consumers: map<Tid, I.ConsumerPc>): I.State {
    s.(headIndex := head, consumers := consumers)
  }

  lemma StillCan(s: I.State, head: nat, consumers: map<Tid, I.ConsumerPc>, c: I.Choice)
    requires I.ProducerCan(s, c)
    ensures I.ProducerCan(Other(s, head, consumers), c)
  {
    assert forall b :: I.InUse(Other(s, head, consumers), b) ==> I.InUse(s, b);
  }

  ghost predicate Ignores(s: I.State, s': I.State, s0: I.State, s0': I.State) {
    s0' == Other(s', s0.headIndex, s0.consumers) && s'.headIndex == s.headIndex && s'.consumers == s.consumers
  }

  lemma IndexIgnores(s: I.State, s0: I.State, c: I.Choice)
    requires I.ProducerCan(s, c) && I.ProducerCan(s0, c) && s0 == Other(s, s0.headIndex, s0.consumers)
    requires s.pc.ReadKey? || s.pc.ReadValue? || s.pc.SetTail? || s.pc.RewindTail? || s.pc.ClearValue?
    ensures Ignores(s, I.ProducerStep(s, c), s0, I.ProducerStep(s0, c))
  {
  }

  lemma KeyIgnores(s: I.State, s0: I.State, c: I.Choice)
    requires I.ProducerCan(s, c) && I.ProducerCan(s0, c) && s0 == Other(s, s0.headIndex, s0.consumers)
    requires s.pc.Growing? || s.pc.SetKey?
    ensures Ignores(s, I.ProducerStep(s, c), s0, I.ProducerStep(s0, c))
  {
  }

  lemma BlockIgnores(s: I.State, s0: I.State, c: I.Choice)
    requires I.ProducerCan(s, c) && I.ProducerCan(s0, c) && s0 == Other(s, s0.headIndex, s0.consumers)
    requires s.pc.Requisition? || s.pc.ResetCount? || s.pc.SetValue? || s.pc.Constructing? || s.pc.Advancing?
    ensures Ignores(s, I.ProducerStep(s, c), s0, I.ProducerStep(s0, c))
  {
  }

  /** The producer is one who does not look. */
  lemma ProducerIgnores(s: I.State, s0: I.State, c: I.Choice)
    requires I.ProducerCan(s, c) && s0 == Other(s, s0.headIndex, s0.consumers)
    ensures I.ProducerCan(s0, c) && Ignores(s, I.ProducerStep(s, c), s0, I.ProducerStep(s0, c))
  {
    StillCan(s, s0.headIndex, s0.consumers, c);
    if s.pc.Growing? || s.pc.SetKey? {
      KeyIgnores(s, s0, c);
    } else if s.pc.Requisition? || s.pc.ResetCount? || s.pc.SetValue? || s.pc.Constructing? || s.pc.Advancing? {
      BlockIgnores(s, s0, c);
    } else {
      IndexIgnores(s, s0, c);
    }
  }

  lemma SameHolds(s: I.State, s': I.State, t: Tid)
    requires SubOk(s, t) && s'.consumers == s.consumers && s'.headIndex == s.headIndex && s'.tailIndex >= s.tailIndex
    requires if HasNone(s.consumers[t]) then I.Inv(Without(s', t)) && I.Inv(WithOne(s', t)) else I.Inv(s')
    ensures SubOk(s', t)
  {
  }

  lemma WithoutKept(s: I.State, t: Tid, c: I.Choice)
    requires t in s.consumers && I.Inv(Without(s, t)) && I.ProducerCan(s, c)
    ensures I.Inv(Without(I.ProducerStep(s, c), t))
  {
    ProducerIgnores(s, Without(s, t), c);
    I.ProducerStepKeepsInv(Without(s, t), c);
  }

  lemma WithOneKept(s: I.State, t: Tid, c: I.Choice)
    requires t in s.consumers && HasNone(s.consumers[t]) && I.Inv(WithOne(s, t)) && I.ProducerCan(s, c)
    ensures I.ProducerStep(s, c).consumers == s.consumers && I.Inv(WithOne(I.ProducerStep(s, c), t))
  {
    var w := WithOne(s, t);
    ProducerIgnores(s, w, c);
    I.ProducerStepKeepsInv(w, c);
    SameWithOne(s, I.ProducerStep(s, c), t);
  }

  lemma SameWithOne(s: I.State, s': I.State, t: Tid)
    requires t in s.consumers && HasNone(s.consumers[t])
    requires s'.consumers == s.consumers && s'.headIndex == s.headIndex
    ensures WithOne(s', t) == Other(s', WithOne(s, t).headIndex, WithOne(s, t).consumers)
  {
  }

  lemma ProducerKeeps(s: I.State, t: Tid, c: I.Choice)
    requires SubOk(s, t) && I.ProducerCan(s, c) && I.ProducerStep(s, c).tailIndex >= s.tailIndex
    ensures SubOk(I.ProducerStep(s, c), t)
  {
    ProducerIgnores(s, s, c);
    if HasNone(s.consumers[t]) {
      NoneKept(s, t, c);
    } else {
      I.ProducerStepKeepsInv(s, c);
    }
  }

  lemma NoneKept(s: I.State, t: Tid, c: I.Choice)
    requires SubOk(s, t) && HasNone(s.consumers[t]) && I.ProducerCan(s, c)
    requires I.ProducerStep(s, c).tailIndex >= s.tailIndex
    ensures SubOk(I.ProducerStep(s, c), t)
  {
    ProducerIgnores(s, s, c);
    WithoutKept(s, t, c);
    WithOneKept(s, t, c);
    SameHolds(s, I.ProducerStep(s, c), t);
  }

  lemma BeginKeeps(s: I.State, t: Tid, item: I.Item)
    requires SubOk(s, t) && s.pc == I.Ready
    ensures SubOk(I.BeginEnqueue(s, item), t)
  {
    var s' := I.BeginEnqueue(s, item);
    if HasNone(s.consumers[t]) {
      I.BeginEnqueueKeepsInv(Without(s, t), item);
      I.BeginEnqueueKeepsInv(WithOne(s, t), item);
      assert I.BeginEnqueue(Without(s, t), item) == Without(s', t);
      assert I.BeginEnqueue(WithOne(s, t), item) == WithOne(s', t);
    } else {
      I.BeginEnqueueKeepsInv(s, item);
    }
  }

  lemma ClaimOfNone(s: I.State, t: Tid)
    requires s.consumers.Keys == {t} && I.Inv(s) && I.CanClaim(s, t, 1)
    ensures SubOk(I.Claim(s, t, 0), t)
  {
    var s' := I.Claim(s, t, 0);
    I.ClaimKeepsInv(s, t, 1);
    assert Without(s', t) == s;
    assert WithOne(s', t) == I.Claim(s, t, 1);
  }

  lemma ClaimKeeps(s: I.State, t: Tid, count: nat)
    requires SubOk(s, t) && I.CanClaim(s, t, count) && s.headIndex < s.tailIndex
    ensures SubOk(I.Claim(s, t, count), t)
  {
    if count == 0 {
      ClaimOfNone(s, t);
    } else {
      I.ClaimKeepsInv(s, t, count);
    }
  }

  /** With the index still there, its block's count is not complete. */
  lemma CountIsNotComplete(s: I.State, t: Tid)
    requires SubOk(s, t) && HasNone(s.consumers[t]) && s.consumers[t].Reading?
    ensures var pc := s.consumers[t];
            && pc.block in s.dequeued && s.dequeued[pc.block] != BLOCK_SIZE
            && pc.h < |s.headers| && s.headers[pc.h].capacity > 0
  {
    var w, i := WithOne(s, t), s.consumers[t].index;
    var k := BlockOf(i);
    assert I.ConsumerOk(w.headers, w.entryOf, w.owner, w.consumers[t]);
    assert I.HeldBy(w, t, i);
    I.HeldIsLive(w, t, i);
    assert I.CountOk(w, k);
    if I.Emptied(w.released, k) {
      I.EmptiedMeansReleased(w.released, k, i);
    }
  }

  lemma NeverStuck(s: I.State, t: Tid)
    requires SubOk(s, t) && s.consumers[t] != I.Idle
    ensures I.ConsumerCan(s, t)
  {
    if HasNone(s.consumers[t]) {
      I.NeverStuck(WithOne(s, t), t);
      if s.consumers[t].Reading? {
        CountIsNotComplete(s, t);
      }
    } else {
      I.NeverStuck(s, t);
    }
  }

  /** A consumer with nothing to fetch looks for its block like one with one element. */
  lemma LooksAlike(s: I.State, t: Tid)
    requires t in s.consumers && HasNone(s.consumers[t]) && !s.consumers[t].Reading?
    requires I.ConsumerCan(s, t) && I.ConsumerCan(WithOne(s, t), t)
    ensures var s' := I.ConsumerStep(s, t);
            && s' == s.(consumers := s.consumers[t := s'.consumers[t]])
            && HasNone(s'.consumers[t]) && First(s'.consumers[t]) == First(s.consumers[t])
            && I.ConsumerStep(WithOne(s, t), t).consumers[t] == Longer(s'.consumers[t])
  {
    Split(First(s.consumers[t]));
  }

  lemma LookingKeeps(s: I.State, t: Tid)
    requires SubOk(s, t) && HasNone(s.consumers[t]) && !s.consumers[t].Reading? && I.ConsumerCan(s, t)
    ensures SubOk(I.ConsumerStep(s, t), t)
  {
    var s' := I.ConsumerStep(s, t);
    OneMoreStep(s, t);
    assert SubOk(s', t) by {
      assert I.Inv(Without(s', t)) && I.Inv(WithOne(s', t));
    }
  }

  lemma OneMoreStep(s: I.State, t: Tid)
    requires t in s.consumers && HasNone(s.consumers[t]) && !s.consumers[t].Reading? && I.ConsumerCan(s, t)
    requires I.Inv(WithOne(s, t))
    ensures var s' := I.ConsumerStep(s, t);
            && s' == s.(consumers := s.consumers[t := s'.consumers[t]])
            && HasNone(s'.consumers[t]) && First(s'.consumers[t]) == First(s.consumers[t])
            && Without(s', t) == Without(s, t) && I.Inv(WithOne(s', t))
  {
    var w := WithOne(s, t);
    I.NeverStuck(w, t);
    LooksAlike(s, t);
    I.ConsumerStepKeepsInv(w, t);
    LocalStep(w, t);
    SameLook(s, I.ConsumerStep(s, t), t, I.ConsumerStep(w, t));
  }

  lemma SameLook(s: I.State, s': I.State, t: Tid, w': I.State)
    requires t in s.consumers && HasNone(s.consumers[t]) && t in s'.consumers && t in w'.consumers
    requires s' == s.(consumers := s.consumers[t := s'.consumers[t]])
    requires HasNone(s'.consumers[t])
    requires w' == WithOne(s, t).(consumers := WithOne(s, t).consumers[t := Longer(s'.consumers[t])])
    ensures Without(s', t) == Without(s, t) && WithOne(s', t) == w'
  {
  }

  /** While it looks, a consumer changes nothing but itself. */
  lemma LocalStep(s: I.State, t: Tid)
    requires I.ConsumerCan(s, t)
    requires s.consumers[t].Claimed? || s.consumers[t].GotHeader? || s.consumers[t].GotTail? || s.consumers[t].AtEntry?
    ensures var s' := I.ConsumerStep(s, t); s' == s.(consumers := s.consumers[t := s'.consumers[t]])
  {
  }

  lemma CountingKeeps(s: I.State, t: Tid)
    requires SubOk(s, t) && HasNone(s.consumers[t]) && s.consumers[t].Reading? && I.ConsumerCan(s, t)
    ensures SubOk(I.ConsumerStep(s, t), t)
  {
    CountIsNotComplete(s, t);
    I.CountNothing(s, t);
    assert I.ConsumerStep(s, t) == Without(s, t);
  }

  lemma ConsumerKeeps(s: I.State, t: Tid)
    requires SubOk(s, t) && I.ConsumerCan(s, t)
    ensures SubOk(I.ConsumerStep(s, t), t)
  {
    if HasNone(s.consumers[t]) {
      if s.consumers[t].Reading? {
        CountingKeeps(s, t);
      } else {
        LookingKeeps(s, t);
      }
    } else {
      I.ConsumerStepKeepsInv(s, t);
      SomeStaysSome(s, t);
    }
  }

  /** Who has something to fetch does not go on to nothing: it is done first. */
  lemma SomeStaysSome(s: I.State, t: Tid)
    requires I.Inv(s) && I.ConsumerCan(s, t) && !HasNone(s.consumers[t])
    ensures !HasNone(I.ConsumerStep(s, t).consumers[t])
  {
    assert I.ConsumerOk(s.headers, s.entryOf, s.owner, s.consumers[t]);
  }

  // ----------------------------------------------------------------------------------------- runs

  ghost predicate SoloInv(s: State, t: Tid) {
    && Alone(s.counters, t) && SubOk(s.sub, t)
    && s.sub.headIndex == s.counters.headIndex && s.sub.tailIndex == s.counters.tailIndex
  }

  lemma ProducerNext(s: State, s': State, t: Tid, c: I.Choice)
    requires SoloInv(s, t) && I.ProducerCan(s.sub, c) && s'.sub == I.ProducerStep(s.sub, c)
    requires s'.counters == if s.sub.pc.Advancing? then C.Enqueue(s.counters) else s.counters
    ensures SoloInv(s', t)
  {
    ProducerIndices(s.sub, c);
    ProducerKeeps(s.sub, t, c);
  }

  lemma ClaimNext(s: State, s': State, t: Tid)
    requires SoloInv(s, t) && Claims(s, s', t)
    ensures SoloInv(s', t)
  {
    ClaimsAlone(s.counters, t);
    ClaimKeeps(s.sub, t, s.counters.threads[t].actual);
  }

  lemma ConsumerNext(s: State, s': State, t: Tid)
    requires SoloInv(s, t) && Consumes(s, s', t)
    ensures SoloInv(s', t)
  {
    ConsumerIndices(s.sub, t);
    ConsumerKeeps(s.sub, t);
  }

  lemma NextKeepsInv(sizes: iset<nat>, s: State, s': State, t: Tid)
    requires SoloInv(s, t) && Next(sizes, s, s')
    ensures SoloInv(s', t)
  {
    if Counts(sizes, s, s') {
      CountsAlone(sizes, s.counters, s'.counters, t);
    } else if Begins(s, s') {
      var item :| s.sub.pc == I.Ready && s'.sub == I.BeginEnqueue(s.sub, item);
      BeginKeeps(s.sub, t, item);
    } else if u :| Claims(s, s', u) {
      ClaimNext(s, s', t);
    } else if u :| Consumes(s, s', u) {
      ConsumerNext(s, s', t);
    } else {
      var c :| I.ProducerCan(s.sub, c) && s'.sub == I.ProducerStep(s.sub, c);
      ProducerNext(s, s', t, c);
    }
  }

  lemma {:induction false} RunHasInv(sizes: iset<nat>, states: seq<State>, i: nat, t: Tid)
    requires Run(sizes, states) && i < |states| && states[0].sub.consumers.Keys == {t}
    ensures SoloInv(states[i], t)
  {
    if i == 0 {
      I.InitHasInv(states[0].sub);
    } else {
      RunHasInv(sizes, states, i - 1, t);
      NextKeepsInv(sizes, states[i - 1], states[i], t);
    }
  }

  /** Whatever it asks for, a lone consumer hands each block back once at most, and is never stuck. */
  lemma LoneConsumerIsSafe(sizes: iset<nat>, states: seq<State>, i: nat, t: Tid)
    requires Run(sizes, states) && i < |states| && states[0].sub.consumers.Keys == {t}
    ensures Sound(states[i])
  {
    RunHasInv(sizes, states, i, t);
    if states[i].sub.consumers[t] != I.Idle {
      NeverStuck(states[i].sub, t);
    }
  }
}
