/**
 Whole calls on an implicit sub-queue, from their first step to their answer, with steps of other threads in
 between; dequeues ask for something.  Both calls are wait-free: the number of their own steps is bounded whatever
 the others do.  An enqueue ends with its element behind the others unless the allocator or the pool refused what it
 had to ask for; a dequeue ends when it moved out all elements it claimed, in order.
 */
module ImplicitCalls {
  import opened Options
  import opened Blocks
  import opened ImplicitProducer

  // ------------------------------------------------------------------------------------- enqueue

  /** How many steps the producer has before it at most. */
  function Left(pc: ProducerPc): nat {
    match pc
    case Ready => 0
    case ReadKey(_) => 10
    case ReadValue(_) => 9
    case Growing(_) => 8
    case SetKey(_, _) => 7
    case SetTail(_, _) => 6
    case Requisition(_, _) => 5
    case RewindTail(_) => 2
    case ClearValue(_) => 1
    case ResetCount(_, _, _) => 4
    case SetValue(_, _, _) => 3
    case Constructing(_) => 2
    case Advancing(_) => 1
  }

  /** The producer undoes what it did to the index. */
  predicate Backs(pc: ProducerPc) {
    pc.RewindTail? || pc.ClearValue?
  }

  /** It is on the way to storing the element. */
  predicate Stores(pc: ProducerPc, item: Item) {
    pc != Ready && !Backs(pc) && pc.item == item
  }

  /** It asks for a larger index or for a block. */
  predicate Asks(pc: ProducerPc) {
    pc.Growing? || pc.Requisition?
  }

  /** It asked and got nothing, and turns back; nothing else changes. */
  predicate Refused(s: State, s': State) {
    Asks(s.pc) && s' == s.(pc := if s.pc.Growing? then Ready else RewindTail(s.pc.entry))
  }

  predicate SameElements(s: State, s': State) {
    s'.items == s.items && s'.tailIndex == s.tailIndex
  }

  /** The element is in the sub-queue, behind all others. */
  predicate Stored(s: State, s': State, item: Item) {
    s'.items == s.items + [item] && s'.tailIndex == s.tailIndex + 1
  }

  /** A step of the call: it stores the element in the end, or turns back when it was refused. */
  predicate Onwards(s: State, s': State, item: Item) {
    && (s'.pc == s.pc || Left(s'.pc) < Left(s.pc))
    && if Backs(s.pc) then SameElements(s, s') && (Backs(s'.pc) || s'.pc == Ready)
       else if Stores(s'.pc, item) then SameElements(s, s')
       else Refused(s, s') || (s'.pc == Ready && Stored(s, s', item))
  }

  /** A step of the producer and of no one else. */
  predicate Moves(s: State, s': State) {
    s'.consumers == s.consumers && |s'.headers| > 0 && s'.pc != s.pc && s.items <= s'.items
  }

  lemma TestingOnwards(s: State, c: Choice)
    requires ProducerCan(s, c) && (s.pc.ReadKey? || s.pc.ReadValue?)
    ensures Onwards(s, ProducerStep(s, c), s.pc.item) && Moves(s, ProducerStep(s, c))
  {
  }

  lemma IndexOnwards(s: State, c: Choice)
    requires ProducerCan(s, c) && (s.pc.Growing? || s.pc.SetKey? || s.pc.SetTail?)
    ensures Onwards(s, ProducerStep(s, c), s.pc.item) && Moves(s, ProducerStep(s, c))
  {
  }

  lemma BackingOnwards(s: State, c: Choice, item: Item)
    requires ProducerCan(s, c) && Backs(s.pc)
    ensures Onwards(s, ProducerStep(s, c), item)
  {
  }

  lemma BackingMoves(s: State, c: Choice)
    requires ProducerCan(s, c) && Backs(s.pc)
    ensures Moves(s, ProducerStep(s, c))
  {
  }

  lemma BlockOnwards(s: State, c: Choice)
    requires ProducerCan(s, c) && (s.pc.Requisition? || s.pc.ResetCount? || s.pc.SetValue?)
    ensures Onwards(s, ProducerStep(s, c), s.pc.item) && Moves(s, ProducerStep(s, c))
  {
  }

  lemma ElementOnwards(s: State, c: Choice)
    requires ProducerCan(s, c) && (s.pc.Constructing? || s.pc.Advancing?)
    ensures Onwards(s, ProducerStep(s, c), s.pc.item) && Moves(s, ProducerStep(s, c))
  {
  }

  /** A step of the producer ends the call, one way or the other, or brings it nearer to its end. */
  lemma EnqueueStep(s: State, c: Choice, item: Item)
    requires ProducerCan(s, c) && (Backs(s.pc) || Stores(s.pc, item))
    ensures Onwards(s, ProducerStep(s, c), item) && Moves(s, ProducerStep(s, c))
  {
    if Backs(s.pc) {
      BackingOnwards(s, c, item);
      BackingMoves(s, c);
    } else if s.pc.ReadKey? || s.pc.ReadValue? {
      TestingOnwards(s, c);
    } else if s.pc.Growing? || s.pc.SetKey? || s.pc.SetTail? {
      IndexOnwards(s, c);
    } else if s.pc.Constructing? || s.pc.Advancing? {
      ElementOnwards(s, c);
    } else {
      BlockOnwards(s, c);
    }
  }

  /** A step of another thread. */
  predicate Elsewhere(s: State, s': State) {
    s'.pc == s.pc && SameElements(s, s')
  }

  lemma ConsumerElsewhere(s: State, t: Tid)
    requires ConsumerCan(s, t)
    ensures Elsewhere(s, ConsumerStep(s, t))
  {
  }

  lemma StepInCall(s: State, s': State, item: Item)
    requires Next(false, s, s') && (Backs(s.pc) || Stores(s.pc, item))
    ensures Onwards(s, s', item)
  {
    if c :| ProducerCan(s, c) && s' == ProducerStep(s, c) {
      EnqueueStep(s, c, item);
    } else if t :| ConsumerCan(s, t) && s' == ConsumerStep(s, t) {
      ConsumerElsewhere(s, t);
    }
  }

  /** States in a row, the producer being inside a call up to the last one, at which it may be done. */
  ghost predicate InCall(states: seq<State>) {
    && |states| > 0
    && (|states| > 1 ==> states[0].pc != Ready && Next(false, states[0], states[1]) && InCall(states[1..]))
  }

  /** enqueue(item) from its first step on, to its end or as far as it got. */
  ghost predicate EnqueueCall(states: seq<State>, item: Item) {
    && |states| > 1 && states[0].pc == Ready
    && states[1] == BeginEnqueue(states[0], item) && InCall(states[1..])
  }

  predicate Ended(states: seq<State>)
    requires |states| > 0
  {
    states[|states| - 1].pc == Ready
  }

  /** In one of its steps the producer was refused what it asked for. */
  predicate WasRefused(states: seq<State>) {
    |states| > 1 && (Refused(states[0], states[1]) || WasRefused(states[1..]))
  }

  /** The steps of the producer's own. */
  function OwnSteps(states: seq<State>): nat {
    if |states| < 2 then 0
    else OwnSteps(states[1..]) + if states[1].pc != states[0].pc then 1 else 0
  }

  lemma {:induction false} CallGoesOn(states: seq<State>, item: Item)
    requires InCall(states) && (Backs(states[0].pc) || Stores(states[0].pc, item))
    ensures var s, s' := states[0], states[|states| - 1];
            && OwnSteps(states) + Left(s'.pc) <= Left(s.pc)
            && (Backs(s.pc) ==> SameElements(s, s'))
            && (!Ended(states) ==> SameElements(s, s'))
            && (SameElements(s, s') || Stored(s, s', item))
            && (Ended(states) && SameElements(s, s') ==> Backs(s.pc) || WasRefused(states))
  {
    if |states| > 1 {
      StepInCall(states[0], states[1], item);
      if states[1].pc != Ready {
        CallGoesOn(states[1..], item);
      }
    }
  }

  lemma CallBegins(s: State, item: Item)
    requires s.pc == Ready
    ensures var s' := BeginEnqueue(s, item);
            Stores(s'.pc, item) && SameElements(s, s') && Left(s'.pc) <= 10
  {
  }

  /**
   An enqueue answers: it ends with its element behind all others, or, with the elements as they were, after it was
   refused an index or a block that it asked for.
   */
  lemma EnqueueAnswers(states: seq<State>, item: Item)
    requires EnqueueCall(states, item) && Ended(states)
    ensures var s, s' := states[0], states[|states| - 1];
            Stored(s, s', item) || (SameElements(s, s') && WasRefused(states[1..]))
  {
    CallBegins(states[0], item);
    CallGoesOn(states[1..], item);
  }

  /** It takes no more than ten steps of its own, whatever the consumers do meanwhile. */
  lemma EnqueueIsWaitFree(states: seq<State>, item: Item)
    requires EnqueueCall(states, item)
    ensures OwnSteps(states[1..]) <= 10
  {
    CallBegins(states[0], item);
    CallGoesOn(states[1..], item);
  }

  // ------------------------------------------------------------------- what needs no memory at all

  lemma {:induction false} ConstructionAsksNothing(states: seq<State>, item: Item)
    requires InCall(states) && (states[0].pc == Constructing(item) || states[0].pc == Advancing(item))
    ensures !WasRefused(states)
  {
    if |states| > 1 {
      StepInCall(states[0], states[1], item);
      if states[1].pc != Ready {
        ConstructionAsksNothing(states[1..], item);
      }
    }
  }

  /** With room in the newest block an enqueue takes no memory and cannot fail. */
  lemma EnqueueWithRoomSucceeds(states: seq<State>, item: Item)
    requires EnqueueCall(states, item) && Ended(states) && Offset(states[0].tailIndex) != 0
    ensures Stored(states[0], states[|states| - 1], item)
  {
    EnqueueAnswers(states, item);
    ConstructionAsksNothing(states[1..], item);
  }

  // ------------------------------------------------------------------- an enqueue that is not refused

  /** What the allocator and the pool hand out in a call: new entries with any values, and a block. */
  datatype Supply = Supply(ids: seq<EntryId>, junk: map<EntryId, Option<Block>>, block: Block)

  /** The entries are new until the index grows, the block is free until it is taken. */
  ghost predicate Supplies(s: State, g: Supply) {
    && |s.headers| > 0
    && (s.pc == Ready || Left(s.pc) >= 8 ==>
          && |g.ids| == Last(s.headers).capacity && Distinct(g.ids) && (forall e :: e in g.junk <==> e in g.ids)
          && forall e | e in g.ids :: e !in s.keys)
    && (s.pc == Ready || Left(s.pc) >= 5 ==> !InUse(s, g.block))
  }

  function Granted(s: State, g: Supply): Choice {
    if s.pc.Growing? then Entries(g.ids, g.junk) else Gets(g.block)
  }

  lemma CanGrant(s: State, g: Supply)
    requires Inv(s) && s.pc != Ready && Supplies(s, g)
    ensures ProducerCan(s, Granted(s, g))
  {
    assert HeaderOk(s.headers[|s.headers| - 1], s.entryOf, s.keys, s.lo);
    NewTailSlot(Last(s.headers));
  }

  lemma StillSuppliesEntries(s: State, c: Choice, g: Supply)
    requires ProducerCan(s, c) && (s.pc.ReadKey? || s.pc.ReadValue?) && Supplies(s, g)
    ensures Supplies(ProducerStep(s, c), g)
  {
  }

  lemma StillSuppliesBlock(s: State, c: Choice, g: Supply)
    requires ProducerCan(s, c) && (s.pc.Growing? || s.pc.SetKey? || s.pc.SetTail?) && Supplies(s, g)
    requires ProducerStep(s, c).pc != Ready
    ensures Supplies(ProducerStep(s, c), g)
  {
  }

  lemma NotRefused(s: State, c: Choice)
    requires ProducerCan(s, c) && Asks(s.pc) && !c.Fails?
    ensures !Refused(s, ProducerStep(s, c))
  {
  }

  lemma StillSupplies(s: State, c: Choice, g: Supply)
    requires ProducerCan(s, c) && s.pc != Ready && !Backs(s.pc) && Supplies(s, g)
    requires Moves(s, ProducerStep(s, c)) && ProducerStep(s, c).pc != Ready && Left(ProducerStep(s, c).pc) < Left(s.pc)
    ensures Supplies(ProducerStep(s, c), g)
  {
    if s.pc.ReadKey? || s.pc.ReadValue? {
      StillSuppliesEntries(s, c, g);
    } else if s.pc.Growing? || s.pc.SetKey? || s.pc.SetTail? {
      StillSuppliesBlock(s, c, g);
    }
  }

  /** The producer moves with what it asks for granted. */
  ghost predicate Fills(s: State, s': State) {
    exists c :: ProducerCan(s, c) && !c.Fails? && s' == ProducerStep(s, c)
  }

  /** Only the producer moves. */
  ghost predicate AllFills(states: seq<State>) {
    |states| > 0 && (|states| > 1 ==> Fills(states[0], states[1]) && AllFills(states[1..]))
  }

  lemma ItFills(s: State, c: Choice)
    requires ProducerCan(s, c) && !c.Fails?
    ensures Fills(s, ProducerStep(s, c)) && Next(false, s, ProducerStep(s, c))
  {
  }

  /** A step in which the producer gets what it asks for, if it asks. */
  lemma GrantedStep(s: State, item: Item, g: Supply) returns (s': State)
    requires Inv(s) && Stores(s.pc, item) && Supplies(s, g)
    ensures Fills(s, s') && Next(false, s, s') && Inv(s') && s'.consumers == s.consumers && Left(s'.pc) < Left(s.pc)
    ensures if s'.pc == Ready then Stored(s, s', item)
            else Stores(s'.pc, item) && SameElements(s, s') && Supplies(s', g)
  {
    CanGrant(s, g);
    var c := Granted(s, g);
    s' := ProducerStep(s, c);
    ItFills(s, c);
    ProducerStepKeepsInv(s, c);
    GrantedEffect(s, c, item);
    if s'.pc != Ready {
      StillSupplies(s, c, g);
    }
  }

  lemma GrantedEffect(s: State, c: Choice, item: Item)
    requires ProducerCan(s, c) && !c.Fails? && Stores(s.pc, item)
    ensures var s' := ProducerStep(s, c);
            && Moves(s, s') && Left(s'.pc) < Left(s.pc)
            && if s'.pc == Ready then Stored(s, s', item) else Stores(s'.pc, item) && SameElements(s, s')
  {
    EnqueueStep(s, c, item);
    if Asks(s.pc) {
      NotRefused(s, c);
    }
  }

  /** The rest of a call that nothing refuses. */
  lemma {:induction false} Grants(s: State, item: Item, g: Supply) returns (states: seq<State>)
    requires Inv(s) && Stores(s.pc, item) && Supplies(s, g)
    ensures InCall(states) && AllFills(states) && states[0] == s && Ended(states)
    ensures var s' := states[|states| - 1];
            Stored(s, s', item) && s'.consumers == s.consumers
    decreases Left(s.pc)
  {
    var s' := GrantedStep(s, item, g);
    if s'.pc == Ready {
      states := [s, s'];
    } else {
      var more := Grants(s', item, g);
      states := [s] + more;
      assert states[1..] == more;
    }
  }

  lemma BegunSucceeds(s: State, item: Item, g: Supply) returns (states: seq<State>)
    requires Inv(s) && s.pc == Ready && Supplies(s, g)
    ensures InCall(states) && AllFills(states) && Ended(states)
    ensures states[0] == BeginEnqueue(s, item) && Stores(states[0].pc, item)
    ensures var s' := states[|states| - 1];
            Stored(s, s', item) && s'.consumers == s.consumers
  {
    var b := BeginEnqueue(s, item);
    CallBegins(s, item);
    BeginEnqueueKeepsInv(s, item);
    states := Grants(b, item, g);
  }

  /**
   From every state of every run, an enqueue of any element that nothing refuses, with any new entries and any block
   that is not in use, gets its element behind the others: by room in the newest block, by a new block, with a larger
   index where the present one is full.
   */
  lemma EnqueueSucceeds(s: State, item: Item, g: Supply) returns (states: seq<State>)
    requires Inv(s) && s.pc == Ready && Supplies(s, g)
    ensures |states| > 1 && states[0] == s && EnqueueCall(states, item) && AllFills(states[1..]) && Ended(states)
    ensures var s' := states[|states| - 1];
            Stored(s, s', item) && s'.consumers == s.consumers
  {
    var more := BegunSucceeds(s, item, g);
    states := [s] + more;
    assert states[1..] == more;
  }

  // ------------------------------------------------------------------------------------- dequeue

  /** Where the consumer's call ends. */
  function Limit(pc: ConsumerPc): nat {
    match pc
    case Idle => 0
    case Claimed(_, last) => last
    case GotHeader(_, last, _) => last
    case GotTail(_, last, _, _, _) => last
    case AtEntry(_, last, _, _) => last
    case Reading(_, _, _, _, _, last, _, _) => last
    case Nulling(_, _, _, _, last, _, _) => last
    case Freeing(_, _, _, last, _, _) => last
  }

  /** The first index that the consumer has not moved out. */
  function Place(pc: ConsumerPc): nat {
    match pc
    case Idle => 0
    case Claimed(first, _) => first
    case GotHeader(first, _, _) => first
    case GotTail(first, _, _, _, _) => first
    case AtEntry(index, _, _, _) => index
    case Reading(_, _, _, index, _, _, _, _) => index
    case Nulling(_, _, _, end, _, _, _) => end
    case Freeing(_, _, end, _, _, _) => end
  }

  function Minus(a: nat, b: nat): nat {
    if a < b then 0 else a - b
  }

  /** How many steps the consumer has before it at most. */
  function Work(pc: ConsumerPc): nat {
    match pc
    case Idle => 0
    case Claimed(first, last) => 6 * Minus(last, first) + 7
    case GotHeader(first, last, _) => 6 * Minus(last, first) + 6
    case GotTail(first, last, _, _, _) => 6 * Minus(last, first) + 5
    case AtEntry(index, last, _, _) => 6 * Minus(last, index) + 4
    case Reading(_, _, _, index, end, last, _, _) => 3 + Minus(end, index) + Behind(end, last)
    case Nulling(_, _, _, end, last, _, _) => 2 + Behind(end, last)
    case Freeing(_, _, end, last, _, _) => 1 + Behind(end, last)
  }

  /** The work in the blocks behind the present one. */
  function Behind(end: nat, last: nat): nat {
    if end == last then 0 else 6 * Minus(last, end) + 4
  }

  /** The consumer moves an element out in this step. */
  predicate Takes(s: State, s': State, t: Tid) {
    && ConsumerCan(s, t) && s.consumers[t].Reading? && s.consumers[t].index < s.consumers[t].end
    && s' == ConsumerStep(s, t)
  }

  /** States in a row, consumer t being inside a call up to the last one, at which it may be done. */
  ghost predicate InDequeue(states: seq<State>, t: Tid) {
    && |states| > 0 && t in states[0].consumers
    && (|states| > 1 ==>
          states[0].consumers[t] != Idle && Next(false, states[0], states[1]) && InDequeue(states[1..], t))
  }

  /** A dequeue by t of count elements, from its claim on, to its end or as far as it got. */
  ghost predicate DequeueCall(states: seq<State>, t: Tid, count: nat) {
    && |states| > 1 && CanClaim(states[0], t, count) && count > 0
    && states[1] == Claim(states[0], t, count) && InDequeue(states[1..], t)
  }

  /** The elements that t takes in the step from s to s'. */
  function First(s: State, s': State, t: Tid): seq<Item> {
    if Takes(s, s', t) then [Fetched(s, t)] else []
  }

  /** What consumer t moved out, in order. */
  function Taken(states: seq<State>, t: Tid): seq<Item> {
    if |states| < 2 then []
    else First(states[0], states[1], t) + Taken(states[1..], t)
  }

  /** The steps of the consumer's own. */
  function Steps(states: seq<State>, t: Tid): nat {
    if |states| < 2 then 0
    else Steps(states[1..], t) + if Moved(states[0], states[1], t) then 1 else 0
  }

  predicate Moved(s: State, s': State, t: Tid) {
    t in s.consumers && t in s'.consumers && s'.consumers[t] != s.consumers[t]
  }

  /** The consumer moves on: by one element if it takes one, and it stops only behind the last one. */
  predicate Advances(pc: ConsumerPc, pc': ConsumerPc, takes: bool) {
    && Work(pc') < Work(pc)
    && if pc' == Idle then !takes && Place(pc) == Limit(pc)
       else Limit(pc') == Limit(pc) && Place(pc') == Place(pc) + if takes then 1 else 0
  }

  lemma FindingAdvances(s: State, t: Tid)
    requires Inv(s) && ConsumerCan(s, t)
    requires s.consumers[t].Claimed? || s.consumers[t].GotHeader? || s.consumers[t].GotTail?
    ensures Advances(s.consumers[t], ConsumerStep(s, t).consumers[t], false)
  {
  }

  lemma EntryAdvances(s: State, t: Tid)
    requires Inv(s) && ConsumerCan(s, t) && s.consumers[t].AtEntry?
    ensures Advances(s.consumers[t], ConsumerStep(s, t).consumers[t], false)
  {
    Split(s.consumers[t].index);
  }

  lemma ReadingAdvances(s: State, t: Tid)
    requires Inv(s) && ConsumerCan(s, t) && s.consumers[t].Reading?
    ensures Advances(s.consumers[t], ConsumerStep(s, t).consumers[t], s.consumers[t].index < s.consumers[t].end)
  {
  }

  lemma ReturningAdvances(s: State, t: Tid)
    requires Inv(s) && ConsumerCan(s, t) && (s.consumers[t].Nulling? || s.consumers[t].Freeing?)
    ensures Advances(s.consumers[t], ConsumerStep(s, t).consumers[t], false)
  {
  }

  /** A step of the consumer's own. */
  lemma DequeueStep(s: State, t: Tid)
    requires Inv(s) && ConsumerCan(s, t)
    ensures var s' := ConsumerStep(s, t);
            && t in s'.consumers && s'.items == s.items
            && Advances(s.consumers[t], s'.consumers[t], Takes(s, s', t))
  {
    var pc := s.consumers[t];
    if pc.AtEntry? {
      EntryAdvances(s, t);
    } else if pc.Reading? {
      ReadingAdvances(s, t);
    } else if pc.Nulling? || pc.Freeing? {
      ReturningAdvances(s, t);
    } else {
      FindingAdvances(s, t);
    }
  }

  /** A step that leaves consumer t where it is. */
  predicate Bystands(s: State, s': State, t: Tid) {
    t in s.consumers && t in s'.consumers && s'.consumers[t] == s.consumers[t] && s.items <= s'.items
  }

  lemma ProducerBystands(s: State, c: Choice, t: Tid)
    requires ProducerCan(s, c) && t in s.consumers
    ensures Bystands(s, ProducerStep(s, c), t)
  {
    if Backs(s.pc) {
      BackingMoves(s, c);
    } else {
      EnqueueStep(s, c, s.pc.item);
    }
  }

  lemma OtherBystands(s: State, u: Tid, t: Tid)
    requires ConsumerCan(s, u) && t in s.consumers && t != u
    ensures Bystands(s, ConsumerStep(s, u), t)
  {
  }

  /** What a step of any thread is to consumer t. */
  lemma AnyStep(s: State, s': State, t: Tid)
    requires Next(false, s, s') && t in s.consumers && s.consumers[t] != Idle
    ensures Bystands(s, s', t) || (ConsumerCan(s, t) && s' == ConsumerStep(s, t))
  {
    if c :| ProducerCan(s, c) && s' == ProducerStep(s, c) {
      ProducerBystands(s, c, t);
    } else if u :| ConsumerCan(s, u) && s' == ConsumerStep(s, u) {
      if u != t {
        OtherBystands(s, u, t);
      }
    }
  }

  lemma PlaceIsInside(s: State, t: Tid)
    requires Inv(s) && t in s.consumers && s.consumers[t] != Idle
    ensures Place(s.consumers[t]) <= Limit(s.consumers[t])
    ensures s.consumers[t].Reading? && s.consumers[t].index < s.consumers[t].end ==>
              Place(s.consumers[t]) < Limit(s.consumers[t])
  {
  }

  /** The step as the call sees it. */
  predicate Seen(s: State, s': State, t: Tid) {
    && t in s.consumers && t in s'.consumers && s.items <= s'.items
    && if Moved(s, s', t) then Advances(s.consumers[t], s'.consumers[t], Takes(s, s', t)) else !Takes(s, s', t)
  }

  lemma StepInDequeue(s: State, s': State, t: Tid)
    requires Inv(s) && Next(false, s, s') && t in s.consumers && s.consumers[t] != Idle
    ensures Seen(s, s', t)
    ensures Takes(s, s', t) ==> Place(s.consumers[t]) < |s.items| && Fetched(s, t) == s.items[Place(s.consumers[t])]
  {
    AnyStep(s, s', t);
    if ConsumerCan(s, t) && s' == ConsumerStep(s, t) {
      DequeueStep(s, t);
      if Takes(s, s', t) {
        FetchesItsElement(s, t);
      }
    }
  }

  /** The elements from place up to another, in order. */
  predicate Between(place: nat, to: nat, limit: nat, items: seq<Item>, taken: seq<Item>) {
    place <= to <= limit <= |items| && taken == items[place..to]
  }

  lemma BetweenOneMore(place: nat, place': nat, to: nat, limit: nat, items: seq<Item>, items': seq<Item>,
                       first: seq<Item>, taken: seq<Item>)
    requires Between(place, place', limit, items, first) && items <= items' && Between(place', to, limit, items', taken)
    ensures Between(place, to, limit, items, first + taken)
  {
    assert items'[..limit] == items[..limit];
    assert taken == items[place'..to];
  }

  /** Where a consumer that has the given limit stands; it is done when it is idle. */
  function Stop(pc: ConsumerPc, limit: nat): nat {
    if pc == Idle then limit else Place(pc)
  }

  /** What consumer t did between s and s'. */
  predicate Fetches(s: State, s': State, t: Tid, taken: seq<Item>, steps: nat) {
    && t in s.consumers && t in s'.consumers
    && var pc, pc' := s.consumers[t], s'.consumers[t];
    && (pc' != Idle ==> Limit(pc') == Limit(pc))
    && Between(Place(pc), Stop(pc', Limit(pc)), Limit(pc), s.items, taken)
    && steps + Work(pc') <= Work(pc)
  }

  /** A step of any thread, as consumer t sees it. */
  predicate OneStep(s: State, s': State, t: Tid) {
    s.items <= s'.items && Fetches(s, s', t, First(s, s', t), if Moved(s, s', t) then 1 else 0)
  }

  lemma FetchesFirst(s: State, s': State, t: Tid)
    requires Inv(s) && Next(false, s, s') && t in s.consumers && s.consumers[t] != Idle
    requires Limit(s.consumers[t]) <= |s.items|
    ensures OneStep(s, s', t)
  {
    PlaceIsInside(s, t);
    StepInDequeue(s, s', t);
    FetchesSeen(s, s', t);
  }

  lemma FetchesSeen(s: State, s': State, t: Tid)
    requires Seen(s, s', t) && Place(s.consumers[t]) <= Limit(s.consumers[t]) <= |s.items|
    requires s.consumers[t] != Idle
    requires Takes(s, s', t) ==>
               Place(s.consumers[t]) < Limit(s.consumers[t]) && Fetched(s, t) == s.items[Place(s.consumers[t])]
    ensures OneStep(s, s', t)
  {
  }

  lemma FetchesMore(s: State, s': State, s'': State, t: Tid, first: seq<Item>, step: nat, taken: seq<Item>, steps: nat)
    requires Fetches(s, s', t, first, step) && s.items <= s'.items
    requires s'.consumers[t] != Idle && Fetches(s', s'', t, taken, steps)
    ensures Fetches(s, s'', t, first + taken, steps + step)
  {
    var pc, pc', pc'' := s.consumers[t], s'.consumers[t], s''.consumers[t];
    BetweenOneMore(Place(pc), Place(pc'), Stop(pc'', Limit(pc)), Limit(pc), s.items, s'.items, first, taken);
  }

  /** A call as consumer t sees it. */
  ghost predicate Course(states: seq<State>, t: Tid) {
    && |states| > 0 && t in states[0].consumers && Limit(states[0].consumers[t]) <= |states[0].items|
    && Place(states[0].consumers[t]) <= Limit(states[0].consumers[t])
    && (|states| > 1 ==>
          && states[0].consumers[t] != Idle && OneStep(states[0], states[1], t)
          && if states[1].consumers[t] == Idle then |states| == 2 else Course(states[1..], t))
  }

  lemma {:induction false} HasCourse(states: seq<State>, t: Tid)
    requires InDequeue(states, t) && Inv(states[0]) && states[0].consumers[t] != Idle
    requires Limit(states[0].consumers[t]) <= |states[0].items|
    ensures Course(states, t)
  {
    PlaceIsInside(states[0], t);
    if |states| > 1 {
      FetchesFirst(states[0], states[1], t);
      NextKeepsInv(states[0], states[1]);
      if states[1].consumers[t] != Idle {
        HasCourse(states[1..], t);
      }
    }
  }

  lemma {:induction false} CourseFetches(states: seq<State>, t: Tid)
    requires Course(states, t) && states[0].consumers[t] != Idle
    ensures Fetches(states[0], states[|states| - 1], t, Taken(states, t), Steps(states, t))
  {
    if |states| > 1 {
      var s, s', more := states[0], states[1], states[1..];
      if s'.consumers[t] == Idle {
        assert Taken(more, t) == [];
      } else {
        CourseFetches(more, t);
        FetchesMore(s, s', states[|states| - 1], t, First(s, s', t), if Moved(s, s', t) then 1 else 0,
                    Taken(more, t), Steps(more, t));
      }
    }
  }

  lemma DequeueGoesOn(states: seq<State>, t: Tid)
    requires InDequeue(states, t) && Inv(states[0]) && states[0].consumers[t] != Idle
    requires Limit(states[0].consumers[t]) <= |states[0].items|
    ensures Fetches(states[0], states[|states| - 1], t, Taken(states, t), Steps(states, t))
  {
    HasCourse(states, t);
    CourseFetches(states, t);
  }

  lemma ClaimBegins(s: State, t: Tid, count: nat)
    requires Inv(s) && CanClaim(s, t, count) && count > 0
    ensures var s' := Claim(s, t, count);
            && Inv(s') && s'.items == s.items && s'.consumers[t] == Claimed(s.headIndex, s.headIndex + count)
            && s.headIndex + count <= |s.items|
  {
    ClaimKeepsInv(s, t, count);
  }

  /** The elements from s's head on, so many. */
  predicate TookAll(s: State, count: nat, taken: seq<Item>) {
    s.headIndex + count <= |s.items| && taken == s.items[s.headIndex..s.headIndex + count]
  }

  lemma ClaimedIsTaken(s: State, t: Tid, count: nat, states: seq<State>)
    requires Inv(s) && CanClaim(s, t, count) && count > 0 && InDequeue(states, t) && states[0] == Claim(s, t, count)
    requires var s' := states[|states| - 1]; t in s'.consumers && s'.consumers[t] == Idle
    ensures TookAll(s, count, Taken(states, t))
  {
    ClaimBegins(s, t, count);
    DequeueGoesOn(states, t);
  }

  /** A dequeue that is done moved out just the elements it claimed, each once and in order. */
  lemma DequeueTakesAll(states: seq<State>, t: Tid, count: nat)
    requires DequeueCall(states, t, count) && Inv(states[0])
    requires var s' := states[|states| - 1]; t in s'.consumers && s'.consumers[t] == Idle
    ensures TookAll(states[0], count, Taken(states[1..], t))
  {
    ClaimedIsTaken(states[0], t, count, states[1..]);
  }

  /** It takes no more than so many steps of its own, whatever the other threads do meanwhile. */
  lemma DequeueIsWaitFree(states: seq<State>, t: Tid, count: nat)
    requires DequeueCall(states, t, count) && Inv(states[0])
    ensures Steps(states[1..], t) <= 6 * count + 7
  {
    ClaimBegins(states[0], t, count);
    DequeueGoesOn(states[1..], t);
  }

  /** Only consumer t moves. */
  predicate Consumes(states: seq<State>, t: Tid) {
    && |states| > 0
    && (|states| > 1 ==>
          ConsumerCan(states[0], t) && states[1] == ConsumerStep(states[0], t) && Consumes(states[1..], t))
  }

  lemma OwnStep(s: State, t: Tid) returns (s': State)
    requires Inv(s) && t in s.consumers && s.consumers[t] != Idle
    ensures Next(false, s, s') && Inv(s') && t in s'.consumers && Work(s'.consumers[t]) < Work(s.consumers[t])
    ensures ConsumerCan(s, t) && s' == ConsumerStep(s, t)
  {
    NeverStuck(s, t);
    s' := ConsumerStep(s, t);
    DequeueStep(s, t);
    ConsumerStepKeepsInv(s, t);
  }

  lemma Prepend(s: State, states: seq<State>, t: Tid)
    requires t in s.consumers && s.consumers[t] != Idle && InDequeue(states, t) && Next(false, s, states[0])
    requires Consumes(states, t) && ConsumerCan(s, t) && states[0] == ConsumerStep(s, t)
    ensures InDequeue([s] + states, t) && Consumes([s] + states, t)
  {
    assert ([s] + states)[1..] == states;
  }

  /** It gets to its end by steps of its own alone. */
  lemma {:induction false} DequeueEnds(s: State, t: Tid) returns (states: seq<State>)
    requires Inv(s) && t in s.consumers
    ensures InDequeue(states, t) && Consumes(states, t) && states[0] == s
    ensures var s' := states[|states| - 1]; t in s'.consumers && s'.consumers[t] == Idle
    decreases Work(s.consumers[t])
  {
    if s.consumers[t] == Idle {
      states := [s];
    } else {
      var s' := OwnStep(s, t);
      var more := DequeueEnds(s', t);
      Prepend(s, more, t);
      states := [s] + more;
    }
  }

  /** From every state of every run, a dequeue of any number of elements that are there gets them. */
  lemma DequeueSucceeds(s: State, t: Tid, count: nat) returns (states: seq<State>)
    requires Inv(s) && CanClaim(s, t, count) && count > 0
    ensures InDequeue(states, t) && Consumes(states, t) && states[0] == Claim(s, t, count)
    ensures TookAll(s, count, Taken(states, t))
    ensures var s' := states[|states| - 1]; t in s'.consumers && s'.consumers[t] == Idle
  {
    ClaimBegins(s, t, count);
    states := DequeueEnds(Claim(s, t, count), t);
    ClaimedIsTaken(s, t, count, states);
  }
}
