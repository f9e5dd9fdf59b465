/**
 Whole calls on an explicit sub-queue, from their first step to their answer, with steps of other threads in
 between.  Both calls are wait-free: the number of their own steps is bounded whatever the others do.  An enqueue
 ends with its element behind the others unless the allocator or the pool refused what it had to ask for; a dequeue
 ends when it moved out all elements it claimed, in order.
 */
module ExplicitCalls {
  import opened Options
  import opened Blocks
  import opened ExplicitProducer

  // ------------------------------------------------------------------------------------- enqueue

  /** How many steps the producer has before it at most. */
  function Left(pc: ProducerPc): nat {
    match pc
    case Ready => 0
    case Checking(_, j) => BLOCK_SIZE + 9 + if j < BLOCK_SIZE then BLOCK_SIZE - j else 0
    case NeedBlock(_) => BLOCK_SIZE + 8
    case Requisition(_) => BLOCK_SIZE + 7
    case Clearing(_, _, _, j) => 6 + if j < BLOCK_SIZE then BLOCK_SIZE - j else 0
    case WritingBase(_) => 5
    case WritingBlock(_) => 4
    case Publishing(_) => 3
    case Constructing(_) => 2
    case Advancing(_) => 1
  }

  /** The producer is about to ask for memory: a larger index, as all slots of its own are in use, or a block. */
  predicate Asks(s: State) {
    && |s.headers| > 0
    && (s.producer.pc.Requisition? || (s.producer.pc.NeedBlock? && s.producer.slotsUsed == Last(s.headers).size))
  }

  /** It asked and got nothing, and gives up; nothing else changes. */
  predicate Refused(s: State, s': State) {
    Asks(s) && s' == s.(producer := s.producer.(pc := Ready))
  }

  /** The element is in the sub-queue, behind all others. */
  predicate Stored(s: State, s': State, item: Item) {
    s'.items == s.items + [item] && s'.tailIndex == s.tailIndex + 1
  }

  /** The call ended with an answer. */
  predicate Answered(s: State, s': State, item: Item) {
    Stored(s, s', item) || Refused(s, s')
  }

  /** The call goes on, and if the producer moved its end is nearer. */
  predicate Nearer(s: State, s': State) {
    && s.producer.pc != Ready && s'.producer.pc != Ready && s'.producer.pc.item == s.producer.pc.item
    && s'.items == s.items && s'.tailIndex == s.tailIndex
    && (s'.producer.pc == s.producer.pc || Left(s'.producer.pc) < Left(s.producer.pc))
  }

  lemma SearchingStep(s: State, c: Choice)
    requires ProducerCan(s, c) && (s.producer.pc.Checking? || s.producer.pc.Clearing?)
    ensures Nearer(s, ProducerStep(s, c))
  {
  }

  lemma AskingStep(s: State, c: Choice)
    requires ProducerCan(s, c) && (s.producer.pc.NeedBlock? || s.producer.pc.Requisition?)
    ensures var s' := ProducerStep(s, c);
            if s'.producer.pc == Ready then Refused(s, s') else Nearer(s, s')
  {
  }

  lemma EntryStep(s: State, c: Choice)
    requires ProducerCan(s, c)
    requires s.producer.pc.WritingBase? || s.producer.pc.WritingBlock? || s.producer.pc.Publishing?
    ensures Nearer(s, ProducerStep(s, c))
  {
  }

  lemma ElementStep(s: State, c: Choice)
    requires ProducerCan(s, c) && (s.producer.pc.Constructing? || s.producer.pc.Advancing?)
    ensures var s' := ProducerStep(s, c);
            if s'.producer.pc == Ready then Stored(s, s', s.producer.pc.item) else Nearer(s, s')
  {
  }

  /** A step of the producer ends the call, one way or the other, or brings it nearer to its end. */
  lemma EnqueueStep(s: State, c: Choice)
    requires ProducerCan(s, c)
    ensures var s' := ProducerStep(s, c);
            if s'.producer.pc == Ready then Answered(s, s', s.producer.pc.item) else Nearer(s, s')
  {
    var pc := s.producer.pc;
    if pc.Checking? || pc.Clearing? {
      SearchingStep(s, c);
    } else if pc.NeedBlock? || pc.Requisition? {
      AskingStep(s, c);
    } else if pc.Constructing? || pc.Advancing? {
      ElementStep(s, c);
    } else {
      EntryStep(s, c);
    }
  }

  /** A step of another thread. */
  ghost predicate Elsewhere(s: State, s': State) {
    && s'.producer == s.producer && s'.items == s.items && s'.tailIndex == s.tailIndex
    && s'.headers == s.headers && s'.owner == s.owner && s.released <= s'.released
  }

  ghost predicate Produces(s: State, s': State) {
    exists c :: ProducerCan(s, c) && s' == ProducerStep(s, c)
  }

  lemma ConsumerElsewhere(s: State, t: Tid)
    requires ConsumerCan(s, t)
    ensures Elsewhere(s, ConsumerStep(s, t))
  {
  }

  lemma WhoseStep(s: State, s': State)
    requires Next(s, s') && s.producer.pc != Ready
    ensures Elsewhere(s, s') || Produces(s, s')
  {
    if t :| ConsumerCan(s, t) && s' == ConsumerStep(s, t) {
      ConsumerElsewhere(s, t);
    }
  }

  lemma StepInCall(s: State, s': State)
    requires Next(s, s') && s.producer.pc != Ready
    ensures if s'.producer.pc == Ready then Answered(s, s', s.producer.pc.item) else Nearer(s, s')
  {
    WhoseStep(s, s');
    if c :| ProducerCan(s, c) && s' == ProducerStep(s, c) {
      EnqueueStep(s, c);
    }
  }

  /** States in a row, the producer being inside a call up to the last one, at which it may be done. */
  ghost predicate InCall(states: seq<State>) {
    && |states| > 0
    && (|states| > 1 ==> states[0].producer.pc != Ready && Next(states[0], states[1]) && InCall(states[1..]))
  }

  /** enqueue(item) from its first step on, to its end or as far as it got. */
  ghost predicate EnqueueCall(states: seq<State>, item: Item) {
    && |states| > 1 && states[0].producer.pc == Ready
    && states[1] == BeginEnqueue(states[0], item) && InCall(states[1..])
  }

  predicate Ended(states: seq<State>)
    requires |states| > 0
  {
    states[|states| - 1].producer.pc == Ready
  }

  /** The steps of the producer's own. */
  function OwnSteps(states: seq<State>): nat {
    if |states| < 2 then 0
    else OwnSteps(states[1..]) + if states[1].producer.pc != states[0].producer.pc then 1 else 0
  }

  lemma CallBegins(s: State, item: Item)
    requires s.producer.pc == Ready
    ensures Within(s, BeginEnqueue(s, item), item) && Left(BeginEnqueue(s, item).producer.pc) <= 2 * BLOCK_SIZE + 9
  {
  }

  /** s' is in the call, and nothing was stored since s. */
  predicate Within(s: State, s': State, item: Item) {
    s'.producer.pc != Ready && s'.producer.pc.item == item && s'.items == s.items && s'.tailIndex == s.tailIndex
  }

  /** The call ended at s', nothing being stored between s and the last step but one. */
  predicate EndsWith(s: State, before: State, s': State, item: Item) {
    Stored(s, s', item) || (Refused(before, s') && s'.items == s.items && s'.tailIndex == s.tailIndex)
  }

  lemma {:induction false} CallGoesOn(states: seq<State>, item: Item)
    requires InCall(states) && states[0].producer.pc != Ready && states[0].producer.pc.item == item
    ensures var n := |states| - 1;
            && OwnSteps(states) + Left(states[n].producer.pc) <= Left(states[0].producer.pc)
            && if Ended(states) then n > 0 && EndsWith(states[0], states[n - 1], states[n], item)
               else Within(states[0], states[n], item)
  {
    if |states| > 1 {
      StepInCall(states[0], states[1]);
      if states[1].producer.pc != Ready {
        CallGoesOn(states[1..], item);
      }
    }
  }

  /**
   An enqueue answers: it ends with its element behind all others, or, with the sub-queue as it was, in a step in
   which it was refused what it had to ask for.
   */
  lemma EnqueueAnswers(states: seq<State>, item: Item)
    requires EnqueueCall(states, item) && Ended(states)
    ensures var n := |states| - 1;
            EndsWith(states[0], states[n - 1], states[n], item)
  {
    CallBegins(states[0], item);
    CallGoesOn(states[1..], item);
  }

  /** It takes no more than so many steps of its own, whatever the consumers do meanwhile. */
  lemma EnqueueIsWaitFree(states: seq<State>, item: Item)
    requires EnqueueCall(states, item)
    ensures OwnSteps(states) <= 2 * BLOCK_SIZE + 10
  {
    CallBegins(states[0], item);
    CallGoesOn(states[1..], item);
  }

  // ------------------------------------------------------------------- what needs no memory at all

  /** All elements of block number k were consumed. */
  ghost predicate AllReleased(s: State, k: int) {
    0 <= k < |s.owner| && forall x: nat | Base(k) <= x < Base(k + 1) :: x in s.released
  }

  /** There is room in the newest block, or the oldest block of the ring was consumed. */
  ghost predicate HasRoom(s: State) {
    Offset(s.tailIndex) != 0 || AllReleased(s, Oldest(s))
  }

  /** The producer found its room, or is about to find it. */
  ghost predicate NeedsNothing(s: State) {
    match s.producer.pc
    case Checking(_, _) => AllReleased(s, Oldest(s))
    case Clearing(_, _, isNew, _) => !isNew
    case NeedBlock(_) => false
    case Requisition(_) => false
    case Ready => false
    case _ => true
  }

  lemma BeginWithRoom(s: State, item: Item)
    requires Inv(s) && s.producer.pc == Ready && HasRoom(s)
    ensures NeedsNothing(BeginEnqueue(s, item)) && BeginEnqueue(s, item).producer.slotsUsed == s.producer.slotsUsed
  {
  }

  /** The flag that the producer looks at is that of a consumed element. */
  lemma FlagIsSet(s: State, c: Choice)
    requires Inv(s) && ProducerCan(s, c) && s.producer.pc.Checking? && AllReleased(s, Oldest(s))
    requires s.producer.pc.j < BLOCK_SIZE
    ensures ProducerStep(s, c).producer.pc.Checking?
  {
    var lo, j := Oldest(s), s.producer.pc.j;
    assert FlagsOk(s.emptyFlags, s.released, s.owner[lo], lo);
    assert IsReleased(s.released, lo, BLOCK_SIZE - 1 - j);
  }

  /** The producer goes on without asking for memory. */
  ghost predicate Provided(s: State, s': State) {
    && !Asks(s) && s'.producer.slotsUsed == s.producer.slotsUsed
    && (s'.producer.pc == Ready || NeedsNothing(s'))
  }

  lemma RoomStep(s: State, c: Choice)
    requires Inv(s) && ProducerCan(s, c) && NeedsNothing(s)
    ensures Provided(s, ProducerStep(s, c))
  {
    if s.producer.pc.Checking? && s.producer.pc.j < BLOCK_SIZE {
      FlagIsSet(s, c);
    }
  }

  lemma RoomElsewhere(s: State, s': State)
    requires Elsewhere(s, s') && NeedsNothing(s)
    ensures Provided(s, s')
  {
  }

  lemma RoomInCall(s: State, s': State)
    requires Inv(s) && Next(s, s') && NeedsNothing(s)
    ensures Provided(s, s')
  {
    WhoseStep(s, s');
    if Elsewhere(s, s') {
      RoomElsewhere(s, s');
      return;
    }
    var c :| ProducerCan(s, c) && s' == ProducerStep(s, c);
    RoomStep(s, c);
  }

  lemma {:induction false} CallNeedsNothing(states: seq<State>)
    requires InCall(states) && Inv(states[0]) && NeedsNothing(states[0])
    ensures var n := |states| - 1;
            && states[n].producer.slotsUsed == states[0].producer.slotsUsed
            && (n > 0 ==> !Asks(states[n - 1]))
  {
    if |states| > 1 {
      RoomInCall(states[0], states[1]);
      NextKeepsInv(states[0], states[1]);
      if states[1].producer.pc != Ready {
        CallNeedsNothing(states[1..]);
      }
    }
  }

  /** With room in the newest block, or a consumed block to reuse, an enqueue takes no memory and cannot fail. */
  lemma EnqueueWithRoomSucceeds(states: seq<State>, item: Item)
    requires EnqueueCall(states, item) && Ended(states) && Inv(states[0]) && HasRoom(states[0])
    ensures var s, s' := states[0], states[|states| - 1];
            Stored(s, s', item) && s'.producer.slotsUsed == s.producer.slotsUsed
  {
    EnqueueAnswers(states, item);
    BeginWithRoom(states[0], item);
    BeginEnqueueKeepsInv(states[0], item);
    CallNeedsNothing(states[1..]);
  }

  // ------------------------------------------------------------------- an enqueue that is not refused

  /** What the allocator and the pool hand out in a call: an index of any contents, a block with any flags. */
  datatype Supply = Supply(junk: Entry, block: Block, flags: seq<bool>)

  /** Until the block is asked for it stays free. */
  predicate Supplies(s: State, g: Supply) {
    && |g.flags| == BLOCK_SIZE
    && (Left(s.producer.pc) > BLOCK_SIZE + 6 || s.producer.pc == Ready ==> BlockIsFree(s, g.block))
  }

  function Granted(s: State, g: Supply): Choice
    requires |s.headers| > 0
  {
    match s.producer.pc
    case NeedBlock(_) => Index(seq(Last(s.headers).size, _ => g.junk))
    case _ => Gets(g.block, g.flags)
  }

  lemma CanGrant(s: State, g: Supply)
    requires Inv(s) && s.producer.pc != Ready && Supplies(s, g)
    ensures ProducerCan(s, Granted(s, g)) && !Granted(s, g).Fails?
  {
    assert HeaderOk(s.headers[|s.headers| - 1], s.owner, Oldest(s));
  }

  /** Up to its requisition the producer's blocks stay the same. */
  lemma StillSupplies(s: State, c: Choice, g: Supply)
    requires ProducerCan(s, c) && s.producer.pc != Ready && Supplies(s, g) && ProducerStep(s, c).producer.pc != Ready
    ensures Supplies(ProducerStep(s, c), g)
  {
    var s' := ProducerStep(s, c);
    if Left(s'.producer.pc) > BLOCK_SIZE + 6 {
      assert s'.owner == s.owner && s'.producer.slotsUsed == s.producer.slotsUsed;
    }
  }

  lemma ConsumersStand(s: State, c: Choice)
    requires ProducerCan(s, c)
    ensures ProducerStep(s, c).consumers == s.consumers
  {
  }

  lemma Moves(s: State, c: Choice)
    requires ProducerCan(s, c)
    ensures ProducerStep(s, c).producer.pc != s.producer.pc
  {
  }

  lemma NotRefused(s: State, c: Choice)
    requires ProducerCan(s, c) && Asks(s) && !c.Fails?
    ensures ProducerStep(s, c).producer.pc != Ready
  {
  }

  /** The producer moves with what it asks for granted. */
  ghost predicate Fills(s: State, s': State) {
    exists c :: ProducerCan(s, c) && !c.Fails? && s' == ProducerStep(s, c)
  }

  /** Only the producer moves. */
  ghost predicate AllFills(states: seq<State>) {
    |states| > 0 && (|states| > 1 ==> Fills(states[0], states[1]) && AllFills(states[1..]))
  }

  lemma ItFills(s: State, c: Choice)
    requires ProducerCan(s, c) && !c.Fails?
    ensures Fills(s, ProducerStep(s, c)) && Next(s, ProducerStep(s, c))
  {
  }

  /** A step in which the producer gets what it asks for, if it asks. */
  lemma GrantedStep(s: State, g: Supply) returns (s': State)
    requires Inv(s) && s.producer.pc != Ready && Supplies(s, g)
    ensures Fills(s, s') && Next(s, s') && Inv(s') && s'.consumers == s.consumers
    ensures if s'.producer.pc == Ready then Stored(s, s', s.producer.pc.item)
            else Nearer(s, s') && Left(s'.producer.pc) < Left(s.producer.pc) && Supplies(s', g)
  {
    CanGrant(s, g);
    var c := Granted(s, g);
    s' := ProducerStep(s, c);
    ItFills(s, c);
    ConsumersStand(s, c);
    ProducerStepKeepsInv(s, c);
    GrantedEffect(s, c);
    if s'.producer.pc != Ready {
      StillSupplies(s, c, g);
    }
  }

  lemma GrantedEffect(s: State, c: Choice)
    requires ProducerCan(s, c) && !c.Fails?
    ensures var s' := ProducerStep(s, c);
            if s'.producer.pc == Ready then Stored(s, s', s.producer.pc.item)
            else Nearer(s, s') && Left(s'.producer.pc) < Left(s.producer.pc)
  {
    EnqueueStep(s, c);
    Moves(s, c);
    if Asks(s) {
      NotRefused(s, c);
    }
  }

  /** The rest of a call that nothing refuses. */
  lemma {:induction false} Grants(s: State, item: Item, g: Supply) returns (states: seq<State>)
    requires Inv(s) && s.producer.pc != Ready && s.producer.pc.item == item && Supplies(s, g)
    ensures InCall(states) && AllFills(states) && states[0] == s && Ended(states)
    ensures var s' := states[|states| - 1];
            Stored(s, s', item) && s'.consumers == s.consumers
    decreases Left(s.producer.pc)
  {
    var s' := GrantedStep(s, g);
    if s'.producer.pc == Ready {
      states := [s, s'];
    } else {
      var more := Grants(s', item, g);
      states := [s] + more;
      assert states[1..] == more;
    }
  }

  lemma BegunSucceeds(s: State, item: Item, g: Supply) returns (states: seq<State>)
    requires Inv(s) && s.producer.pc == Ready && Supplies(s, g)
    ensures InCall(states) && AllFills(states) && Ended(states)
    ensures states[0] == BeginEnqueue(s, item) && states[0].producer.pc != Ready
    ensures var s' := states[|states| - 1];
            Stored(s, s', item) && s'.consumers == s.consumers
  {
    var b := BeginEnqueue(s, item);
    CallBegins(s, item);
    BeginEnqueueKeepsInv(s, item);
    states := Grants(b, item, g);
  }

  /**
   From every state of every run, an enqueue of any element that nothing refuses, with any block that is free and any
   contents of what it is given, gets its element behind the others: by room in the newest block, by reuse, by a new
   block, with a larger index where all slots are in use.
   */
  lemma EnqueueSucceeds(s: State, item: Item, g: Supply) returns (states: seq<State>)
    requires Inv(s) && s.producer.pc == Ready && Supplies(s, g)
    ensures |states| > 1 && states[0] == s && EnqueueCall(states, item) && AllFills(states[1..]) && Ended(states)
    ensures var s' := states[|states| - 1];
            Stored(s, s', item) && s'.consumers == s.consumers
  {
    var more := BegunSucceeds(s, item, g);
    states := [s] + more;
    assert states[1..] == more;
  }

  // ------------------------------------------------------------------------------------- dequeue

  /** Where the consumer's call ends. */
  function Limit(pc: ConsumerPc): nat {
    match pc
    case Idle => 0
    case Claimed(_, last) => last
    case GotHeader(_, last, _) => last
    case GotFront(_, last, _, _, _) => last
    case AtBlock(_, last, _, _) => last
    case Reading(_, _, _, _, last, _, _) => last
    case Releasing(_, _, _, _, last, _, _) => last
  }

  /** The first index that the consumer has not moved out. */
  function Place(pc: ConsumerPc): nat {
    match pc
    case Idle => 0
    case Claimed(first, _) => first
    case GotHeader(first, _, _) => first
    case GotFront(first, _, _, _, _) => first
    case AtBlock(index, _, _, _) => index
    case Reading(_, _, index, _, _, _, _) => index
    case Releasing(_, _, end, _, _, _, _) => end
  }

  function Minus(a: nat, b: nat): nat {
    if a < b then 0 else a - b
  }

  /** How many steps the consumer has before it at most. */
  function Work(pc: ConsumerPc): nat {
    match pc
    case Idle => 0
    case Claimed(first, last) => 6 * Minus(last, first) + 7
    case GotHeader(first, last, _) => 6 * Minus(last, first) + 6
    case GotFront(first, last, _, _, _) => 6 * Minus(last, first) + 5
    case AtBlock(index, last, _, _) => 6 * Minus(last, index) + 4
    case Reading(_, start, index, end, last, _, _) => 2 + Minus(end, index) + Minus(end, start) + Behind(end, last)
    case Releasing(_, start, end, j, last, _, _) => 1 + Minus(end, start + j) + Behind(end, last)
  }

  /** The work in the blocks behind the present one. */
  function Behind(end: nat, last: nat): nat {
    if end == last then 0 else 6 * Minus(last, end) + 4
  }

  /** The consumer moves an element out in this step. */
  predicate Takes(s: State, s': State, t: Tid) {
    && ConsumerCan(s, t) && s.consumers[t].Reading? && s.consumers[t].index < s.consumers[t].end
    && s' == ConsumerStep(s, t)
  }

  /** States in a row, consumer t being inside a call up to the last one, at which it may be done. */
  ghost predicate InDequeue(states: seq<State>, t: Tid) {
    && |states| > 0 && t in states[0].consumers
    && (|states| > 1 ==> states[0].consumers[t] != Idle && Next(states[0], states[1]) && InDequeue(states[1..], t))
  }

  /** A dequeue by t of count elements, from its claim on, to its end or as far as it got. */
  ghost predicate DequeueCall(states: seq<State>, t: Tid, count: nat) {
    && |states| > 1 && CanClaim(states[0], t, count)
    && states[1] == Claim(states[0], t, count) && InDequeue(states[1..], t)
  }

  /** The elements that t takes in the step from s to s'. */
  function First(s: State, s': State, t: Tid): seq<Item> {
    if Takes(s, s', t) then [Fetched(s, t)] else []
  }

  /** What consumer t moved out, in order. */
  function Taken(states: seq<State>, t: Tid): seq<Item> {
    if |states| < 2 then []
    else First(states[0], states[1], t) + Taken(states[1..], t)
  }

  /** The steps of the consumer's own. */
  function Steps(states: seq<State>, t: Tid): nat {
    if |states| < 2 then 0
    else Steps(states[1..], t) + if Moved(states[0], states[1], t) then 1 else 0
  }

  predicate Moved(s: State, s': State, t: Tid) {
    t in s.consumers && t in s'.consumers && s'.consumers[t] != s.consumers[t]
  }

  /** The consumer moves on: by one element if it takes one, and it stops only behind the last one. */
  predicate Advances(pc: ConsumerPc, pc': ConsumerPc, takes: bool) {
    && Work(pc') < Work(pc)
    && if pc' == Idle then !takes && Place(pc) == Limit(pc)
       else Limit(pc') == Limit(pc) && Place(pc') == Place(pc) + if takes then 1 else 0
  }

  lemma FindingAdvances(s: State, t: Tid)
    requires Inv(s) && ConsumerCan(s, t)
    requires s.consumers[t].Claimed? || s.consumers[t].GotHeader? || s.consumers[t].GotFront?
    ensures Advances(s.consumers[t], ConsumerStep(s, t).consumers[t], false)
  {
  }

  lemma BlockAdvances(s: State, t: Tid)
    requires Inv(s) && ConsumerCan(s, t) && s.consumers[t].AtBlock?
    ensures Advances(s.consumers[t], ConsumerStep(s, t).consumers[t], false)
  {
    Split(s.consumers[t].index);
  }

  lemma ReadingAdvances(s: State, t: Tid)
    requires Inv(s) && ConsumerCan(s, t) && s.consumers[t].Reading?
    ensures Advances(s.consumers[t], ConsumerStep(s, t).consumers[t], s.consumers[t].index < s.consumers[t].end)
  {
  }

  lemma ReleasingAdvances(s: State, t: Tid)
    requires Inv(s) && ConsumerCan(s, t) && s.consumers[t].Releasing?
    ensures Advances(s.consumers[t], ConsumerStep(s, t).consumers[t], false)
  {
  }

  /** A step of the consumer's own. */
  lemma DequeueStep(s: State, t: Tid)
    requires Inv(s) && ConsumerCan(s, t)
    ensures var s' := ConsumerStep(s, t);
            && t in s'.consumers && s'.items == s.items
            && Advances(s.consumers[t], s'.consumers[t], Takes(s, s', t))
  {
    var pc := s.consumers[t];
    if pc.AtBlock? {
      BlockAdvances(s, t);
    } else if pc.Reading? {
      ReadingAdvances(s, t);
    } else if pc.Releasing? {
      ReleasingAdvances(s, t);
    } else {
      FindingAdvances(s, t);
    }
  }

  /** A step that leaves consumer t where it is. */
  predicate Bystands(s: State, s': State, t: Tid) {
    t in s.consumers && t in s'.consumers && s'.consumers[t] == s.consumers[t] && s.items <= s'.items
  }

  lemma ProducerBystands(s: State, c: Choice, t: Tid)
    requires ProducerCan(s, c) && t in s.consumers
    ensures Bystands(s, ProducerStep(s, c), t)
  {
    ConsumersStand(s, c);
  }

  lemma OtherBystands(s: State, u: Tid, t: Tid)
    requires ConsumerCan(s, u) && t in s.consumers && t != u
    ensures Bystands(s, ConsumerStep(s, u), t)
  {
  }

  /** What a step of any thread is to consumer t. */
  lemma AnyStep(s: State, s': State, t: Tid)
    requires Next(s, s') && t in s.consumers && s.consumers[t] != Idle
    ensures Bystands(s, s', t) || (ConsumerCan(s, t) && s' == ConsumerStep(s, t))
  {
    if c :| ProducerCan(s, c) && s' == ProducerStep(s, c) {
      ProducerBystands(s, c, t);
    } else if u :| ConsumerCan(s, u) && s' == ConsumerStep(s, u) {
      if u != t {
        OtherBystands(s, u, t);
      }
    }
  }

  lemma PlaceIsInside(s: State, t: Tid)
    requires Inv(s) && t in s.consumers && s.consumers[t] != Idle
    ensures Place(s.consumers[t]) <= Limit(s.consumers[t])
    ensures s.consumers[t].Reading? && s.consumers[t].index < s.consumers[t].end ==>
              Place(s.consumers[t]) < Limit(s.consumers[t])
  {
  }

  /** The step as the call sees it. */
  predicate Seen(s: State, s': State, t: Tid) {
    && t in s.consumers && t in s'.consumers && s.items <= s'.items
    && if Moved(s, s', t) then Advances(s.consumers[t], s'.consumers[t], Takes(s, s', t)) else !Takes(s, s', t)
  }

  lemma StepInDequeue(s: State, s': State, t: Tid)
    requires Inv(s) && Next(s, s') && t in s.consumers && s.consumers[t] != Idle
    ensures Seen(s, s', t)
    ensures Takes(s, s', t) ==> Place(s.consumers[t]) < |s.items| && Fetched(s, t) == s.items[Place(s.consumers[t])]
  {
    AnyStep(s, s', t);
    if ConsumerCan(s, t) && s' == ConsumerStep(s, t) {
      DequeueStep(s, t);
      if Takes(s, s', t) {
        FetchesItsElement(s, t);
      }
    }
  }

  /** The elements from place up to another, in order. */
  predicate Between(place: nat, to: nat, limit: nat, items: seq<Item>, taken: seq<Item>) {
    place <= to <= limit <= |items| && taken == items[place..to]
  }

  lemma BetweenOneMore(place: nat, place': nat, to: nat, limit: nat, items: seq<Item>, items': seq<Item>,
                       first: seq<Item>, taken: seq<Item>)
    requires Between(place, place', limit, items, first) && items <= items' && Between(place', to, limit, items', taken)
    ensures Between(place, to, limit, items, first + taken)
  {
    assert items'[..limit] == items[..limit];
    assert taken == items[place'..to];
  }

  /** Where a consumer that has the given limit stands; it is done when it is idle. */
  function Stop(pc: ConsumerPc, limit: nat): nat {
    if pc == Idle then limit else Place(pc)
  }

  /** What consumer t did between s and s'. */
  predicate Fetches(s: State, s': State, t: Tid, taken: seq<Item>, steps: nat) {
    && t in s.consumers && t in s'.consumers
    && var pc, pc' := s.consumers[t], s'.consumers[t];
    && (pc' != Idle ==> Limit(pc') == Limit(pc))
    && Between(Place(pc), Stop(pc', Limit(pc)), Limit(pc), s.items, taken)
    && steps + Work(pc') <= Work(pc)
  }

  /** A step of any thread, as consumer t sees it. */
  predicate OneStep(s: State, s': State, t: Tid) {
    s.items <= s'.items && Fetches(s, s', t, First(s, s', t), if Moved(s, s', t) then 1 else 0)
  }

  lemma FetchesFirst(s: State, s': State, t: Tid)
    requires Inv(s) && Next(s, s') && t in s.consumers && s.consumers[t] != Idle
    requires Limit(s.consumers[t]) <= |s.items|
    ensures OneStep(s, s', t)
  {
    PlaceIsInside(s, t);
    StepInDequeue(s, s', t);
    FetchesSeen(s, s', t);
  }

  lemma FetchesSeen(s: State, s': State, t: Tid)
    requires Seen(s, s', t) && Place(s.consumers[t]) <= Limit(s.consumers[t]) <= |s.items|
    requires s.consumers[t] != Idle
    requires Takes(s, s', t) ==>
               Place(s.consumers[t]) < Limit(s.consumers[t]) && Fetched(s, t) == s.items[Place(s.consumers[t])]
    ensures OneStep(s, s', t)
  {
  }

  lemma FetchesMore(s: State, s': State, s'': State, t: Tid, first: seq<Item>, step: nat, taken: seq<Item>, steps: nat)
    requires Fetches(s, s', t, first, step) && s.items <= s'.items
    requires s'.consumers[t] != Idle && Fetches(s', s'', t, taken, steps)
    ensures Fetches(s, s'', t, first + taken, steps + step)
  {
    var pc, pc', pc'' := s.consumers[t], s'.consumers[t], s''.consumers[t];
    BetweenOneMore(Place(pc), Place(pc'), Stop(pc'', Limit(pc)), Limit(pc), s.items, s'.items, first, taken);
  }

  /** A call as consumer t sees it. */
  ghost predicate Course(states: seq<State>, t: Tid) {
    && |states| > 0 && t in states[0].consumers && Limit(states[0].consumers[t]) <= |states[0].items|
    && Place(states[0].consumers[t]) <= Limit(states[0].consumers[t])
    && (|states| > 1 ==>
          && states[0].consumers[t] != Idle && OneStep(states[0], states[1], t)
          && if states[1].consumers[t] == Idle then |states| == 2 else Course(states[1..], t))
  }

  lemma {:induction false} HasCourse(states: seq<State>, t: Tid)
    requires InDequeue(states, t) && Inv(states[0]) && states[0].consumers[t] != Idle
    requires Limit(states[0].consumers[t]) <= |states[0].items|
    ensures Course(states, t)
  {
    PlaceIsInside(states[0], t);
    if |states| > 1 {
      FetchesFirst(states[0], states[1], t);
      NextKeepsInv(states[0], states[1]);
      if states[1].consumers[t] != Idle {
        HasCourse(states[1..], t);
      }
    }
  }

  lemma {:induction false} CourseFetches(states: seq<State>, t: Tid)
    requires Course(states, t) && states[0].consumers[t] != Idle
    ensures Fetches(states[0], states[|states| - 1], t, Taken(states, t), Steps(states, t))
  {
    if |states| > 1 {
      var s, s', more := states[0], states[1], states[1..];
      if s'.consumers[t] == Idle {
        assert Taken(more, t) == [];
      } else {
        CourseFetches(more, t);
        FetchesMore(s, s', states[|states| - 1], t, First(s, s', t), if Moved(s, s', t) then 1 else 0,
                    Taken(more, t), Steps(more, t));
      }
    }
  }

  lemma DequeueGoesOn(states: seq<State>, t: Tid)
    requires InDequeue(states, t) && Inv(states[0]) && states[0].consumers[t] != Idle
    requires Limit(states[0].consumers[t]) <= |states[0].items|
    ensures Fetches(states[0], states[|states| - 1], t, Taken(states, t), Steps(states, t))
  {
    HasCourse(states, t);
    CourseFetches(states, t);
  }

  lemma ClaimBegins(s: State, t: Tid, count: nat)
    requires Inv(s) && CanClaim(s, t, count)
    ensures var s' := Claim(s, t, count);
            && Inv(s') && s'.items == s.items && s'.consumers[t] == Claimed(s.headIndex, s.headIndex + count)
            && s.headIndex + count <= |s.items|
  {
    ClaimKeepsInv(s, t, count);
  }

  /** The elements from s's head on, so many. */
  predicate TookAll(s: State, count: nat, taken: seq<Item>) {
    s.headIndex + count <= |s.items| && taken == s.items[s.headIndex..s.headIndex + count]
  }

  lemma ClaimedIsTaken(s: State, t: Tid, count: nat, states: seq<State>)
    requires Inv(s) && CanClaim(s, t, count) && InDequeue(states, t) && states[0] == Claim(s, t, count)
    requires var s' := states[|states| - 1]; t in s'.consumers && s'.consumers[t] == Idle
    ensures TookAll(s, count, Taken(states, t))
  {
    ClaimBegins(s, t, count);
    DequeueGoesOn(states, t);
  }

  /** A dequeue that is done moved out just the elements it claimed, each once and in order. */
  lemma DequeueTakesAll(states: seq<State>, t: Tid, count: nat)
    requires DequeueCall(states, t, count) && Inv(states[0])
    requires var s' := states[|states| - 1]; t in s'.consumers && s'.consumers[t] == Idle
    ensures TookAll(states[0], count, Taken(states[1..], t))
  {
    ClaimedIsTaken(states[0], t, count, states[1..]);
  }

  /** It takes no more than so many steps of its own, whatever the other threads do meanwhile. */
  lemma DequeueIsWaitFree(states: seq<State>, t: Tid, count: nat)
    requires DequeueCall(states, t, count) && Inv(states[0])
    ensures Steps(states[1..], t) <= 6 * count + 7
  {
    ClaimBegins(states[0], t, count);
    DequeueGoesOn(states[1..], t);
  }

  /** Only consumer t moves. */
  predicate Consumes(states: seq<State>, t: Tid) {
    && |states| > 0
    && (|states| > 1 ==>
          ConsumerCan(states[0], t) && states[1] == ConsumerStep(states[0], t) && Consumes(states[1..], t))
  }

  lemma OwnStep(s: State, t: Tid) returns (s': State)
    requires Inv(s) && t in s.consumers && s.consumers[t] != Idle
    ensures Next(s, s') && Inv(s') && t in s'.consumers && Work(s'.consumers[t]) < Work(s.consumers[t])
    ensures ConsumerCan(s, t) && s' == ConsumerStep(s, t)
  {
    NeverStuck(s, t);
    s' := ConsumerStep(s, t);
    DequeueStep(s, t);
    ConsumerStepKeepsInv(s, t);
  }

  lemma Prepend(s: State, states: seq<State>, t: Tid)
    requires t in s.consumers && s.consumers[t] != Idle && InDequeue(states, t) && Next(s, states[0])
    requires Consumes(states, t) && ConsumerCan(s, t) && states[0] == ConsumerStep(s, t)
    ensures InDequeue([s] + states, t) && Consumes([s] + states, t)
  {
    assert ([s] + states)[1..] == states;
  }

  /** It gets to its end by steps of its own alone. */
  lemma {:induction false} DequeueEnds(s: State, t: Tid) returns (states: seq<State>)
    requires Inv(s) && t in s.consumers
    ensures InDequeue(states, t) && Consumes(states, t) && states[0] == s
    ensures var s' := states[|states| - 1]; t in s'.consumers && s'.consumers[t] == Idle
    decreases Work(s.consumers[t])
  {
    if s.consumers[t] == Idle {
      states := [s];
    } else {
      var s' := OwnStep(s, t);
      var more := DequeueEnds(s', t);
      Prepend(s, more, t);
      states := [s] + more;
    }
  }

  /** From every state of every run, a dequeue of any number of elements that are there gets them. */
  lemma DequeueSucceeds(s: State, t: Tid, count: nat) returns (states: seq<State>)
    requires Inv(s) && CanClaim(s, t, count)
    ensures InDequeue(states, t) && Consumes(states, t) && states[0] == Claim(s, t, count)
    ensures TookAll(s, count, Taken(states, t))
    ensures var s' := states[|states| - 1]; t in s'.consumers && s'.consumers[t] == Idle
  {
    ClaimBegins(s, t, count);
    states := DequeueEnds(Claim(s, t, count), t);
    ClaimedIsTaken(s, t, count, states);
  }
}
