/**
 Dequeues that ask for no elements.  Nothing keeps a call of try_dequeue_bulk from asking for none: its tests
 pass when there are elements, it adds nothing to headIndex, looks up the block of the index it finds there,
 and counts no element as consumed.  In an implicit sub-queue other consumers may have emptied this block
 meanwhile, or there may not be one yet.
 */
module NoElements {
  import Arith
  import C = IndexClaims
  import F = FreeList
  import I = ImplicitProducer
  import P = BlockPool
  import Indices
  import OneConsumer
  import opened Blocks
  import opened ImplicitQueue
  import opened Options

  // ---------------------------------------------------- runs of a queue with one implicit sub-queue

  ghost predicate Runs(sizes: iset<nat>, states: seq<P.State>) {
    && P.Run(sizes, states)
    && (forall i | 0 <= i < |states| :: |states[i].implicits| == 1 && states[i].explicits == [])
    && forall i | 0 <= i < |states| - 1 :: Next(sizes, states[i].implicits[0], states[i + 1].implicits[0])
  }

  /** Where the sub-queue is at the end of a run. */
  function Last(states: seq<P.State>): State
    requires |states| > 0 && |states[|states| - 1].implicits| == 1
  {
    states[|states| - 1].implicits[0]
  }

  /** And the free list. */
  function List(states: seq<P.State>): F.State
    requires |states| > 0
  {
    states[|states| - 1].list
  }

  lemma GoesOn(sizes: iset<nat>, states: seq<P.State>, s: P.State) returns (states': seq<P.State>)
    requires Runs(sizes, states) && P.Next(sizes, states[|states| - 1], s)
    requires |s.implicits| == 1 && s.explicits == [] && Next(sizes, Last(states), s.implicits[0])
    ensures Runs(sizes, states') && states' == states + [s]
  {
    P.RunGoesOn(sizes, states, s);
    states' := states + [s];
    forall i | 0 <= i < |states'| - 1
      ensures Next(sizes, states'[i].implicits[0], states'[i + 1].implicits[0])
    {
      assert states'[i] == states[i];
    }
  }

  /** A step in which the list takes no part. */
  lemma Move(sizes: iset<nat>, states: seq<P.State>, y: State) returns (states': seq<P.State>)
    requires Runs(sizes, states) && Next(sizes, Last(states), y) && y.sub.freed == Last(states).sub.freed
    requires !(Last(states).sub.pc.Requisition? && y.sub.pc.ResetCount?)
    ensures Runs(sizes, states') && states'[0] == states[0] && Last(states') == y && List(states') == List(states)
  {
    var s := states[|states| - 1];
    var s' := s.(implicits := [y]);
    assert s'.implicits == s.implicits[0 := y];
    assert P.ImplicitMoves(sizes, s, s', 0);
    assert P.ImplicitNext(sizes, s, s', 0);
    states' := GoesOn(sizes, states, s');
  }

  lemma Produce(sizes: iset<nat>, states: seq<P.State>, c: I.Choice) returns (states': seq<P.State>)
    requires Runs(sizes, states) && I.ProducerCan(Last(states).sub, c) && !Last(states).sub.pc.Advancing?
    requires !(Last(states).sub.pc.Requisition? && c.Gets?)
    ensures Runs(sizes, states') && states'[0] == states[0] && List(states') == List(states)
    ensures Last(states') == Last(states).(sub := I.ProducerStep(Last(states).sub, c))
  {
    var y' := Last(states).(sub := I.ProducerStep(Last(states).sub, c));
    I.StepHasFrame(Last(states).sub, c);
    assert Produces(Last(states), y');
    states' := Move(sizes, states, y');
  }

  /** The allocator gives the producer a new block. */
  lemma GetNew(sizes: iset<nat>, states: seq<P.State>, b: nat) returns (states': seq<P.State>)
    requires Runs(sizes, states) && I.ProducerCan(Last(states).sub, I.Gets(b)) && Last(states).sub.pc.Requisition?
    requires b !in List(states).nodes
    ensures Runs(sizes, states') && states'[0] == states[0] && List(states') == F.Create(List(states), b)
    ensures Last(states') == Last(states).(sub := I.ProducerStep(Last(states).sub, I.Gets(b)))
  {
    var s, y' := states[|states| - 1], Last(states).(sub := I.ProducerStep(Last(states).sub, I.Gets(b)));
    var s' := P.State(F.Create(s.list, b), [], [y']);
    assert s'.implicits == s.implicits[0 := y'];
    assert P.ImplicitGets(s, s', 0, b);
    assert P.ImplicitNext(sizes, s, s', 0);
    assert Produces(Last(states), y');
    states' := GoesOn(sizes, states, s');
  }

  lemma Publish(sizes: iset<nat>, states: seq<P.State>) returns (states': seq<P.State>)
    requires Runs(sizes, states) && I.ProducerCan(Last(states).sub, I.Fails) && Last(states).sub.pc.Advancing?
    ensures Runs(sizes, states') && states'[0] == states[0] && List(states') == List(states)
    ensures Last(states') == State(C.Enqueue(Last(states).counters), I.ProducerStep(Last(states).sub, I.Fails))
  {
    var y' := State(C.Enqueue(Last(states).counters), I.ProducerStep(Last(states).sub, I.Fails));
    assert Publishes(Last(states), y');
    states' := Move(sizes, states, y');
  }

  lemma Consume(sizes: iset<nat>, states: seq<P.State>, t: Tid) returns (states': seq<P.State>)
    requires Runs(sizes, states) && I.ConsumerCan(Last(states).sub, t) && !Last(states).sub.consumers[t].Freeing?
    ensures Runs(sizes, states') && states'[0] == states[0] && List(states') == List(states)
    ensures Last(states') == Last(states).(sub := I.ConsumerStep(Last(states).sub, t))
  {
    var y' := Last(states).(sub := I.ConsumerStep(Last(states).sub, t));
    P.ImplicitConsumerStays(Last(states).sub, t);
    assert Consumes(Last(states), y', t);
    states' := Move(sizes, states, y');
  }

  /** add_block_to_free_list, by a thread that is in no other operation of the list. */
  lemma Return(sizes: iset<nat>, states: seq<P.State>, t: Tid) returns (states': seq<P.State>)
    requires Runs(sizes, states) && I.ConsumerCan(Last(states).sub, t) && Last(states).sub.consumers[t].Freeing?
    requires t in List(states).threads && List(states).threads[t] == F.Idle
    ensures Runs(sizes, states') && states'[0] == states[0]
    ensures |states'| > 1 && states'[|states'| - 2] == states[|states| - 1]
    ensures Last(states') == Last(states).(sub := I.ConsumerStep(Last(states).sub, t))
    ensures var b := Last(states).sub.consumers[t].block;
            && List(states').owned == List(states).owned - {b}
            && List(states').threads == List(states).threads[t := F.Adding(b)]
  {
    var s, y' := states[|states| - 1], Last(states).(sub := I.ConsumerStep(Last(states).sub, t));
    var b := Last(states).sub.consumers[t].block;
    var s' := P.State(s.list.(owned := s.list.owned - {b}, threads := s.list.threads[t := F.Adding(b)]), [], [y']);
    assert s'.implicits == s.implicits[0 := y'];
    assert P.ImplicitReturns(s, s', 0, t);
    assert P.ImplicitNext(sizes, s, s', 0);
    assert Consumes(Last(states), y', t);
    states' := GoesOn(sizes, states, s');
  }

  lemma Test(sizes: iset<nat>, states: seq<P.State>, t: Tid) returns (states': seq<P.State>)
    requires Runs(sizes, states) && Indices.CanTest(Last(states).counters, t)
    ensures Runs(sizes, states') && states'[0] == states[0] && List(states') == List(states)
    ensures Last(states') == Last(states).(counters := C.Advance(Last(states).counters, t))
  {
    var y' := Last(states).(counters := C.Advance(Last(states).counters, t));
    assert Indices.Tests(Last(states).counters, y'.counters, t);
    states' := Move(sizes, states, y');
  }

  /** A whole call up to the fetch_add on headIndex, by a thread that nobody hinders. */
  lemma Call(sizes: iset<nat>, states: seq<P.State>, t: Tid, max: nat) returns (states': seq<P.State>)
    requires Runs(sizes, states) && max in sizes && max <= 1
    requires var c := Last(states).counters;
             t in c.threads && c.threads[t] == C.Idle && Exact(c) && c.headIndex < c.tailIndex
    ensures Runs(sizes, states') && states'[0] == states[0] && List(states') == List(states)
    ensures Last(states').sub == Last(states).sub
    ensures var c, c' := Last(states).counters, Last(states').counters;
            && c'.tailIndex == c.tailIndex && c'.headIndex == c.headIndex
            && c'.overcommit == c.overcommit && c'.optimisticCount == c.optimisticCount + max
            && c'.threads == c.threads[t := C.Returned(max, c.overcommit, c.optimisticCount, |c.attempts|)]
            && |c'.attempts| == |c.attempts| + 1
  {
    var c := Last(states).counters;
    var y' := Last(states).(counters := C.Begin(c, t, max));
    assert Indices.Begins(sizes, c, y'.counters, t, max);
    states' := Move(sizes, states, y');
    states' := Test(sizes, states', t);
    states' := Test(sizes, states', t);
    states' := Test(sizes, states', t);
    states' := Test(sizes, states', t);
  }

  /** No unit is under way: what was taken and not given back was claimed. */
  predicate Exact(c: C.State) {
    c.optimisticCount == c.headIndex + c.overcommit
  }

  lemma Claim(sizes: iset<nat>, states: seq<P.State>, t: Tid) returns (states': seq<P.State>)
    requires Runs(sizes, states) && Indices.Claiming(Last(states).counters, t)
    requires t in Last(states).sub.consumers && Last(states).sub.consumers[t] == I.Idle
    ensures Runs(sizes, states') && states'[0] == states[0] && List(states') == List(states)
    ensures var s := Last(states);
            Last(states') == State(C.Advance(s.counters, t), I.Claim(s.sub, t, s.counters.threads[t].actual))
  {
    var y := Last(states);
    var y' := State(C.Advance(y.counters, t), I.Claim(y.sub, t, y.counters.threads[t].actual));
    assert Claims(y, y', t);
    states' := Move(sizes, states, y');
  }

  // ------------------------------------------------------------------------------- the first block

  function FirstEntry(s: I.State): I.EntryId
    requires |s.headers| == 1 && |s.headers[0].index| > 0
  {
    s.headers[0].index[0]
  }

  /** The index as it was made, with the first block's base in its first entry. */
  ghost predicate OneEntry(s: I.State) {
    && |s.headers| == 1 && s.headers[0].capacity > 0 && |s.headers[0].index| == s.headers[0].capacity
    && s.headers[0].tail == 0
    && FirstEntry(s) in s.keys && s.keys[FirstEntry(s)] == Some(0) && FirstEntry(s) in s.values
    && (forall i | 0 <= i < |s.headers[0].index| :: s.headers[0].index[i] in s.values)
    && (forall e | e in s.values && e != FirstEntry(s) :: s.values[e] == None)
  }

  /** n elements were enqueued, all in block 0, and k of them were consumed. */
  ghost predicate OneBlock(s: I.State, n: nat, k: nat) {
    && OneEntry(s) && s.pc == I.Ready && s.tailBlock == Some(0) && s.tailIndex == n
    && (forall o: nat | o < n :: (0, o) in s.cells)
    && 0 in s.dequeued && s.dequeued[0] == k
    && (if k < BLOCK_SIZE then s.values[FirstEntry(s)] == Some(0) && s.freed == []
        else s.values[FirstEntry(s)] == None && s.freed == [0])
  }

  ghost predicate Stage(s: State, n: nat, k: nat) {
    && OneBlock(s.sub, n, k) && s.sub.headIndex == k && k <= n <= BLOCK_SIZE
    && s.counters.tailIndex == n && s.counters.headIndex == k && Exact(s.counters)
  }

  lemma InFirstBlock(i: nat)
    requires i < BLOCK_SIZE
    ensures BlockOf(i) == 0 && Offset(i) == i && Base(0) == 0 && Base(1) == BLOCK_SIZE
  {
  }

  /** The first element brings a block with it. */
  lemma FirstElement(sizes: iset<nat>, states: seq<P.State>, item: I.Item) returns (states': seq<P.State>)
    requires Runs(sizes, states) && Fresh(Last(states)) && 0 !in List(states).nodes
    ensures Runs(sizes, states') && states'[0] == states[0] && Stage(Last(states'), 1, 0)
    ensures List(states') == F.Create(List(states), 0)
    ensures Last(states').counters == C.Enqueue(Last(states).counters)
    ensures Last(states').sub.consumers == Last(states).sub.consumers
  {
    states' := GetEntry(sizes, states, item);
    states' := GetBlock(sizes, states', item);
    states' := Produce(sizes, states', I.Fails);
    states' := Publish(sizes, states');
  }

  lemma GetBlock(sizes: iset<nat>, states: seq<P.State>, item: I.Item) returns (states': seq<P.State>)
    requires Runs(sizes, states) && OneEntry(Last(states).sub)
    requires Last(states).sub.pc == I.Requisition(item, FirstEntry(Last(states).sub)) && Last(states).sub.owner == []
    requires 0 !in List(states).nodes
    ensures Runs(sizes, states') && states'[0] == states[0] && Last(states').counters == Last(states).counters
    ensures List(states') == F.Create(List(states), 0)
    ensures var s, s' := Last(states).sub, Last(states').sub;
            && OneEntry(s') && s'.pc == I.Constructing(item) && s'.tailBlock == Some(0)
            && 0 in s'.dequeued && s'.dequeued[0] == 0 && s'.values[FirstEntry(s')] == Some(0)
            && s'.tailIndex == s.tailIndex && s'.headIndex == s.headIndex && s'.freed == s.freed
            && s'.consumers == s.consumers
  {
    states' := GetNew(sizes, states, 0);
    states' := Produce(sizes, states', I.Fails);
    states' := Produce(sizes, states', I.Fails);
  }

  lemma GetEntry(sizes: iset<nat>, states: seq<P.State>, item: I.Item) returns (states': seq<P.State>)
    requires Runs(sizes, states) && Fresh(Last(states))
    ensures Runs(sizes, states') && states'[0] == states[0] && List(states') == List(states)
    ensures Last(states').counters == Last(states).counters
    ensures var s, s' := Last(states).sub, Last(states').sub;
            && OneEntry(s') && s'.pc == I.Requisition(item, FirstEntry(s')) && s'.tailIndex == s'.headIndex == 0
            && s'.freed == [] && s'.owner == [] && s'.consumers == s.consumers && s'.items == []
  {
    var s := Last(states).sub;
    Arith.WrapPeriod(0, s.headers[0].capacity);
    var y' := Last(states).(sub := I.BeginEnqueue(s, item));
    assert Begins(Last(states), y');
    states' := Move(sizes, states, y');
    states' := Produce(sizes, states', I.Fails);
    states' := Produce(sizes, states', I.Fails);
    states' := Produce(sizes, states', I.Fails);
  }

  lemma NextElement(sizes: iset<nat>, states: seq<P.State>, item: I.Item, n: nat) returns (states': seq<P.State>)
    requires Runs(sizes, states) && 0 < n < BLOCK_SIZE && Stage(Last(states), n, 0)
    ensures Runs(sizes, states') && states'[0] == states[0] && Stage(Last(states'), n + 1, 0)
    ensures List(states') == List(states)
    ensures Last(states').counters == C.Enqueue(Last(states).counters)
    ensures Last(states').sub.consumers == Last(states).sub.consumers
  {
    InFirstBlock(n);
    var y' := Last(states).(sub := I.BeginEnqueue(Last(states).sub, item));
    assert Begins(Last(states), y');
    states' := Move(sizes, states, y');
    states' := Produce(sizes, states', I.Fails);
    states' := Publish(sizes, states');
  }

  /** So a block can be filled while nobody consumes. */
  lemma {:induction false} Fill(sizes: iset<nat>, states: seq<P.State>, item: I.Item, n: nat)
      returns (states': seq<P.State>)
    requires Runs(sizes, states) && 0 < n <= BLOCK_SIZE && Stage(Last(states), n, 0)
    ensures Runs(sizes, states') && states'[0] == states[0] && Stage(Last(states'), BLOCK_SIZE, 0)
    ensures List(states') == List(states)
    ensures Last(states').counters.threads == Last(states).counters.threads
    ensures Last(states').sub.consumers == Last(states).sub.consumers
    decreases BLOCK_SIZE - n
  {
    if n == BLOCK_SIZE {
      states' := states;
    } else {
      states' := NextElement(sizes, states, item, n);
      states' := Fill(sizes, states', item, n + 1);
    }
  }

  /** All parts know just these threads. */
  ghost predicate Of(s: P.State, tids: set<Tid>) {
    && s.list.threads.Keys == tids
    && forall k | 0 <= k < |s.implicits| :: s.implicits[k].sub.consumers.Keys == tids
  }

  /** A run in which the first block is full and nobody has begun to consume. */
  lemma FullBlock(sizes: iset<nat>, tids: set<Tid>, capacity: nat, item: I.Item) returns (states: seq<P.State>)
    requires capacity > 0
    ensures Runs(sizes, states) && Of(states[0], tids) && Stage(Last(states), BLOCK_SIZE, 0)
    ensures List(states).owned == {0}
    ensures forall t | t in tids :: t in List(states).threads && List(states).threads[t] == F.Idle
    ensures forall t | t in tids :: t in Last(states).counters.threads && Last(states).counters.threads[t] == C.Idle
    ensures forall t | t in tids :: t in Last(states).sub.consumers && Last(states).sub.consumers[t] == I.Idle
  {
    var s := P.RunsBegin(sizes, tids, 0, 1, capacity);
    assert P.Init([s][0]) && Fresh(s.implicits[0]);
    states := FirstElement(sizes, [s], item);
    states := Fill(sizes, states, item, 1);
  }

  // ------------------------------------------------------------------------------ consuming elements

  /** From a claim to the entry of the claimed index's block, or of the next one's. */
  lemma Find(sizes: iset<nat>, states: seq<P.State>, t: Tid) returns (states': seq<P.State>)
    requires Runs(sizes, states) && OneEntry(Last(states).sub) && t in Last(states).sub.consumers
    requires Last(states).sub.consumers[t].Claimed?
    ensures Runs(sizes, states') && states'[0] == states[0] && Last(states').counters == Last(states).counters
    ensures List(states') == List(states)
    ensures var s := Last(states).sub;
            var pc := s.consumers[t];
            var slot := Arith.Wrap(BlockOf(pc.first), s.headers[0].capacity);
            Last(states').sub == s.(consumers := s.consumers[t := I.AtEntry(pc.first, pc.last, 0, slot)])
  {
    var s := Last(states).sub;
    BlocksApart(BlockOf(s.consumers[t].first), 0);
    states' := Consume(sizes, states, t);
    states' := Consume(sizes, states', t);
    states' := Consume(sizes, states', t);
  }

  /** After k elements thread t has handed the block back, or the list is as before. */
  predicate Listed(list: F.State, list': F.State, t: Tid, k: nat) {
    if k < BLOCK_SIZE then list' == list
    else list'.owned == list.owned - {0} && list'.threads == list.threads[t := F.Adding(0)]
  }

  /** A dequeue of one element from the first block. */
  lemma DequeueOne(sizes: iset<nat>, states: seq<P.State>, t: Tid, k: nat) returns (states': seq<P.State>)
    requires Runs(sizes, states) && 1 in sizes && k < BLOCK_SIZE && Stage(Last(states), BLOCK_SIZE, k)
    requires t in Last(states).counters.threads && Last(states).counters.threads[t] == C.Idle
    requires t in Last(states).sub.consumers && Last(states).sub.consumers[t] == I.Idle
    requires t in List(states).threads && List(states).threads[t] == F.Idle
    ensures Runs(sizes, states') && states'[0] == states[0] && Stage(Last(states'), BLOCK_SIZE, k + 1)
    ensures Listed(List(states), List(states'), t, k + 1)
    ensures Last(states').counters.threads == Last(states).counters.threads
    ensures |Last(states').counters.attempts| >= |Last(states).counters.attempts|
    ensures Last(states').sub.consumers == Last(states).sub.consumers
    ensures Last(states').sub.headers == Last(states).sub.headers
  {
    InFirstBlock(k);
    states' := Call(sizes, states, t, 1);
    states' := Claim(sizes, states', t);
    states' := Find(sizes, states', t);
    states' := Fetch(sizes, states', t, k);
  }

  /** The element is read and counted; with the last one, the block goes back. */
  lemma Fetch(sizes: iset<nat>, states: seq<P.State>, t: Tid, k: nat) returns (states': seq<P.State>)
    requires Runs(sizes, states) && k < BLOCK_SIZE && OneBlock(Last(states).sub, BLOCK_SIZE, k)
    requires t in Last(states).sub.consumers && Last(states).sub.consumers[t] == I.AtEntry(k, k + 1, 0, 0)
    requires t in List(states).threads && List(states).threads[t] == F.Idle
    ensures Runs(sizes, states') && states'[0] == states[0] && Last(states').counters == Last(states).counters
    ensures OneBlock(Last(states').sub, BLOCK_SIZE, k + 1)
    ensures Listed(List(states), List(states'), t, k + 1)
    ensures var s, s' := Last(states).sub, Last(states').sub;
            && s'.consumers == s.consumers[t := I.Idle] && s'.headIndex == s.headIndex && s'.headers == s.headers
  {
    InFirstBlock(k);
    states' := Consume(sizes, states, t);
    states' := Consume(sizes, states', t);
    states' := Consume(sizes, states', t);
    if k + 1 == BLOCK_SIZE {
      states' := GiveBack(sizes, states', t);
    }
  }

  lemma GiveBack(sizes: iset<nat>, states: seq<P.State>, t: Tid) returns (states': seq<P.State>)
    requires Runs(sizes, states) && OneEntry(Last(states).sub) && t in Last(states).sub.consumers
    requires var s := Last(states).sub;
             && s.consumers[t].Nulling? && s.consumers[t].entry == FirstEntry(s) && s.consumers[t].block == 0
             && s.consumers[t].number == 0 && s.consumers[t].end == s.consumers[t].last && s.consumers[t].h == 0
    requires t in List(states).threads && List(states).threads[t] == F.Idle
    ensures Runs(sizes, states') && states'[0] == states[0] && Last(states').counters == Last(states).counters
    ensures Listed(List(states), List(states'), t, BLOCK_SIZE)
    ensures var s, s' := Last(states).sub, Last(states').sub;
            s' == s.(values := s.values[FirstEntry(s) := None], nulled := s.nulled + {0}, freed := s.freed + [0],
                     consumers := s.consumers[t := I.Idle])
  {
    states' := Consume(sizes, states, t);
    states' := Return(sizes, states', t);
  }

  lemma {:induction false} DequeueAll(sizes: iset<nat>, states: seq<P.State>, t: Tid, k: nat)
      returns (states': seq<P.State>)
    requires Runs(sizes, states) && 1 in sizes && k <= BLOCK_SIZE && Stage(Last(states), BLOCK_SIZE, k)
    requires t in Last(states).counters.threads && Last(states).counters.threads[t] == C.Idle
    requires t in Last(states).sub.consumers && Last(states).sub.consumers[t] == I.Idle
    requires k < BLOCK_SIZE && t in List(states).threads && List(states).threads[t] == F.Idle
    ensures Runs(sizes, states') && states'[0] == states[0] && Stage(Last(states'), BLOCK_SIZE, BLOCK_SIZE)
    ensures Listed(List(states), List(states'), t, BLOCK_SIZE)
    ensures Last(states').counters.threads == Last(states).counters.threads
    ensures |Last(states').counters.attempts| >= |Last(states).counters.attempts|
    ensures Last(states').sub.consumers == Last(states).sub.consumers
    ensures Last(states').sub.headers == Last(states).sub.headers
    decreases BLOCK_SIZE - k
  {
    states' := DequeueOne(sizes, states, t, k);
    if k + 1 < BLOCK_SIZE {
      states' := DequeueAll(sizes, states', t, k + 1);
    }
  }

  // ------------------------------------------------------------------------------- the two failures

  /**
   A block is handed back twice: z, which asks for none, has found the block of the head before u takes all
   its elements and hands it back; z then finds the count complete, too.
   */
  lemma BlockIsReturnedTwice(sizes: iset<nat>, tids: set<Tid>, z: Tid, u: Tid, capacity: nat, item: I.Item)
      returns (states: seq<P.State>)
    requires 0 in sizes && 1 in sizes && z in tids && u in tids && z != u && capacity > 0
    ensures Runs(sizes, states) && Of(states[0], tids)
    ensures Last(states).sub.freed == [0, 0]
    ensures |states| > 1 && !P.HandsBackOwn(states[|states| - 2])
  {
    states := FullBlock(sizes, tids, capacity, item);
    states := LookUp(sizes, states, z);
    states := DequeueAll(sizes, states, u, 0);
    states := ReturnAgain(sizes, states, z);
  }

  /** A call for none finds the first block. */
  lemma LookUp(sizes: iset<nat>, states: seq<P.State>, z: Tid) returns (states': seq<P.State>)
    requires Runs(sizes, states) && 0 in sizes && Stage(Last(states), BLOCK_SIZE, 0)
    requires z in Last(states).counters.threads && Last(states).counters.threads[z] == C.Idle
    requires z in Last(states).sub.consumers && Last(states).sub.consumers[z] == I.Idle
    ensures Runs(sizes, states') && states'[0] == states[0] && List(states') == List(states)
    ensures Stage(Last(states'), BLOCK_SIZE, 0)
    ensures Last(states').counters.threads == Last(states).counters.threads
    ensures var s, s' := Last(states).sub, Last(states').sub;
            s'.consumers == s.consumers[z := I.Reading(FirstEntry(s'), 0, 0, 0, 0, 0, 0, 0)]
  {
    InFirstBlock(0);
    states' := Call(sizes, states, z, 0);
    states' := Claim(sizes, states', z);
    states' := Find(sizes, states', z);
    states' := Consume(sizes, states', z);
  }

  lemma ReturnAgain(sizes: iset<nat>, states: seq<P.State>, z: Tid) returns (states': seq<P.State>)
    requires Runs(sizes, states) && OneBlock(Last(states).sub, BLOCK_SIZE, BLOCK_SIZE)
    requires z in Last(states).sub.consumers
    requires Last(states).sub.consumers[z] == I.Reading(FirstEntry(Last(states).sub), 0, 0, 0, 0, 0, 0, 0)
    requires 0 !in List(states).owned && z in List(states).threads && List(states).threads[z] == F.Idle
    ensures Runs(sizes, states') && states'[0] == states[0] && Last(states').sub.freed == [0, 0]
    ensures |states'| > 1 && !P.HandsBackOwn(states'[|states'| - 2])
  {
    I.CountNothing(Last(states).sub, z);
    var counted := Consume(sizes, states, z);
    var nulled := Consume(sizes, counted, z);
    assert Last(nulled).sub.consumers[z].Freeing? && Last(nulled).sub.consumers[z].block == 0;
    states' := Return(sizes, nulled, z);
  }

  /**
   A block is looked up that is not there: z's tests have passed when u takes all elements of the block, so
   that z finds the entry of the next block, which was not enqueued to yet.
   */
  lemma NoBlockIsFound(sizes: iset<nat>, tids: set<Tid>, z: Tid, u: Tid, capacity: nat, item: I.Item)
      returns (states: seq<P.State>)
    requires 0 in sizes && 1 in sizes && z in tids && u in tids && z != u && capacity > 0
    ensures Runs(sizes, states) && Of(states[0], tids)
    ensures z in Last(states).sub.consumers && Last(states).sub.consumers[z].AtEntry?
    ensures !I.ConsumerCan(Last(states).sub, z)
  {
    states := FullBlock(sizes, tids, capacity, item);
    states := Call(sizes, states, z, 0);
    states := DequeueAll(sizes, states, u, 0);
    states := Claim(sizes, states, z);
    Join(1, 0);
    states := Find(sizes, states, z);
  }

  // ------------------------------------------------------------------------------ exactly when it is safe

  /** In every run with these consumers each block is handed back once at most, and no consumer is ever stuck. */
  ghost predicate Safe(sizes: iset<nat>, tids: set<Tid>) {
    forall states: seq<State>, i: nat |
      Run(sizes, states) && states[0].sub.consumers.Keys == tids && i < |states| :: Sound(states[i])
  }

  /**
   Consumers take elements one by one, and in bulk, at most as many as one of the sizes says: this is safe if
   and only if nobody asks for none, or there is but one consumer.
   */
  lemma SafeExactlyWhen(sizes: iset<nat>, tids: set<Tid>, t: Tid, item: I.Item)
    requires t in tids
    ensures Safe(sizes + iset{1}, tids) <==> 0 !in sizes || tids == {t}
  {
    var asked := sizes + iset{1};
    if 0 !in sizes || tids == {t} {
      forall states: seq<State>, i: nat |
        Run(asked, states) && states[0].sub.consumers.Keys == tids && i < |states|
        ensures Sound(states[i])
      {
        if tids == {t} {
          OneConsumer.LoneConsumerIsSafe(asked, states, i, t);
        } else {
          RunIsSound(asked, states, i);
        }
      }
    } else {
      var u :| u in tids && u != t;
      var states := BlockIsReturnedTwice(asked, tids, t, u, 1, item);
      var ys := Ys(asked, states);
      assert ys[|ys| - 1].sub.freed[0] == ys[|ys| - 1].sub.freed[1];
      assert !Sound(ys[|ys| - 1]);
    }
  }

  /** The sub-queue's part of a run. */
  lemma Ys(sizes: iset<nat>, states: seq<P.State>) returns (ys: seq<State>)
    requires Runs(sizes, states)
    ensures |ys| == |states| && Run(sizes, ys) && forall i | 0 <= i < |ys| :: ys[i] == states[i].implicits[0]
  {
    ys := seq(|states|, i requires 0 <= i < |states| => states[i].implicits[0]);
  }

  /** In every run with these threads, whoever hands a block back has it in hand. */
  ghost predicate PoolSafe(sizes: iset<nat>, tids: set<Tid>) {
    forall states: seq<P.State>, i: nat |
      P.Run(sizes, states) && Of(states[0], tids) && i < |states| :: P.HandsBackOwn(states[i])
  }

  /** For whole queues with any sub-queues and at least two threads: safe if and only if nobody asks for none. */
  lemma PoolSafeExactlyWhen(sizes: iset<nat>, tids: set<Tid>, z: Tid, u: Tid, item: I.Item)
    requires z in tids && u in tids && z != u
    ensures PoolSafe(sizes + iset{1}, tids) <==> 0 !in sizes
  {
    var asked := sizes + iset{1};
    if 0 !in sizes {
      forall states: seq<P.State>, i: nat | P.Run(asked, states) && Of(states[0], tids) && i < |states|
        ensures P.HandsBackOwn(states[i])
      {
        P.BlocksComeFromTheirOwners(asked, states, i);
      }
    } else {
      var states := BlockIsReturnedTwice(asked, tids, z, u, 1, item);
      assert !P.HandsBackOwn(states[|states| - 2]);
    }
  }
}
