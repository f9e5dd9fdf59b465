/**
 The storage of a producer without a token: blocks come from the shared pool and go back to it as
 soon as their last element was consumed, in whatever order that happens, and the block index is a
 ring of shared entries whose keys and values are rewritten in place.  The producer and any number
 of consumers take one atomic access per step; a consumer claims indices below tailIndex by the
 protocol of IndexClaims.  A dequeue of at most no elements claims none, and goes on to the block index like
 any other; runs are with or without such dequeues.
 */
module ImplicitProducer {
  import opened Options
  import opened Blocks
  import Arith

  type Tid = nat
  type Block = nat
  type EntryId = nat
  type Item(==, !new)

  /**
   A block index.  Its slots point to entries, which successive indices share.  History variables:
   off is the block number of slot 0, number the one that tail stands for, and below limit every
   block number has had its entry put into this index.
   */
  datatype Header = Header(capacity: nat, tail: nat, index: seq<EntryId>, off: int, number: int, limit: nat)

  datatype ProducerPc =
    | Ready
    | ReadKey(item: Item)
    | ReadValue(item: Item)
    | Growing(item: Item)
    | SetKey(item: Item, entry: EntryId)
    | SetTail(item: Item, entry: EntryId)
    | Requisition(item: Item, entry: EntryId)
    | RewindTail(entry: EntryId)
    | ClearValue(entry: EntryId)
    | ResetCount(item: Item, entry: EntryId, block: Block)
    | SetValue(item: Item, entry: EntryId, block: Block)
    | Constructing(item: Item)
    | Advancing(item: Item)

  /**
   A consumer with indices index .. last - 1 to fetch.  History variables: at is the block number
   that the loaded tail stands for, number the one of a block that the consumer emptied.
   */
  datatype ConsumerPc =
    | Idle
    | Claimed(first: nat, last: nat)
    | GotHeader(first: nat, last: nat, h: nat)
    | GotTail(first: nat, last: nat, h: nat, tail: nat, at: int)
    | AtEntry(index: nat, last: nat, h: nat, slot: nat)
    | Reading(entry: EntryId, block: Block, start: nat, index: nat, end: nat, last: nat, h: nat, slot: nat)
    | Nulling(entry: EntryId, block: Block, number: nat, end: nat, last: nat, h: nat, slot: nat)
    | Freeing(block: Block, number: nat, end: nat, last: nat, h: nat, slot: nat)

  /**
   Shared memory (None in keys is INVALID_BLOCK_BASE, None in values is null), the producer's pc and
   tail block, the consumers.  History variables: entryOf[k] and owner[k] are the entry and the
   block used for block number k, items[i] the element at index i, released the indices that were
   counted as consumed, nulled the block numbers whose entry was reset, freed those handed back to
   the pool in order, lo the least block number whose entry was not rekeyed.
   */
  datatype State = State(
    tailIndex: nat,
    headIndex: nat,
    cells: map<(Block, nat), Item>,
    dequeued: map<Block, nat>,
    keys: map<EntryId, Option<nat>>,
    values: map<EntryId, Option<Block>>,
    headers: seq<Header>,
    pc: ProducerPc,
    tailBlock: Option<Block>,
    consumers: map<Tid, ConsumerPc>,
    entryOf: seq<EntryId>,
    owner: seq<Block>,
    items: seq<Item>,
    released: set<nat>,
    nulled: set<nat>,
    freed: seq<nat>,
    lo: nat)

  predicate Distinct(s: seq<nat>) {
    forall i, j | 0 <= i < j < |s| :: s[i] != s[j]
  }

  ghost predicate Init(s: State) {
    && s.tailIndex == s.headIndex == s.lo == 0
    && |s.headers| == 1
    && var h := s.headers[0];
    && h.capacity > 0 && |h.index| == h.capacity && Distinct(h.index)
    && h.tail == h.capacity - 1 && h.off == 0 && h.number == -1 && h.limit == 0
    && (forall i | 0 <= i < |h.index| :: h.index[i] in s.keys && h.index[i] in s.values && s.keys[h.index[i]] == None)
    && s.keys.Keys == s.values.Keys
    && s.pc == Ready && s.tailBlock == None
    && (forall t | t in s.consumers :: s.consumers[t] == Idle)
    && s.entryOf == [] && s.owner == [] && s.items == [] && s.freed == [] && s.released == {} && s.nulled == {}
  }

  function Last(headers: seq<Header>): Header
    requires |headers| > 0
  {
    headers[|headers| - 1]
  }

  function SetLast(headers: seq<Header>, h: Header): seq<Header>
    requires |headers| > 0
  {
    headers[|headers| - 1 := h]
  }

  // ------------------------------------------------------------------------------ producer steps

  /** enqueue(item) begins: the end of a block was reached, or there is room in the current one. */
  function BeginEnqueue(s: State, item: Item): State
    requires s.pc == Ready
  {
    s.(pc := if Offset(s.tailIndex) == 0 then ReadKey(item) else Constructing(item))
  }

  /**
   new_block_index: twice the capacity; the old index's entries from the one behind its tail round
   to its tail, then the new entries.
   */
  function Grown(h: Header, entries: seq<EntryId>): Header
    requires h.capacity > 0 && |h.index| == h.capacity == |entries|
  {
    Header(2 * h.capacity, h.capacity - 1,
           seq(h.capacity, i requires 0 <= i < h.capacity => h.index[Arith.Wrap(h.tail + 1 + i, h.capacity)]) + entries,
           h.number + 1 - h.capacity, h.number, h.limit)
  }

  /** How the allocator and the block pool answer, where the producer asks them. */
  datatype Choice = Fails | Entries(ids: seq<EntryId>, junk: map<EntryId, Option<Block>>) | Gets(block: Block)

  /** The block is in use here: it was taken for a block number that was not handed back yet. */
  ghost predicate InUse(s: State, b: Block) {
    exists k :: 0 <= k < |s.owner| && k !in s.freed && s.owner[k] == b
  }

  function NewTail(h: Header): nat
    requires h.capacity > 0
  {
    Arith.Wrap(h.tail + 1, h.capacity)
  }

  ghost predicate ProducerCan(s: State, c: Choice) {
    && |s.headers| > 0
    && var h := Last(s.headers);
    && h.capacity > 0 && |h.index| == h.capacity
    && match s.pc
       case Ready => false
       case ReadKey(_) => h.index[NewTail(h)] in s.keys
       case ReadValue(_) => h.index[NewTail(h)] in s.values
       case Growing(_) =>
         c.Fails? || (c.Entries? && |c.ids| == h.capacity && Distinct(c.ids)
                      && (forall e :: e in c.junk <==> e in c.ids)
                      && forall e | e in c.ids :: e !in s.keys)
       case Requisition(_, _) => c.Fails? || (c.Gets? && !InUse(s, c.block))
       case Constructing(_) => s.tailBlock.Some?
       case _ => true
  }

  function Max(a: int, b: int): int {
    if a < b then b else a
  }

  /** New entries have no key yet; what their values hold is up to the allocator. */
  function NoKeys(entries: seq<EntryId>): map<EntryId, Option<nat>> {
    map e | e in entries :: None
  }

  function ProducerStep(s: State, c: Choice): State
    requires |s.headers| > 0 && Last(s.headers).capacity > 0 && |Last(s.headers).index| == Last(s.headers).capacity
    requires s.pc.ReadKey? ==> Last(s.headers).index[NewTail(Last(s.headers))] in s.keys
    requires s.pc.ReadValue? ==> Last(s.headers).index[NewTail(Last(s.headers))] in s.values
    requires s.pc.Growing? && c.Entries? ==> |c.ids| == Last(s.headers).capacity
    requires s.pc.Constructing? ==> s.tailBlock.Some?
  {
    var h := Last(s.headers);
    match s.pc
    case Ready => s
    case ReadKey(item) =>
      var e := h.index[NewTail(h)];
      s.(pc := if s.keys[e] == None then SetKey(item, e) else ReadValue(item))
    case ReadValue(item) =>
      var e := h.index[NewTail(h)];
      s.(pc := if s.values[e] == None then SetKey(item, e) else Growing(item))
    case Growing(item) =>
      if c.Entries? then
        s.(headers := s.headers + [Grown(h, c.ids)],
           keys := s.keys + NoKeys(c.ids),
           values := s.values + c.junk,
           pc := SetKey(item, c.ids[0]))
      else s.(pc := Ready)
    case SetKey(item, e) =>
      var p := |s.owner|;
      s.(keys := s.keys[e := Some(s.tailIndex)],
         entryOf := if |s.entryOf| == p then s.entryOf + [e] else s.entryOf,
         headers := SetLast(s.headers, h.(limit := p + 1)),
         lo := Max(s.lo, p + 1 - h.capacity),
         pc := SetTail(item, e))
    case SetTail(item, e) =>
      s.(headers := SetLast(s.headers, h.(tail := NewTail(h), number := h.number + 1)), pc := Requisition(item, e))
    case Requisition(item, e) =>
      s.(pc := if c.Gets? then ResetCount(item, e, c.block) else RewindTail(e))
    case RewindTail(e) =>
      s.(headers := SetLast(s.headers, h.(tail := Arith.Wrap(h.tail - 1, h.capacity), number := h.number - 1)),
         pc := ClearValue(e))
    case ClearValue(e) =>
      s.(values := s.values[e := None], pc := Ready)
    case ResetCount(item, e, b) =>
      s.(dequeued := s.dequeued[b := 0], pc := SetValue(item, e, b))
    case SetValue(item, e, b) =>
      s.(values := s.values[e := Some(b)], tailBlock := Some(b), owner := s.owner + [b], pc := Constructing(item))
    case Constructing(item) =>
      s.(cells := s.cells[(s.tailBlock.value, Offset(s.tailIndex)) := item], pc := Advancing(item))
    case Advancing(item) =>
      s.(tailIndex := s.tailIndex + 1, items := s.items + [item], pc := Ready)
  }

  /** What a step of the producer does to its blocks and the indices. */
  ghost predicate ProducerFrame(s: State, s': State, gets: bool) {
    && s'.freed == s.freed && s'.headIndex == s.headIndex
    && s'.tailIndex == s.tailIndex + (if s.pc.Advancing? then 1 else 0)
    && s'.owner == (if s.pc.SetValue? then s.owner + [s.pc.block] else s.owner)
    && (s'.pc.ResetCount? ==> s.pc.Requisition? && gets)
    && (s'.pc.SetValue? ==> s.pc.ResetCount? && s'.pc.block == s.pc.block)
  }

  lemma TestingFrame(s: State, c: Choice)
    requires ProducerCan(s, c) && (s.pc.ReadKey? || s.pc.ReadValue?)
    ensures ProducerFrame(s, ProducerStep(s, c), c.Gets?)
  {
  }

  lemma IndexFrame(s: State, c: Choice)
    requires ProducerCan(s, c) && (s.pc.Growing? || s.pc.SetKey? || s.pc.SetTail?)
    ensures ProducerFrame(s, ProducerStep(s, c), c.Gets?)
  {
  }

  lemma RewindingFrame(s: State, c: Choice)
    requires ProducerCan(s, c) && (s.pc.RewindTail? || s.pc.ClearValue?)
    ensures ProducerFrame(s, ProducerStep(s, c), c.Gets?)
  {
  }

  lemma BlockFrame(s: State, c: Choice)
    requires ProducerCan(s, c) && (s.pc.Requisition? || s.pc.ResetCount? || s.pc.SetValue?)
    ensures ProducerFrame(s, ProducerStep(s, c), c.Gets?)
  {
  }

  lemma ElementFrame(s: State, c: Choice)
    requires ProducerCan(s, c) && (s.pc.Constructing? || s.pc.Advancing?)
    ensures ProducerFrame(s, ProducerStep(s, c), c.Gets?)
  {
  }

  lemma StepHasFrame(s: State, c: Choice)
    requires ProducerCan(s, c)
    ensures ProducerFrame(s, ProducerStep(s, c), c.Gets?)
  {
    if s.pc.ReadKey? || s.pc.ReadValue? {
      TestingFrame(s, c);
    } else if s.pc.Growing? || s.pc.SetKey? || s.pc.SetTail? {
      IndexFrame(s, c);
    } else if s.pc.RewindTail? || s.pc.ClearValue? {
      RewindingFrame(s, c);
    } else if s.pc.Requisition? || s.pc.ResetCount? || s.pc.SetValue? {
      BlockFrame(s, c);
    } else {
      ElementFrame(s, c);
    }
  }

  // ------------------------------------------------------------------------------ consumer steps

  /** What the tests of a consumer say: elements were enqueued, and so many are there. */
  predicate CanClaim(s: State, t: Tid, count: nat) {
    t in s.consumers && s.consumers[t] == Idle && 0 < s.tailIndex && s.headIndex + count <= s.tailIndex
  }

  /** headIndex.fetch_add by a consumer whose tests passed. */
  function Claim(s: State, t: Tid, count: nat): State
    requires t in s.consumers && s.consumers[t] == Idle
  {
    s.(headIndex := s.headIndex + count,
       consumers := s.consumers[t := Claimed(s.headIndex, s.headIndex + count)])
  }

  predicate ConsumerCan(s: State, t: Tid) {
    && t in s.consumers
    && match s.consumers[t]
       case Idle => false
       case Claimed(_, _) => |s.headers| > 0
       case GotHeader(_, _, h) => h < |s.headers|
       case GotTail(_, _, h, tail, _) =>
         && h < |s.headers| && tail < |s.headers[h].index| == s.headers[h].capacity
         && s.headers[h].index[tail] in s.keys && s.keys[s.headers[h].index[tail]].Some?
       case AtEntry(_, _, h, slot) =>
         && h < |s.headers| && slot < |s.headers[h].index|
         && s.headers[h].index[slot] in s.values && s.values[s.headers[h].index[slot]].Some?
       case Reading(_, b, start, index, end, _, h, _) =>
         && start <= end && h < |s.headers| && s.headers[h].capacity > 0
         && (if index < end then (b, Offset(index)) in s.cells else b in s.dequeued)
       case Nulling(_, _, _, _, _, h, _) => h < |s.headers| && s.headers[h].capacity > 0
       case Freeing(_, _, _, _, h, _) => h < |s.headers| && s.headers[h].capacity > 0
  }

  function Min(a: nat, b: nat): nat {
    if a < b then a else b
  }

  /** The indices start .. end - 1. */
  function Range(start: nat, end: nat): (r: set<nat>)
    ensures forall i: nat :: i in r <==> start <= i < end
    decreases end - start
  {
    if start >= end then {} else {start} + Range(start + 1, end)
  }

  /** What a consumer does after it is done with a block. */
  function Onward(headers: seq<Header>, end: nat, last: nat, h: nat, slot: nat): ConsumerPc
    requires h < |headers| && headers[h].capacity > 0
  {
    if end == last then Idle else AtEntry(end, last, h, Arith.Wrap(slot + 1, headers[h].capacity))
  }

  /** set_many_empty is true for the consumer that brings the count to BLOCK_SIZE. */
  function AfterCount(headers: seq<Header>, count: nat, e: EntryId, b: Block, k: nat, end: nat, last: nat, h: nat,
                      slot: nat): ConsumerPc
    requires h < |headers| && headers[h].capacity > 0
  {
    if count == BLOCK_SIZE then Nulling(e, b, k, end, last, h, slot) else Onward(headers, end, last, h, slot)
  }

  function ConsumerStep(s: State, t: Tid): State
    requires ConsumerCan(s, t)
  {
    match s.consumers[t]
    case Idle => s
    case Claimed(first, last) =>
      s.(consumers := s.consumers[t := GotHeader(first, last, |s.headers| - 1)])
    case GotHeader(first, last, h) =>
      s.(consumers := s.consumers[t := GotTail(first, last, h, s.headers[h].tail, s.headers[h].number)])
    case GotTail(first, last, h, tail, _) =>
      // the signed distance of the first index's block from the tail entry's block, in blocks
      var offset := (Base(BlockOf(first)) - s.keys[s.headers[h].index[tail]].value) / BLOCK_SIZE;
      s.(consumers := s.consumers[t := AtEntry(first, last, h, Arith.Wrap(tail + offset, s.headers[h].capacity))])
    case AtEntry(index, last, h, slot) =>
      var e := s.headers[h].index[slot];
      var end := Min(last, Base(BlockOf(index)) + BLOCK_SIZE);
      s.(consumers := s.consumers[t := Reading(e, s.values[e].value, index, index, end, last, h, slot)])
    case Reading(e, b, start, index, end, last, h, slot) =>
      if index < end then
        // moving the element out; what it yields is Fetched below
        s.(consumers := s.consumers[t := Reading(e, b, start, index + 1, end, last, h, slot)])
      else
        var count := s.dequeued[b] + (end - start);
        s.(dequeued := s.dequeued[b := count],
           released := s.released + Range(start, end),
           consumers := s.consumers[t := AfterCount(s.headers, count, e, b, BlockOf(start), end, last, h, slot)])
    case Nulling(e, b, k, end, last, h, slot) =>
      s.(values := s.values[e := None], nulled := s.nulled + {k},
         consumers := s.consumers[t := Freeing(b, k, end, last, h, slot)])
    case Freeing(b, k, end, last, h, slot) =>
      s.(freed := s.freed + [k], consumers := s.consumers[t := Onward(s.headers, end, last, h, slot)])
  }

  /** The element that a consumer about to read index moves out. */
  function Fetched(s: State, t: Tid): Item
    requires ConsumerCan(s, t) && s.consumers[t].Reading? && s.consumers[t].index < s.consumers[t].end
  {
    s.cells[(s.consumers[t].block, Offset(s.consumers[t].index))]
  }

  /** zero: whether a dequeue may ask for no elements. */
  ghost predicate Next(zero: bool, s: State, s': State) {
    || (exists item :: s.pc == Ready && s' == BeginEnqueue(s, item))
    || (exists c :: ProducerCan(s, c) && s' == ProducerStep(s, c))
    || (exists t, count: nat :: CanClaim(s, t, count) && (zero || count > 0) && s' == Claim(s, t, count))
    || (exists t :: ConsumerCan(s, t) && s' == ConsumerStep(s, t))
  }

  ghost predicate Run(zero: bool, states: seq<State>) {
    && |states| > 0
    && Init(states[0])
    && forall i | 0 <= i < |states| - 1 :: Next(zero, states[i], states[i + 1])
  }

  // ------------------------------------------------------------------------------- the invariant

  /** The slot of header h that stands for block number k. */
  function SlotOf(h: Header, k: int): nat
    requires h.capacity > 0
  {
    Arith.Wrap(k - h.off, h.capacity)
  }

  ghost predicate EntryOk(h: Header, entryOf: seq<EntryId>, k: nat) {
    h.capacity > 0 && |h.index| == h.capacity && k < |entryOf| && h.index[SlotOf(h, k)] == entryOf[k]
  }

  ghost predicate HeaderOk(h: Header, entryOf: seq<EntryId>, keys: map<EntryId, Option<nat>>, lo: nat) {
    && h.capacity > 0 && |h.index| == h.capacity && Distinct(h.index)
    && h.limit <= |entryOf| && h.limit <= lo + h.capacity
    && h.number < h.limit && h.tail == SlotOf(h, h.number)
    && (forall i | 0 <= i < |h.index| :: h.index[i] in keys)
    && (forall k: nat {:trigger EntryOk(h, entryOf, k)} | lo <= k < h.limit :: EntryOk(h, entryOf, k))
  }

  ghost predicate KeyOk(keys: map<EntryId, Option<nat>>, entryOf: seq<EntryId>, k: nat) {
    k < |entryOf| && entryOf[k] in keys && keys[entryOf[k]] == Some(Base(k))
  }

  ghost predicate ValueOk(s: State, k: nat) {
    && k < |s.owner| <= |s.entryOf| && s.entryOf[k] in s.values
    && s.values[s.entryOf[k]] == if k in s.nulled then None else Some(s.owner[k])
  }

  ghost predicate IsReleased(released: set<nat>, k: nat, o: nat) {
    Base(k) + o in released
  }

  /** The positions of block number k whose elements were counted as consumed. */
  ghost function ReleasedIn(released: set<nat>, k: nat): set<nat> {
    set o: nat | o < BLOCK_SIZE && IsReleased(released, k, o)
  }

  ghost predicate Emptied(released: set<nat>, k: nat) {
    |ReleasedIn(released, k)| == BLOCK_SIZE
  }

  /** Consumer t emptied block number k and is on its way to hand it back. */
  ghost predicate Returns(s: State, t: Tid, k: nat) {
    && t in s.consumers
    && (s.consumers[t].Nulling? || s.consumers[t].Freeing?) && s.consumers[t].number == k
  }

  ghost predicate Returned(s: State, k: nat) {
    exists t :: Returns(s, t, k)
  }

  ghost predicate CountOk(s: State, k: nat) {
    && k < |s.owner|
    && (k !in s.freed ==> s.owner[k] in s.dequeued && s.dequeued[s.owner[k]] == |ReleasedIn(s.released, k)|)
    && (Emptied(s.released, k) <==> k in s.nulled || Returned(s, k))
    && (k in s.nulled && k !in s.freed ==> Returned(s, k))
  }

  ghost predicate CellOk(s: State, i: nat) {
    && i < |s.items| && BlockOf(i) < |s.owner|
    && (s.owner[BlockOf(i)], Offset(i)) in s.cells
    && s.cells[(s.owner[BlockOf(i)], Offset(i))] == s.items[i]
  }

  /** The consumer still needs element i: it claimed it and has not counted it as consumed. */
  predicate Holds(pc: ConsumerPc, i: nat) {
    match pc
    case Idle => false
    case Claimed(first, last) => first <= i < last
    case GotHeader(first, last, _) => first <= i < last
    case GotTail(first, last, _, _, _) => first <= i < last
    case AtEntry(index, last, _, _) => index <= i < last
    case Reading(_, _, start, _, _, last, _, _) => start <= i < last
    case Nulling(_, _, _, end, last, _, _) => end <= i < last
    case Freeing(_, _, end, last, _, _) => end <= i < last
  }

  ghost predicate ConsumerOk(headers: seq<Header>, entryOf: seq<EntryId>, owner: seq<Block>, pc: ConsumerPc) {
    match pc
    case Idle => true
    case Claimed(first, last) => first < last
    case GotHeader(first, last, h) =>
      first < last && h < |headers| && BlockOf(last - 1) < headers[h].limit
    case GotTail(first, last, h, tail, at) =>
      && first < last && h < |headers| && headers[h].capacity > 0
      && BlockOf(last - 1) <= at < headers[h].limit && tail == SlotOf(headers[h], at)
    case AtEntry(index, last, h, slot) =>
      && index < last && h < |headers| && headers[h].capacity > 0
      && BlockOf(last - 1) < headers[h].limit && slot == SlotOf(headers[h], BlockOf(index))
    case Reading(e, b, start, index, end, last, h, slot) =>
      && start <= index <= end && start < end
      && end == Min(last, Base(BlockOf(start)) + BLOCK_SIZE)
      && InBlock(headers, entryOf, owner, e, b, BlockOf(start), end, last, h, slot)
    case Nulling(e, b, k, end, last, h, slot) =>
      InBlock(headers, entryOf, owner, e, b, k, end, last, h, slot)
    case Freeing(b, k, end, last, h, slot) =>
      k < |entryOf| && InBlock(headers, entryOf, owner, entryOf[k], b, k, end, last, h, slot)
  }

  ghost predicate InBlock(headers: seq<Header>, entryOf: seq<EntryId>, owner: seq<Block>,
                          e: EntryId, b: Block, k: nat, end: nat, last: nat, h: nat, slot: nat) {
    && end <= last && h < |headers| && headers[h].capacity > 0
    && (end < last ==> end == Base(k) + BLOCK_SIZE)
    && last > 0 && BlockOf(last - 1) < headers[h].limit && slot == SlotOf(headers[h], k)
    && k < |owner| && b == owner[k] && k < |entryOf| && e == entryOf[k]
  }

  ghost predicate HeldBy(s: State, t: Tid, i: nat) {
    t in s.consumers && Holds(s.consumers[t], i)
  }

  ghost predicate Held(s: State, i: nat) {
    exists t :: HeldBy(s, t, i)
  }

  ghost predicate HoldingsOk(s: State) {
    && (forall t, i: nat | HeldBy(s, t, i) :: i < s.headIndex && i !in s.released)
    && (forall t, u, i: nat | HeldBy(s, t, i) && HeldBy(s, u, i) :: t == u)
    && (forall i: nat | i in s.released :: i < s.headIndex)
    && (forall i: nat | i < s.headIndex :: i in s.released || Held(s, i))
  }

  /** At most one consumer hands a block back, and it does so once. */
  ghost predicate ReturnsOk(s: State) {
    && (forall t, u, k: nat | Returns(s, t, k) && Returns(s, u, k) :: t == u)
    && (forall t, k: nat | Returns(s, t, k) ::
        k < |s.owner| && k !in s.freed && (s.consumers[t].Freeing? <==> k in s.nulled))
    && Distinct(s.freed)
    && (forall k | k in s.freed :: k in s.nulled)
    && (forall k | k in s.nulled :: k < |s.owner|)
  }

  /** tailIndex lies in the newest block, or exactly behind it. */
  ghost predicate TailInNewest(s: State, room: bool) {
    && |s.owner| > 0 && Base(|s.owner| - 1) <= s.tailIndex
    && (if room then s.tailIndex < Base(|s.owner|) else Base(|s.owner| - 1) < s.tailIndex <= Base(|s.owner|))
  }

  /** The entry of the next block number was keyed by an attempt that then failed. */
  ghost predicate Rewound(s: State) {
    && |s.entryOf| == |s.owner| + 1 && s.tailIndex == Base(|s.owner|)
    && s.entryOf[|s.owner|] in s.values && s.values[s.entryOf[|s.owner|]] == None
  }

  /** Between two blocks: the index ends with the newest block's entry. */
  ghost predicate AtBoundary(s: State)
    requires |s.headers| > 0
  {
    && s.tailIndex == Base(|s.owner|) && Last(s.headers).number == |s.owner| - 1
    && (|s.entryOf| == |s.owner| || Rewound(s))
  }

  /** The entry of the next block number is keyed. */
  ghost predicate Keyed(s: State, e: EntryId)
    requires |s.headers| > 0
  {
    && s.tailIndex == Base(|s.owner|)
    && |s.entryOf| == |s.owner| + 1 && s.entryOf[|s.owner|] == e && e in s.values
  }

  ghost predicate ProducerOk(s: State)
    requires |s.headers| > 0
  {
    var h, p := Last(s.headers), |s.owner|;
    match s.pc
    case Ready =>
      && h.number == p - 1 && (|s.entryOf| == p || Rewound(s))
      && (if p == 0 then s.tailIndex == 0 else TailInNewest(s, false))
    case ReadKey(_) => AtBoundary(s)
    case ReadValue(_) => AtBoundary(s)
    case Growing(_) => AtBoundary(s) && |s.entryOf| == p
    case SetKey(_, e) =>
      && AtBoundary(s) && h.capacity > 0 && |h.index| == h.capacity && h.index[SlotOf(h, p)] == e
      && (forall k: nat | s.lo <= k < p && k < |s.entryOf| && s.entryOf[k] == e :: k in s.nulled)
    case SetTail(_, e) => Keyed(s, e) && h.number == p - 1
    case Requisition(_, e) => Keyed(s, e) && h.number == p
    case RewindTail(e) => Keyed(s, e) && h.number == p
    case ClearValue(e) => Keyed(s, e) && h.number == p - 1
    case ResetCount(_, e, b) => Keyed(s, e) && h.number == p && !InUse(s, b)
    case SetValue(_, e, b) => Keyed(s, e) && h.number == p && !InUse(s, b) && b in s.dequeued && s.dequeued[b] == 0
    case Constructing(_) => |s.entryOf| == p && h.number == p - 1 && TailInNewest(s, true)
    case Advancing(item) =>
      && |s.entryOf| == p && h.number == p - 1 && TailInNewest(s, true)
      && (s.owner[p - 1], Offset(s.tailIndex)) in s.cells && s.cells[(s.owner[p - 1], Offset(s.tailIndex))] == item
  }

  /** The index: every header a consumer may have loaded, and the keys of the entries in use. */
  ghost predicate IndexOk(headers: seq<Header>, entryOf: seq<EntryId>, keys: map<EntryId, Option<nat>>, lo: nat) {
    && |headers| > 0
    && (forall h {:trigger headers[h]} | 0 <= h < |headers| :: HeaderOk(headers[h], entryOf, keys, lo))
    && (forall h | 0 <= h < |headers| - 1 :: headers[h].number == headers[h].limit - 1)
    && Last(headers).limit == |entryOf|
    && (forall k: nat {:trigger KeyOk(keys, entryOf, k)} | lo <= k < |entryOf| :: KeyOk(keys, entryOf, k))
    && (forall k: nat, l: nat | lo <= k < l < |entryOf| :: entryOf[k] != entryOf[l])
  }

  /** The blocks: the values that lead to them, their counts and their elements. */
  ghost predicate BlocksOk(s: State) {
    && (forall k: nat {:trigger ValueOk(s, k)} | s.lo <= k < |s.owner| :: ValueOk(s, k))
    && (forall k: nat | k < s.lo && k < |s.owner| :: k in s.nulled)
    && (forall k: nat {:trigger CountOk(s, k)} | k < |s.owner| :: CountOk(s, k))
    && (forall k: nat, l: nat | k < l < |s.owner| && k !in s.freed && l !in s.freed :: s.owner[k] != s.owner[l])
    && (forall i: nat {:trigger CellOk(s, i)} | i < s.tailIndex && i !in s.released :: CellOk(s, i))
  }

  ghost predicate ConsumersOk(headers: seq<Header>, entryOf: seq<EntryId>, owner: seq<Block>,
                              consumers: map<Tid, ConsumerPc>) {
    forall t | t in consumers :: ConsumerOk(headers, entryOf, owner, consumers[t])
  }

  ghost predicate ShapeOk(s: State) {
    && |s.headers| > 0
    && s.headIndex <= s.tailIndex == |s.items|
    && (forall e | e in s.keys :: e in s.values)
    && s.lo <= |s.owner| <= |s.entryOf| <= |s.owner| + 1
    && s.tailIndex <= Base(|s.owner|)
    && s.tailBlock == (if |s.owner| == 0 then None else Some(s.owner[|s.owner| - 1]))
  }

  ghost predicate Inv(s: State) {
    && ShapeOk(s)
    && ProducerOk(s)
    && IndexOk(s.headers, s.entryOf, s.keys, s.lo)
    && BlocksOk(s)
    && ConsumersOk(s.headers, s.entryOf, s.owner, s.consumers)
    && HoldingsOk(s)
    && ReturnsOk(s)
  }

  /** There are runs with any consumers and a first index of any capacity. */
  lemma RunsBegin(tids: set<Tid>, capacity: nat) returns (s: State)
    requires capacity > 0
    ensures s.consumers.Keys == tids && |s.headers| == 1 && s.headers[0].capacity == capacity && Init(s)
    ensures (forall e | e in s.values :: s.values[e] == None) && forall zero :: Run(zero, [s])
  {
    var entries: seq<EntryId> := seq(capacity, i => i);
    var keys: map<EntryId, Option<nat>> := map e | e in entries :: None;
    var values: map<EntryId, Option<Block>> := map e | e in entries :: None;
    var header := Header(capacity, capacity - 1, entries, 0, -1, 0);
    var consumers: map<Tid, ConsumerPc> := map t | t in tids :: Idle;
    s := State(0, 0, map[], map[], keys, values, [header], Ready, None, consumers, [], [], [], {}, {}, [], 0);
    assert forall i | 0 <= i < capacity :: entries[i] in entries;
  }

  lemma RunGoesOn(zero: bool, states: seq<State>, s: State)
    requires Run(zero, states) && Next(zero, states[|states| - 1], s)
    ensures Run(zero, states + [s])
  {
    var states' := states + [s];
    forall i | 0 <= i < |states'| - 1
      ensures Next(zero, states'[i], states'[i + 1])
    {
      assert states'[i] == states[i];
    }
  }

  lemma InitHasInv(s: State)
    requires Init(s)
    ensures Inv(s)
  {
    assert Arith.Wrap(-1, s.headers[0].capacity) == s.headers[0].capacity - 1;
  }

  // ------------------------------------------------------------- what the invariant says of an index

  lemma {:induction false} RangeSize(start: nat, end: nat)
    requires start <= end
    ensures |Range(start, end)| == end - start
    decreases end - start
  {
    if start < end {
      RangeSize(start + 1, end);
    }
  }

  /** A block all of whose positions count as consumed has every index released. */
  lemma EmptiedMeansReleased(released: set<nat>, k: nat, i: nat)
    requires Emptied(released, k) && BlockOf(i) == k
    ensures i in released
  {
    Split(i);
    if i !in released {
      assert !IsReleased(released, k, Offset(i));
      RangeSize(0, BLOCK_SIZE);
      var rest := Range(0, BLOCK_SIZE) - {Offset(i)};
      assert ReleasedIn(released, k) <= rest;
      Arith.SubsetSize(ReleasedIn(released, k), rest);
      assert false;
    }
  }

  /** The block of an index that exists and was not consumed is live: neither nulled nor freed. */
  lemma UnreleasedIsLive(s: State, i: nat)
    requires BlocksOk(s) && ReturnsOk(s) && BlockOf(i) < |s.owner| && i !in s.released
    ensures BlockOf(i) !in s.nulled && BlockOf(i) !in s.freed && !Returned(s, BlockOf(i)) && s.lo <= BlockOf(i)
    ensures !Emptied(s.released, BlockOf(i))
  {
    var k := BlockOf(i);
    if Emptied(s.released, k) {
      EmptiedMeansReleased(s.released, k, i);
    }
    assert CountOk(s, k);
  }

  /** What a consumer relies on for an index it holds. */
  lemma HeldIsLive(s: State, t: Tid, i: nat)
    requires Inv(s) && HeldBy(s, t, i)
    ensures var k := BlockOf(i);
            && s.lo <= k < |s.owner| && k !in s.nulled && k !in s.freed && !Returned(s, k)
            && ValueOk(s, k) && KeyOk(s.keys, s.entryOf, k) && CountOk(s, k) && CellOk(s, i)
            && !Emptied(s.released, k)
            && (forall h {:trigger s.headers[h]} | 0 <= h < |s.headers| && k < s.headers[h].limit ::
                EntryOk(s.headers[h], s.entryOf, k))
  {
    Between(i, 0, |s.owner|);
    UnreleasedIsLive(s, i);
    assert CellOk(s, i);
    assert ValueOk(s, BlockOf(i)) && KeyOk(s.keys, s.entryOf, BlockOf(i)) && CountOk(s, BlockOf(i));
    forall h | 0 <= h < |s.headers| && BlockOf(i) < s.headers[h].limit
      ensures EntryOk(s.headers[h], s.entryOf, BlockOf(i))
    {
      assert HeaderOk(s.headers[h], s.entryOf, s.keys, s.lo);
    }
  }

  // ---------------------------------------------------- the producer's steps keep the invariant

  /** Nothing about consumers or their accounts changes. */
  ghost predicate SameAccounts(s: State, s': State) {
    && s'.consumers == s.consumers && s'.headIndex == s.headIndex && s'.released == s.released
    && s'.nulled == s.nulled && s'.freed == s.freed && |s.owner| <= |s'.owner|
  }

  lemma AccountsKept(s: State, s': State)
    requires HoldingsOk(s) && ReturnsOk(s) && SameAccounts(s, s')
    ensures HoldingsOk(s') && ReturnsOk(s')
    ensures forall k :: Returned(s', k) <==> Returned(s, k)
  {
    assert forall t, i: nat :: HeldBy(s', t, i) <==> HeldBy(s, t, i);
    assert forall t, k :: Returns(s', t, k) <==> Returns(s, t, k);
    forall i: nat | i < s.headIndex && i !in s.released
      ensures Held(s', i)
    {
      var t :| HeldBy(s, t, i);
      assert HeldBy(s', t, i);
    }
    forall k
      ensures Returned(s', k) <==> Returned(s, k)
    {
      if Returned(s, k) {
        var t :| Returns(s, t, k);
        assert Returns(s', t, k);
      }
      if Returned(s', k) {
        var t :| Returns(s', t, k);
        assert Returns(s, t, k);
      }
    }
  }

  /** The counters of the blocks in use stay. */
  ghost predicate SameCounts(s: State, s': State) {
    forall k: nat | k < |s.owner| && k !in s.freed && s.owner[k] in s.dequeued ::
      s.owner[k] in s'.dequeued && s'.dequeued[s.owner[k]] == s.dequeued[s.owner[k]]
  }

  lemma CountsKept(s: State, s': State, k: nat)
    requires CountOk(s, k) && SameAccounts(s, s') && s.owner <= s'.owner && SameCounts(s, s')
    requires HoldingsOk(s) && ReturnsOk(s)
    ensures CountOk(s', k)
  {
    AccountsKept(s, s');
  }

  lemma PcMoveKeepsInv(s: State, s': State)
    requires Inv(s) && s' == s.(pc := s'.pc) && ProducerOk(s')
    ensures Inv(s')
  {
    AccountsKept(s, s');
    forall k: nat | k < |s'.owner|
      ensures CountOk(s', k)
    {
      assert CountOk(s, k);
      CountsKept(s, s', k);
    }
    forall k: nat | s'.lo <= k < |s'.owner|
      ensures ValueOk(s', k)
    {
      assert ValueOk(s, k);
    }
    forall i: nat | i < s'.tailIndex && i !in s'.released
      ensures CellOk(s', i)
    {
      assert CellOk(s, i);
    }
  }

  lemma BeginProducer(s: State, item: Item)
    requires |s.headers| > 0 && s.pc == Ready && ProducerOk(s)
    ensures ProducerOk(BeginEnqueue(s, item))
  {
    var p := |s.owner|;
    Split(s.tailIndex);
    Join(p, 0);
    if p > 0 {
      Between(s.tailIndex, p - 1, p);
      Join(p - 1, 0);
      if Offset(s.tailIndex) == 0 && s.tailIndex != Base(p) {
        assert false;
      }
    }
  }

  lemma BeginEnqueueKeepsInv(s: State, item: Item)
    requires Inv(s) && s.pc == Ready
    ensures Inv(BeginEnqueue(s, item))
  {
    BeginProducer(s, item);
    PcMoveKeepsInv(s, BeginEnqueue(s, item));
  }

  /** The slot behind the tail stands for the next block number. */
  lemma NewTailSlot(h: Header)
    requires h.capacity > 0 && h.tail == SlotOf(h, h.number)
    ensures NewTail(h) == SlotOf(h, h.number + 1)
  {
    Arith.WrapShift(h.number - h.off, 1, h.capacity);
  }

  lemma ReadSlotKeepsInv(s: State, c: Choice)
    requires Inv(s) && (s.pc.ReadKey? || s.pc.ReadValue?) && ProducerCan(s, c)
    ensures Inv(ProducerStep(s, c))
  {
    var h := Last(s.headers);
    assert HeaderOk(s.headers[|s.headers| - 1], s.entryOf, s.keys, s.lo);
    NewTailSlot(h);
    var e := h.index[NewTail(h)];
    forall k: nat | s.lo <= k < |s.owner| && s.entryOf[k] == e
      ensures s.keys[e].Some? && (s.values[e] == None ==> k in s.nulled)
    {
      assert KeyOk(s.keys, s.entryOf, k) && ValueOk(s, k);
    }
    if Rewound(s) {
      assert EntryOk(h, s.entryOf, |s.owner|);
    }
    PcMoveKeepsInv(s, ProducerStep(s, c));
  }

  // new_block_index

  lemma DifferentSlots(index: seq<EntryId>, i: nat, j: nat)
    requires Distinct(index) && i < |index| && j < |index| && i != j
    ensures index[i] != index[j]
  {
  }

  lemma GrownIndexDistinct(h: Header, entries: seq<EntryId>)
    requires h.capacity > 0 && |h.index| == h.capacity == |entries|
    requires Distinct(h.index) && Distinct(entries)
    requires forall i, j | 0 <= i < |h.index| && 0 <= j < |entries| :: h.index[i] != entries[j]
    ensures Distinct(Grown(h, entries).index)
  {
    var g := Grown(h, entries).index;
    forall i, j | 0 <= i < j < |g|
      ensures g[i] != g[j]
    {
      if j < h.capacity {
        Arith.WrapDistinct(h.tail + 1 + i, h.tail + 1 + j, h.capacity);
        assert g[i] == h.index[Arith.Wrap(h.tail + 1 + i, h.capacity)];
        assert g[j] == h.index[Arith.Wrap(h.tail + 1 + j, h.capacity)];
        DifferentSlots(h.index, Arith.Wrap(h.tail + 1 + i, h.capacity), Arith.Wrap(h.tail + 1 + j, h.capacity));
      } else if i < h.capacity {
        assert g[i] == h.index[Arith.Wrap(h.tail + 1 + i, h.capacity)] && g[j] == entries[j - h.capacity];
      } else {
        assert g[i] == entries[i - h.capacity] && g[j] == entries[j - h.capacity];
        DifferentSlots(entries, i - h.capacity, j - h.capacity);
      }
    }
  }

  /** The grown index has the entry of block number k where its new numbering expects it. */
  lemma GrownEntry(h: Header, entries: seq<EntryId>, entryOf: seq<EntryId>, k: nat)
    requires h.capacity > 0 && |h.index| == h.capacity == |entries|
    requires h.tail == SlotOf(h, h.number) && h.number + 1 - h.capacity <= k <= h.number
    requires EntryOk(h, entryOf, k)
    ensures EntryOk(Grown(h, entries), entryOf, k)
  {
    var g := Grown(h, entries);
    var i := k - (h.number + 1 - h.capacity);
    assert SlotOf(g, k) == i;
    Arith.WrapShift(h.number - h.off, 1 + i, h.capacity);
    Arith.WrapPeriod(k - h.off, h.capacity);
    assert h.tail + 1 + i == h.tail + (1 + i);
    assert g.index[i] == h.index[Arith.Wrap(h.tail + 1 + i, h.capacity)];
  }

  lemma GrownHeaderOk(h: Header, entries: seq<EntryId>, entryOf: seq<EntryId>, keys: map<EntryId, Option<nat>>,
                      keys': map<EntryId, Option<nat>>, lo: nat)
    requires HeaderOk(h, entryOf, keys, lo) && h.number == h.limit - 1
    requires |entries| == h.capacity && Distinct(entries)
    requires forall e | e in entries :: e !in keys && e in keys'
    requires forall e | e in keys :: e in keys'
    ensures HeaderOk(Grown(h, entries), entryOf, keys', lo)
    ensures Grown(h, entries).index[SlotOf(Grown(h, entries), h.number + 1)] == entries[0]
  {
    var g := Grown(h, entries);
    forall i, j | 0 <= i < |h.index| && 0 <= j < |entries|
      ensures h.index[i] != entries[j]
    {
      assert h.index[i] in keys && entries[j] in entries;
    }
    GrownIndexDistinct(h, entries);
    forall k: nat | lo <= k < g.limit
      ensures EntryOk(g, entryOf, k)
    {
      assert EntryOk(h, entryOf, k);
      GrownEntry(h, entries, entryOf, k);
    }
    forall i | 0 <= i < |g.index|
      ensures g.index[i] in keys'
    {
      if i < h.capacity {
        assert g.index[i] == h.index[Arith.Wrap(h.tail + 1 + i, h.capacity)];
        assert g.index[i] in keys;
      } else {
        assert entries[i - h.capacity] in entries;
      }
    }
    assert SlotOf(g, h.number + 1) == h.capacity;
    assert SlotOf(g, h.number) == h.capacity - 1;
  }

  /** Consumers do not notice that headers gain entries, new ones appear, or blocks are added. */
  lemma ConsumerKept(headers: seq<Header>, headers': seq<Header>, entryOf: seq<EntryId>, entryOf': seq<EntryId>,
                     owner: seq<Block>, owner': seq<Block>, pc: ConsumerPc)
    requires ConsumerOk(headers, entryOf, owner, pc)
    requires |headers| <= |headers'| && owner <= owner' && entryOf <= entryOf'
    requires forall h {:trigger headers[h]} {:trigger headers'[h]} | 0 <= h < |headers| ::
               headers'[h].capacity == headers[h].capacity && headers'[h].off == headers[h].off
                 && headers[h].limit <= headers'[h].limit
    ensures ConsumerOk(headers', entryOf', owner', pc)
  {
  }

  /** All consumers at once. */
  lemma ConsumersKept(headers: seq<Header>, headers': seq<Header>, entryOf: seq<EntryId>, entryOf': seq<EntryId>,
                      owner: seq<Block>, owner': seq<Block>, consumers: map<Tid, ConsumerPc>)
    requires ConsumersOk(headers, entryOf, owner, consumers)
    requires |headers| > 0 && owner <= owner' && entryOf <= entryOf'
    requires || (exists g :: headers' == headers + [g])
             || (|headers'| > 0 && headers' == SetLast(headers, Last(headers'))
                 && Last(headers').capacity == Last(headers).capacity
                 && Last(headers').off == Last(headers).off && Last(headers).limit <= Last(headers').limit)
    ensures ConsumersOk(headers', entryOf', owner', consumers)
  {
    forall t | t in consumers
      ensures ConsumerOk(headers', entryOf', owner', consumers[t])
    {
      ConsumerKept(headers, headers', entryOf, entryOf', owner, owner', consumers[t]);
    }
  }

  /** The older headers, and one that replaces or follows the current one. */
  lemma HeadersKept(headers: seq<Header>, n: nat, g: Header, entryOf: seq<EntryId>, entryOf': seq<EntryId>,
                    keys: map<EntryId, Option<nat>>, keys': map<EntryId, Option<nat>>, lo: nat, lo': nat)
    requires n <= |headers| && entryOf <= entryOf' && lo <= lo' && forall e | e in keys :: e in keys'
    requires forall h {:trigger headers[h]} | 0 <= h < n :: HeaderOk(headers[h], entryOf, keys, lo)
    requires HeaderOk(g, entryOf', keys', lo')
    ensures var headers' := headers[..n] + [g];
            forall h {:trigger headers'[h]} | 0 <= h < n + 1 :: HeaderOk(headers'[h], entryOf', keys', lo')
  {
    var headers' := headers[..n] + [g];
    forall h | 0 <= h < n + 1
      ensures HeaderOk(headers'[h], entryOf', keys', lo')
    {
      if h < n {
        HeaderKept(headers[h], entryOf, entryOf', keys, keys', lo, lo');
      }
    }
  }

  lemma HeaderKept(h: Header, entryOf: seq<EntryId>, entryOf': seq<EntryId>, keys: map<EntryId, Option<nat>>,
                   keys': map<EntryId, Option<nat>>, lo: nat, lo': nat)
    requires HeaderOk(h, entryOf, keys, lo) && entryOf <= entryOf' && lo <= lo'
    requires forall e | e in keys :: e in keys'
    ensures HeaderOk(h, entryOf', keys', lo')
  {
    forall k: nat | lo' <= k < h.limit
      ensures EntryOk(h, entryOf', k)
    {
      assert EntryOk(h, entryOf, k);
    }
  }

  lemma GrowIndex(headers: seq<Header>, entryOf: seq<EntryId>, keys: map<EntryId, Option<nat>>, lo: nat,
                  entries: seq<EntryId>, keys': map<EntryId, Option<nat>>)
    requires IndexOk(headers, entryOf, keys, lo)
    requires var h := Last(headers);
             h.number == h.limit - 1 && |h.index| == h.capacity == |entries| && h.capacity > 0 && Distinct(entries)
    requires forall e | e in entries :: e !in keys && e in keys'
    requires forall e | e in keys :: e in keys' && keys'[e] == keys[e]
    ensures IndexOk(headers + [Grown(Last(headers), entries)], entryOf, keys', lo)
    ensures forall k: nat | lo <= k < |entryOf| :: entryOf[k] !in entries
    ensures var h, g := Last(headers), Grown(Last(headers), entries);
            g.index[SlotOf(g, h.number + 1)] == entries[0]
  {
    var h, g := Last(headers), Grown(Last(headers), entries);
    assert HeaderOk(headers[|headers| - 1], entryOf, keys, lo);
    GrownHeaderOk(h, entries, entryOf, keys, keys', lo);
    HeadersKept(headers, |headers|, g, entryOf, entryOf, keys, keys', lo, lo);
    assert headers + [g] == headers[..|headers|] + [g];
    forall k: nat | lo <= k < |entryOf|
      ensures KeyOk(keys', entryOf, k) && entryOf[k] !in entries
    {
      assert KeyOk(keys, entryOf, k);
    }
  }

  lemma GrowKeepsInv(s: State, s': State, item: Item, ids: seq<EntryId>, junk: map<EntryId, Option<Block>>)
    requires Inv(s) && s.pc == Growing(item)
    requires |ids| == Last(s.headers).capacity && Distinct(ids)
    requires (forall e | e in ids :: e !in s.keys) && (forall e :: e in junk <==> e in ids)
    requires HeaderOk(Last(s.headers), s.entryOf, s.keys, s.lo)
    requires s' == s.(headers := s.headers + [Grown(Last(s.headers), ids)],
                      keys := s.keys + NoKeys(ids),
                      values := s.values + junk,
                      pc := SetKey(item, ids[0]))
    ensures Inv(s')
  {
    var h, g := Last(s.headers), Grown(Last(s.headers), ids);
    GrowShape(s, s', ids, junk);
    GrowIndex(s.headers, s.entryOf, s.keys, s.lo, ids, s'.keys);
    GrowBlocks(s, s', ids, junk);
    GrowConsumers(s, s', g);
    GrowProducer(s, s', item, g, ids[0]);
  }

  lemma GrowConsumers(s: State, s': State, g: Header)
    requires |s.headers| > 0 && ConsumersOk(s.headers, s.entryOf, s.owner, s.consumers)
    requires s'.headers == s.headers + [g] && s'.entryOf == s.entryOf && s'.owner == s.owner
    requires s'.consumers == s.consumers
    ensures ConsumersOk(s'.headers, s'.entryOf, s'.owner, s'.consumers)
  {
    ConsumersKept(s.headers, s'.headers, s.entryOf, s'.entryOf, s.owner, s'.owner, s.consumers);
  }

  lemma GrowShape(s: State, s': State, entries: seq<EntryId>, junk: map<EntryId, Option<Block>>)
    requires ShapeOk(s) && |s'.headers| > 0 && forall e :: e in junk <==> e in entries
    requires s' == s.(headers := s'.headers, keys := s.keys + NoKeys(entries), values := s.values + junk, pc := s'.pc)
    ensures ShapeOk(s')
  {
  }

  lemma GrowProducer(s: State, s': State, item: Item, g: Header, e: EntryId)
    requires |s.headers| > 0 && ProducerOk(s) && s.pc == Growing(item) && s'.pc == SetKey(item, e)
    requires s'.headers == s.headers + [g] && g.number == Last(s.headers).number && g.capacity > 0
             && |g.index| == g.capacity
    requires s'.tailIndex == s.tailIndex && s'.owner == s.owner && s'.entryOf == s.entryOf && s'.lo == s.lo
    requires g.index[SlotOf(g, g.number + 1)] == e
    requires forall k: nat | s.lo <= k < |s.entryOf| :: s.entryOf[k] != e
    ensures ProducerOk(s')
  {
  }

  lemma GrowBlocks(s: State, s': State, entries: seq<EntryId>, junk: map<EntryId, Option<Block>>)
    requires BlocksOk(s) && HoldingsOk(s) && ReturnsOk(s) && SameAccounts(s, s') && s'.owner == s.owner && s'.lo == s.lo
    requires s'.cells == s.cells && s'.items == s.items && s'.tailIndex == s.tailIndex && s'.dequeued == s.dequeued
    requires s.entryOf == s'.entryOf && |s.owner| <= |s.entryOf|
    requires forall k: nat | s.lo <= k < |s.entryOf| :: s.entryOf[k] !in entries
    requires s'.values == s.values + junk && forall e :: e in junk <==> e in entries
    ensures BlocksOk(s') && HoldingsOk(s') && ReturnsOk(s')
  {
    forall k: nat | s.lo <= k < |s.owner|
      ensures s.entryOf[k] in s.values && s.entryOf[k] !in junk
    {
      assert ValueOk(s, k);
    }
    BlocksUnconcerned(s, s');
  }

  /** Nothing about blocks and elements changes; values of the entries in use stay. */
  lemma BlocksUnconcerned(s: State, s': State)
    requires BlocksOk(s) && HoldingsOk(s) && ReturnsOk(s) && SameAccounts(s, s') && s'.owner == s.owner && s'.lo >= s.lo
    requires s'.cells == s.cells && s'.items == s.items && s'.tailIndex == s.tailIndex && SameCounts(s, s')
    requires s.entryOf <= s'.entryOf && |s.owner| <= |s.entryOf|
    requires forall k: nat {:trigger ValueOk(s, k)} | s.lo <= k < |s.owner| ::
               s.entryOf[k] in s.values && s.entryOf[k] in s'.values
                 && s'.values[s.entryOf[k]] == s.values[s.entryOf[k]]
    requires forall k: nat | k < s'.lo && k < |s'.owner| :: k in s'.nulled
    ensures BlocksOk(s') && HoldingsOk(s') && ReturnsOk(s')
  {
    AccountsKept(s, s');
    forall k: nat | k < |s'.owner|
      ensures CountOk(s', k)
    {
      assert CountOk(s, k);
      CountsKept(s, s', k);
    }
    forall k: nat | s'.lo <= k < |s'.owner|
      ensures ValueOk(s', k)
    {
      assert ValueOk(s, k);
    }
    forall i: nat | i < s'.tailIndex && i !in s'.released
      ensures CellOk(s', i)
    {
      assert CellOk(s, i);
    }
  }

  // insert_block_index_entry

  /** Of the numbers in the window, only the one a whole capacity back shares the slot of number p. */
  lemma SharersOfSlot(h: Header, entryOf: seq<EntryId>, keys: map<EntryId, Option<nat>>, lo: nat, p: nat, k: nat)
    requires HeaderOk(h, entryOf, keys, lo) && lo <= k < p && k < h.limit && p <= h.limit
    requires entryOf[k] == h.index[SlotOf(h, p)]
    ensures k == p - h.capacity
  {
    assert EntryOk(h, entryOf, k);
    if k > p - h.capacity {
      Arith.WrapDistinct(k - h.off, p - h.off, h.capacity);
      DifferentSlots(h.index, SlotOf(h, k), SlotOf(h, p));
    }
  }

  lemma OldestSharesSlot(h: Header, entryOf: seq<EntryId>, keys: map<EntryId, Option<nat>>, lo: nat, p: nat)
    requires HeaderOk(h, entryOf, keys, lo) && p >= h.capacity && lo <= p - h.capacity < h.limit
    ensures entryOf[p - h.capacity] == h.index[SlotOf(h, p)]
  {
    assert EntryOk(h, entryOf, p - h.capacity);
    Arith.WrapPeriod(p - h.capacity - h.off, h.capacity);
  }

  /** The header after number p got its key, for an entry that number p was not keyed with before. */
  lemma KeyedHeaderOk(h: Header, entryOf: seq<EntryId>, keys: map<EntryId, Option<nat>>,
                      keys': map<EntryId, Option<nat>>, lo: nat, e: EntryId)
    requires HeaderOk(h, entryOf, keys, lo) && |entryOf| == h.limit && e == h.index[SlotOf(h, h.limit)]
    requires forall x | x in keys :: x in keys'
    ensures HeaderOk(h.(limit := h.limit + 1), entryOf + [e], keys', Max(lo, h.limit + 1 - h.capacity))
  {
    var h', entryOf' := h.(limit := h.limit + 1), entryOf + [e];
    forall k: nat | Max(lo, h.limit + 1 - h.capacity) <= k < h'.limit
      ensures EntryOk(h', entryOf', k)
    {
      if k < h.limit {
        assert EntryOk(h, entryOf, k);
      }
    }
  }

  /** Number p, the next one, gets its key; what the entry was keyed with before leaves the window. */
  lemma KeyIndex(headers: seq<Header>, entryOf: seq<EntryId>, keys: map<EntryId, Option<nat>>, lo: nat, e: EntryId)
    requires IndexOk(headers, entryOf, keys, lo)
    requires var h := Last(headers);
             h.number == |entryOf| - 1 && h.capacity > 0 && |h.index| == h.capacity
               && e == h.index[SlotOf(h, |entryOf|)]
    ensures var p, h := |entryOf|, Last(headers);
            IndexOk(SetLast(headers, h.(limit := p + 1)), entryOf + [e], keys[e := Some(Base(p))],
                    Max(lo, p + 1 - h.capacity))
    ensures var p, h := |entryOf|, Last(headers);
            && (forall k: nat | lo <= k < p && p - h.capacity < k :: entryOf[k] != e)
            && (lo <= p - h.capacity ==> entryOf[p - h.capacity] == e)
  {
    var p, h := |entryOf|, Last(headers);
    var g, lo', keys' := h.(limit := p + 1), Max(lo, p + 1 - h.capacity), keys[e := Some(Base(p))];
    assert HeaderOk(headers[|headers| - 1], entryOf, keys, lo);
    KeyedHeaderOk(h, entryOf, keys, keys', lo, e);
    HeadersKept(headers, |headers| - 1, g, entryOf, entryOf + [e], keys, keys', lo, lo');
    assert SetLast(headers, g) == headers[..|headers| - 1] + [g];
    forall k: nat | lo <= k < p && p - h.capacity < k
      ensures entryOf[k] != e
    {
      if entryOf[k] == e {
        SharersOfSlot(h, entryOf, keys, lo, p, k);
      }
    }
    if lo <= p - h.capacity {
      OldestSharesSlot(h, entryOf, keys, lo, p);
    }
    forall k: nat | lo' <= k < p + 1
      ensures KeyOk(keys', entryOf + [e], k)
    {
      if k < p {
        assert KeyOk(keys, entryOf, k);
      }
    }
  }

  lemma SetNewKeyKeepsInv(s: State, s': State, item: Item, e: EntryId)
    requires Inv(s) && s.pc == SetKey(item, e) && |s.entryOf| == |s.owner|
    requires var p, h := |s.owner|, Last(s.headers);
             s' == s.(keys := s.keys[e := Some(s.tailIndex)],
                      entryOf := s.entryOf + [e],
                      headers := SetLast(s.headers, h.(limit := p + 1)),
                      lo := Max(s.lo, p + 1 - h.capacity),
                      pc := SetTail(item, e))
    ensures Inv(s')
  {
    var p, h := |s.owner|, Last(s.headers);
    assert HeaderOk(s.headers[|s.headers| - 1], s.entryOf, s.keys, s.lo);
    KeyIndex(s.headers, s.entryOf, s.keys, s.lo, e);
    ConsumersKept(s.headers, s'.headers, s.entryOf, s'.entryOf, s.owner, s'.owner, s.consumers);
    KeyBlocks(s, s');
  }

  lemma KeyBlocks(s: State, s': State)
    requires BlocksOk(s) && HoldingsOk(s) && ReturnsOk(s) && SameAccounts(s, s') && s'.owner == s.owner
    requires s'.cells == s.cells && s'.items == s.items && s'.tailIndex == s.tailIndex && s'.dequeued == s.dequeued
    requires s'.values == s.values
    requires s.entryOf <= s'.entryOf && |s.owner| <= |s.entryOf| && s.lo <= s'.lo
    requires forall k: nat | s.lo <= k < s'.lo && k < |s.owner| :: k in s.nulled
    ensures BlocksOk(s') && HoldingsOk(s') && ReturnsOk(s')
  {
    forall k: nat | s.lo <= k < |s.owner|
      ensures s.entryOf[k] in s.values
    {
      assert ValueOk(s, k);
    }
    BlocksUnconcerned(s, s');
  }

  /** The entry was keyed by a failed attempt: writing the same key again changes nothing. */
  lemma SetOldKeyKeepsInv(s: State, s': State, item: Item, e: EntryId)
    requires Inv(s) && s.pc == SetKey(item, e) && |s.entryOf| == |s.owner| + 1
    requires var p, h := |s.owner|, Last(s.headers);
             s' == s.(keys := s.keys[e := Some(s.tailIndex)],
                      headers := SetLast(s.headers, h.(limit := p + 1)),
                      lo := Max(s.lo, p + 1 - h.capacity),
                      pc := SetTail(item, e))
    ensures Inv(s')
  {
    var p, h := |s.owner|, Last(s.headers);
    assert HeaderOk(s.headers[|s.headers| - 1], s.entryOf, s.keys, s.lo);
    assert EntryOk(h, s.entryOf, p) && KeyOk(s.keys, s.entryOf, p);
    assert s'.keys == s.keys && SetLast(s.headers, h.(limit := p + 1)) == s.headers;
    PcMoveKeepsInv(s, s');
  }

  /** Moving the tail of the newest index to a block number that it has an entry for. */
  lemma MoveTailKeepsInv(s: State, s': State, tail: nat, number: int, pc: ProducerPc)
    requires Inv(s) && s' == s.(headers := SetLast(s.headers, Last(s.headers).(tail := tail, number := number)),
                                pc := pc)
    requires number < Last(s.headers).limit && Last(s.headers).capacity > 0 && tail == SlotOf(Last(s.headers), number)
    requires ProducerOk(s')
    ensures Inv(s')
  {
    var h := Last(s.headers);
    assert HeaderOk(s.headers[|s.headers| - 1], s.entryOf, s.keys, s.lo);
    MoveTailIndex(s.headers, s.entryOf, s.keys, s.lo, tail, number);
    ConsumersKept(s.headers, s'.headers, s.entryOf, s'.entryOf, s.owner, s'.owner, s.consumers);
    KeyBlocks(s, s');
  }

  lemma MoveTailIndex(headers: seq<Header>, entryOf: seq<EntryId>, keys: map<EntryId, Option<nat>>, lo: nat,
                      tail: nat, number: int)
    requires IndexOk(headers, entryOf, keys, lo)
    requires number < Last(headers).limit && Last(headers).capacity > 0 && tail == SlotOf(Last(headers), number)
    ensures IndexOk(SetLast(headers, Last(headers).(tail := tail, number := number)), entryOf, keys, lo)
  {
    var h, g := Last(headers), Last(headers).(tail := tail, number := number);
    assert HeaderOk(headers[|headers| - 1], entryOf, keys, lo);
    forall k: nat | lo <= k < g.limit
      ensures EntryOk(g, entryOf, k)
    {
      assert EntryOk(h, entryOf, k);
    }
    HeadersKept(headers, |headers| - 1, g, entryOf, entryOf, keys, keys, lo, lo);
    assert SetLast(headers, g) == headers[..|headers| - 1] + [g];
  }

  lemma SetTailKeepsInv(s: State, c: Choice)
    requires Inv(s) && s.pc.SetTail? && ProducerCan(s, c)
    ensures Inv(ProducerStep(s, c))
  {
    var h := Last(s.headers);
    assert HeaderOk(s.headers[|s.headers| - 1], s.entryOf, s.keys, s.lo);
    NewTailSlot(h);
    MoveTailKeepsInv(s, ProducerStep(s, c), NewTail(h), h.number + 1, Requisition(s.pc.item, s.pc.entry));
  }

  lemma RewindTailKeepsInv(s: State, c: Choice)
    requires Inv(s) && s.pc.RewindTail? && ProducerCan(s, c)
    ensures Inv(ProducerStep(s, c))
  {
    var h := Last(s.headers);
    assert HeaderOk(s.headers[|s.headers| - 1], s.entryOf, s.keys, s.lo);
    Arith.WrapShift(h.number - h.off, -1, h.capacity);
    MoveTailKeepsInv(s, ProducerStep(s, c), Arith.Wrap(h.tail - 1, h.capacity), h.number - 1, ClearValue(s.pc.entry));
  }

  lemma ClearValueKeepsInv(s: State, s': State, e: EntryId)
    requires Inv(s) && s.pc == ClearValue(e)
    requires s' == s.(values := s.values[e := None], pc := Ready)
    ensures Inv(s')
  {
    forall k: nat | s.lo <= k < |s.owner|
      ensures s.entryOf[k] in s.values && s.entryOf[k] != e
    {
      assert ValueOk(s, k);
    }
    BlocksUnconcerned(s, s');
    ReadyAtBase(s);
  }

  /** tailIndex at the end of the newest block. */
  lemma ReadyAtBase(s: State)
    requires s.tailIndex == Base(|s.owner|)
    ensures if |s.owner| == 0 then s.tailIndex == 0 else TailInNewest(s, false)
  {
  }

  lemma ResetCountKeepsInv(s: State, s': State, item: Item, e: EntryId, b: Block)
    requires Inv(s) && s.pc == ResetCount(item, e, b)
    requires s' == s.(dequeued := s.dequeued[b := 0], pc := SetValue(item, e, b))
    ensures Inv(s')
  {
    forall k: nat | s.lo <= k < |s.owner|
      ensures s.entryOf[k] in s.values
    {
      assert ValueOk(s, k);
    }
    BlocksUnconcerned(s, s');
    assert !InUse(s', b);
  }

  lemma NothingReleasedAbove(released: set<nat>, k: nat, head: nat)
    requires (forall i: nat | i in released :: i < head) && head <= Base(k)
    ensures |ReleasedIn(released, k)| == 0
  {
    forall o: nat | o < BLOCK_SIZE
      ensures !IsReleased(released, k, o)
    {
    }
    assert ReleasedIn(released, k) == {};
  }

  lemma SetValueBlocks(s: State, s': State, e: EntryId, b: Block)
    requires BlocksOk(s) && HoldingsOk(s) && ReturnsOk(s) && s.headIndex <= s.tailIndex
    requires var p := |s.owner|;
             && |s.entryOf| == p + 1 && s.entryOf[p] == e && e in s.values && s.tailIndex == Base(p)
             && s.lo <= p && (forall k: nat | s.lo <= k < p :: s.entryOf[k] != e)
    requires !InUse(s, b) && b in s.dequeued && s.dequeued[b] == 0
    requires s' == s.(values := s.values[e := Some(b)], tailBlock := Some(b), owner := s.owner + [b], pc := s'.pc)
    ensures BlocksOk(s') && HoldingsOk(s') && ReturnsOk(s')
  {
    var p := |s.owner|;
    AccountsKept(s, s');
    forall k: nat | k < |s'.owner|
      ensures CountOk(s', k)
    {
      if k < p {
        assert CountOk(s, k);
        CountsKept(s, s', k);
      } else {
        NothingReleasedAbove(s.released, p, s.headIndex);
      }
    }
    forall k: nat | s'.lo <= k < |s'.owner|
      ensures ValueOk(s', k)
    {
      if k < p {
        assert ValueOk(s, k);
      }
    }
    forall i: nat | i < s'.tailIndex && i !in s'.released
      ensures CellOk(s', i)
    {
      assert CellOk(s, i);
    }
    forall k: nat | k < p && k !in s.freed
      ensures s.owner[k] != b
    {
    }
  }

  lemma SetValueKeepsInv(s: State, s': State, item: Item, e: EntryId, b: Block)
    requires Inv(s) && s.pc == SetValue(item, e, b)
    requires s' == s.(values := s.values[e := Some(b)], tailBlock := Some(b), owner := s.owner + [b],
                      pc := Constructing(item))
    ensures Inv(s')
  {
    SetValueBlocks(s, s', e, b);
    ConsumersKept(s.headers, s'.headers, s.entryOf, s'.entryOf, s.owner, s'.owner, s.consumers);
    BaseGrows(|s.owner|, |s.owner| + 1);
  }

  lemma ConstructBlocks(s: State, s': State, item: Item)
    requires BlocksOk(s) && HoldingsOk(s) && ReturnsOk(s) && TailInNewest(s, true) && s.headIndex <= s.tailIndex
    requires s' == s.(cells := s.cells[(s.owner[|s.owner| - 1], Offset(s.tailIndex)) := item], pc := s'.pc)
    ensures BlocksOk(s') && HoldingsOk(s') && ReturnsOk(s')
  {
    AccountsKept(s, s');
    Between(s.tailIndex, |s.owner| - 1, |s.owner|);
    UnreleasedIsLive(s, s.tailIndex);
    forall k: nat | k < |s'.owner|
      ensures CountOk(s', k)
    {
      assert CountOk(s, k);
      CountsKept(s, s', k);
    }
    forall k: nat | s'.lo <= k < |s'.owner|
      ensures ValueOk(s', k)
    {
      assert ValueOk(s, k);
    }
    forall i: nat | i < s'.tailIndex && i !in s'.released
      ensures CellOk(s', i)
    {
      assert CellOk(s, i);
      UnreleasedIsLive(s, i);
      Split(i);
      Split(s.tailIndex);
    }
  }

  lemma ConstructKeepsInv(s: State, s': State, item: Item)
    requires Inv(s) && s.pc == Constructing(item) && |s.owner| > 0
    requires s' == s.(cells := s.cells[(s.owner[|s.owner| - 1], Offset(s.tailIndex)) := item], pc := Advancing(item))
    ensures Inv(s')
  {
    ConstructBlocks(s, s', item);
  }

  lemma AdvanceBlocks(s: State, s': State, item: Item)
    requires BlocksOk(s) && HoldingsOk(s) && ReturnsOk(s) && TailInNewest(s, true) && s.tailIndex == |s.items|
    requires (s.owner[|s.owner| - 1], Offset(s.tailIndex)) in s.cells
    requires s.cells[(s.owner[|s.owner| - 1], Offset(s.tailIndex))] == item
    requires s' == s.(tailIndex := s.tailIndex + 1, items := s.items + [item], pc := Ready)
    ensures BlocksOk(s') && HoldingsOk(s') && ReturnsOk(s')
  {
    AccountsKept(s, s');
    Between(s.tailIndex, |s.owner| - 1, |s.owner|);
    forall k: nat | k < |s'.owner|
      ensures CountOk(s', k)
    {
      assert CountOk(s, k);
      CountsKept(s, s', k);
    }
    forall k: nat | s'.lo <= k < |s'.owner|
      ensures ValueOk(s', k)
    {
      assert ValueOk(s, k);
    }
    forall i: nat | i < s'.tailIndex && i !in s'.released
      ensures CellOk(s', i)
    {
      if i < s.tailIndex {
        assert CellOk(s, i);
      }
    }
  }

  lemma AdvanceKeepsInv(s: State, s': State, item: Item)
    requires Inv(s) && s.pc == Advancing(item)
    requires s' == s.(tailIndex := s.tailIndex + 1, items := s.items + [item], pc := Ready)
    ensures Inv(s')
  {
    AdvanceBlocks(s, s', item);
  }

  lemma GrowingStep(s: State, c: Choice)
    requires Inv(s) && ProducerCan(s, c) && s.pc.Growing?
    ensures Inv(ProducerStep(s, c))
  {
    if c.Entries? {
      assert HeaderOk(s.headers[|s.headers| - 1], s.entryOf, s.keys, s.lo);
      GrowKeepsInv(s, ProducerStep(s, c), s.pc.item, c.ids, c.junk);
    } else {
      ReadyAtBase(s);
      PcMoveKeepsInv(s, ProducerStep(s, c));
    }
  }

  lemma SetKeyStep(s: State, c: Choice)
    requires Inv(s) && ProducerCan(s, c) && s.pc.SetKey?
    ensures Inv(ProducerStep(s, c))
  {
    if |s.entryOf| == |s.owner| {
      SetNewKeyKeepsInv(s, ProducerStep(s, c), s.pc.item, s.pc.entry);
    } else {
      SetOldKeyKeepsInv(s, ProducerStep(s, c), s.pc.item, s.pc.entry);
    }
  }

  lemma RequisitionStep(s: State, c: Choice)
    requires Inv(s) && ProducerCan(s, c) && s.pc.Requisition?
    ensures Inv(ProducerStep(s, c))
  {
    PcMoveKeepsInv(s, ProducerStep(s, c));
  }

  lemma ResetCountStep(s: State, c: Choice)
    requires Inv(s) && ProducerCan(s, c) && s.pc.ResetCount?
    ensures Inv(ProducerStep(s, c))
  {
    ResetCountKeepsInv(s, ProducerStep(s, c), s.pc.item, s.pc.entry, s.pc.block);
  }

  lemma SetValueStep(s: State, c: Choice)
    requires Inv(s) && ProducerCan(s, c) && s.pc.SetValue?
    ensures Inv(ProducerStep(s, c))
  {
    SetValueKeepsInv(s, ProducerStep(s, c), s.pc.item, s.pc.entry, s.pc.block);
  }

  lemma ConstructStep(s: State, c: Choice)
    requires Inv(s) && ProducerCan(s, c) && s.pc.Constructing?
    ensures Inv(ProducerStep(s, c))
  {
    ConstructKeepsInv(s, ProducerStep(s, c), s.pc.item);
  }

  lemma ProducerStepKeepsInv(s: State, c: Choice)
    requires Inv(s) && ProducerCan(s, c)
    ensures Inv(ProducerStep(s, c))
  {
    match s.pc {
      case Ready =>
      case ReadKey(_) => ReadSlotKeepsInv(s, c);
      case ReadValue(_) => ReadSlotKeepsInv(s, c);
      case Growing(_) => GrowingStep(s, c);
      case SetKey(_, _) => SetKeyStep(s, c);
      case SetTail(_, _) => SetTailKeepsInv(s, c);
      case Requisition(_, _) => RequisitionStep(s, c);
      case RewindTail(_) => RewindTailKeepsInv(s, c);
      case ClearValue(e) => ClearValueKeepsInv(s, ProducerStep(s, c), e);
      case ResetCount(_, _, _) => ResetCountStep(s, c);
      case SetValue(_, _, _) => SetValueStep(s, c);
      case Constructing(_) => ConstructStep(s, c);
      case Advancing(item) => AdvanceKeepsInv(s, ProducerStep(s, c), item);
    }
  }

  // ---------------------------------------------------- the consumers' steps keep the invariant

  lemma AgreementKept(s: State, s': State)
    requires HoldingsOk(s) && ReturnsOk(s)
    requires s'.headIndex == s.headIndex && s'.released == s.released && s'.nulled == s.nulled && s'.freed == s.freed
    requires s'.owner == s.owner
    requires forall t, i: nat :: HeldBy(s', t, i) <==> HeldBy(s, t, i)
    requires forall t, k :: Returns(s', t, k) <==> Returns(s, t, k)
    requires forall t, k :: Returns(s', t, k) ==> (s'.consumers[t].Freeing? <==> s.consumers[t].Freeing?)
    ensures HoldingsOk(s') && ReturnsOk(s')
    ensures forall k :: Returned(s', k) <==> Returned(s, k)
  {
    forall i: nat | i < s.headIndex && i !in s.released
      ensures Held(s', i)
    {
      var t :| HeldBy(s, t, i);
      assert HeldBy(s', t, i);
    }
    forall k
      ensures Returned(s', k) <==> Returned(s, k)
    {
      if Returned(s, k) {
        var t :| Returns(s, t, k);
        assert Returns(s', t, k);
      }
      if Returned(s', k) {
        var t :| Returns(s', t, k);
        assert Returns(s, t, k);
      }
    }
  }

  lemma BlocksKept(s: State, s': State)
    requires BlocksOk(s) && s' == s.(consumers := s'.consumers, headIndex := s'.headIndex)
    requires forall k :: Returned(s', k) <==> Returned(s, k)
    ensures BlocksOk(s')
  {
    forall k: nat | k < |s'.owner|
      ensures CountOk(s', k)
    {
      assert CountOk(s, k);
    }
    forall k: nat | s'.lo <= k < |s'.owner|
      ensures ValueOk(s', k)
    {
      assert ValueOk(s, k);
    }
    forall i: nat | i < s'.tailIndex && i !in s'.released
      ensures CellOk(s', i)
    {
      assert CellOk(s, i);
    }
  }

  /** A consumer moves on and holds what it held. */
  lemma ConsumerMoveKeepsInv(s: State, s': State, t: Tid, pc: ConsumerPc)
    requires Inv(s) && t in s.consumers && s' == s.(consumers := s.consumers[t := pc])
    requires !s.consumers[t].Nulling? && !s.consumers[t].Freeing? && !pc.Nulling? && !pc.Freeing?
    requires ConsumerOk(s.headers, s.entryOf, s.owner, pc)
    requires forall i: nat :: Holds(pc, i) <==> Holds(s.consumers[t], i)
    ensures Inv(s')
  {
    ConsumerMoveKeepsAgreement(s, s', t, pc);
    BlocksKept(s, s');
  }

  lemma ConsumerMoveKeepsAgreement(s: State, s': State, t: Tid, pc: ConsumerPc)
    requires HoldingsOk(s) && ReturnsOk(s) && t in s.consumers && s' == s.(consumers := s.consumers[t := pc])
    requires !s.consumers[t].Nulling? && !s.consumers[t].Freeing? && !pc.Nulling? && !pc.Freeing?
    requires forall i: nat :: Holds(pc, i) <==> Holds(s.consumers[t], i)
    ensures HoldingsOk(s') && ReturnsOk(s')
    ensures forall k :: Returned(s', k) <==> Returned(s, k)
  {
    assert forall u, i: nat :: HeldBy(s', u, i) <==> HeldBy(s, u, i);
    AgreementKept(s, s');
  }

  lemma ClaimHoldings(s: State, s': State, t: Tid)
    requires HoldingsOk(s) && t in s.consumers && s.consumers[t] == Idle && s.headIndex < s'.headIndex
    requires s' == s.(headIndex := s'.headIndex, consumers := s.consumers[t := Claimed(s.headIndex, s'.headIndex)])
    ensures HoldingsOk(s')
  {
    forall u, i: nat
      ensures HeldBy(s', u, i) <==> HeldBy(s, u, i) || (u == t && s.headIndex <= i < s'.headIndex)
    {
    }
    forall i: nat | i < s'.headIndex && i !in s'.released
      ensures Held(s', i)
    {
      if i < s.headIndex {
        var u :| HeldBy(s, u, i);
        assert HeldBy(s', u, i);
      } else {
        assert HeldBy(s', t, i);
      }
    }
  }

  lemma ClaimKeepsInv(s: State, t: Tid, count: nat)
    requires Inv(s) && t in s.consumers && s.consumers[t] == Idle && 0 < count && s.headIndex + count <= s.tailIndex
    ensures Inv(Claim(s, t, count))
  {
    var s' := Claim(s, t, count);
    ClaimHoldings(s, s', t);
    assert forall u, k :: Returns(s', u, k) <==> Returns(s, u, k);
    forall k
      ensures Returned(s', k) <==> Returned(s, k)
    {
      if Returned(s, k) {
        var u :| Returns(s, u, k);
        assert Returns(s', u, k);
      }
    }
    BlocksKept(s, s');
  }

  lemma LoadHeaderKeepsInv(s: State, t: Tid)
    requires Inv(s) && ConsumerCan(s, t) && s.consumers[t].Claimed?
    ensures Inv(ConsumerStep(s, t))
  {
    var pc := s.consumers[t];
    assert HeldBy(s, t, pc.last - 1);
    HeldIsLive(s, t, pc.last - 1);
    ConsumerMoveKeepsInv(s, ConsumerStep(s, t), t, GotHeader(pc.first, pc.last, |s.headers| - 1));
  }

  /** The newest index's tail stands for the newest block number, or the one being added. */
  lemma NewestNumber(s: State)
    requires |s.headers| > 0 && ProducerOk(s)
    ensures |s.owner| - 1 <= Last(s.headers).number
  {
  }

  lemma TailCovers(s: State, t: Tid)
    requires Inv(s) && ConsumerCan(s, t) && s.consumers[t].GotHeader?
    ensures var GotHeader(first, last, h) := s.consumers[t];
            ConsumerOk(s.headers, s.entryOf, s.owner, GotTail(first, last, h, s.headers[h].tail, s.headers[h].number))
  {
    var GotHeader(first, last, h) := s.consumers[t];
    assert HeaderOk(s.headers[h], s.entryOf, s.keys, s.lo);
    assert HeldBy(s, t, last - 1);
    HeldIsLive(s, t, last - 1);
    NewestNumber(s);
  }

  lemma LoadTailKeepsInv(s: State, t: Tid)
    requires Inv(s) && ConsumerCan(s, t) && s.consumers[t].GotHeader?
    ensures Inv(ConsumerStep(s, t))
  {
    var GotHeader(first, last, h) := s.consumers[t];
    TailCovers(s, t);
    ConsumerMoveKeepsInv(s, ConsumerStep(s, t), t, GotTail(first, last, h, s.headers[h].tail, s.headers[h].number));
  }

  /** The signed block distance leads from the tail slot to the slot of the claimed index's block. */
  lemma SlotFromTail(h: Header, first: nat, at: nat, tail: nat, key: nat)
    requires h.capacity > 0 && tail == SlotOf(h, at) && key == Base(at)
    ensures Arith.Wrap(tail + (Base(BlockOf(first)) - key) / BLOCK_SIZE, h.capacity) == SlotOf(h, BlockOf(first))
  {
    BlocksApart(BlockOf(first), at);
    Arith.WrapShift(at - h.off, BlockOf(first) - at, h.capacity);
  }

  lemma TailKey(s: State, t: Tid)
    requires Inv(s) && t in s.consumers && s.consumers[t].GotTail?
    ensures var GotTail(first, last, h, tail, at) := s.consumers[t];
            && at >= 0 && h < |s.headers| && tail < |s.headers[h].index| == s.headers[h].capacity
            && s.headers[h].index[tail] in s.keys && s.keys[s.headers[h].index[tail]] == Some(Base(at))
  {
    var GotTail(first, last, h, tail, at) := s.consumers[t];
    assert HeldBy(s, t, first);
    HeldIsLive(s, t, first);
    BlockOfGrows(first, last - 1);
    assert HeaderOk(s.headers[h], s.entryOf, s.keys, s.lo);
    assert EntryOk(s.headers[h], s.entryOf, at) && KeyOk(s.keys, s.entryOf, at);
  }

  lemma SlotFound(headers: seq<Header>, entryOf: seq<EntryId>, owner: seq<Block>, pc: ConsumerPc, key: nat)
    requires ConsumerOk(headers, entryOf, owner, pc) && pc.GotTail? && pc.at >= 0 && key == Base(pc.at)
    ensures var slot := Arith.Wrap(pc.tail + (Base(BlockOf(pc.first)) - key) / BLOCK_SIZE, headers[pc.h].capacity);
            ConsumerOk(headers, entryOf, owner, AtEntry(pc.first, pc.last, pc.h, slot))
  {
    SlotFromTail(headers[pc.h], pc.first, pc.at, pc.tail, key);
  }

  lemma FindSlotKeepsInv(s: State, t: Tid)
    requires Inv(s) && ConsumerCan(s, t) && s.consumers[t].GotTail?
    ensures Inv(ConsumerStep(s, t))
  {
    var GotTail(first, last, h, tail, at) := s.consumers[t];
    TailKey(s, t);
    SlotFound(s.headers, s.entryOf, s.owner, s.consumers[t], Base(at));
    var slot := Arith.Wrap(tail + (Base(BlockOf(first)) - Base(at)) / BLOCK_SIZE, s.headers[h].capacity);
    ConsumerMoveKeepsInv(s, ConsumerStep(s, t), t, AtEntry(first, last, h, slot));
  }

  /** The entry in the slot a consumer computed. */
  lemma FoundEntry(s: State, t: Tid)
    requires Inv(s) && t in s.consumers && s.consumers[t].AtEntry?
    ensures var AtEntry(index, last, h, slot) := s.consumers[t];
            var k := BlockOf(index);
            && s.lo <= k < |s.owner| && k !in s.nulled && h < |s.headers| && slot < |s.headers[h].index|
            && s.headers[h].index[slot] == s.entryOf[k] && s.entryOf[k] in s.values && s.entryOf[k] in s.keys
            && s.keys[s.entryOf[k]] == Some(Base(k)) && s.values[s.entryOf[k]] == Some(s.owner[k])
  {
    var AtEntry(index, last, h, slot) := s.consumers[t];
    assert HeldBy(s, t, index);
    HeldIsLive(s, t, index);
    BlockOfGrows(index, last - 1);
    assert EntryOk(s.headers[h], s.entryOf, BlockOf(index));
  }

  lemma BlockPicked(headers: seq<Header>, entryOf: seq<EntryId>, owner: seq<Block>, pc: ConsumerPc, pc': ConsumerPc)
    requires ConsumerOk(headers, entryOf, owner, pc) && pc.AtEntry?
    requires BlockOf(pc.index) < |owner| && BlockOf(pc.index) < |entryOf|
    requires pc' == Reading(entryOf[BlockOf(pc.index)], owner[BlockOf(pc.index)], pc.index, pc.index,
                            Min(pc.last, Base(BlockOf(pc.index)) + BLOCK_SIZE), pc.last, pc.h, pc.slot)
    ensures ConsumerOk(headers, entryOf, owner, pc')
    ensures forall i: nat :: Holds(pc', i) <==> Holds(pc, i)
  {
    Split(pc.index);
  }

  /** What the consumer reads from the entry is the block used for its index. */
  lemma PickedBlock(s: State, t: Tid)
    requires Inv(s) && ConsumerCan(s, t) && s.consumers[t].AtEntry?
    ensures var AtEntry(index, last, h, slot) := s.consumers[t];
            var k := BlockOf(index);
            && k < |s.owner| && k < |s.entryOf|
            && ConsumerStep(s, t) == s.(consumers := s.consumers[t :=
                 Reading(s.entryOf[k], s.owner[k], index, index, Min(last, Base(k) + BLOCK_SIZE), last, h, slot)])
  {
    FoundEntry(s, t);
  }

  lemma PickBlockKeepsInv(s: State, t: Tid)
    requires Inv(s) && ConsumerCan(s, t) && s.consumers[t].AtEntry?
    ensures Inv(ConsumerStep(s, t))
  {
    PickedBlock(s, t);
    var pc, pc' := s.consumers[t], ConsumerStep(s, t).consumers[t];
    BlockPicked(s.headers, s.entryOf, s.owner, pc, pc');
    ConsumerMoveKeepsInv(s, ConsumerStep(s, t), t, pc');
  }

  lemma ReadKeepsInv(s: State, t: Tid)
    requires Inv(s) && ConsumerCan(s, t) && s.consumers[t].Reading? && s.consumers[t].index < s.consumers[t].end
    ensures Inv(ConsumerStep(s, t))
  {
    var Reading(e, b, start, index, end, last, h, slot) := s.consumers[t];
    ConsumerMoveKeepsInv(s, ConsumerStep(s, t), t, Reading(e, b, start, index + 1, end, last, h, slot));
  }

  // set_many_empty

  lemma OneReleased(released: set<nat>, k: nat, o: nat)
    requires o < BLOCK_SIZE && Base(k) + o !in released
    ensures |ReleasedIn(released + {Base(k) + o}, k)| == |ReleasedIn(released, k)| + 1
  {
    var next := released + {Base(k) + o};
    forall p: nat | p < BLOCK_SIZE
      ensures IsReleased(next, k, p) <==> IsReleased(released, k, p) || p == o
    {
    }
    assert ReleasedIn(next, k) == ReleasedIn(released, k) + {o};
    assert !IsReleased(released, k, o);
  }

  /** Counting the elements start .. end - 1 of block k as consumed adds just that many positions. */
  lemma {:induction false} ReleasedGrows(released: set<nat>, k: nat, start: nat, end: nat)
    requires Base(k) <= start <= end <= Base(k) + BLOCK_SIZE
    requires forall i: nat | start <= i < end :: i !in released
    ensures |ReleasedIn(released + Range(start, end), k)| == |ReleasedIn(released, k)| + (end - start)
    decreases end - start
  {
    if start == end {
      assert released + Range(start, end) == released;
    } else {
      OneReleased(released, k, start - Base(k));
      ReleasedGrows(released + {start}, k, start + 1, end);
      assert released + {start} + Range(start + 1, end) == released + Range(start, end);
    }
  }

  lemma ReleasedElsewhere(released: set<nat>, k: nat, l: nat, start: nat, end: nat)
    requires Base(k) <= start <= end <= Base(k) + BLOCK_SIZE && l != k
    ensures ReleasedIn(released + Range(start, end), l) == ReleasedIn(released, l)
  {
    forall p: nat | p < BLOCK_SIZE
      ensures IsReleased(released + Range(start, end), l, p) <==> IsReleased(released, l, p)
    {
      if l < k {
        BaseGrows(l, k);
      } else {
        BaseGrows(k, l);
      }
    }
  }

  /** After the count, the consumer has the block to return exactly if the count is complete. */
  lemma CountBlocks(s: State, s': State, t: Tid, k: nat, start: nat, end: nat)
    requires BlocksOk(s) && k < |s.owner| && k !in s.nulled && k !in s.freed && !Returned(s, k)
    requires Base(k) <= start <= end <= Base(k) + BLOCK_SIZE
    requires forall i: nat | start <= i < end :: i !in s.released
    requires t in s.consumers && t in s'.consumers && !s.consumers[t].Nulling? && !s.consumers[t].Freeing?
             && !s'.consumers[t].Freeing?
    requires s.owner[k] in s.dequeued && s.dequeued[s.owner[k]] == |ReleasedIn(s.released, k)|
    requires var count := s.dequeued[s.owner[k]] + (end - start);
             && s' == s.(dequeued := s.dequeued[s.owner[k] := count], released := s.released + Range(start, end),
                         consumers := s.consumers[t := s'.consumers[t]])
             && (s'.consumers[t].Nulling? <==> count == BLOCK_SIZE)
    requires s'.consumers[t].Nulling? ==> s'.consumers[t].number == k
    ensures BlocksOk(s')
  {
    ReleasedGrows(s.released, k, start, end);
    forall l: nat | l < |s'.owner|
      ensures CountOk(s', l)
    {
      assert CountOk(s, l);
      if l != k {
        ReleasedElsewhere(s.released, k, l, start, end);
        ReturnedElsewhere(s, s', t, k, l);
      } else {
        if s'.consumers[t].Nulling? {
          assert Returns(s', t, k);
        } else if Returned(s', k) {
          var u :| Returns(s', u, k);
          assert Returns(s, u, k);
        }
      }
    }
    forall l: nat | s'.lo <= l < |s'.owner|
      ensures ValueOk(s', l)
    {
      assert ValueOk(s, l);
    }
    forall i: nat | i < s'.tailIndex && i !in s'.released
      ensures CellOk(s', i)
    {
      assert CellOk(s, i);
    }
  }

  lemma ReturnedElsewhere(s: State, s': State, t: Tid, k: nat, l: nat)
    requires t in s.consumers && t in s'.consumers && s'.consumers == s.consumers[t := s'.consumers[t]] && l != k
    requires !Returns(s, t, l) && !Returns(s', t, l)
    ensures Returned(s', l) <==> Returned(s, l)
  {
    if Returned(s, l) {
      var u :| Returns(s, u, l);
      assert Returns(s', u, l);
    }
    if Returned(s', l) {
      var u :| Returns(s', u, l);
      assert Returns(s, u, l);
    }
  }

  lemma CountHoldings(s: State, s': State, t: Tid, start: nat, end: nat)
    requires HoldingsOk(s) && t in s.consumers && t in s'.consumers
    requires s'.headIndex == s.headIndex && s'.released == s.released + Range(start, end)
    requires s'.consumers == s.consumers[t := s'.consumers[t]]
    requires forall i: nat | start <= i < end :: HeldBy(s, t, i)
    requires forall i: nat :: Holds(s'.consumers[t], i) <==> Holds(s.consumers[t], i) && !(start <= i < end)
    ensures HoldingsOk(s')
    ensures forall i: nat | start <= i < end :: i !in s.released
  {
    forall i: nat | start <= i < end
      ensures i < s.headIndex && i !in s.released
    {
      assert HeldBy(s, t, i);
    }
    forall u, i: nat
      ensures HeldBy(s', u, i) <==> HeldBy(s, u, i) && !(start <= i < end)
    {
      if start <= i < end {
        assert HeldBy(s, t, i);
        assert HeldBy(s, u, i) ==> u == t;
      }
    }
    forall i: nat | i < s'.headIndex && i !in s'.released
      ensures Held(s', i)
    {
      var u :| HeldBy(s, u, i);
      assert HeldBy(s', u, i);
    }
  }

  lemma CountReturns(s: State, s': State, t: Tid, k: nat)
    requires ReturnsOk(s) && t in s.consumers && t in s'.consumers && k < |s.owner| && k !in s.nulled && k !in s.freed
             && !Returned(s, k)
    requires s'.consumers == s.consumers[t := s'.consumers[t]] && s'.owner == s.owner && s'.nulled == s.nulled
             && s'.freed == s.freed
    requires !s.consumers[t].Nulling? && !s.consumers[t].Freeing? && !s'.consumers[t].Freeing?
    requires s'.consumers[t].Nulling? ==> s'.consumers[t].number == k
    ensures ReturnsOk(s')
  {
    forall u, l: nat
      ensures Returns(s', u, l) ==> Returns(s, u, l) || (u == t && l == k)
    {
    }
    assert forall u :: !Returns(s, u, k);
  }

  /** A bulk dequeue that goes on in the next block finds it in the next slot. */
  lemma NextBlockSlot(h: Header, k: nat, end: nat, slot: nat)
    requires h.capacity > 0 && slot == SlotOf(h, k) && end == Base(k) + BLOCK_SIZE
    ensures BlockOf(end) == k + 1
    ensures Arith.Wrap(slot + 1, h.capacity) == SlotOf(h, BlockOf(end))
  {
    Join(k + 1, 0);
    Arith.WrapShift(k - h.off, 1, h.capacity);
  }

  lemma OnwardOk(headers: seq<Header>, entryOf: seq<EntryId>, owner: seq<Block>,
                 e: EntryId, b: Block, k: nat, end: nat, last: nat, h: nat, slot: nat)
    requires InBlock(headers, entryOf, owner, e, b, k, end, last, h, slot)
    ensures ConsumerOk(headers, entryOf, owner, Onward(headers, end, last, h, slot))
    ensures forall i: nat :: Holds(Onward(headers, end, last, h, slot), i) <==> end <= i < last
  {
    if end < last {
      NextBlockSlot(headers[h], k, end, slot);
    }
  }

  lemma CountParts(s: State, s': State, t: Tid, k: nat, start: nat, end: nat, pc: ConsumerPc)
    requires BlocksOk(s) && HoldingsOk(s) && ReturnsOk(s) && t in s.consumers && s.consumers[t].Reading? && !pc.Freeing?
    requires Base(k) <= start < end <= Base(k) + BLOCK_SIZE && k == BlockOf(start)
    requires k < |s.owner| && s.owner[k] in s.dequeued && s.dequeued[s.owner[k]] == |ReleasedIn(s.released, k)|
    requires k !in s.nulled && k !in s.freed && !Returned(s, k)
    requires forall i: nat | start <= i < end :: HeldBy(s, t, i)
    requires var count := s.dequeued[s.owner[k]] + (end - start);
             && s' == s.(dequeued := s.dequeued[s.owner[k] := count], released := s.released + Range(start, end),
                         consumers := s.consumers[t := pc])
             && (pc.Nulling? <==> count == BLOCK_SIZE)
    requires pc.Nulling? ==> pc.number == k
    requires forall i: nat :: Holds(pc, i) <==> Holds(s.consumers[t], i) && !(start <= i < end)
    ensures BlocksOk(s') && HoldingsOk(s') && ReturnsOk(s')
  {
    CountHoldings(s, s', t, start, end);
    CountReturns(s, s', t, k);
    CountBlocks(s, s', t, k, start, end);
  }

  /** Counting elements of a block in use does not disturb what the producer is doing. */
  /** A count of no elements changes nothing, and yet has the block to return if the count was complete. */
  lemma CountNothing(s: State, t: Tid)
    requires ConsumerCan(s, t) && s.consumers[t].Reading?
    requires s.consumers[t].start == s.consumers[t].index == s.consumers[t].end
    ensures var s', pc := ConsumerStep(s, t), s.consumers[t];
            && s' == s.(consumers := s.consumers[t := s'.consumers[t]])
            && (s'.consumers[t].Nulling? <==> s.dequeued[pc.block] == BLOCK_SIZE)
            && (s'.consumers[t].Nulling? ==> s'.consumers[t].block == pc.block)
  {
    var s', pc := ConsumerStep(s, t), s.consumers[t];
    assert s.released + Range(pc.start, pc.end) == s.released;
    assert s.dequeued[pc.block := s.dequeued[pc.block] + 0] == s.dequeued;
  }

  lemma CountKeepsInv(s: State, s': State, t: Tid, k: nat, pc: ConsumerPc)
    requires Inv(s) && t in s.consumers && k < |s.owner| && k !in s.freed
    requires s.owner[k] in s'.dequeued
    requires s' == s.(dequeued := s.dequeued[s.owner[k] := s'.dequeued[s.owner[k]]], released := s'.released,
                      consumers := s.consumers[t := pc])
    requires BlocksOk(s') && HoldingsOk(s') && ReturnsOk(s') && ConsumerOk(s.headers, s.entryOf, s.owner, pc)
    ensures Inv(s')
  {
  }

  lemma AfterCountOk(headers: seq<Header>, entryOf: seq<EntryId>, owner: seq<Block>, count: nat,
                     e: EntryId, b: Block, k: nat, end: nat, last: nat, h: nat, slot: nat)
    requires InBlock(headers, entryOf, owner, e, b, k, end, last, h, slot)
    ensures var pc := AfterCount(headers, count, e, b, k, end, last, h, slot);
            && ConsumerOk(headers, entryOf, owner, pc) && !pc.Freeing?
            && (pc.Nulling? <==> count == BLOCK_SIZE) && (pc.Nulling? ==> pc.number == k)
            && (forall i: nat :: Holds(pc, i) <==> end <= i < last)
  {
    OnwardOk(headers, entryOf, owner, e, b, k, end, last, h, slot);
  }

  lemma HeldWhileReading(s: State, t: Tid)
    requires t in s.consumers && s.consumers[t].Reading? && ConsumerOk(s.headers, s.entryOf, s.owner, s.consumers[t])
    ensures var pc := s.consumers[t];
            && (forall i: nat :: HeldBy(s, t, i) <==> pc.start <= i < pc.last)
            && (forall i: nat :: Holds(s.consumers[t], i) <==> pc.start <= i < pc.last)
            && Base(BlockOf(pc.start)) <= pc.start < pc.end <= Base(BlockOf(pc.start)) + BLOCK_SIZE && pc.end <= pc.last
  {
    Split(s.consumers[t].start);
  }

  lemma CountEffect(s: State, s': State, t: Tid)
    requires Inv(s) && t in s.consumers && s.consumers[t].Reading?
    requires var Reading(e, b, start, _, end, last, h, slot) := s.consumers[t];
             && b in s.dequeued && start <= end && h < |s.headers| && s.headers[h].capacity > 0
             && var count := s.dequeued[b] + (end - start);
             s' == s.(dequeued := s.dequeued[b := count], released := s.released + Range(start, end),
                      consumers :=
                        s.consumers[t := AfterCount(s.headers, count, e, b, BlockOf(start), end, last, h, slot)])
    ensures Inv(s')
  {
    var Reading(e, b, start, _, end, last, h, slot) := s.consumers[t];
    var k, count := BlockOf(start), s.dequeued[b] + (end - start);
    HeldWhileReading(s, t);
    AfterCountOk(s.headers, s.entryOf, s.owner, count, e, b, k, end, last, h, slot);
    HeldIsLive(s, t, start);
    var pc := AfterCount(s.headers, count, e, b, k, end, last, h, slot);
    CountParts(s, s', t, k, start, end, pc);
    CountKeepsInv(s, s', t, k, pc);
  }

  lemma CountStep(s: State, t: Tid)
    requires Inv(s) && ConsumerCan(s, t) && s.consumers[t].Reading? && s.consumers[t].index >= s.consumers[t].end
    ensures Inv(ConsumerStep(s, t))
  {
    CountEffect(s, ConsumerStep(s, t), t);
  }

  lemma NullBlocks(s: State, s': State, t: Tid, k: nat, e: EntryId)
    requires BlocksOk(s) && ReturnsOk(s) && Returns(s, t, k) && s.consumers[t].Nulling?
    requires |s.owner| <= |s.entryOf| && k < |s.owner| && e == s.entryOf[k]
    requires forall l: nat, m: nat | s.lo <= l < m < |s.entryOf| :: s.entryOf[l] != s.entryOf[m]
    requires t in s'.consumers && Returns(s', t, k)
    requires s' == s.(values := s.values[e := None], nulled := s.nulled + {k},
                      consumers := s.consumers[t := s'.consumers[t]])
    ensures BlocksOk(s')
  {
    forall l: nat | l < |s'.owner|
      ensures CountOk(s', l)
    {
      assert CountOk(s, l);
      if l != k {
        ReturnedElsewhere(s, s', t, k, l);
      }
    }
    forall l: nat | s'.lo <= l < |s'.owner|
      ensures ValueOk(s', l)
    {
      assert ValueOk(s, l);
    }
    forall i: nat | i < s'.tailIndex && i !in s'.released
      ensures CellOk(s', i)
    {
      assert CellOk(s, i);
    }
  }

  lemma NullAgreement(s: State, s': State, t: Tid, k: nat)
    requires HoldingsOk(s) && ReturnsOk(s) && Returns(s, t, k) && s.consumers[t].Nulling?
    requires t in s'.consumers && s'.consumers[t].Freeing? && Returns(s', t, k)
    requires s'.consumers == s.consumers[t := s'.consumers[t]] && s'.owner == s.owner && s'.freed == s.freed
    requires s'.nulled == s.nulled + {k} && s'.headIndex == s.headIndex && s'.released == s.released
    requires forall i: nat :: Holds(s'.consumers[t], i) <==> Holds(s.consumers[t], i)
    ensures HoldingsOk(s') && ReturnsOk(s')
  {
    assert forall u, i: nat :: HeldBy(s', u, i) <==> HeldBy(s, u, i);
    forall i: nat | i < s.headIndex && i !in s.released
      ensures Held(s', i)
    {
      var u :| HeldBy(s, u, i);
      assert HeldBy(s', u, i);
    }
    assert forall u, l: nat :: Returns(s', u, l) <==> Returns(s, u, l);
  }

  /** Nothing but blocks' accounts and the consumers changes, and an entry that is no longer used. */
  lemma NullKeepsInv(s: State, s': State, t: Tid, k: nat, e: EntryId, pc: ConsumerPc)
    requires Inv(s) && k < |s.owner| && e == s.entryOf[k] && s.lo <= k
    requires s' == s.(values := s.values[e := None], nulled := s.nulled + {k}, consumers := s.consumers[t := pc])
    requires BlocksOk(s') && HoldingsOk(s') && ReturnsOk(s') && ConsumerOk(s.headers, s.entryOf, s.owner, pc)
    ensures Inv(s')
  {
  }

  lemma NullStep(s: State, t: Tid)
    requires Inv(s) && ConsumerCan(s, t) && s.consumers[t].Nulling?
    ensures Inv(ConsumerStep(s, t))
  {
    var Nulling(e, b, k, end, last, h, slot) := s.consumers[t];
    var s' := ConsumerStep(s, t);
    assert Returns(s, t, k) && Returns(s', t, k);
    NullBlocks(s, s', t, k, e);
    NullAgreement(s, s', t, k);
    NullKeepsInv(s, s', t, k, e, Freeing(b, k, end, last, h, slot));
  }

  lemma FreeBlocks(s: State, s': State, t: Tid, k: nat)
    requires BlocksOk(s) && ReturnsOk(s) && Returns(s, t, k) && s.consumers[t].Freeing?
    requires t in s'.consumers && !s'.consumers[t].Nulling? && !s'.consumers[t].Freeing?
    requires s' == s.(freed := s.freed + [k], consumers := s.consumers[t := s'.consumers[t]])
    ensures BlocksOk(s')
  {
    forall l: nat | l < |s'.owner|
      ensures CountOk(s', l)
    {
      assert CountOk(s, l);
      if l != k {
        ReturnedElsewhere(s, s', t, k, l);
        assert l in s'.freed <==> l in s.freed;
      } else {
        if Returned(s', k) {
          var u :| Returns(s', u, k);
          assert Returns(s, u, k);
        }
        assert k in s'.freed;
      }
    }
    forall l: nat | s'.lo <= l < |s'.owner|
      ensures ValueOk(s', l)
    {
      assert ValueOk(s, l);
    }
    forall i: nat | i < s'.tailIndex && i !in s'.released
      ensures CellOk(s', i)
    {
      assert CellOk(s, i);
    }
  }

  lemma FreeAgreement(s: State, s': State, t: Tid, k: nat)
    requires HoldingsOk(s) && ReturnsOk(s) && Returns(s, t, k) && s.consumers[t].Freeing?
    requires t in s'.consumers && !s'.consumers[t].Nulling? && !s'.consumers[t].Freeing?
    requires s'.consumers == s.consumers[t := s'.consumers[t]] && s'.owner == s.owner && s'.freed == s.freed + [k]
    requires s'.nulled == s.nulled && s'.headIndex == s.headIndex && s'.released == s.released
    requires forall i: nat :: Holds(s'.consumers[t], i) <==> Holds(s.consumers[t], i)
    ensures HoldingsOk(s') && ReturnsOk(s')
  {
    assert forall u, i: nat :: HeldBy(s', u, i) <==> HeldBy(s, u, i);
    forall i: nat | i < s.headIndex && i !in s.released
      ensures Held(s', i)
    {
      var u :| HeldBy(s, u, i);
      assert HeldBy(s', u, i);
    }
    assert forall u, l: nat :: Returns(s', u, l) <==> Returns(s, u, l) && u != t;
    forall u, l: nat | Returns(s', u, l)
      ensures l !in s'.freed
    {
      assert Returns(s, u, l);
    }
    assert k in s.nulled;
  }

  lemma FreeKeepsInv(s: State, s': State, t: Tid, k: nat, pc: ConsumerPc)
    requires Inv(s) && s' == s.(freed := s.freed + [k], consumers := s.consumers[t := pc])
    requires BlocksOk(s') && HoldingsOk(s') && ReturnsOk(s') && ConsumerOk(s.headers, s.entryOf, s.owner, pc)
    ensures Inv(s')
  {
    assert forall b :: InUse(s', b) ==> InUse(s, b);
  }

  lemma FreeStep(s: State, t: Tid)
    requires Inv(s) && ConsumerCan(s, t) && s.consumers[t].Freeing?
    ensures Inv(ConsumerStep(s, t))
  {
    var Freeing(b, k, end, last, h, slot) := s.consumers[t];
    var s' := ConsumerStep(s, t);
    assert Returns(s, t, k);
    OnwardOk(s.headers, s.entryOf, s.owner, s.entryOf[k], b, k, end, last, h, slot);
    FreeBlocks(s, s', t, k);
    FreeAgreement(s, s', t, k);
    FreeKeepsInv(s, s', t, k, Onward(s.headers, end, last, h, slot));
  }

  lemma ConsumerStepKeepsInv(s: State, t: Tid)
    requires Inv(s) && ConsumerCan(s, t)
    ensures Inv(ConsumerStep(s, t))
  {
    match s.consumers[t] {
      case Idle =>
      case Claimed(_, _) => LoadHeaderKeepsInv(s, t);
      case GotHeader(_, _, _) => LoadTailKeepsInv(s, t);
      case GotTail(_, _, _, _, _) => FindSlotKeepsInv(s, t);
      case AtEntry(_, _, _, _) => PickBlockKeepsInv(s, t);
      case Reading(_, _, _, index, end, _, _, _) =>
        if index < end {
          ReadKeepsInv(s, t);
        } else {
          CountStep(s, t);
        }
      case Nulling(_, _, _, _, _, _, _) => NullStep(s, t);
      case Freeing(_, _, _, _, _, _) => FreeStep(s, t);
    }
  }

  lemma BeginNext(s: State, s': State)
    requires Inv(s) && exists item :: s.pc == Ready && s' == BeginEnqueue(s, item)
    ensures Inv(s')
  {
    var item :| s.pc == Ready && s' == BeginEnqueue(s, item);
    BeginEnqueueKeepsInv(s, item);
  }

  lemma ProducerNext(s: State, s': State)
    requires Inv(s) && exists c :: ProducerCan(s, c) && s' == ProducerStep(s, c)
    ensures Inv(s')
  {
    var c :| ProducerCan(s, c) && s' == ProducerStep(s, c);
    ProducerStepKeepsInv(s, c);
  }

  lemma ClaimNext(s: State, s': State)
    requires Inv(s) && exists t, count: nat :: CanClaim(s, t, count) && count > 0 && s' == Claim(s, t, count)
    ensures Inv(s')
  {
    var t, count: nat :| CanClaim(s, t, count) && count > 0 && s' == Claim(s, t, count);
    ClaimKeepsInv(s, t, count);
  }

  lemma ConsumerNext(s: State, s': State)
    requires Inv(s) && exists t :: ConsumerCan(s, t) && s' == ConsumerStep(s, t)
    ensures Inv(s')
  {
    var t :| ConsumerCan(s, t) && s' == ConsumerStep(s, t);
    ConsumerStepKeepsInv(s, t);
  }

  lemma NextKeepsInv(s: State, s': State)
    requires Inv(s) && Next(false, s, s')
    ensures Inv(s')
  {
    if exists item :: s.pc == Ready && s' == BeginEnqueue(s, item) {
      BeginNext(s, s');
    } else if exists c :: ProducerCan(s, c) && s' == ProducerStep(s, c) {
      ProducerNext(s, s');
    } else if exists t, count: nat :: CanClaim(s, t, count) && count > 0 && s' == Claim(s, t, count) {
      ClaimNext(s, s');
    } else {
      ConsumerNext(s, s');
    }
  }

  lemma {:induction false} RunHasInv(states: seq<State>, i: nat)
    requires Run(false, states) && i < |states|
    ensures Inv(states[i])
  {
    if i == 0 {
      InitHasInv(states[0]);
    } else {
      RunHasInv(states, i - 1);
      NextKeepsInv(states[i - 1], states[i]);
    }
  }

  // ------------------------------------------------------------------------------------- results

  /**
   The slot that a consumer computes for an index it claimed leads to an entry whose key is the base
   of the index's block and whose value is the block used for it, not null: for every header and
   tail it may have loaded, whatever the producer and other consumers did meanwhile.
   */
  lemma ConsumerFindsItsBlock(states: seq<State>, i: nat, t: Tid)
    requires Run(false, states) && i < |states| && t in states[i].consumers && states[i].consumers[t].AtEntry?
    ensures var s, pc := states[i], states[i].consumers[t];
            && ConsumerCan(s, t) && BlockOf(pc.index) < |s.owner|
            && var e := s.headers[pc.h].index[pc.slot];
            e in s.keys && s.keys[e] == Some(Base(BlockOf(pc.index))) && s.values[e] == Some(s.owner[BlockOf(pc.index)])
  {
    RunHasInv(states, i);
    FoundEntry(states[i], t);
  }

  lemma FetchesItsElement(s: State, t: Tid)
    requires Inv(s) && t in s.consumers && s.consumers[t].Reading? && s.consumers[t].index < s.consumers[t].end
    ensures var index := s.consumers[t].index;
            ConsumerCan(s, t) && index < |s.items| && Fetched(s, t) == s.items[index]
  {
    var pc := s.consumers[t];
    HeldWhileReading(s, t);
    HeldIsLive(s, t, pc.index);
    Join(BlockOf(pc.start), pc.index - Base(BlockOf(pc.start)));
    Split(pc.index);
  }

  /** Every element that is fetched is the one that was enqueued at the claimed index. */
  lemma ConsumerFetchesItsElement(states: seq<State>, i: nat, t: Tid)
    requires Run(false, states) && i < |states| && t in states[i].consumers
    requires states[i].consumers[t].Reading? && states[i].consumers[t].index < states[i].consumers[t].end
    ensures var s, index := states[i], states[i].consumers[t].index;
            ConsumerCan(s, t) && index < |s.items| && Fetched(s, t) == s.items[index]
  {
    RunHasInv(states, i);
    FetchesItsElement(states[i], t);
  }

  /**
   Each block number is handed back at most once, and not before all BLOCK_SIZE elements of it were
   consumed; at that moment no consumer still needs any of them.
   */
  lemma BlocksAreFreedOnce(states: seq<State>, i: nat)
    requires Run(false, states) && i < |states|
    ensures var s := states[i];
            && Distinct(s.freed)
            && (forall k | k in s.freed :: k < |s.owner|)
            && (forall k, x: nat | k in s.freed && BlockOf(x) == k :: x in s.released && !Held(s, x))
  {
    RunHasInv(states, i);
    var s := states[i];
    forall k, x: nat | k in s.freed && BlockOf(x) == k
      ensures x in s.released && !Held(s, x)
    {
      assert CountOk(s, k);
      EmptiedMeansReleased(s.released, k, x);
    }
  }

  /**
   No block leaks: a block number whose elements were all consumed was handed back, or some consumer
   is just about to do so.  With all consumers idle, the blocks that are out are just those with an
   element that was not consumed.
   */
  lemma NoBlockLeaks(states: seq<State>, i: nat, k: nat)
    requires Run(false, states) && i < |states| && k < |states[i].owner|
    ensures var s := states[i];
            (forall x: nat | BlockOf(x) == k :: x in s.released) <==> k in s.freed || Returned(s, k)
    ensures var s := states[i];
            (forall t | t in s.consumers :: s.consumers[t] == Idle) ==>
              (k in s.freed <==> forall x: nat | BlockOf(x) == k :: x in s.released)
  {
    RunHasInv(states, i);
    var s := states[i];
    assert CountOk(s, k);
    if Emptied(s.released, k) {
      forall x: nat | BlockOf(x) == k
        ensures x in s.released
      {
        EmptiedMeansReleased(s.released, k, x);
      }
    }
    if forall x: nat | BlockOf(x) == k :: x in s.released {
      AllReleasedMeansEmptied(s.released, k);
    }
  }

  lemma AllReleasedMeansEmptied(released: set<nat>, k: nat)
    requires forall x: nat | BlockOf(x) == k :: x in released
    ensures Emptied(released, k)
  {
    RangeSize(0, BLOCK_SIZE);
    forall o: nat | o < BLOCK_SIZE
      ensures IsReleased(released, k, o)
    {
      Join(k, o);
    }
    assert ReleasedIn(released, k) == Range(0, BLOCK_SIZE);
  }

  /** Nothing is lost: an index below headIndex was consumed, or exactly one consumer has it. */
  lemma ClaimedIsHeldOrReleased(states: seq<State>, i: nat, x: nat)
    requires Run(false, states) && i < |states| && x < states[i].headIndex
    ensures (x in states[i].released) != Held(states[i], x)
    ensures forall t, u :: HeldBy(states[i], t, x) && HeldBy(states[i], u, x) ==> t == u
  {
    RunHasInv(states, i);
  }

  lemma NeverStuck(s: State, t: Tid)
    requires Inv(s) && t in s.consumers && s.consumers[t] != Idle
    ensures ConsumerCan(s, t)
  {
    match s.consumers[t] {
      case Claimed(_, _) =>
      case GotHeader(_, _, _) =>
      case GotTail(_, _, _, _, _) => TailKey(s, t);
      case AtEntry(_, _, _, _) => FoundEntry(s, t);
      case Reading(_, _, start, index, end, _, _, _) =>
        if index < end {
          FetchesItsElement(s, t);
        } else {
          HeldWhileReading(s, t);
          HeldIsLive(s, t, start);
        }
      case Nulling(_, _, _, _, _, _, _) =>
      case Freeing(_, _, _, _, _, _) =>
    }
  }

  /** Every access of a consumer is to memory that exists: no step of it is ever undefined. */
  lemma NoConsumerIsStuck(states: seq<State>, i: nat, t: Tid)
    requires Run(false, states) && i < |states| && t in states[i].consumers && states[i].consumers[t] != Idle
    ensures ConsumerCan(states[i], t)
  {
    RunHasInv(states, i);
    NeverStuck(states[i], t);
  }

  /** The same for the producer, whatever the allocator and the pool answer. */
  lemma ProducerIsNotStuck(states: seq<State>, i: nat, c: Choice)
    requires Run(false, states) && i < |states| && |states[i].headers| > 0
    requires match states[i].pc
             case Ready => false
             case Growing(_) =>
               c.Fails? || (c.Entries? && |c.ids| == Last(states[i].headers).capacity && Distinct(c.ids)
                            && (forall e :: e in c.junk <==> e in c.ids)
                            && forall e | e in c.ids :: e !in states[i].keys)
             case Requisition(_, _) => c.Fails? || (c.Gets? && !InUse(states[i], c.block))
             case _ => true
    ensures ProducerCan(states[i], c)
  {
    RunHasInv(states, i);
    var s := states[i];
    assert HeaderOk(s.headers[|s.headers| - 1], s.entryOf, s.keys, s.lo);
    NewTailSlot(Last(s.headers));
  }
}
