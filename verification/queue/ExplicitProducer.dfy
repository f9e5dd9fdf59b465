/**
 The storage of a producer that has a token: a ring of blocks that are reused once every element in
 them was consumed, and a circular block index through which a consumer that holds claimed indices
 finds their blocks.  The producer and any number of consumers take one atomic access per step.
 Claiming indices is the protocol of IndexClaims; here a consumer takes any indices below tailIndex, or
 none: a dequeue of at most no elements goes on to the block index like any other.
 */
module ExplicitProducer {
  import opened Options
  import opened Blocks
  import Arith

  type Tid = nat
  type Block = nat
  type Item(==, !new)

  /** One slot of the block index. */
  datatype Entry = Entry(base: nat, block: Block)

  /**
   A block index as consumers see it.  History variables: off is the block number kept in slot 0,
   hi the number of blocks entered so far.
   */
  datatype Header = Header(size: nat, front: nat, entries: seq<Entry>, off: int, hi: nat)

  datatype ProducerPc =
    | Ready
    | Checking(item: Item, j: nat)
    | NeedBlock(item: Item)
    | Requisition(item: Item)
    | Clearing(item: Item, block: Block, isNew: bool, j: nat)
    | WritingBase(item: Item)
    | WritingBlock(item: Item)
    | Publishing(item: Item)
    | Constructing(item: Item)
    | Advancing(item: Item)

  /** What only the producer reads and writes; front is pr_blockIndexFront, the next slot. */
  datatype Producer = Producer(
    pc: ProducerPc,
    tailBlock: Option<Block>,
    next: map<Block, Block>,
    slotsUsed: nat,
    front: nat)

  /**
   A consumer with indices index .. last - 1 to fetch.  h is the header it loaded; in GotFront the
   history variable at is the block number that the front slot it loaded stands for.
   */
  datatype ConsumerPc =
    | Idle
    | Claimed(first: nat, last: nat)
    | GotHeader(first: nat, last: nat, h: nat)
    | GotFront(first: nat, last: nat, h: nat, front: nat, at: nat)
    | AtBlock(index: nat, last: nat, h: nat, slot: nat)
    | Reading(block: Block, start: nat, index: nat, end: nat, last: nat, h: nat, slot: nat)
    | Releasing(block: Block, start: nat, end: nat, j: nat, last: nat, h: nat, slot: nat)

  /**
   Shared memory, the producer and the consumers.  History variables: owner[k] is the block used for
   block number k, items[i] the element enqueued at index i, released the indices whose flag was set.
   */
  datatype State = State(
    tailIndex: nat,
    headIndex: nat,
    cells: map<(Block, nat), Item>,
    emptyFlags: map<Block, seq<bool>>,
    headers: seq<Header>,
    producer: Producer,
    consumers: map<Tid, ConsumerPc>,
    owner: seq<Block>,
    items: seq<Item>,
    released: set<nat>)

  ghost predicate Init(s: State) {
    && s.tailIndex == s.headIndex == 0
    && |s.headers| == 1
    && s.headers[0].size > 0 && |s.headers[0].entries| == s.headers[0].size
    && s.headers[0].off == 0 && s.headers[0].hi == 0
    && s.producer == Producer(Ready, None, s.producer.next, 0, 0)
    && (forall t | t in s.consumers :: s.consumers[t] == Idle)
    && s.owner == [] && s.items == [] && s.released == {}
  }

  // ------------------------------------------------------------------------------ producer steps

  function Last(headers: seq<Header>): Header
    requires |headers| > 0
  {
    headers[|headers| - 1]
  }

  function SetLast(headers: seq<Header>, h: Header): seq<Header>
    requires |headers| > 0
  {
    headers[|headers| - 1 := h]
  }

  /** enqueue(item) begins: the end of a block was reached, or there is room in the current one. */
  function BeginEnqueue(s: State, item: Item): State
    requires s.producer.pc == Ready
  {
    s.(producer := s.producer.(pc :=
      if Offset(s.tailIndex) != 0 then Constructing(item)
      else if s.producer.tailBlock.Some? then Checking(item, 0)
      else NeedBlock(item)))
  }

  /**
   new_block_index: an index of twice the size with the slots in use copied to its beginning, oldest
   first.  The slots behind them hold whatever the allocator left there.
   */
  function Grown(p: Producer, h: Header, junk: seq<Entry>): Header
    requires h.size > 0 && |h.entries| == h.size && p.slotsUsed == h.size && |junk| == h.size
  {
    Header(2 * h.size, p.slotsUsed - 1,
           seq(p.slotsUsed, j requires 0 <= j < p.slotsUsed =>
             h.entries[Arith.Wrap(p.front - p.slotsUsed + j, h.size)]) + junk,
           h.hi - p.slotsUsed, h.hi)
  }

  /** How the allocator answers, where the producer asks it. */
  datatype Choice = Fails | Index(junk: seq<Entry>) | Gets(block: Block, flags: seq<bool>)

  predicate ProducerCan(s: State, c: Choice) {
    && |s.headers| > 0
    && var p, h := s.producer, Last(s.headers);
    && h.size > 0 && |h.entries| == h.size && p.front < h.size
    && match p.pc
       case Ready => false
       case Checking(_, j) =>
         p.tailBlock.Some? && p.tailBlock.value in p.next
         && p.next[p.tailBlock.value] in s.emptyFlags && j <= |s.emptyFlags[p.next[p.tailBlock.value]]| == BLOCK_SIZE
       case NeedBlock(_) => p.slotsUsed == h.size ==> c.Fails? || (c.Index? && |c.junk| == h.size)
       case Requisition(_) => c.Fails? || (c.Gets? && |c.flags| == BLOCK_SIZE && BlockIsFree(s, c.block))
       case Clearing(_, b, _, j) => b in s.emptyFlags && j <= |s.emptyFlags[b]| == BLOCK_SIZE
         && (p.tailBlock.Some? ==> p.tailBlock.value in p.next)
       case Constructing(_) => p.tailBlock.Some?
       case WritingBlock(_) => p.tailBlock.Some?
       case _ => true
  }

  /** What the block pool promises: it hands out no block that is in use here. */
  predicate BlockIsFree(s: State, b: Block) {
    s.producer.slotsUsed <= |s.owner| && b !in s.owner[|s.owner| - s.producer.slotsUsed..]
  }

  function ProducerStep(s: State, c: Choice): State
    requires ProducerCan(s, c)
  {
    var p, h := s.producer, Last(s.headers);
    match p.pc
    case Checking(item, j) =>
      // tailBlock->next->is_empty(), one flag a step
      var b := p.next[p.tailBlock.value];
      if j == BLOCK_SIZE then
        s.(producer := p.(tailBlock := Some(b), pc := Clearing(item, b, false, 0)), owner := s.owner + [b])
      else
        s.(producer := p.(pc := if s.emptyFlags[b][j] then Checking(item, j + 1) else NeedBlock(item)))
    case NeedBlock(item) =>
      if p.slotsUsed != h.size then s.(producer := p.(pc := Requisition(item)))
      else if c.Index? then
        s.(headers := s.headers + [Grown(p, h, c.junk)],
           producer := p.(front := p.slotsUsed, pc := Requisition(item)))
      else s.(producer := p.(pc := Ready))
    case Requisition(item) =>
      if c.Gets? then
        s.(emptyFlags := s.emptyFlags[c.block := c.flags], producer := p.(pc := Clearing(item, c.block, true, 0)))
      else
        s.(producer := p.(pc := Ready))
    case Clearing(item, b, isNew, j) =>
      // reset_empty, one flag a step; then a fresh block is linked in behind the tail block
      if j < BLOCK_SIZE then
        s.(emptyFlags := s.emptyFlags[b := s.emptyFlags[b][j := false]],
           producer := p.(pc := Clearing(item, b, isNew, j + 1)))
      else if isNew then
        s.(producer := p.(pc := WritingBase(item), tailBlock := Some(b), slotsUsed := p.slotsUsed + 1,
                          next := if p.tailBlock.None? then p.next[b := b]
                                  else p.next[b := p.next[p.tailBlock.value]][p.tailBlock.value := b]),
           owner := s.owner + [b])
      else s.(producer := p.(pc := WritingBase(item)))
    case WritingBase(item) =>
      s.(headers := SetLast(s.headers, h.(entries := h.entries[p.front := h.entries[p.front].(base := s.tailIndex)])),
         producer := p.(pc := WritingBlock(item)))
    case WritingBlock(item) =>
      var entry := h.entries[p.front].(block := p.tailBlock.value);
      s.(headers := SetLast(s.headers, h.(entries := h.entries[p.front := entry])),
         producer := p.(pc := Publishing(item)))
    case Publishing(item) =>
      s.(headers := SetLast(s.headers, h.(front := p.front, hi := h.hi + 1)),
         producer := p.(front := Arith.Wrap(p.front + 1, h.size), pc := Constructing(item)))
    case Constructing(item) =>
      s.(cells := s.cells[(p.tailBlock.value, Offset(s.tailIndex)) := item], producer := p.(pc := Advancing(item)))
    case Advancing(item) =>
      s.(tailIndex := s.tailIndex + 1, items := s.items + [item], producer := p.(pc := Ready))
    case Ready => s
  }

  // ------------------------------------------------------------------------------ consumer steps

  /** What the tests of a consumer say: elements were enqueued, and so many are there. */
  predicate CanClaim(s: State, t: Tid, count: nat) {
    t in s.consumers && s.consumers[t] == Idle && 0 < s.tailIndex && s.headIndex + count <= s.tailIndex
  }

  /** headIndex.fetch_add by a consumer whose tests passed. */
  function Claim(s: State, t: Tid, count: nat): State
    requires t in s.consumers && s.consumers[t] == Idle
  {
    s.(headIndex := s.headIndex + count,
       consumers := s.consumers[t := Claimed(s.headIndex, s.headIndex + count)])
  }

  function Min(a: nat, b: nat): nat {
    if a < b then a else b
  }

  /** Where set_many_empty starts in the flag array for the elements start .. end - 1 of one block. */
  function FirstFlag(start: nat, end: nat): int {
    BLOCK_SIZE - 1 - Offset(start) - (end - start) + 1
  }

  predicate ConsumerCan(s: State, t: Tid) {
    && t in s.consumers
    && match s.consumers[t]
       case Idle => false
       case Claimed(_, _) => |s.headers| > 0
       case GotHeader(_, _, h) => h < |s.headers|
       case GotFront(_, _, h, f, _) => h < |s.headers| && f < |s.headers[h].entries| == s.headers[h].size
       case AtBlock(_, _, h, slot) => h < |s.headers| && slot < |s.headers[h].entries|
       case Reading(b, _, index, end, _, _, _) => index < end ==> (b, Offset(index)) in s.cells
       case Releasing(b, start, end, j, _, h, _) =>
         && h < |s.headers| && s.headers[h].size > 0 && start <= end
         && (j < end - start ==> b in s.emptyFlags && 0 <= FirstFlag(start, end) + j < |s.emptyFlags[b]|)
  }

  function ConsumerStep(s: State, t: Tid): State
    requires ConsumerCan(s, t)
  {
    match s.consumers[t]
    case Idle => s
    case Claimed(first, last) =>
      s.(consumers := s.consumers[t := GotHeader(first, last, |s.headers| - 1)])
    case GotHeader(first, last, h) =>
      var at := if s.headers[h].hi > 0 then s.headers[h].hi - 1 else 0;
      s.(consumers := s.consumers[t := GotFront(first, last, h, s.headers[h].front, at)])
    case GotFront(first, last, h, f, _) =>
      // the signed distance of the first index's block from the front block, in blocks
      var offset := (Base(BlockOf(first)) - s.headers[h].entries[f].base) / BLOCK_SIZE;
      s.(consumers := s.consumers[t := AtBlock(first, last, h, Arith.Wrap(f + offset, s.headers[h].size))])
    case AtBlock(index, last, h, slot) =>
      var end := Min(last, Base(BlockOf(index)) + BLOCK_SIZE);
      s.(consumers := s.consumers[t := Reading(s.headers[h].entries[slot].block, index, index, end, last, h, slot)])
    case Reading(b, start, index, end, last, h, slot) =>
      // moving the element out; what it yields is Fetched below
      s.(consumers := s.consumers[t := if index < end then Reading(b, start, index + 1, end, last, h, slot)
                                       else Releasing(b, start, end, 0, last, h, slot)])
    case Releasing(b, start, end, j, last, h, slot) =>
      if j < end - start then
        var f := FirstFlag(start, end) + j;
        s.(emptyFlags := s.emptyFlags[b := s.emptyFlags[b][f := true]],
           released := s.released + {end - 1 - j},
           consumers := s.consumers[t := Releasing(b, start, end, j + 1, last, h, slot)])
      else
        s.(consumers := s.consumers[t := if end == last then Idle
                                         else AtBlock(end, last, h, Arith.Wrap(slot + 1, s.headers[h].size))])
  }

  /** The element that a consumer about to read index moves out. */
  function Fetched(s: State, t: Tid): Item
    requires ConsumerCan(s, t) && s.consumers[t].Reading? && s.consumers[t].index < s.consumers[t].end
  {
    s.cells[(s.consumers[t].block, Offset(s.consumers[t].index))]
  }

  ghost predicate Next(s: State, s': State) {
    || (exists item :: s.producer.pc == Ready && s' == BeginEnqueue(s, item))
    || (exists c :: ProducerCan(s, c) && s' == ProducerStep(s, c))
    || (exists t, count: nat :: CanClaim(s, t, count) && s' == Claim(s, t, count))
    || (exists t :: ConsumerCan(s, t) && s' == ConsumerStep(s, t))
  }

  ghost predicate Run(states: seq<State>) {
    && |states| > 0
    && Init(states[0])
    && forall i | 0 <= i < |states| - 1 :: Next(states[i], states[i + 1])
  }

  // ------------------------------------------------------------------------------- the invariant

  /** The oldest block number whose block is still in the ring for it. */
  function Oldest(s: State): int {
    |s.owner| - s.producer.slotsUsed
  }

  /** The slot of header h that stands for block number k. */
  function SlotOf(h: Header, k: nat): nat
    requires h.size > 0
  {
    Arith.Wrap(k - h.off, h.size)
  }

  ghost predicate EntryOk(h: Header, owner: seq<Block>, k: nat) {
    h.size > 0 && |h.entries| == h.size && k < |owner| && h.entries[SlotOf(h, k)] == Entry(Base(k), owner[k])
  }

  /** Whatever header a consumer loaded: it has the entries of all blocks from number lo on that it ever got. */
  ghost predicate HeaderOk(h: Header, owner: seq<Block>, lo: int) {
    && h.size > 0 && |h.entries| == h.size
    && h.hi <= |owner| && h.hi <= lo + h.size
    && (h.hi > 0 ==> h.front == SlotOf(h, h.hi - 1))
    && (forall k: nat {:trigger EntryOk(h, owner, k)} | lo <= k < h.hi :: EntryOk(h, owner, k))
  }

  ghost predicate LinkOk(p: Producer, owner: seq<Block>, k: nat) {
    k + 1 < |owner| && owner[k] in p.next && p.next[owner[k]] == owner[k + 1]
  }

  /** The ring: the last slotsUsed blocks, distinct, linked in order and back to the oldest. */
  ghost predicate RingOk(p: Producer, owner: seq<Block>, lo: int) {
    && 0 <= lo
    && p.tailBlock == (if owner == [] then None else Some(owner[|owner| - 1]))
    && (owner != [] ==> lo < |owner| && owner[|owner| - 1] in p.next && p.next[owner[|owner| - 1]] == owner[lo])
    && (forall k: nat {:trigger LinkOk(p, owner, k)} | lo <= k && k + 1 < |owner| :: LinkOk(p, owner, k))
    && (forall k, l | lo <= k < l < |owner| :: owner[k] != owner[l])
  }

  /** The flags of block b say which elements of block number k were released. */
  ghost predicate FlagsOk(flags: map<Block, seq<bool>>, released: set<nat>, b: Block, k: nat) {
    && b in flags && |flags[b]| == BLOCK_SIZE
    && forall o: nat {:trigger IsReleased(released, k, o)} | o < BLOCK_SIZE ::
       flags[b][BLOCK_SIZE - 1 - o] <==> IsReleased(released, k, o)
  }

  ghost predicate IsReleased(released: set<nat>, k: nat, o: nat) {
    Base(k) + o in released
  }

  /** The first j flags of block b have the given value. */
  ghost predicate FlagsAre(flags: map<Block, seq<bool>>, b: Block, j: nat, value: bool) {
    && b in flags && j <= |flags[b]| == BLOCK_SIZE
    && forall i | 0 <= i < j :: flags[b][i] == value
  }

  ghost predicate CellOk(s: State, i: nat) {
    && i < |s.items| && BlockOf(i) < |s.owner|
    && (s.owner[BlockOf(i)], Offset(i)) in s.cells
    && s.cells[(s.owner[BlockOf(i)], Offset(i))] == s.items[i]
  }

  /** The consumer still needs element i: it claimed it and has not released it. */
  predicate Holds(pc: ConsumerPc, i: nat) {
    match pc
    case Idle => false
    case Claimed(first, last) => first <= i < last
    case GotHeader(first, last, _) => first <= i < last
    case GotFront(first, last, _, _, _) => first <= i < last
    case AtBlock(index, last, _, _) => index <= i < last
    case Reading(_, start, _, _, last, _, _) => start <= i < last
    case Releasing(_, start, end, j, last, _, _) => start <= i < end - j || end <= i < last
  }

  /** The consumer claimed no index at all. */
  predicate HasNone(pc: ConsumerPc) {
    match pc
    case Idle => false
    case Claimed(first, last) => first == last
    case GotHeader(first, last, _) => first == last
    case GotFront(first, last, _, _, _) => first == last
    case AtBlock(index, last, _, _) => index == last
    case Reading(_, start, _, _, last, _, _) => start == last
    case Releasing(_, start, _, _, last, _, _) => start == last
  }

  /** It stays inside the index that it loaded, in which something was entered before. */
  ghost predicate NoneOk(headers: seq<Header>, pc: ConsumerPc) {
    match pc
    case Idle => true
    case Claimed(_, _) => true
    case GotHeader(_, _, h) => h < |headers| && headers[h].hi > 0
    case GotFront(_, _, h, f, _) => h < |headers| && f < headers[h].size
    case AtBlock(_, _, h, slot) => h < |headers| && slot < headers[h].size
    case Reading(_, _, index, end, last, h, _) => index == end == last && h < |headers|
    case Releasing(_, _, end, _, last, h, _) => end == last && h < |headers|
  }

  ghost predicate ConsumerOk(headers: seq<Header>, owner: seq<Block>, pc: ConsumerPc) {
    if HasNone(pc) then NoneOk(headers, pc) else SomeOk(headers, owner, pc)
  }

  ghost predicate SomeOk(headers: seq<Header>, owner: seq<Block>, pc: ConsumerPc) {
    match pc
    case Idle => true
    case Claimed(first, last) => first < last
    case GotHeader(first, last, h) =>
      first < last && h < |headers| && BlockOf(last - 1) < headers[h].hi
    case GotFront(first, last, h, f, at) =>
      && first < last && h < |headers| && headers[h].size > 0
      && BlockOf(last - 1) <= at < headers[h].hi && f == SlotOf(headers[h], at)
    case AtBlock(index, last, h, slot) =>
      && index < last && h < |headers| && headers[h].size > 0
      && BlockOf(last - 1) < headers[h].hi && slot == SlotOf(headers[h], BlockOf(index))
    case Reading(b, start, index, end, last, h, slot) =>
      && start <= index <= end && InOneBlock(headers, owner, b, start, end, last, h, slot)
    case Releasing(b, start, end, j, last, h, slot) =>
      && j <= end - start && InOneBlock(headers, owner, b, start, end, last, h, slot)
  }

  ghost predicate InOneBlock(headers: seq<Header>, owner: seq<Block>, b: Block, start: nat, end: nat, last: nat,
                             h: nat, slot: nat) {
    && start < end <= last && h < |headers| && headers[h].size > 0
    && BlockOf(last - 1) < headers[h].hi
    && slot == SlotOf(headers[h], BlockOf(start))
    && BlockOf(start) < |owner| && b == owner[BlockOf(start)]
    && end == Min(last, Base(BlockOf(start)) + BLOCK_SIZE)
  }

  /** tailIndex lies in the newest block, or exactly behind it. */
  ghost predicate TailInNewest(s: State, room: bool) {
    && |s.owner| > 0 && Base(|s.owner| - 1) <= s.tailIndex
    && (if room then s.tailIndex < Base(|s.owner|) else Base(|s.owner| - 1) < s.tailIndex <= Base(|s.owner|))
  }

  ghost predicate ProducerOk(s: State)
    requires |s.headers| > 0
  {
    var p, h, n := s.producer, Last(s.headers), |s.owner|;
    match p.pc
    case Ready => h.hi == n && (if n == 0 then s.tailIndex == 0 else TailInNewest(s, false))
    case Checking(_, j) =>
      && h.hi == n && n > 0 && s.tailIndex == Base(n)
      && 0 <= Oldest(s) < n && FlagsAre(s.emptyFlags, s.owner[Oldest(s)], j, true)
    case NeedBlock(_) => h.hi == n && s.tailIndex == Base(n)
    case Requisition(_) => h.hi == n && s.tailIndex == Base(n) && p.slotsUsed < h.size
    case Clearing(_, b, isNew, j) =>
      && s.tailIndex == Base(h.hi) && FlagsAre(s.emptyFlags, b, j, false)
      && (if isNew then h.hi == n && p.slotsUsed < h.size && BlockIsFree(s, b)
          else h.hi + 1 == n && b == s.owner[n - 1])
    case WritingBase(_) => NewestPending(s)
    case WritingBlock(_) =>
      NewestPending(s) && p.front < |h.entries| && h.entries[p.front].base == s.tailIndex
    case Publishing(_) =>
      NewestPending(s) && p.front < |h.entries| && h.entries[p.front] == Entry(s.tailIndex, s.owner[n - 1])
    case Constructing(_) => h.hi == n && TailInNewest(s, true)
    case Advancing(item) =>
      && h.hi == n && TailInNewest(s, true)
      && (s.owner[n - 1], Offset(s.tailIndex)) in s.cells && s.cells[(s.owner[n - 1], Offset(s.tailIndex))] == item
  }

  ghost predicate NewestPending(s: State)
    requires |s.headers| > 0
  {
    && |s.owner| == Last(s.headers).hi + 1 && s.tailIndex == Base(|s.owner| - 1)
    && FlagsAre(s.emptyFlags, s.owner[|s.owner| - 1], BLOCK_SIZE, false)
  }

  ghost predicate HeldBy(s: State, t: Tid, i: nat) {
    t in s.consumers && Holds(s.consumers[t], i)
  }

  /** What is claimed and not yet released belongs to one consumer. */
  ghost predicate HoldingsOk(s: State) {
    && (forall t, i: nat | HeldBy(s, t, i) :: i < s.headIndex && i !in s.released)
    && (forall t, u, i: nat | HeldBy(s, t, i) && HeldBy(s, u, i) :: t == u)
    && (forall i: nat | i in s.released :: i < s.headIndex)
    && (forall i: nat | i < s.headIndex :: i in s.released || Held(s, i))
  }

  ghost predicate Held(s: State, i: nat) {
    exists t :: HeldBy(s, t, i)
  }

  /** What does not depend on where the consumers are. */
  ghost predicate SharedOk(s: State) {
    && |s.headers| > 0
    && RingOk(s.producer, s.owner, Oldest(s))
    && s.producer.slotsUsed <= Last(s.headers).size
    && (forall h {:trigger s.headers[h]} | 0 <= h < |s.headers| :: HeaderOk(s.headers[h], s.owner, Oldest(s)))
    && s.producer.front == SlotOf(Last(s.headers), Last(s.headers).hi)
    && s.tailIndex <= Base(Last(s.headers).hi)
    && ProducerOk(s)
    && (forall k {:trigger s.owner[k]} | Oldest(s) <= k < Last(s.headers).hi ::
        FlagsOk(s.emptyFlags, s.released, s.owner[k], k))
    && (forall i: nat {:trigger CellOk(s, i)} | Base(Oldest(s)) <= i < s.tailIndex :: CellOk(s, i))
    && (forall i: nat | i < Base(Oldest(s)) :: i in s.released)
  }

  ghost predicate Inv(s: State) {
    && s.headIndex <= s.tailIndex == |s.items|
    && SharedOk(s)
    && (forall t | t in s.consumers :: ConsumerOk(s.headers, s.owner, s.consumers[t]))
    && (s.tailIndex == 0 ==> forall t | t in s.consumers :: s.consumers[t] == Idle)
    && HoldingsOk(s)
  }

  /** There are runs with any consumers and a first index of any size. */
  lemma RunsBegin(tids: set<Tid>, size: nat) returns (s: State)
    requires size > 0
    ensures s.consumers.Keys == tids && |s.headers| == 1 && s.headers[0].size == size && Run([s])
  {
    var header := Header(size, 0, seq(size, _ => Entry(0, 0)), 0, 0);
    s := State(0, 0, map[], map[], [header], Producer(Ready, None, map[], 0, 0), map t | t in tids :: Idle, [], [], {});
  }

  lemma RunGoesOn(states: seq<State>, s: State)
    requires Run(states) && Next(states[|states| - 1], s)
    ensures Run(states + [s])
  {
    var states' := states + [s];
    forall i | 0 <= i < |states'| - 1
      ensures Next(states'[i], states'[i + 1])
    {
      assert states'[i] == states[i];
    }
  }

  lemma InitHasInv(s: State)
    requires Init(s)
    ensures Inv(s)
  {
  }

  // ---------------------------------------------------- the producer's steps keep the invariant

  /** Headers may gain entries and new ones may appear; consumers do not notice. */
  lemma ConsumerKept(headers: seq<Header>, headers': seq<Header>, owner: seq<Block>, owner': seq<Block>, pc: ConsumerPc)
    requires ConsumerOk(headers, owner, pc)
    requires |headers| <= |headers'| && owner <= owner'
    requires forall h {:trigger headers[h]} {:trigger headers'[h]} | 0 <= h < |headers| ::
               headers'[h].size == headers[h].size && headers'[h].off == headers[h].off
                 && headers[h].hi <= headers'[h].hi
    ensures ConsumerOk(headers', owner', pc)
  {
  }

  lemma PcMoveKeepsInv(s: State, s': State)
    requires Inv(s) && s' == s.(producer := s.producer.(pc := s'.producer.pc))
    requires ProducerOk(s')
    ensures Inv(s')
  {
    forall i: nat | Base(Oldest(s')) <= i < s'.tailIndex
      ensures CellOk(s', i)
    {
      assert CellOk(s, i);
    }
    HoldingsKept(s, s');
    RingKept(s.producer, s'.producer, s.owner, Oldest(s));
  }

  lemma HoldingsKept(s: State, s': State)
    requires HoldingsOk(s)
    requires s'.released == s.released && s'.headIndex == s.headIndex
    requires forall t, i: nat :: HeldBy(s', t, i) <==> HeldBy(s, t, i)
    ensures HoldingsOk(s')
  {
    forall i: nat | i < s.headIndex && i !in s.released
      ensures Held(s', i)
    {
      var t :| HeldBy(s, t, i);
      assert HeldBy(s', t, i);
    }
  }

  lemma RingKept(p: Producer, p': Producer, owner: seq<Block>, lo: int)
    requires RingOk(p, owner, lo) && p'.next == p.next && p'.tailBlock == p.tailBlock
    ensures RingOk(p', owner, lo)
  {
    forall k: nat | lo <= k && k + 1 < |owner|
      ensures LinkOk(p', owner, k)
    {
      assert LinkOk(p, owner, k);
    }
  }

  lemma BeginEnqueueKeepsInv(s: State, item: Item)
    requires Inv(s) && s.producer.pc == Ready
    ensures Inv(BeginEnqueue(s, item))
  {
    var n := |s.owner|;
    Split(s.tailIndex);
    if n > 0 {
      Between(s.tailIndex, n - 1, n);
      Join(n, 0);
      if Offset(s.tailIndex) == 0 && s.tailIndex != Base(n) {
        assert false;
      }
    } else {
      Join(0, 0);
    }
    PcMoveKeepsInv(s, BeginEnqueue(s, item));
  }

  /** The block ahead of the tail is empty: everything in it was released. */
  lemma EmptyBlockReleased(s: State, lo: nat, i: nat)
    requires lo < |s.owner| && FlagsOk(s.emptyFlags, s.released, s.owner[lo], lo)
    requires FlagsAre(s.emptyFlags, s.owner[lo], BLOCK_SIZE, true)
    requires Base(lo) <= i < Base(lo + 1)
    ensures i in s.released
  {
    var o := i - Base(lo);
    assert s.emptyFlags[s.owner[lo]][BLOCK_SIZE - 1 - o];
    assert IsReleased(s.released, lo, o);
  }

  lemma RingRotated(p: Producer, owner: seq<Block>, lo: nat, b: Block)
    requires RingOk(p, owner, lo) && lo < |owner| && b == owner[lo]
    ensures RingOk(p.(tailBlock := Some(b)), owner + [b], lo + 1)
  {
    var p', owner' := p.(tailBlock := Some(b)), owner + [b];
    forall k: nat | lo + 1 <= k && k + 1 < |owner'|
      ensures LinkOk(p', owner', k)
    {
      if k + 1 < |owner| {
        assert LinkOk(p, owner, k);
      }
    }
    if lo + 1 < |owner| {
      assert LinkOk(p, owner, lo);
    }
  }

  lemma HeaderSeesLonger(h: Header, owner: seq<Block>, owner': seq<Block>, lo: int, lo': int)
    requires HeaderOk(h, owner, lo) && owner <= owner' && lo <= lo'
    ensures HeaderOk(h, owner', lo')
  {
    forall k: nat | lo' <= k < h.hi
      ensures EntryOk(h, owner', k)
    {
      assert EntryOk(h, owner, k);
    }
  }

  /** One more block number: all that was said about the earlier ones stays true. */
  lemma AppendKeeps(s: State, s': State, b: Block)
    requires Inv(s) && s'.owner == s.owner + [b] && Oldest(s) <= Oldest(s')
    requires s'.headers == s.headers && s'.cells == s.cells && s'.items == s.items && s'.consumers == s.consumers
    requires s'.tailIndex == s.tailIndex && |s.owner| == Last(s.headers).hi
    ensures forall h {:trigger s'.headers[h]} | 0 <= h < |s'.headers| :: HeaderOk(s'.headers[h], s'.owner, Oldest(s'))
    ensures forall i: nat {:trigger CellOk(s', i)} | Base(Oldest(s')) <= i < s'.tailIndex :: CellOk(s', i)
    ensures forall t | t in s'.consumers :: ConsumerOk(s'.headers, s'.owner, s'.consumers[t])
  {
    forall h | 0 <= h < |s'.headers|
      ensures HeaderOk(s'.headers[h], s'.owner, Oldest(s'))
    {
      HeaderSeesLonger(s.headers[h], s.owner, s'.owner, Oldest(s), Oldest(s'));
    }
    forall i: nat | Base(Oldest(s')) <= i < s'.tailIndex
      ensures CellOk(s', i)
    {
      BaseGrows(Oldest(s), Oldest(s'));
      assert CellOk(s, i);
    }
    forall t | t in s'.consumers
      ensures ConsumerOk(s'.headers, s'.owner, s'.consumers[t])
    {
      ConsumerKept(s.headers, s'.headers, s.owner, s'.owner, s.consumers[t]);
    }
  }

  lemma ReuseKeepsInv(s: State, s': State, item: Item, b: Block)
    requires Inv(s) && s.producer.pc == Checking(item, BLOCK_SIZE)
    requires s.producer.tailBlock.Some? && s.producer.tailBlock.value in s.producer.next
    requires b == s.producer.next[s.producer.tailBlock.value]
    requires s' == s.(producer := s.producer.(tailBlock := Some(b), pc := Clearing(item, b, false, 0)),
                      owner := s.owner + [b])
    ensures Inv(s')
  {
    var lo := Oldest(s);
    assert b == s.owner[lo];
    RingRotated(s.producer, s.owner, lo, b);
    RingKept(s.producer.(tailBlock := Some(b)), s'.producer, s'.owner, lo + 1);
    AppendKeeps(s, s', b);
    HoldingsKept(s, s');
    forall i: nat | i < Base(Oldest(s'))
      ensures i in s'.released
    {
      if Base(lo) <= i {
        EmptyBlockReleased(s, lo, i);
      }
    }
    forall k | Oldest(s') <= k < Last(s'.headers).hi
      ensures FlagsOk(s'.emptyFlags, s'.released, s'.owner[k], k)
    {
      assert s'.owner[k] == s.owner[k];
    }
  }

  // new_block_index

  /** Slot j of the grown index holds what the old index held for block number h.hi - slotsUsed + j. */
  lemma GrownEntry(p: Producer, h: Header, junk: seq<Entry>, owner: seq<Block>, k: nat)
    requires h.size > 0 && |h.entries| == h.size && p.slotsUsed == h.size && |junk| == h.size
    requires p.front == SlotOf(h, h.hi) && h.hi - p.slotsUsed <= k < h.hi
    requires EntryOk(h, owner, k)
    ensures EntryOk(Grown(p, h, junk), owner, k)
  {
    var g := Grown(p, h, junk);
    var j := k - (h.hi - p.slotsUsed);
    Arith.WrapShift(h.hi - h.off, j - p.slotsUsed, h.size);
    assert SlotOf(g, k) == j;
    assert g.entries[j] == h.entries[SlotOf(h, k)];
  }

  lemma GrowKeepsInv(s: State, s': State, item: Item, junk: seq<Entry>)
    requires Inv(s) && s.producer.pc == NeedBlock(item)
    requires var p, h := s.producer, Last(s.headers);
             && p.slotsUsed == h.size && |junk| == h.size
             && s' == s.(headers := s.headers + [Grown(p, h, junk)],
                         producer := p.(front := p.slotsUsed, pc := Requisition(item)))
    ensures Inv(s')
  {
    var p, h := s.producer, Last(s.headers);
    var g := Grown(p, h, junk);
    assert HeaderOk(s.headers[|s.headers| - 1], s.owner, Oldest(s));
    forall k: nat | Oldest(s) <= k < g.hi
      ensures EntryOk(g, s.owner, k)
    {
      assert EntryOk(h, s.owner, k);
      GrownEntry(p, h, junk, s.owner, k);
    }
    assert HeaderOk(g, s.owner, Oldest(s));
    forall i | 0 <= i < |s'.headers|
      ensures HeaderOk(s'.headers[i], s'.owner, Oldest(s'))
    {
      if i < |s.headers| {
        assert HeaderOk(s.headers[i], s.owner, Oldest(s));
      }
    }
    forall t | t in s'.consumers
      ensures ConsumerOk(s'.headers, s'.owner, s'.consumers[t])
    {
      ConsumerKept(s.headers, s'.headers, s.owner, s'.owner, s.consumers[t]);
    }
    forall i: nat | Base(Oldest(s')) <= i < s'.tailIndex
      ensures CellOk(s', i)
    {
      assert CellOk(s, i);
    }
    HoldingsKept(s, s');
    RingKept(p, s'.producer, s.owner, Oldest(s));
  }

  // requisition_block and reset_empty

  /** Flags of a block outside the ring, or of the newest block before it is published, do not matter. */
  lemma OtherFlagsKeepInv(s: State, s': State, b: Block, f: seq<bool>)
    requires Inv(s) && s' == s.(emptyFlags := s.emptyFlags[b := f], producer := s.producer.(pc := s'.producer.pc))
    requires forall k | Oldest(s) <= k < Last(s.headers).hi :: s.owner[k] != b
    requires ProducerOk(s')
    ensures Inv(s')
  {
    forall i: nat | Base(Oldest(s')) <= i < s'.tailIndex
      ensures CellOk(s', i)
    {
      assert CellOk(s, i);
    }
    forall k | Oldest(s') <= k < Last(s'.headers).hi
      ensures FlagsOk(s'.emptyFlags, s'.released, s'.owner[k], k)
    {
      FlagsKept(s.emptyFlags, s'.emptyFlags, s.released, s.owner[k], k);
    }
    HoldingsKept(s, s');
    RingKept(s.producer, s'.producer, s.owner, Oldest(s));
  }

  lemma FlagsKept(flags: map<Block, seq<bool>>, flags': map<Block, seq<bool>>, released: set<nat>, b: Block, k: nat)
    requires FlagsOk(flags, released, b, k) && b in flags' && flags'[b] == flags[b]
    ensures FlagsOk(flags', released, b, k)
  {
  }

  lemma FreeIsElsewhere(s: State, b: Block)
    requires BlockIsFree(s, b)
    ensures forall k | Oldest(s) <= k < |s.owner| :: s.owner[k] != b
  {
    forall k | Oldest(s) <= k < |s.owner|
      ensures s.owner[k] != b
    {
      assert s.owner[Oldest(s)..][k - Oldest(s)] == s.owner[k];
    }
  }

  lemma RequisitionKeepsInv(s: State, s': State, item: Item, b: Block, flags: seq<bool>)
    requires Inv(s) && s.producer.pc == Requisition(item) && |flags| == BLOCK_SIZE && BlockIsFree(s, b)
    requires s' == s.(emptyFlags := s.emptyFlags[b := flags], producer := s.producer.(pc := Clearing(item, b, true, 0)))
    ensures Inv(s')
  {
    FreeIsElsewhere(s, b);
    OtherFlagsKeepInv(s, s', b, flags);
  }

  lemma ClearKeepsInv(s: State, s': State, item: Item, b: Block, isNew: bool, j: nat)
    requires Inv(s) && s.producer.pc == Clearing(item, b, isNew, j) && j < BLOCK_SIZE
    requires b in s.emptyFlags && |s.emptyFlags[b]| == BLOCK_SIZE
    requires s' == s.(emptyFlags := s.emptyFlags[b := s.emptyFlags[b][j := false]],
                      producer := s.producer.(pc := Clearing(item, b, isNew, j + 1)))
    ensures Inv(s')
  {
    if isNew {
      FreeIsElsewhere(s, b);
    }
    OtherFlagsKeepInv(s, s', b, s.emptyFlags[b][j := false]);
  }

  lemma RingExtended(p: Producer, p': Producer, owner: seq<Block>, lo: int, b: Block)
    requires RingOk(p, owner, lo)
    requires forall k | lo <= k < |owner| :: owner[k] != b
    requires p'.tailBlock == Some(b)
    requires p.tailBlock.Some? ==> p.tailBlock.value in p.next
    requires p'.next == if p.tailBlock.None? then p.next[b := b]
                        else p.next[b := p.next[p.tailBlock.value]][p.tailBlock.value := b]
    requires owner == [] ==> lo == 0
    ensures RingOk(p', owner + [b], lo)
  {
    var owner' := owner + [b];
    forall k: nat | lo <= k && k + 1 < |owner'|
      ensures LinkOk(p', owner', k)
    {
      if k + 1 < |owner| {
        assert LinkOk(p, owner, k);
      }
    }
  }

  lemma LinkKeepsInv(s: State, s': State, item: Item, b: Block)
    requires Inv(s) && s.producer.pc == Clearing(item, b, true, BLOCK_SIZE)
    requires s.producer.tailBlock.Some? ==> s.producer.tailBlock.value in s.producer.next
    requires var p := s.producer;
             s' == s.(producer := p.(pc := WritingBase(item), tailBlock := Some(b), slotsUsed := p.slotsUsed + 1,
                                     next := if p.tailBlock.None? then p.next[b := b]
                                             else p.next[b := p.next[p.tailBlock.value]][p.tailBlock.value := b]),
                      owner := s.owner + [b])
    ensures Inv(s')
  {
    FreeIsElsewhere(s, b);
    RingExtended(s.producer, s'.producer, s.owner, Oldest(s), b);
    AppendKeeps(s, s', b);
    HoldingsKept(s, s');
    forall k | Oldest(s') <= k < Last(s'.headers).hi
      ensures FlagsOk(s'.emptyFlags, s'.released, s'.owner[k], k)
    {
      assert s'.owner[k] == s.owner[k];
    }
  }

  // the block index entry

  /** Rewriting the slot behind the front one touches no entry that is still needed. */
  lemma NextSlotIsUnused(h: Header, h': Header, owner: seq<Block>, lo: int, slot: nat, e: Entry)
    requires HeaderOk(h, owner, lo) && slot == SlotOf(h, h.hi)
    requires h.hi < lo + h.size
    requires h' == h.(entries := h.entries[slot := e])
    ensures HeaderOk(h', owner, lo)
  {
    forall k: nat | lo <= k < h'.hi
      ensures EntryOk(h', owner, k)
    {
      assert EntryOk(h, owner, k);
      Arith.WrapDistinct(k - h.off, h.hi - h.off, h.size);
    }
  }

  /** The current header changes; nothing else but the producer's locals does. */
  lemma HeaderStepKeepsInv(s: State, s': State, h': Header)
    requires Inv(s)
    requires s' == s.(headers := SetLast(s.headers, h'),
                      producer := s.producer.(pc := s'.producer.pc, front := s'.producer.front))
    requires var h := Last(s.headers); h'.size == h.size && h'.off == h.off && h.hi <= h'.hi
    requires HeaderOk(h', s.owner, Oldest(s))
    requires ProducerOk(s') && s'.producer.front == SlotOf(h', h'.hi) && s.tailIndex <= Base(h'.hi)
    requires forall k {:trigger s.owner[k]} | Oldest(s) <= k < h'.hi :: FlagsOk(s.emptyFlags, s.released, s.owner[k], k)
    ensures Inv(s')
  {
    forall h | 0 <= h < |s'.headers|
      ensures HeaderOk(s'.headers[h], s'.owner, Oldest(s'))
    {
      assert HeaderOk(s.headers[h], s.owner, Oldest(s));
    }
    forall t | t in s'.consumers
      ensures ConsumerOk(s'.headers, s'.owner, s'.consumers[t])
    {
      ConsumerKept(s.headers, s'.headers, s.owner, s'.owner, s.consumers[t]);
    }
    forall i: nat | Base(Oldest(s')) <= i < s'.tailIndex
      ensures CellOk(s', i)
    {
      assert CellOk(s, i);
    }
    HoldingsKept(s, s');
    RingKept(s.producer, s'.producer, s.owner, Oldest(s));
  }

  lemma WriteEntryKeepsInv(s: State, s': State, e: Entry)
    requires Inv(s) && NewestPending(s) && s.producer.front < |Last(s.headers).entries|
    requires var h := Last(s.headers);
             s' == s.(headers := SetLast(s.headers, h.(entries := h.entries[s.producer.front := e])),
                      producer := s.producer.(pc := s'.producer.pc))
    requires (s'.producer.pc.WritingBlock? && e.base == s.tailIndex)
             || (s'.producer.pc.Publishing? && e == Entry(s.tailIndex, s.owner[|s.owner| - 1]))
    ensures Inv(s')
  {
    var h := Last(s.headers);
    assert HeaderOk(s.headers[|s.headers| - 1], s.owner, Oldest(s));
    var h' := h.(entries := h.entries[s.producer.front := e]);
    NextSlotIsUnused(h, h', s.owner, Oldest(s), s.producer.front, e);
    HeaderStepKeepsInv(s, s', h');
  }

  /** A block whose flags are all clear and none of whose elements exist yet. */
  lemma FreshFlagsOk(s: State, k: nat)
    requires k < |s.owner| && s.tailIndex == Base(k) && HoldingsOk(s) && s.headIndex <= s.tailIndex
    requires FlagsAre(s.emptyFlags, s.owner[k], BLOCK_SIZE, false)
    ensures FlagsOk(s.emptyFlags, s.released, s.owner[k], k)
  {
  }

  lemma PublishKeepsInv(s: State, s': State, item: Item)
    requires Inv(s) && s.producer.pc == Publishing(item)
    requires var h := Last(s.headers);
             s' == s.(headers := SetLast(s.headers, h.(front := s.producer.front, hi := h.hi + 1)),
                      producer := s.producer.(front := Arith.Wrap(s.producer.front + 1, h.size),
                                              pc := Constructing(item)))
    ensures Inv(s')
  {
    var h := Last(s.headers);
    var h' := h.(front := s.producer.front, hi := h.hi + 1);
    assert HeaderOk(s.headers[|s.headers| - 1], s.owner, Oldest(s));
    forall k: nat | Oldest(s) <= k < h'.hi
      ensures EntryOk(h', s.owner, k)
    {
      if k < h.hi {
        assert EntryOk(h, s.owner, k);
      }
    }
    Arith.WrapShift(h.hi - h.off, 1, h.size);
    FreshFlagsOk(s, h.hi);
    BaseGrows(h.hi, h.hi + 1);
    HeaderStepKeepsInv(s, s', h');
  }

  // the element itself

  /** The element goes to a cell that no other element in the ring has. */
  lemma ConstructKeepsCell(s: State, s': State, item: Item, i: nat)
    requires s.producer.tailBlock.Some? && RingOk(s.producer, s.owner, Oldest(s)) && TailInNewest(s, true)
    requires s'.cells == s.cells[(s.producer.tailBlock.value, Offset(s.tailIndex)) := item]
    requires s'.owner == s.owner && s'.items == s.items
    requires Base(Oldest(s)) <= i < s.tailIndex && CellOk(s, i)
    ensures CellOk(s', i)
  {
    Split(s.tailIndex);
    Between(s.tailIndex, |s.owner| - 1, |s.owner|);
    Split(i);
    Between(i, Oldest(s), |s.owner|);
  }

  lemma ConstructKeepsInv(s: State, s': State, item: Item)
    requires Inv(s) && s.producer.pc == Constructing(item) && s.producer.tailBlock.Some?
    requires s' == s.(cells := s.cells[(s.producer.tailBlock.value, Offset(s.tailIndex)) := item],
                      producer := s.producer.(pc := Advancing(item)))
    ensures Inv(s')
  {
    Split(s.tailIndex);
    Between(s.tailIndex, |s.owner| - 1, |s.owner|);
    forall i: nat | Base(Oldest(s')) <= i < s'.tailIndex
      ensures CellOk(s', i)
    {
      ConstructKeepsCell(s, s', item, i);
    }
    HoldingsKept(s, s');
    RingKept(s.producer, s'.producer, s.owner, Oldest(s));
  }

  lemma AdvanceTailKeepsInv(s: State, s': State, item: Item)
    requires Inv(s) && s.producer.pc == Advancing(item)
    requires s' == s.(tailIndex := s.tailIndex + 1, items := s.items + [item], producer := s.producer.(pc := Ready))
    ensures Inv(s')
  {
    var n := |s.owner|;
    Between(s.tailIndex, n - 1, n);
    forall i: nat | Base(Oldest(s')) <= i < s'.tailIndex
      ensures CellOk(s', i)
    {
      if i < s.tailIndex {
        assert CellOk(s, i);
      }
    }
    HoldingsKept(s, s');
    RingKept(s.producer, s'.producer, s.owner, Oldest(s));
  }

  lemma CheckFlagKeepsInv(s: State, item: Item, j: nat, c: Choice)
    requires Inv(s) && s.producer.pc == Checking(item, j) && ProducerCan(s, c)
    ensures Inv(ProducerStep(s, c))
  {
    var b := s.producer.next[s.producer.tailBlock.value];
    if j == BLOCK_SIZE {
      ReuseKeepsInv(s, ProducerStep(s, c), item, b);
    } else {
      PcMoveKeepsInv(s, ProducerStep(s, c));
    }
  }

  lemma GetBlockKeepsInv(s: State, c: Choice)
    requires Inv(s) && (s.producer.pc.NeedBlock? || s.producer.pc.Requisition?) && ProducerCan(s, c)
    ensures Inv(ProducerStep(s, c))
  {
    var s' := ProducerStep(s, c);
    match s.producer.pc {
      case NeedBlock(item) =>
        if s.producer.slotsUsed == Last(s.headers).size && c.Index? {
          GrowKeepsInv(s, s', item, c.junk);
        } else {
          BackToReady(s);
          PcMoveKeepsInv(s, s');
        }
      case Requisition(item) =>
        if c.Gets? {
          RequisitionKeepsInv(s, s', item, c.block, c.flags);
        } else {
          BackToReady(s);
          PcMoveKeepsInv(s, s');
        }
    }
  }

  /** After a failed allocation the tail is where it was: exactly behind the newest block. */
  lemma BackToReady(s: State)
    requires |s.headers| > 0 && s.tailIndex == Base(|s.owner|)
    ensures |s.owner| > 0 ==> TailInNewest(s, false)
    ensures |s.owner| == 0 ==> s.tailIndex == 0
  {
    if |s.owner| > 0 {
      BaseGrows(|s.owner| - 1, |s.owner|);
    }
  }

  lemma ClearOneKeepsInv(s: State, c: Choice)
    requires Inv(s) && s.producer.pc.Clearing? && s.producer.pc.j < BLOCK_SIZE && ProducerCan(s, c)
    ensures Inv(ProducerStep(s, c))
  {
    var Clearing(item, b, isNew, j) := s.producer.pc;
    ClearKeepsInv(s, ProducerStep(s, c), item, b, isNew, j);
  }

  lemma ClearedKeepsInv(s: State, c: Choice)
    requires Inv(s) && s.producer.pc.Clearing? && s.producer.pc.j >= BLOCK_SIZE && ProducerCan(s, c)
    ensures Inv(ProducerStep(s, c))
  {
    var Clearing(item, b, isNew, j) := s.producer.pc;
    if isNew {
      LinkKeepsInv(s, ProducerStep(s, c), item, b);
    } else {
      PcMoveKeepsInv(s, ProducerStep(s, c));
    }
  }

  lemma ClearingKeepsInv(s: State, c: Choice)
    requires Inv(s) && s.producer.pc.Clearing? && ProducerCan(s, c)
    ensures Inv(ProducerStep(s, c))
  {
    if s.producer.pc.j < BLOCK_SIZE {
      ClearOneKeepsInv(s, c);
    } else {
      ClearedKeepsInv(s, c);
    }
  }

  lemma EntryKeepsInv(s: State, c: Choice)
    requires Inv(s) && (s.producer.pc.WritingBase? || s.producer.pc.WritingBlock?) && ProducerCan(s, c)
    ensures Inv(ProducerStep(s, c))
  {
    var e := Last(s.headers).entries[s.producer.front];
    WriteEntryKeepsInv(s, ProducerStep(s, c),
                       if s.producer.pc.WritingBase? then e.(base := s.tailIndex)
                       else e.(block := s.producer.tailBlock.value));
  }

  lemma PublishStep(s: State, c: Choice)
    requires Inv(s) && s.producer.pc.Publishing? && ProducerCan(s, c)
    ensures Inv(ProducerStep(s, c))
  {
    PublishKeepsInv(s, ProducerStep(s, c), s.producer.pc.item);
  }

  lemma ConstructStep(s: State, c: Choice)
    requires Inv(s) && s.producer.pc.Constructing? && ProducerCan(s, c)
    ensures Inv(ProducerStep(s, c))
  {
    ConstructKeepsInv(s, ProducerStep(s, c), s.producer.pc.item);
  }

  lemma AdvanceStep(s: State, c: Choice)
    requires Inv(s) && s.producer.pc.Advancing? && ProducerCan(s, c)
    ensures Inv(ProducerStep(s, c))
  {
    AdvanceTailKeepsInv(s, ProducerStep(s, c), s.producer.pc.item);
  }

  lemma ProducerStepKeepsInv(s: State, c: Choice)
    requires Inv(s) && ProducerCan(s, c)
    ensures Inv(ProducerStep(s, c))
  {
    match s.producer.pc {
      case Ready =>
      case Checking(item, j) => CheckFlagKeepsInv(s, item, j, c);
      case NeedBlock(_) => GetBlockKeepsInv(s, c);
      case Requisition(_) => GetBlockKeepsInv(s, c);
      case Clearing(_, _, _, _) => ClearingKeepsInv(s, c);
      case WritingBase(_) => EntryKeepsInv(s, c);
      case WritingBlock(_) => EntryKeepsInv(s, c);
      case Publishing(_) => PublishStep(s, c);
      case Constructing(_) => ConstructStep(s, c);
      case Advancing(_) => AdvanceStep(s, c);
    }
  }

  // --------------------------------------------------- the consumers' steps keep the invariant

  /** A held index lies in a block that is still in the ring, and every header ever loaded has its entry. */
  lemma HeldIsInRing(s: State, t: Tid, i: nat)
    requires Inv(s) && HeldBy(s, t, i)
    ensures Oldest(s) <= BlockOf(i) < Last(s.headers).hi
    ensures BlockOf(i) < |s.owner| && CellOk(s, i)
    ensures forall h {:trigger s.headers[h]} | 0 <= h < |s.headers| && BlockOf(i) < s.headers[h].hi ::
              EntryOk(s.headers[h], s.owner, BlockOf(i))
  {
    Between(i, Oldest(s), Last(s.headers).hi);
    assert i !in s.released;
    assert CellOk(s, i);
    forall h | 0 <= h < |s.headers| && BlockOf(i) < s.headers[h].hi
      ensures EntryOk(s.headers[h], s.owner, BlockOf(i))
    {
      assert HeaderOk(s.headers[h], s.owner, Oldest(s));
    }
  }

  /** Consumer t moves on and still needs at most what it needed; nothing shared changes. */
  lemma ConsumerMoveKeepsInv(s: State, s': State, t: Tid)
    requires Inv(s) && t in s.consumers && s.consumers[t] != Idle && t in s'.consumers
    requires s' == s.(consumers := s.consumers[t := s'.consumers[t]])
    requires ConsumerOk(s'.headers, s'.owner, s'.consumers[t])
    requires forall i: nat :: Holds(s'.consumers[t], i) <==> Holds(s.consumers[t], i)
    ensures Inv(s')
  {
    SharedKept(s, s');
    ConsumerMoveKeepsHoldings(s, s', t);
  }

  lemma SharedKept(s: State, s': State)
    requires SharedOk(s) && s' == s.(headIndex := s'.headIndex, consumers := s'.consumers)
    ensures SharedOk(s')
  {
    forall i: nat | Base(Oldest(s)) <= i < s.tailIndex
      ensures CellOk(s', i)
    {
      assert CellOk(s, i);
    }
  }

  lemma ConsumerMoveKeepsHoldings(s: State, s': State, t: Tid)
    requires HoldingsOk(s) && t in s.consumers && t in s'.consumers
    requires s' == s.(consumers := s.consumers[t := s'.consumers[t]])
    requires forall i: nat :: Holds(s'.consumers[t], i) <==> Holds(s.consumers[t], i)
    ensures HoldingsOk(s')
  {
    assert forall u, i: nat :: HeldBy(s', u, i) <==> HeldBy(s, u, i);
    HoldingsKept(s, s');
  }

  lemma ClaimKeepsInv(s: State, t: Tid, count: nat)
    requires Inv(s) && CanClaim(s, t, count)
    ensures Inv(Claim(s, t, count))
  {
    var s' := Claim(s, t, count);
    SharedKept(s, s');
    ClaimKeepsHoldings(s, s', t);
  }

  lemma ClaimKeepsHoldings(s: State, s': State, t: Tid)
    requires HoldingsOk(s) && t in s.consumers && s.consumers[t] == Idle
    requires s.headIndex <= s'.headIndex && s'.released == s.released
    requires s'.consumers == s.consumers[t := Claimed(s.headIndex, s'.headIndex)]
    ensures HoldingsOk(s')
  {
    forall u, i: nat
      ensures HeldBy(s', u, i) <==> HeldBy(s, u, i) || (u == t && s.headIndex <= i < s'.headIndex)
    {
    }
    forall i: nat | i < s'.headIndex && i !in s'.released
      ensures Held(s', i)
    {
      if i < s.headIndex {
        var u :| HeldBy(s, u, i);
        assert HeldBy(s', u, i);
      } else {
        assert HeldBy(s', t, i);
      }
    }
  }

  lemma LoadHeaderKeepsInv(s: State, t: Tid)
    requires Inv(s) && ConsumerCan(s, t) && s.consumers[t].Claimed?
    ensures Inv(ConsumerStep(s, t))
  {
    if !HasNone(s.consumers[t]) {
      assert HeldBy(s, t, s.consumers[t].last - 1);
      HeldIsInRing(s, t, s.consumers[t].last - 1);
    }
    ConsumerMoveKeepsInv(s, ConsumerStep(s, t), t);
  }

  lemma LoadFrontKeepsInv(s: State, t: Tid)
    requires Inv(s) && ConsumerCan(s, t) && s.consumers[t].GotHeader?
    ensures Inv(ConsumerStep(s, t))
  {
    assert HeaderOk(s.headers[s.consumers[t].h], s.owner, Oldest(s));
    ConsumerMoveKeepsInv(s, ConsumerStep(s, t), t);
  }

  /** The signed block distance leads from the front slot to the slot of the claimed index's block. */
  lemma SlotFromFront(h: Header, owner: seq<Block>, first: nat, at: nat, f: nat)
    requires h.size > 0 && EntryOk(h, owner, at) && f == SlotOf(h, at)
    ensures f < |h.entries|
    ensures Arith.Wrap(f + (Base(BlockOf(first)) - h.entries[f].base) / BLOCK_SIZE, h.size) == SlotOf(h, BlockOf(first))
  {
    BlocksApart(BlockOf(first), at);
    Arith.WrapShift(at - h.off, BlockOf(first) - at, h.size);
  }

  lemma FoundSlotOk(s: State, t: Tid)
    requires Inv(s) && ConsumerCan(s, t) && s.consumers[t].GotFront?
    ensures ConsumerOk(s.headers, s.owner, ConsumerStep(s, t).consumers[t])
  {
    var GotFront(first, last, h, f, at) := s.consumers[t];
    if first == last {
      return;
    }
    assert HeldBy(s, t, first);
    HeldIsInRing(s, t, first);
    BlockOfGrows(first, last - 1);
    assert HeaderOk(s.headers[h], s.owner, Oldest(s));
    assert EntryOk(s.headers[h], s.owner, at);
    SlotFromFront(s.headers[h], s.owner, first, at, f);
  }

  lemma FindSlotKeepsInv(s: State, t: Tid)
    requires Inv(s) && ConsumerCan(s, t) && s.consumers[t].GotFront?
    ensures Inv(ConsumerStep(s, t))
  {
    FoundSlotOk(s, t);
    ConsumerMoveKeepsInv(s, ConsumerStep(s, t), t);
  }

  lemma PickedBlockOk(s: State, t: Tid)
    requires Inv(s) && ConsumerCan(s, t) && s.consumers[t].AtBlock?
    ensures ConsumerOk(s.headers, s.owner, ConsumerStep(s, t).consumers[t])
  {
    var AtBlock(index, last, h, slot) := s.consumers[t];
    Split(index);
    if index == last {
      return;
    }
    assert HeldBy(s, t, index);
    HeldIsInRing(s, t, index);
    BlockOfGrows(index, last - 1);
    assert EntryOk(s.headers[h], s.owner, BlockOf(index));
  }

  lemma PickBlockKeepsInv(s: State, t: Tid)
    requires Inv(s) && ConsumerCan(s, t) && s.consumers[t].AtBlock?
    ensures Inv(ConsumerStep(s, t))
  {
    PickedBlockOk(s, t);
    ConsumerMoveKeepsInv(s, ConsumerStep(s, t), t);
  }

  /** Element end - 1 - j of one block has its flag at FirstFlag(start, end) + j. */
  lemma FlagPosition(start: nat, end: nat, e: nat)
    requires start <= e < end <= Base(BlockOf(start)) + BLOCK_SIZE
    ensures BlockOf(e) == BlockOf(start)
    ensures FirstFlag(start, end) + (end - 1 - e) == BLOCK_SIZE - 1 - Offset(e)
  {
    Split(start);
    Join(BlockOf(start), e - Base(BlockOf(start)));
  }

  lemma FlagSet(flags: map<Block, seq<bool>>, released: set<nat>, b: Block, k: nat, e: nat)
    requires FlagsOk(flags, released, b, k) && BlockOf(e) == k
    ensures FlagsOk(flags[b := flags[b][BLOCK_SIZE - 1 - Offset(e) := true]], released + {e}, b, k)
  {
    var flags', released' := flags[b := flags[b][BLOCK_SIZE - 1 - Offset(e) := true]], released + {e};
    Split(e);
    forall o: nat | o < BLOCK_SIZE
      ensures flags'[b][BLOCK_SIZE - 1 - o] <==> IsReleased(released', k, o)
    {
      assert flags[b][BLOCK_SIZE - 1 - o] <==> IsReleased(released, k, o);
    }
  }

  lemma OtherBlockFlagSet(flags: map<Block, seq<bool>>, released: set<nat>, b: Block, k: nat, b': Block, e: nat,
                          f: seq<bool>)
    requires FlagsOk(flags, released, b, k) && BlockOf(e) != k && b' != b
    ensures FlagsOk(flags[b' := f], released + {e}, b, k)
  {
    forall o: nat | o < BLOCK_SIZE
      ensures IsReleased(released + {e}, k, o) <==> IsReleased(released, k, o)
    {
      Join(k, o);
    }
  }

  lemma ReleaseKeepsHoldings(s: State, s': State, t: Tid, e: nat)
    requires HoldingsOk(s) && HeldBy(s, t, e) && t in s'.consumers
    requires s'.headIndex == s.headIndex && s'.released == s.released + {e}
    requires s'.consumers == s.consumers[t := s'.consumers[t]]
    requires forall i: nat :: Holds(s'.consumers[t], i) <==> Holds(s.consumers[t], i) && i != e
    ensures HoldingsOk(s')
  {
    assert forall u, i: nat :: HeldBy(s', u, i) <==> HeldBy(s, u, i) && i != e;
    forall i: nat | i < s'.headIndex && i !in s'.released
      ensures Held(s', i)
    {
      var u :| HeldBy(s, u, i);
      assert HeldBy(s', u, i);
    }
  }

  lemma ReleaseKeepsInv(s: State, s': State, t: Tid, e: nat, k: nat)
    requires Inv(s) && HeldBy(s, t, e) && t in s'.consumers && BlockOf(e) == k
    requires Oldest(s) <= k < Last(s.headers).hi && k < |s.owner|
    requires var b := s.owner[k];
             && b in s.emptyFlags && |s.emptyFlags[b]| == BLOCK_SIZE
             && s' == s.(emptyFlags := s.emptyFlags[b := s.emptyFlags[b][BLOCK_SIZE - 1 - Offset(e) := true]],
                         released := s.released + {e},
                         consumers := s.consumers[t := s'.consumers[t]])
    requires ConsumerOk(s.headers, s.owner, s'.consumers[t])
    requires forall i: nat :: Holds(s'.consumers[t], i) <==> Holds(s.consumers[t], i) && i != e
    ensures Inv(s')
  {
    forall i: nat | Base(Oldest(s')) <= i < s'.tailIndex
      ensures CellOk(s', i)
    {
      assert CellOk(s, i);
    }
    forall l | Oldest(s') <= l < Last(s'.headers).hi
      ensures FlagsOk(s'.emptyFlags, s'.released, s'.owner[l], l)
    {
      if l == k {
        FlagSet(s.emptyFlags, s.released, s.owner[k], k, e);
      } else {
        OtherBlockFlagSet(s.emptyFlags, s.released, s.owner[l], l, s.owner[k], e, s'.emptyFlags[s.owner[k]]);
      }
    }
    ReleaseKeepsHoldings(s, s', t, e);
    ProducerUnconcerned(s, s', k);
  }

  /** Setting a flag of a published block does not disturb what the producer is doing. */
  lemma ProducerUnconcerned(s: State, s': State, k: nat)
    requires Inv(s) && Oldest(s) <= k < Last(s.headers).hi && k < |s.owner| && s.owner[k] in s'.emptyFlags
    requires s'.headers == s.headers && s'.producer == s.producer && s'.owner == s.owner
    requires s'.tailIndex == s.tailIndex && s'.cells == s.cells
    requires s'.emptyFlags == s.emptyFlags[s.owner[k] := s'.emptyFlags[s.owner[k]]]
    requires s.owner[k] in s.emptyFlags && |s'.emptyFlags[s.owner[k]]| == BLOCK_SIZE
    requires forall i | 0 <= i < BLOCK_SIZE && i < |s.emptyFlags[s.owner[k]]| && s.emptyFlags[s.owner[k]][i] ::
               s'.emptyFlags[s.owner[k]][i]
    ensures ProducerOk(s')
  {
    if s.producer.pc.Clearing? && s.producer.pc.isNew {
      FreeIsElsewhere(s, s.producer.pc.block);
    }
  }

  lemma ReadKeepsInv(s: State, t: Tid)
    requires Inv(s) && ConsumerCan(s, t) && s.consumers[t].Reading?
    ensures Inv(ConsumerStep(s, t))
  {
    ConsumerMoveKeepsInv(s, ConsumerStep(s, t), t);
  }

  /** The element that is released next is held, and its block is the one whose flags are set. */
  lemma NextReleased(s: State, t: Tid, e: nat)
    requires Inv(s) && t in s.consumers && s.consumers[t].Releasing?
    requires s.consumers[t].j < s.consumers[t].end - s.consumers[t].start
    requires e == s.consumers[t].end - 1 - s.consumers[t].j
    ensures HeldBy(s, t, e) && Oldest(s) <= BlockOf(e) < Last(s.headers).hi && BlockOf(e) < |s.owner|
    ensures s.owner[BlockOf(e)] == s.consumers[t].block
    ensures FlagsOk(s.emptyFlags, s.released, s.owner[BlockOf(e)], BlockOf(e))
    ensures FirstFlag(s.consumers[t].start, s.consumers[t].end) + s.consumers[t].j == BLOCK_SIZE - 1 - Offset(e)
  {
    FlagPosition(s.consumers[t].start, s.consumers[t].end, e);
    assert HeldBy(s, t, e);
    HeldIsInRing(s, t, e);
  }

  lemma ReleaseStepKeepsInv(s: State, t: Tid)
    requires Inv(s) && ConsumerCan(s, t) && s.consumers[t].Releasing?
    requires s.consumers[t].j < s.consumers[t].end - s.consumers[t].start
    ensures Inv(ConsumerStep(s, t))
  {
    var e := s.consumers[t].end - 1 - s.consumers[t].j;
    NextReleased(s, t, e);
    ReleaseKeepsInv(s, ConsumerStep(s, t), t, e, BlockOf(e));
  }

  lemma LeaveBlockKeepsInv(s: State, t: Tid)
    requires Inv(s) && ConsumerCan(s, t) && s.consumers[t].Releasing?
    requires s.consumers[t].j >= s.consumers[t].end - s.consumers[t].start
    ensures Inv(ConsumerStep(s, t))
  {
    var pc := s.consumers[t];
    if pc.end != pc.last {
      NextBlockSlot(s.headers[pc.h], pc.start, pc.end, pc.slot);
    }
    ConsumerMoveKeepsInv(s, ConsumerStep(s, t), t);
  }

  /** A bulk dequeue that goes on in the next block finds it in the next slot. */
  lemma NextBlockSlot(h: Header, start: nat, end: nat, slot: nat)
    requires h.size > 0 && slot == SlotOf(h, BlockOf(start)) && end == Base(BlockOf(start)) + BLOCK_SIZE
    ensures BlockOf(end) == BlockOf(start) + 1
    ensures Arith.Wrap(slot + 1, h.size) == SlotOf(h, BlockOf(end))
  {
    Join(BlockOf(start) + 1, 0);
    Arith.WrapShift(BlockOf(start) - h.off, 1, h.size);
  }

  lemma ConsumerStepKeepsInv(s: State, t: Tid)
    requires Inv(s) && ConsumerCan(s, t)
    ensures Inv(ConsumerStep(s, t))
  {
    match s.consumers[t] {
      case Idle =>
      case Claimed(_, _) => LoadHeaderKeepsInv(s, t);
      case GotHeader(_, _, _) => LoadFrontKeepsInv(s, t);
      case GotFront(_, _, _, _, _) => FindSlotKeepsInv(s, t);
      case AtBlock(_, _, _, _) => PickBlockKeepsInv(s, t);
      case Reading(_, _, _, _, _, _, _) => ReadKeepsInv(s, t);
      case Releasing(_, start, end, j, _, _, _) =>
        if j < end - start {
          ReleaseStepKeepsInv(s, t);
        } else {
          LeaveBlockKeepsInv(s, t);
        }
    }
  }

  lemma NextKeepsInv(s: State, s': State)
    requires Inv(s) && Next(s, s')
    ensures Inv(s')
  {
    if item :| s.producer.pc == Ready && s' == BeginEnqueue(s, item) {
      BeginEnqueueKeepsInv(s, item);
    } else if c :| ProducerCan(s, c) && s' == ProducerStep(s, c) {
      ProducerStepKeepsInv(s, c);
    } else if t, count: nat :| CanClaim(s, t, count) && s' == Claim(s, t, count) {
      ClaimKeepsInv(s, t, count);
    } else {
      var t :| ConsumerCan(s, t) && s' == ConsumerStep(s, t);
      ConsumerStepKeepsInv(s, t);
    }
  }

  lemma {:induction false} RunHasInv(states: seq<State>, i: nat)
    requires Run(states) && i < |states|
    ensures Inv(states[i])
  {
    if i == 0 {
      InitHasInv(states[0]);
    } else {
      RunHasInv(states, i - 1);
      NextKeepsInv(states[i - 1], states[i]);
    }
  }

  // ------------------------------------------------------------------------------------- results

  /**
   Whichever header and front a consumer loaded, and whatever the producer did meanwhile, the slot
   it computes for an index it claimed holds that index's base and the block used for it.
   */
  lemma ConsumerFindsItsBlock(states: seq<State>, i: nat, t: Tid)
    requires Run(states) && i < |states| && t in states[i].consumers && states[i].consumers[t].AtBlock?
    requires states[i].consumers[t].index < states[i].consumers[t].last
    ensures var s, pc := states[i], states[i].consumers[t];
            && ConsumerCan(s, t) && BlockOf(pc.index) < |s.owner|
            && s.headers[pc.h].entries[pc.slot] == Entry(Base(BlockOf(pc.index)), s.owner[BlockOf(pc.index)])
  {
    RunHasInv(states, i);
    var s, pc := states[i], states[i].consumers[t];
    assert HeldBy(s, t, pc.index);
    HeldIsInRing(s, t, pc.index);
    BlockOfGrows(pc.index, pc.last - 1);
    assert EntryOk(s.headers[pc.h], s.owner, BlockOf(pc.index));
  }

  lemma FetchesItsElement(s: State, t: Tid)
    requires Inv(s) && t in s.consumers && s.consumers[t].Reading? && s.consumers[t].index < s.consumers[t].end
    ensures var index := s.consumers[t].index;
            ConsumerCan(s, t) && index < |s.items| && Fetched(s, t) == s.items[index]
  {
    var pc := s.consumers[t];
    assert HeldBy(s, t, pc.index);
    HeldIsInRing(s, t, pc.index);
    FlagPosition(pc.start, pc.end, pc.index);
    assert CellOk(s, pc.index);
  }

  /** Every element that is fetched is the one that was enqueued at the claimed index. */
  lemma ConsumerFetchesItsElement(states: seq<State>, i: nat, t: Tid)
    requires Run(states) && i < |states| && t in states[i].consumers
    requires states[i].consumers[t].Reading? && states[i].consumers[t].index < states[i].consumers[t].end
    ensures var s, index := states[i], states[i].consumers[t].index;
            ConsumerCan(s, t) && index < |s.items| && Fetched(s, t) == s.items[index]
  {
    RunHasInv(states, i);
    FetchesItsElement(states[i], t);
  }

  /**
   The producer overwrites a block only when no consumer needs any element in it any more: the
   block it is about to reuse had all its elements claimed and released.
   */
  lemma ReuseIsSafe(states: seq<State>, i: nat, c: Choice)
    requires Run(states) && i < |states| && ProducerCan(states[i], c)
    requires states[i].producer.pc.Checking? && states[i].producer.pc.j == BLOCK_SIZE
    ensures var s, s' := states[i], ProducerStep(states[i], c);
            && 0 <= Oldest(s) < |s.owner| && s'.producer.tailBlock == Some(s.owner[Oldest(s)])
            && (forall x: nat | Base(Oldest(s)) <= x < Base(Oldest(s) + 1) :: x in s.released)
            && (forall t, x: nat | HeldBy(s, t, x) :: Base(Oldest(s) + 1) <= x)
  {
    RunHasInv(states, i);
    var s := states[i];
    var lo := Oldest(s);
    forall x: nat | Base(lo) <= x < Base(lo + 1)
      ensures x in s.released
    {
      EmptyBlockReleased(s, lo, x);
    }
  }

  /** Nothing is lost: an index below headIndex was released, or exactly one consumer has it. */
  lemma ClaimedIsHeldOrReleased(states: seq<State>, i: nat, x: nat)
    requires Run(states) && i < |states| && x < states[i].headIndex
    ensures (x in states[i].released) != Held(states[i], x)
    ensures forall t, u :: HeldBy(states[i], t, x) && HeldBy(states[i], u, x) ==> t == u
  {
    RunHasInv(states, i);
  }

  lemma NeverStuck(s: State, t: Tid)
    requires Inv(s) && t in s.consumers && s.consumers[t] != Idle
    ensures ConsumerCan(s, t)
  {
    match s.consumers[t] {
      case Claimed(_, _) =>
      case GotHeader(_, _, _) =>
      case GotFront(_, _, h, _, _) => assert HeaderOk(s.headers[h], s.owner, Oldest(s));
      case AtBlock(_, _, h, _) => assert HeaderOk(s.headers[h], s.owner, Oldest(s));
      case Reading(_, start, index, end, _, _, _) =>
        if index < end {
          FetchesItsElement(s, t);
        }
      case Releasing(_, start, end, j, _, _, _) =>
        if j < end - start {
          FlagPosition(start, end, end - 1 - j);
          assert HeldBy(s, t, end - 1 - j);
          HeldIsInRing(s, t, end - 1 - j);
          assert FlagsOk(s.emptyFlags, s.released, s.owner[BlockOf(start)], BlockOf(start));
        }
    }
  }

  /** Every access of a consumer is to memory that exists: no step of it is ever undefined. */
  lemma NoConsumerIsStuck(states: seq<State>, i: nat, t: Tid)
    requires Run(states) && i < |states| && t in states[i].consumers && states[i].consumers[t] != Idle
    ensures ConsumerCan(states[i], t)
  {
    RunHasInv(states, i);
    NeverStuck(states[i], t);
  }

  /**
   A dequeue that claimed no index, because it asked for none, is harmless: it sets no flag and moves nothing
   but itself.  It reads one slot of the index, whatever that holds.
   */
  lemma ClaimOfNoneIsHarmless(states: seq<State>, i: nat, t: Tid)
    requires Run(states) && i < |states| && t in states[i].consumers && HasNone(states[i].consumers[t])
    ensures ConsumerCan(states[i], t)
    ensures var s, s' := states[i], ConsumerStep(states[i], t);
            && s' == s.(consumers := s.consumers[t := s'.consumers[t]])
            && (s'.consumers[t] == Idle || HasNone(s'.consumers[t]))
  {
    RunHasInv(states, i);
    NoConsumerIsStuck(states, i, t);
    if states[i].consumers[t].AtBlock? {
      Split(states[i].consumers[t].index);
    }
  }

  /** The same for the producer, whatever the allocator answers. */
  lemma ProducerIsNotStuck(states: seq<State>, i: nat, c: Choice)
    requires Run(states) && i < |states|
    requires |states[i].headers| > 0
    requires match states[i].producer.pc
             case Ready => false
             case NeedBlock(_) => c.Fails? || (c.Index? && |c.junk| == Last(states[i].headers).size)
             case Requisition(_) => c.Fails? || (c.Gets? && |c.flags| == BLOCK_SIZE && BlockIsFree(states[i], c.block))
             case _ => true
    ensures ProducerCan(states[i], c)
  {
    RunHasInv(states, i);
    var s := states[i];
    assert HeaderOk(s.headers[|s.headers| - 1], s.owner, Oldest(s));
  }
}
