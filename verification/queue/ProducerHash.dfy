/**
 The lock-free hash tables that lead a thread to its implicit producer.  A full table is not
 rehashed: a larger one is put in front of it, and threads move their own entry over when they look
 it up.  Every atomic access of get_or_add_implicit_producer is one step of the thread that performs
 it, any number of threads run at once, and the allocator may refuse any request.
 */
module ProducerHash {
  import opened Options
  import Arith

  type Tid = nat
  type Producer = nat

  /** hash_thread_id: whatever number it gives a thread. */
  const HASH: Tid -> nat

  /** One slot: invalid_thread_id is None, and so is a value that was never written. */
  datatype Entry = Entry(key: Option<Tid>, value: Option<Producer>)

  datatype Table = Table(capacity: nat, entries: seq<Entry>, prev: Option<nat>)

  /** Where a thread is; main is the table it takes for the current one, i counts its probes. */
  datatype Pc =
    | Idle
    | Loading
    | Probing(main: nat, h: nat, i: nat)
    | Found(main: nat, h: nat, slot: nat)
    // putting the thread's own entry into main, as a first insertion or as a lazy copy
    | Placing(main: nat, producer: Producer, i: nat)
    | PlaceCas(main: nat, producer: Producer, i: nat)
    | PlaceValue(main: nat, producer: Producer, slot: nat)
    // inserting; n is newCount
    | Counting(main: nat)
    | Testing(main: nat, n: nat)
    | Locked(n: nat)
    | Allocating(main: nat, n: nat)
    | Unlocking(main: nat, n: nat)
    | Fitting(main: nat, n: nat)
    | Creating(main: nat, n: nat)
    | Reloading(n: nat)
    // the allocator refused
    | Uncounting(locked: bool)
    | Clearing

  datatype Answer = Answer(thread: Tid, producer: Producer)

  /**
   Shared memory: the tables that exist, which of them is current, the count, the resize flag.
   History variables: producerOf is the producer created for a thread, rank its newCount, order the
   threads that are counted, in the order of their fetch_adds, answers what was returned so far.
   */
  datatype State = State(
    tables: seq<Table>,
    current: nat,
    count: nat,
    resizing: bool,
    threads: map<Tid, Pc>,
    created: nat,
    producerOf: map<Tid, Producer>,
    rank: map<Tid, nat>,
    order: seq<Tid>,
    answers: seq<Answer>)

  function EmptyTable(capacity: nat, prev: Option<nat>): Table {
    Table(capacity, seq(capacity, _ => Entry(None, None)), prev)
  }

  ghost predicate Init(s: State) {
    && (exists capacity: nat :: capacity > 0 && s.tables == [EmptyTable(capacity, None)])
    && s.current == 0 && s.count == 0 && !s.resizing && s.created == 0
    && (forall t | t in s.threads :: s.threads[t] == Idle)
    && s.producerOf == map[] && s.rank == map[] && s.order == [] && s.answers == []
  }

  /** Three quarters of the capacity, as the code computes it. */
  function Limit(capacity: nat): nat {
    capacity / 2 + capacity / 4
  }

  /** The smallest doubling of capacity that newCount does not fill by half. */
  function Enough(capacity: nat, n: nat): nat
    requires capacity > 0
    decreases 2 * n + 2 - capacity
  {
    if n >= capacity / 2 then Enough(2 * capacity, n) else capacity
  }

  /** The slot of the i-th probe. */
  function Probe(t: Tid, i: nat, capacity: nat): (slot: nat)
    requires capacity > 0
    ensures slot < capacity
  {
    Arith.Wrap(HASH(t) + i, capacity)
  }

  /** The sequence without its first t. */
  function Without(order: seq<Tid>, t: Tid): seq<Tid> {
    if order == [] then []
    else if order[0] == t then order[1..]
    else [order[0]] + Without(order[1..], t)
  }

  function KeyAt(s: State, m: nat, t: Tid, i: nat): Option<Tid>
    requires m < |s.tables| && 0 < s.tables[m].capacity <= |s.tables[m].entries|
  {
    s.tables[m].entries[Probe(t, i, s.tables[m].capacity)].key
  }

  function SetEntry(tables: seq<Table>, m: nat, slot: nat, e: Entry): seq<Table>
    requires m < |tables| && slot < |tables[m].entries|
  {
    tables[m := tables[m].(entries := tables[m].entries[slot := e])]
  }

  predicate HasTable(s: State, m: nat) {
    m < |s.tables| && 0 < s.tables[m].capacity <= |s.tables[m].entries|
  }

  predicate CanStep(s: State, t: Tid) {
    && t in s.threads
    && match s.threads[t]
       case Idle => false
       case Probing(main, h, _) => HasTable(s, h)
       case Found(main, h, slot) =>
         h < |s.tables| && slot < |s.tables[h].entries| && s.tables[h].entries[slot].value.Some?
       case Placing(main, _, _) => HasTable(s, main)
       case PlaceCas(main, _, _) => HasTable(s, main)
       case PlaceValue(main, _, slot) => main < |s.tables| && slot < |s.tables[main].entries|
       case Testing(main, _) => main < |s.tables|
       case Locked(_) => s.current < |s.tables|
       case Allocating(main, _) => HasTable(s, main)
       case Fitting(main, _) => main < |s.tables|
       case Uncounting(_) => s.count > 0
       case _ => true
  }

  function AfterProbe(table: Table, t: Tid, main: nat, h: nat, i: nat): Pc
    requires 0 < table.capacity <= |table.entries|
  {
    var slot := Probe(t, i, table.capacity);
    if table.entries[slot].key == Some(t) then Found(main, h, slot)
    else if table.entries[slot].key != None then Probing(main, h, i + 1)
    else if table.prev == None then Counting(main)
    else Probing(main, table.prev.value, 0)
  }

  function AfterPlacing(table: Table, t: Tid, main: nat, p: Producer, i: nat): Pc
    requires 0 < table.capacity <= |table.entries|
  {
    if table.entries[Probe(t, i, table.capacity)].key == None then PlaceCas(main, p, i) else Placing(main, p, i + 1)
  }

  /** The next atomic access of thread t; granted is the allocator's answer where it is asked. */
  function Step(s: State, t: Tid, granted: bool): State
    requires CanStep(s, t)
  {
    match s.threads[t]
    case Idle => s
    case Loading => Move(s, t, Probing(s.current, s.current, 0))
    case Probing(main, h, i) => Move(s, t, AfterProbe(s.tables[h], t, main, h, i))
    case Found(main, h, slot) =>
      var p := s.tables[h].entries[slot].value.value;
      if h != main then Move(s, t, Placing(main, p, 0)) else Finish(s, t, p)
    case Placing(main, p, i) => Move(s, t, AfterPlacing(s.tables[main], t, main, p, i))
    case PlaceCas(main, p, i) =>
      if KeyAt(s, main, t, i) == None then
        var slot := Probe(t, i, s.tables[main].capacity);
        Move(s.(tables := SetEntry(s.tables, main, slot, s.tables[main].entries[slot].(key := Some(t)))),
             t, PlaceValue(main, p, slot))
      else Move(s, t, Placing(main, p, i + 1))
    case PlaceValue(main, p, slot) =>
      Finish(s.(tables := SetEntry(s.tables, main, slot, s.tables[main].entries[slot].(value := Some(p)))), t, p)
    case Counting(main) =>
      Move(s.(count := s.count + 1, rank := s.rank[t := s.count + 1], order := s.order + [t]), t,
           Testing(main, s.count + 1))
    case Testing(main, n) =>
      if n >= s.tables[main].capacity / 2 && !s.resizing then Move(s.(resizing := true), t, Locked(n))
      else Move(s, t, Fitting(main, n))
    case Locked(n) =>
      Move(s, t, if n >= s.tables[s.current].capacity / 2 then Allocating(s.current, n) else Unlocking(s.current, n))
    case Allocating(main, n) =>
      if granted then
        Move(s.(tables := s.tables + [EmptyTable(Enough(2 * s.tables[main].capacity, n), Some(main))],
                current := |s.tables|),
             t, Unlocking(|s.tables|, n))
      else Move(s, t, Uncounting(true))
    case Unlocking(main, n) => Move(s.(resizing := false), t, Fitting(main, n))
    case Fitting(main, n) =>
      Move(s, t, if n < Limit(s.tables[main].capacity) then Creating(main, n) else Reloading(n))
    case Creating(main, n) =>
      if granted then
        Move(s.(created := s.created + 1, producerOf := s.producerOf[t := s.created]), t, Placing(main, s.created, 0))
      else Move(s, t, Uncounting(false))
    case Reloading(n) => Move(s, t, Testing(s.current, n))
    case Uncounting(locked) =>
      Move(s.(count := s.count - 1, order := Without(s.order, t)), t, if locked then Clearing else Idle)
    case Clearing => Move(s.(resizing := false), t, Idle)
  }

  function Move(s: State, t: Tid, pc: Pc): State {
    s.(threads := s.threads[t := pc])
  }

  function Finish(s: State, t: Tid, p: Producer): State {
    Move(s.(answers := s.answers + [Answer(t, p)]), t, Idle)
  }

  ghost predicate Next(s: State, s': State) {
    || (exists t :: t in s.threads && s.threads[t] == Idle && s' == Move(s, t, Loading))
    || (exists t, granted :: CanStep(s, t) && s' == Step(s, t, granted))
  }

  ghost predicate Run(states: seq<State>) {
    && |states| > 0
    && Init(states[0])
    && forall i | 0 <= i < |states| - 1 :: Next(states[i], states[i + 1])
  }

  // ------------------------------------------------------------------------------- the invariant

  ghost predicate NotIn(table: Table, t: Tid) {
    forall j | 0 <= j < |table.entries| :: table.entries[j].key != Some(t)
  }

  /** The thread has no entry in the tables from number m on. */
  ghost predicate Absent(tables: seq<Table>, t: Tid, m: nat) {
    forall k | m <= k < |tables| :: NotIn(tables[k], t)
  }

  /** The i-th probe of t meets the key of another thread. */
  ghost predicate Taken(table: Table, t: Tid, i: nat) {
    && 0 < table.capacity <= |table.entries|
    && table.entries[Probe(t, i, table.capacity)].key != None
    && table.entries[Probe(t, i, table.capacity)].key != Some(t)
  }

  ghost predicate Passed(table: Table, t: Tid, i: nat) {
    && 0 < table.capacity <= |table.entries|
    && forall j: nat | j < i :: Taken(table, t, j)
  }

  /** The probes of thread t lead to the slot: those before come upon keys of other threads. */
  ghost predicate OnPath(table: Table, t: Tid, slot: nat, d: nat) {
    && 0 < table.capacity <= |table.entries| && slot == Probe(t, d, table.capacity)
    && Passed(table, t, d)
  }

  /** What a key that is present says: its thread was admitted to a table of this size. */
  ghost predicate KeyOk(table: Table, slot: nat, producerOf: map<Tid, Producer>, rank: map<Tid, nat>) {
    slot < |table.entries| && table.entries[slot].key.Some? ==>
      var t := table.entries[slot].key.value;
      && t in producerOf && t in rank && rank[t] < Limit(table.capacity)
      && exists d: nat :: OnPath(table, t, slot, d)
  }

  ghost predicate TableOk(table: Table, k: nat, producerOf: map<Tid, Producer>, rank: map<Tid, nat>) {
    && table.capacity == |table.entries| > 0
    && table.prev == (if k == 0 then None else Some(k - 1))
    && (forall slot: nat {:trigger KeyOk(table, slot, producerOf, rank)} | slot < |table.entries| ::
        KeyOk(table, slot, producerOf, rank))
    && (forall i, j | 0 <= i < j < |table.entries| ::
        table.entries[i].key != None ==> table.entries[i].key != table.entries[j].key)
  }

  ghost predicate ValueOk(s: State, k: nat, slot: nat) {
    k < |s.tables| && slot < |s.tables[k].entries| && s.tables[k].entries[slot].key.Some? ==>
      var t := s.tables[k].entries[slot].key.value;
      && t in s.producerOf
      && (s.tables[k].entries[slot].value == Some(s.producerOf[t])
          || (t in s.threads && s.threads[t] == PlaceValue(k, s.producerOf[t], slot)))
  }

  /** Counted, and not yet given a producer. */
  predicate InFlight(pc: Pc) {
    pc.Testing? || pc.Locked? || pc.Allocating? || pc.Unlocking? || pc.Fitting? || pc.Creating? || pc.Reloading?
      || pc.Uncounting?
  }

  predicate HoldsLock(pc: Pc) {
    pc.Locked? || pc.Allocating? || pc.Unlocking? || pc == Uncounting(true) || pc.Clearing?
  }

  /** The thread is putting its entry into main, where it has none. */
  ghost predicate PlacingOk(tables: seq<Table>, producerOf: map<Tid, Producer>, rank: map<Tid, nat>, t: Tid,
                            main: nat, p: Producer, i: nat) {
    && main < |tables| && t in producerOf && producerOf[t] == p && Absent(tables, t, main) && Passed(tables[main], t, i)
    && t in rank && rank[t] < Limit(tables[main].capacity)
  }

  ghost predicate ThreadOk(tables: seq<Table>, producerOf: map<Tid, Producer>, rank: map<Tid, nat>, t: Tid, pc: Pc) {
    match pc
    case Idle => true
    case Loading => true
    case Probing(main, h, i) => h <= main < |tables| && Absent(tables, t, h + 1) && Passed(tables[h], t, i)
    case Found(main, h, slot) =>
      h <= main < |tables| && Absent(tables, t, h + 1) && slot < |tables[h].entries|
        && tables[h].entries[slot].key == Some(t)
    case Placing(main, p, i) => PlacingOk(tables, producerOf, rank, t, main, p, i)
    case PlaceCas(main, p, i) => PlacingOk(tables, producerOf, rank, t, main, p, i)
    case PlaceValue(main, p, slot) =>
      && main < |tables| && t in producerOf && producerOf[t] == p
      && slot < |tables[main].entries| && tables[main].entries[slot].key == Some(t)
    case Counting(main) => main < |tables| && t !in producerOf
    case Testing(main, n) => main < |tables| && New(producerOf, rank, t, n)
    case Locked(n) => New(producerOf, rank, t, n)
    case Allocating(main, n) => main == |tables| - 1 && New(producerOf, rank, t, n)
    case Unlocking(main, n) => main < |tables| && New(producerOf, rank, t, n)
    case Fitting(main, n) => main < |tables| && New(producerOf, rank, t, n)
    case Creating(main, n) => main < |tables| && New(producerOf, rank, t, n) && n < Limit(tables[main].capacity)
    case Reloading(n) => New(producerOf, rank, t, n)
    case Uncounting(_) => t !in producerOf
    case Clearing => t !in producerOf
  }

  predicate New(producerOf: map<Tid, Producer>, rank: map<Tid, nat>, t: Tid, n: nat) {
    t !in producerOf && t in rank && rank[t] == n
  }

  ghost predicate IsIn(tables: seq<Table>, t: Tid) {
    !Absent(tables, t, 0)
  }

  ghost predicate TablesOk(tables: seq<Table>, producerOf: map<Tid, Producer>, rank: map<Tid, nat>) {
    && |tables| > 0
    && (forall k {:trigger tables[k]} | 0 <= k < |tables| :: TableOk(tables[k], k, producerOf, rank))
    && (forall k, l | 0 <= k < l < |tables| :: 2 * tables[k].capacity <= tables[l].capacity)
  }

  /** The i-th of the counted threads had a newCount of at least i + 1. */
  ghost predicate OrderOk(order: seq<Tid>, rank: map<Tid, nat>) {
    && (forall i | 0 <= i < |order| :: order[i] in rank && rank[order[i]] > i)
    && (forall i, j | 0 <= i < j < |order| :: order[i] != order[j])
  }

  ghost predicate ValuesOk(s: State) {
    forall k: nat, slot: nat {:trigger ValueOk(s, k, slot)} :: ValueOk(s, k, slot)
  }

  ghost predicate ThreadsOk(tables: seq<Table>, producerOf: map<Tid, Producer>, rank: map<Tid, nat>,
                            threads: map<Tid, Pc>) {
    forall t | t in threads :: ThreadOk(tables, producerOf, rank, t, threads[t])
  }

  ghost predicate CountedOk(order: seq<Tid>, producerOf: map<Tid, Producer>, threads: map<Tid, Pc>) {
    && (forall t | t in order :: t in threads)
    && (forall t | t in threads :: t in order <==> t in producerOf || InFlight(threads[t]))
  }

  ghost predicate OwnerOk(tables: seq<Table>, threads: map<Tid, Pc>, t: Tid) {
    t in threads && (IsIn(tables, t) || threads[t].Placing? || threads[t].PlaceCas?)
  }

  ghost predicate ProducersOk(producerOf: map<Tid, Producer>, created: nat) {
    && (forall t | t in producerOf :: producerOf[t] < created)
    && (forall t, u | t in producerOf && u in producerOf && producerOf[t] == producerOf[u] :: t == u)
  }

  ghost predicate LockOk(threads: map<Tid, Pc>, resizing: bool) {
    && (forall t, u | t in threads && u in threads && HoldsLock(threads[t]) && HoldsLock(threads[u]) :: t == u)
    && (forall t | t in threads && HoldsLock(threads[t]) :: resizing)
  }

  ghost predicate AnswersOk(answers: seq<Answer>, producerOf: map<Tid, Producer>) {
    forall r | r in answers :: r.thread in producerOf && producerOf[r.thread] == r.producer
  }

  ghost predicate Inv(s: State) {
    && s.current == |s.tables| - 1 && s.count == |s.order|
    && TablesOk(s.tables, s.producerOf, s.rank)
    && OrderOk(s.order, s.rank)
    && ValuesOk(s)
    && ThreadsOk(s.tables, s.producerOf, s.rank, s.threads)
    && CountedOk(s.order, s.producerOf, s.threads)
    && (forall t | t in s.producerOf :: OwnerOk(s.tables, s.threads, t))
    && ProducersOk(s.producerOf, s.created)
    && LockOk(s.threads, s.resizing)
    && AnswersOk(s.answers, s.producerOf)
  }

  /** There are runs with any threads and a first table of any size. */
  lemma RunsBegin(tids: set<Tid>, capacity: nat) returns (s: State)
    requires capacity > 0
    ensures s.threads.Keys == tids && |s.tables| == 1 && s.tables[0].capacity == capacity && Run([s])
  {
    s := State([EmptyTable(capacity, None)], 0, 0, false, map t | t in tids :: Idle, 0, map[], map[], [], []);
  }

  lemma InitHasInv(s: State)
    requires Init(s)
    ensures Inv(s)
  {
  }

  // ---------------------------------------------------------------------- steps keep the invariant

  /** A step that changes the thread's place, and perhaps the resize flag. */
  lemma MoveKeepsInv(s: State, s': State, t: Tid, pc: Pc)
    requires Inv(s) && t in s.threads && s' == s.(resizing := s'.resizing, threads := s.threads[t := pc])
    requires ThreadOk(s.tables, s.producerOf, s.rank, t, pc)
    requires InFlight(pc) == InFlight(s.threads[t])
    requires !s.threads[t].PlaceValue?
    requires s.threads[t].Placing? || s.threads[t].PlaceCas? ==> pc.Placing? || pc.PlaceCas?
    requires LockOk(s'.threads, s'.resizing)
    ensures Inv(s')
  {
    ThreadsStay(s.tables, s.producerOf, s.producerOf, s.rank, s.rank, s.threads, t, pc);
    OwnersMove(s.tables, s.producerOf, s.threads, t, pc);
    ValuesStay(s, s');
    CountedStays(s.order, s.order, s.producerOf, s.producerOf, s.threads, s'.threads, t);
  }

  lemma CountedStays(order: seq<Tid>, order': seq<Tid>, producerOf: map<Tid, Producer>, producerOf': map<Tid, Producer>,
                     threads: map<Tid, Pc>, threads': map<Tid, Pc>, t: Tid)
    requires CountedOk(order, producerOf, threads) && t in threads && t in threads'
             && threads' == threads[t := threads'[t]]
    requires forall u | u != t :: (u in order' <==> u in order) && (u in producerOf' <==> u in producerOf)
    requires t in order' <==> t in producerOf' || InFlight(threads'[t])
    ensures CountedOk(order', producerOf', threads')
  {
  }

  lemma OwnersMove(tables: seq<Table>, producerOf: map<Tid, Producer>, threads: map<Tid, Pc>, t: Tid, pc: Pc)
    requires (forall u | u in producerOf :: OwnerOk(tables, threads, u)) && t in threads
    requires threads[t].Placing? || threads[t].PlaceCas? ==> pc.Placing? || pc.PlaceCas?
    ensures forall u | u in producerOf :: OwnerOk(tables, threads[t := pc], u)
  {
    var threads' := threads[t := pc];
    forall u | u in producerOf
      ensures OwnerOk(tables, threads', u)
    {
      assert OwnerOk(tables, threads, u);
    }
  }

  /** The lock is not touched. */
  lemma LockKept(threads: map<Tid, Pc>, resizing: bool, t: Tid, pc: Pc)
    requires LockOk(threads, resizing) && t in threads && (HoldsLock(pc) ==> HoldsLock(threads[t]))
    ensures LockOk(threads[t := pc], resizing)
  {
  }

  lemma LockReleased(threads: map<Tid, Pc>, resizing: bool, t: Tid, pc: Pc)
    requires LockOk(threads, resizing) && t in threads && HoldsLock(threads[t]) && !HoldsLock(pc)
    ensures LockOk(threads[t := pc], false)
  {
  }

  lemma LockTaken(threads: map<Tid, Pc>, t: Tid, pc: Pc)
    requires LockOk(threads, false) && t in threads
    ensures LockOk(threads[t := pc], true)
  {
  }

  lemma PassedAt(table: Table, t: Tid, i: nat, j: nat)
    requires Passed(table, t, i) && j < i
    ensures Taken(table, t, j)
  {
  }

  /** A probe that meets an empty slot shows that the thread has no entry in the table. */
  lemma EmptySlotEndsSearch(table: Table, k: nat, producerOf: map<Tid, Producer>, rank: map<Tid, nat>, t: Tid, i: nat)
    requires TableOk(table, k, producerOf, rank) && Passed(table, t, i)
    requires table.entries[Probe(t, i, table.capacity)].key == None
    ensures NotIn(table, t)
  {
    forall slot: nat | slot < |table.entries|
      ensures table.entries[slot].key != Some(t)
    {
      if table.entries[slot].key == Some(t) {
        assert KeyOk(table, slot, producerOf, rank);
        var d: nat :| OnPath(table, t, slot, d);
        if d < i {
          PassedAt(table, t, i, d);
        } else if i < d {
          PassedAt(table, t, d, i);
        }
        assert false;
      }
    }
  }

  lemma ProbedOn(tables: seq<Table>, producerOf: map<Tid, Producer>, rank: map<Tid, nat>, t: Tid, main: nat, h: nat,
                 i: nat)
    requires TablesOk(tables, producerOf, rank) && ThreadOk(tables, producerOf, rank, t, Probing(main, h, i))
    requires t in producerOf ==> IsIn(tables, t)
    ensures ThreadOk(tables, producerOf, rank, t, AfterProbe(tables[h], t, main, h, i))
  {
    if tables[h].entries[Probe(t, i, tables[h].capacity)].key == None {
      EmptySlotEndsSearch(tables[h], h, producerOf, rank, t, i);
      assert Absent(tables, t, h);
    }
  }

  lemma ProbeStep(s: State, t: Tid, granted: bool)
    requires Inv(s) && CanStep(s, t) && s.threads[t].Probing?
    ensures Inv(Step(s, t, granted))
  {
    var Probing(main, h, i) := s.threads[t];
    var pc := AfterProbe(s.tables[h], t, main, h, i);
    if t in s.producerOf {
      assert OwnerOk(s.tables, s.threads, t);
    }
    ProbedOn(s.tables, s.producerOf, s.rank, t, main, h, i);
    LockKept(s.threads, s.resizing, t, pc);
    MoveKeepsInv(s, Step(s, t, granted), t, pc);
  }

  /** What a thread finds in its own entry. */
  lemma FoundOwn(s: State, t: Tid)
    requires Inv(s) && t in s.threads && s.threads[t].Found?
    ensures var Found(main, h, slot) := s.threads[t];
            && h <= main < |s.tables| && slot < |s.tables[h].entries|
            && t in s.producerOf && s.tables[h].entries[slot].value == Some(s.producerOf[t])
            && t in s.rank && s.rank[t] < Limit(s.tables[h].capacity)
  {
    var Found(main, h, slot) := s.threads[t];
    assert ValueOk(s, h, slot);
    assert TableOk(s.tables[h], h, s.producerOf, s.rank);
    assert KeyOk(s.tables[h], slot, s.producerOf, s.rank);
  }

  lemma StartStep(s: State, t: Tid)
    requires Inv(s) && t in s.threads && s.threads[t] == Idle
    ensures Inv(Move(s, t, Loading))
  {
    LockKept(s.threads, s.resizing, t, Loading);
    MoveKeepsInv(s, Move(s, t, Loading), t, Loading);
  }

  lemma LoadStep(s: State, t: Tid, granted: bool)
    requires Inv(s) && CanStep(s, t) && s.threads[t] == Loading
    ensures Inv(Step(s, t, granted))
  {
    var pc := Probing(s.current, s.current, 0);
    LockKept(s.threads, s.resizing, t, pc);
    MoveKeepsInv(s, Step(s, t, granted), t, pc);
  }

  lemma FinishKeepsInv(s: State, s': State, t: Tid, p: Producer)
    requires Inv(s) && t in s.producerOf && s.producerOf[t] == p && t in s.threads && s.threads[t].Found?
    requires s' == s.(answers := s.answers + [Answer(t, p)], threads := s.threads[t := Idle])
    ensures Inv(s')
  {
    assert OwnerOk(s.tables, s.threads, t);
    LockKept(s.threads, s.resizing, t, Idle);
    MoveKeepsInv(s, Move(s, t, Idle), t, Idle);
    ValuesStay(Move(s, t, Idle), s');
  }

  /** The tables stay, and so do the threads that are about to write a value. */
  lemma ValuesStay(s: State, s': State)
    requires ValuesOk(s) && s'.tables == s.tables
    requires forall t | t in s.producerOf :: t in s'.producerOf && s'.producerOf[t] == s.producerOf[t]
    requires forall t | t in s.threads && s.threads[t].PlaceValue? :: t in s'.threads && s'.threads[t] == s.threads[t]
    ensures ValuesOk(s')
  {
    forall k: nat, slot: nat
      ensures ValueOk(s', k, slot)
    {
      assert ValueOk(s, k, slot);
    }
  }

  lemma FoundStep(s: State, t: Tid, granted: bool)
    requires Inv(s) && CanStep(s, t) && s.threads[t].Found?
    ensures Inv(Step(s, t, granted))
  {
    FoundOwn(s, t);
    if s.threads[t].h == s.threads[t].main {
      FinishKeepsInv(s, Step(s, t, granted), t, s.producerOf[t]);
    } else {
      FoundElsewhere(s, Step(s, t, granted), t);
    }
  }

  lemma FoundMayBePlaced(s: State, t: Tid)
    requires Inv(s) && t in s.threads && s.threads[t].Found? && s.threads[t].h != s.threads[t].main && t in s.producerOf
    ensures ThreadOk(s.tables, s.producerOf, s.rank, t, Placing(s.threads[t].main, s.producerOf[t], 0))
  {
    FoundOwn(s, t);
    assert s.tables[s.threads[t].h].capacity <= s.tables[s.threads[t].main].capacity;
  }

  /** The entry was found in an older table: a copy is to go into the one taken for the current table. */
  lemma FoundElsewhere(s: State, s': State, t: Tid)
    requires Inv(s) && t in s.threads && s.threads[t].Found? && s.threads[t].h != s.threads[t].main && t in s.producerOf
    requires s' == s.(threads := s.threads[t := Placing(s.threads[t].main, s.producerOf[t], 0)])
    ensures Inv(s')
  {
    var pc := Placing(s.threads[t].main, s.producerOf[t], 0);
    FoundMayBePlaced(s, t);
    LockKept(s.threads, s.resizing, t, pc);
    MoveKeepsInv(s, s', t, pc);
  }

  lemma PlacedOn(tables: seq<Table>, producerOf: map<Tid, Producer>, rank: map<Tid, nat>, t: Tid, main: nat,
                 p: Producer, i: nat)
    requires PlacingOk(tables, producerOf, rank, t, main, p, i)
    requires tables[main].entries[Probe(t, i, tables[main].capacity)].key != None
    ensures PlacingOk(tables, producerOf, rank, t, main, p, i + 1)
  {
    assert NotIn(tables[main], t);
    assert Taken(tables[main], t, i);
  }

  lemma PlacingStep(s: State, t: Tid, granted: bool)
    requires Inv(s) && CanStep(s, t) && s.threads[t].Placing?
    ensures Inv(Step(s, t, granted))
  {
    var Placing(main, p, i) := s.threads[t];
    var pc := AfterPlacing(s.tables[main], t, main, p, i);
    if KeyAt(s, main, t, i) != None {
      PlacedOn(s.tables, s.producerOf, s.rank, t, main, p, i);
    }
    LockKept(s.threads, s.resizing, t, pc);
    MoveKeepsInv(s, Step(s, t, granted), t, pc);
  }

  lemma LostCasStep(s: State, s': State, t: Tid, main: nat, p: Producer, i: nat)
    requires Inv(s) && t in s.threads && s.threads[t] == PlaceCas(main, p, i) && main < |s.tables|
    requires 0 < s.tables[main].capacity <= |s.tables[main].entries|
    requires s.tables[main].entries[Probe(t, i, s.tables[main].capacity)].key != None
    requires s' == s.(threads := s.threads[t := Placing(main, p, i + 1)])
    ensures Inv(s')
  {
    PlacedOn(s.tables, s.producerOf, s.rank, t, main, p, i);
    LockKept(s.threads, s.resizing, t, Placing(main, p, i + 1));
    MoveKeepsInv(s, s', t, Placing(main, p, i + 1));
  }

  // A thread writes its own entry.

  /** The table after thread t wrote a key or a value of its own. */
  ghost predicate Extends(table: Table, table': Table, t: Tid) {
    && table'.capacity == table.capacity && table'.prev == table.prev && |table'.entries| == |table.entries|
    && forall j {:trigger table.entries[j]} {:trigger table'.entries[j]} | 0 <= j < |table.entries| ::
         table'.entries[j].key == table.entries[j].key
           || (table.entries[j].key == None && table'.entries[j].key == Some(t))
  }

  lemma PassedKept(table: Table, table': Table, t: Tid, u: Tid, i: nat)
    requires Extends(table, table', t) && Passed(table, u, i)
    ensures Passed(table', u, i)
  {
    forall j: nat | j < i
      ensures Taken(table', u, j)
    {
      assert Taken(table, u, j);
    }
  }

  lemma AbsentKept(tables: seq<Table>, tables': seq<Table>, t: Tid, u: Tid, m: nat)
    requires |tables'| == |tables| && forall k {:trigger tables[k]} | 0 <= k < |tables| ::
               Extends(tables[k], tables'[k], t)
    requires Absent(tables, u, m) && u != t
    ensures Absent(tables', u, m)
  {
    forall k | m <= k < |tables'|
      ensures NotIn(tables'[k], u)
    {
      assert NotIn(tables[k], u) && Extends(tables[k], tables'[k], t);
    }
  }

  lemma IsInKept(tables: seq<Table>, tables': seq<Table>, t: Tid, u: Tid)
    requires |tables'| == |tables| && forall k {:trigger tables[k]} | 0 <= k < |tables| ::
               Extends(tables[k], tables'[k], t)
    requires IsIn(tables, u)
    ensures IsIn(tables', u)
  {
    var k :| 0 <= k < |tables| && !NotIn(tables[k], u);
    assert Extends(tables[k], tables'[k], t);
    var j :| 0 <= j < |tables[k].entries| && tables[k].entries[j].key == Some(u);
    assert tables'[k].entries[j].key == Some(u);
  }

  lemma OtherThreadKept(tables: seq<Table>, tables': seq<Table>, producerOf: map<Tid, Producer>, rank: map<Tid, nat>,
                        t: Tid, u: Tid, pc: Pc)
    requires ThreadOk(tables, producerOf, rank, u, pc) && u != t
    requires |tables'| == |tables| && forall k {:trigger tables[k]} | 0 <= k < |tables| ::
               Extends(tables[k], tables'[k], t)
    ensures ThreadOk(tables', producerOf, rank, u, pc)
  {
    match pc {
      case Probing(main, h, i) =>
        AbsentKept(tables, tables', t, u, h + 1);
        PassedKept(tables[h], tables'[h], t, u, i);
      case Found(main, h, _) =>
        AbsentKept(tables, tables', t, u, h + 1);
        assert Extends(tables[h], tables'[h], t);
      case Placing(main, _, i) =>
        AbsentKept(tables, tables', t, u, main);
        PassedKept(tables[main], tables'[main], t, u, i);
      case PlaceCas(main, _, i) =>
        AbsentKept(tables, tables', t, u, main);
        PassedKept(tables[main], tables'[main], t, u, i);
      case PlaceValue(main, _, _) =>
        assert Extends(tables[main], tables'[main], t);
      case Creating(main, _) =>
        assert Extends(tables[main], tables'[main], t);
      case _ =>
    }
  }

  lemma OthersKept(tables: seq<Table>, tables': seq<Table>, producerOf: map<Tid, Producer>, rank: map<Tid, nat>,
                   threads: map<Tid, Pc>, t: Tid, pc: Pc)
    requires ThreadsOk(tables, producerOf, rank, threads) && ThreadOk(tables', producerOf, rank, t, pc)
    requires |tables'| == |tables| && forall k {:trigger tables[k]} | 0 <= k < |tables| ::
               Extends(tables[k], tables'[k], t)
    ensures ThreadsOk(tables', producerOf, rank, threads[t := pc])
  {
    var threads' := threads[t := pc];
    forall u | u in threads'
      ensures ThreadOk(tables', producerOf, rank, u, threads'[u])
    {
      if u != t {
        OtherThreadKept(tables, tables', producerOf, rank, t, u, threads[u]);
      }
    }
  }

  /** A table in which thread t wrote its entry on its path, or none. */
  lemma TableExtended(table: Table, table': Table, k: nat, producerOf: map<Tid, Producer>, rank: map<Tid, nat>,
                      t: Tid, d: nat)
    requires TableOk(table, k, producerOf, rank) && Extends(table, table', t)
    requires table'.entries != table.entries ==>
               && t in producerOf && t in rank && rank[t] < Limit(table.capacity)
    requires forall j | 0 <= j < |table.entries| && table'.entries[j].key != table.entries[j].key ::
               NotIn(table, t) && OnPath(table, t, j, d)
    ensures TableOk(table', k, producerOf, rank)
  {
    forall slot: nat | slot < |table'.entries|
      ensures KeyOk(table', slot, producerOf, rank)
    {
      if table'.entries[slot].key.Some? {
        assert KeyOk(table, slot, producerOf, rank);
        if table'.entries[slot].key == table.entries[slot].key {
          var u := table.entries[slot].key.value;
          var e: nat :| OnPath(table, u, slot, e);
          PassedKept(table, table', t, u, e);
          assert OnPath(table', u, slot, e);
        } else {
          PassedKept(table, table', t, t, d);
          assert OnPath(table', t, slot, d);
        }
      }
    }
  }

  lemma CasKeepsInv(s: State, s': State, t: Tid, main: nat, p: Producer, i: nat, slot: nat)
    requires Inv(s) && t in s.threads && s.threads[t] == PlaceCas(main, p, i) && KeyAt(s, main, t, i) == None
    requires main < |s.tables| && 0 < s.tables[main].capacity <= |s.tables[main].entries|
             && slot == Probe(t, i, s.tables[main].capacity)
    requires s' == s.(tables := SetEntry(s.tables, main, slot, s.tables[main].entries[slot].(key := Some(t))),
                      threads := s.threads[t := PlaceValue(main, p, slot)])
    ensures Inv(s')
  {
    CasTables(s.tables, s'.tables, s.producerOf, s.rank, t, main, p, i, slot);
    OthersKept(s.tables, s'.tables, s.producerOf, s.rank, s.threads, t, PlaceValue(main, p, slot));
    LockKept(s.threads, s.resizing, t, PlaceValue(main, p, slot));
    CasValues(s, s', t, main, p, slot);
    forall u | u in s'.producerOf
      ensures OwnerOk(s'.tables, s'.threads, u)
    {
      assert OwnerOk(s.tables, s.threads, u);
      if u == t {
        assert !NotIn(s'.tables[main], t);
      } else if IsIn(s.tables, u) {
        IsInKept(s.tables, s'.tables, t, u);
      }
    }
    CountedStays(s.order, s.order, s.producerOf, s.producerOf, s.threads, s'.threads, t);
  }

  lemma CasTables(tables: seq<Table>, tables': seq<Table>, producerOf: map<Tid, Producer>, rank: map<Tid, nat>,
                  t: Tid, main: nat, p: Producer, i: nat, slot: nat)
    requires TablesOk(tables, producerOf, rank) && PlacingOk(tables, producerOf, rank, t, main, p, i)
    requires slot == Probe(t, i, tables[main].capacity) && tables[main].entries[slot].key == None
    requires tables' == SetEntry(tables, main, slot, tables[main].entries[slot].(key := Some(t)))
    ensures TablesOk(tables', producerOf, rank)
    ensures forall k {:trigger tables[k]} | 0 <= k < |tables| :: Extends(tables[k], tables'[k], t)
  {
    TableExtended(tables[main], tables'[main], main, producerOf, rank, t, i);
  }

  lemma CasValues(s: State, s': State, t: Tid, main: nat, p: Producer, slot: nat)
    requires ValuesOk(s) && t in s.threads && s.threads[t].PlaceCas? && t in s.producerOf && s.producerOf[t] == p
    requires main < |s.tables| && slot < |s.tables[main].entries| && s.tables[main].entries[slot].key == None
    requires s' == s.(tables := SetEntry(s.tables, main, slot, s.tables[main].entries[slot].(key := Some(t))),
                      threads := s.threads[t := PlaceValue(main, p, slot)])
    ensures ValuesOk(s')
  {
    forall k: nat, j: nat
      ensures ValueOk(s', k, j)
    {
      assert ValueOk(s, k, j);
    }
  }

  lemma CasStep(s: State, t: Tid, granted: bool)
    requires Inv(s) && CanStep(s, t) && s.threads[t].PlaceCas?
    ensures Inv(Step(s, t, granted))
  {
    var PlaceCas(main, p, i) := s.threads[t];
    if KeyAt(s, main, t, i) == None {
      WonCasStep(s, t, granted);
    } else {
      LostCasStep(s, Step(s, t, granted), t, main, p, i);
    }
  }

  lemma WonCasStep(s: State, t: Tid, granted: bool)
    requires Inv(s) && CanStep(s, t) && s.threads[t].PlaceCas? && KeyAt(s, s.threads[t].main, t, s.threads[t].i) == None
    ensures Inv(Step(s, t, granted))
  {
    var PlaceCas(main, p, i) := s.threads[t];
    CasKeepsInv(s, Step(s, t, granted), t, main, p, i, Probe(t, i, s.tables[main].capacity));
  }

  lemma WriteKeepsInv(s: State, s': State, t: Tid, main: nat, p: Producer, slot: nat)
    requires Inv(s) && t in s.threads && s.threads[t] == PlaceValue(main, p, slot)
    requires main < |s.tables| && slot < |s.tables[main].entries|
    requires s' == s.(tables := SetEntry(s.tables, main, slot, s.tables[main].entries[slot].(value := Some(p))),
                      answers := s.answers + [Answer(t, p)], threads := s.threads[t := Idle])
    ensures Inv(s')
  {
    WriteKeepsTables(s, s', t, main, p, slot);
    WriteKeepsThreads(s, s', t, main, p, slot);
  }

  lemma WriteKeepsTables(s: State, s': State, t: Tid, main: nat, p: Producer, slot: nat)
    requires Inv(s) && t in s.threads && s.threads[t] == PlaceValue(main, p, slot)
    requires main < |s.tables| && slot < |s.tables[main].entries|
    requires s' == s.(tables := SetEntry(s.tables, main, slot, s.tables[main].entries[slot].(value := Some(p))),
                      answers := s.answers + [Answer(t, p)], threads := s.threads[t := Idle])
    ensures TablesOk(s'.tables, s'.producerOf, s'.rank)
    ensures ThreadsOk(s'.tables, s'.producerOf, s'.rank, s'.threads)
    ensures forall u | u in s'.producerOf :: OwnerOk(s'.tables, s'.threads, u)
  {
    WriteTables(s.tables, s'.tables, s.producerOf, s.rank, t, main, p, slot);
    OthersKept(s.tables, s'.tables, s.producerOf, s.rank, s.threads, t, Idle);
    WriteOwners(s.tables, s'.tables, s.producerOf, s.threads, s'.threads, t);
  }

  lemma WriteKeepsThreads(s: State, s': State, t: Tid, main: nat, p: Producer, slot: nat)
    requires Inv(s) && t in s.threads && s.threads[t] == PlaceValue(main, p, slot)
    requires main < |s.tables| && slot < |s.tables[main].entries|
    requires s' == s.(tables := SetEntry(s.tables, main, slot, s.tables[main].entries[slot].(value := Some(p))),
                      answers := s.answers + [Answer(t, p)], threads := s.threads[t := Idle])
    ensures ValuesOk(s') && LockOk(s'.threads, s'.resizing)
    ensures CountedOk(s'.order, s'.producerOf, s'.threads) && AnswersOk(s'.answers, s'.producerOf)
  {
    LockKept(s.threads, s.resizing, t, Idle);
    WriteValues(s, s', t, main, p, slot);
    CountedStays(s.order, s.order, s.producerOf, s.producerOf, s.threads, s'.threads, t);
  }

  lemma WriteOwners(tables: seq<Table>, tables': seq<Table>, producerOf: map<Tid, Producer>,
                    threads: map<Tid, Pc>, threads': map<Tid, Pc>, t: Tid)
    requires forall u | u in producerOf :: OwnerOk(tables, threads, u)
    requires |tables'| == |tables| && forall k {:trigger tables[k]} | 0 <= k < |tables| ::
               Extends(tables[k], tables'[k], t)
    requires t in threads && threads[t].PlaceValue? && t in threads' && threads' == threads[t := threads'[t]]
    ensures forall u | u in producerOf :: OwnerOk(tables', threads', u)
  {
    forall u | u in producerOf
      ensures OwnerOk(tables', threads', u)
    {
      assert OwnerOk(tables, threads, u);
      if IsIn(tables, u) {
        IsInKept(tables, tables', t, u);
      }
    }
  }

  lemma WriteValues(s: State, s': State, t: Tid, main: nat, p: Producer, slot: nat)
    requires ValuesOk(s) && t in s.threads && s.threads[t] == PlaceValue(main, p, slot) && t in s.producerOf
             && s.producerOf[t] == p
    requires main < |s.tables| && slot < |s.tables[main].entries| && s.tables[main].entries[slot].key == Some(t)
    requires s' == s.(tables := SetEntry(s.tables, main, slot, s.tables[main].entries[slot].(value := Some(p))),
                      answers := s'.answers, threads := s.threads[t := Idle])
    ensures ValuesOk(s')
  {
    forall k: nat, j: nat
      ensures ValueOk(s', k, j)
    {
      assert ValueOk(s, k, j);
    }
  }

  lemma WriteTables(tables: seq<Table>, tables': seq<Table>, producerOf: map<Tid, Producer>, rank: map<Tid, nat>,
                    t: Tid, main: nat, p: Producer, slot: nat)
    requires TablesOk(tables, producerOf, rank) && main < |tables| && slot < |tables[main].entries|
    requires tables[main].entries[slot].key == Some(t)
    requires tables' == SetEntry(tables, main, slot, tables[main].entries[slot].(value := Some(p)))
    ensures TablesOk(tables', producerOf, rank)
    ensures forall k {:trigger tables[k]} | 0 <= k < |tables| :: Extends(tables[k], tables'[k], t)
  {
    assert KeyOk(tables[main], slot, producerOf, rank);
    TableExtended(tables[main], tables'[main], main, producerOf, rank, t, 0);
  }

  lemma WriteStep(s: State, t: Tid, granted: bool)
    requires Inv(s) && CanStep(s, t) && s.threads[t].PlaceValue?
    ensures Inv(Step(s, t, granted))
  {
    WriteKeepsInv(s, Step(s, t, granted), t, s.threads[t].main, s.threads[t].producer, s.threads[t].slot);
  }

  // Inserting.

  lemma CountKeepsInv(s: State, s': State, t: Tid, main: nat)
    requires Inv(s) && t in s.threads && s.threads[t] == Counting(main)
    requires s' == s.(count := s.count + 1, rank := s.rank[t := s.count + 1], order := s.order + [t],
                      threads := s.threads[t := Testing(main, s.count + 1)])
    ensures Inv(s')
  {
    CountKeepsTables(s, s', t, main);
    CountKeepsOrder(s, s', t, main);
  }

  lemma CountKeepsTables(s: State, s': State, t: Tid, main: nat)
    requires Inv(s) && t in s.threads && s.threads[t] == Counting(main)
    requires s' == s.(count := s.count + 1, rank := s.rank[t := s.count + 1], order := s.order + [t],
                      threads := s.threads[t := Testing(main, s.count + 1)])
    ensures TablesOk(s'.tables, s'.producerOf, s'.rank) && ValuesOk(s')
    ensures ThreadsOk(s'.tables, s'.producerOf, s'.rank, s'.threads)
  {
    RankAdded(s.tables, s.producerOf, s.rank, s'.rank, t);
    ValuesStay(s, s');
    ThreadsStay(s.tables, s.producerOf, s.producerOf, s.rank, s'.rank, s.threads, t, Testing(main, s.count + 1));
  }

  lemma CountKeepsOrder(s: State, s': State, t: Tid, main: nat)
    requires Inv(s) && t in s.threads && s.threads[t] == Counting(main)
    requires s' == s.(count := s.count + 1, rank := s.rank[t := s.count + 1], order := s.order + [t],
                      threads := s.threads[t := Testing(main, s.count + 1)])
    ensures OrderOk(s'.order, s'.rank) && CountedOk(s'.order, s'.producerOf, s'.threads)
    ensures LockOk(s'.threads, s'.resizing)
    ensures forall u | u in s'.producerOf :: OwnerOk(s'.tables, s'.threads, u)
  {
    LockKept(s.threads, s.resizing, t, Testing(main, s.count + 1));
    OrderAdded(s.order, s.rank, t);
    CountedStays(s.order, s'.order, s.producerOf, s.producerOf, s.threads, s'.threads, t);
    OwnersMove(s.tables, s.producerOf, s.threads, t, Testing(main, s.count + 1));
  }

  /** Rank and producer are given to one thread. */
  lemma ThreadsStay(tables: seq<Table>, producerOf: map<Tid, Producer>, producerOf': map<Tid, Producer>,
                    rank: map<Tid, nat>, rank': map<Tid, nat>, threads: map<Tid, Pc>, t: Tid, pc: Pc)
    requires ThreadsOk(tables, producerOf, rank, threads) && ThreadOk(tables, producerOf', rank', t, pc)
    requires forall u | u != t ::
               (u in producerOf' <==> u in producerOf) && (u in producerOf ==> producerOf'[u] == producerOf[u])
    requires forall u | u != t :: (u in rank' <==> u in rank) && (u in rank ==> rank'[u] == rank[u])
    ensures ThreadsOk(tables, producerOf', rank', threads[t := pc])
  {
    var threads' := threads[t := pc];
    forall u | u in threads'
      ensures ThreadOk(tables, producerOf', rank', u, threads'[u])
    {
      if u != t {
        assert ThreadOk(tables, producerOf, rank, u, threads[u]);
      }
    }
  }

  lemma RankAdded(tables: seq<Table>, producerOf: map<Tid, Producer>, rank: map<Tid, nat>, rank': map<Tid, nat>, t: Tid)
    requires TablesOk(tables, producerOf, rank) && t !in producerOf && t in rank' && rank' == rank[t := rank'[t]]
    ensures TablesOk(tables, producerOf, rank')
  {
    forall k | 0 <= k < |tables|
      ensures TableOk(tables[k], k, producerOf, rank')
    {
      forall slot: nat | slot < |tables[k].entries|
        ensures KeyOk(tables[k], slot, producerOf, rank')
      {
        assert KeyOk(tables[k], slot, producerOf, rank);
      }
    }
  }

  lemma OrderAdded(order: seq<Tid>, rank: map<Tid, nat>, t: Tid)
    requires OrderOk(order, rank) && t !in order
    ensures OrderOk(order + [t], rank[t := |order| + 1])
  {
  }

  lemma CountStep(s: State, t: Tid, granted: bool)
    requires Inv(s) && CanStep(s, t) && s.threads[t].Counting?
    ensures Inv(Step(s, t, granted))
  {
    CountKeepsInv(s, Step(s, t, granted), t, s.threads[t].main);
  }

  lemma TestStep(s: State, t: Tid, granted: bool)
    requires Inv(s) && CanStep(s, t) && s.threads[t].Testing?
    ensures Inv(Step(s, t, granted))
  {
    var Testing(main, n) := s.threads[t];
    if n >= s.tables[main].capacity / 2 && !s.resizing {
      LockTaken(s.threads, t, Locked(n));
      MoveKeepsInv(s, Step(s, t, granted), t, Locked(n));
    } else {
      LockKept(s.threads, s.resizing, t, Fitting(main, n));
      MoveKeepsInv(s, Step(s, t, granted), t, Fitting(main, n));
    }
  }

  lemma LockedStep(s: State, t: Tid, granted: bool)
    requires Inv(s) && CanStep(s, t) && s.threads[t].Locked?
    ensures Inv(Step(s, t, granted))
  {
    var n := s.threads[t].n;
    var pc := if n >= s.tables[s.current].capacity / 2 then Allocating(s.current, n) else Unlocking(s.current, n);
    LockKept(s.threads, s.resizing, t, pc);
    MoveKeepsInv(s, Step(s, t, granted), t, pc);
  }

  lemma {:induction false} EnoughGrows(capacity: nat, n: nat)
    requires capacity > 0
    ensures capacity <= Enough(capacity, n) && n < Enough(capacity, n) / 2
    decreases 2 * n + 2 - capacity
  {
    if n >= capacity / 2 {
      EnoughGrows(2 * capacity, n);
    }
  }

  predicate Unused(table: Table) {
    forall j | 0 <= j < |table.entries| :: table.entries[j].key == None
  }

  lemma EmptyTableOk(capacity: nat, k: nat, prev: Option<nat>, producerOf: map<Tid, Producer>, rank: map<Tid, nat>)
    requires capacity > 0 && prev == if k == 0 then None else Some(k - 1)
    ensures TableOk(EmptyTable(capacity, prev), k, producerOf, rank)
    ensures Unused(EmptyTable(capacity, prev))
  {
  }

  lemma TableAdded(tables: seq<Table>, producerOf: map<Tid, Producer>, rank: map<Tid, nat>, table: Table)
    requires TablesOk(tables, producerOf, rank) && TableOk(table, |tables|, producerOf, rank)
    requires 2 * tables[|tables| - 1].capacity <= table.capacity
    ensures TablesOk(tables + [table], producerOf, rank)
  {
    forall k | 0 <= k < |tables|
      ensures 2 * tables[k].capacity <= table.capacity
    {
      if k < |tables| - 1 {
        assert 2 * tables[k].capacity <= tables[|tables| - 1].capacity;
      }
    }
  }

  lemma ThreadSeesTable(tables: seq<Table>, table: Table, producerOf: map<Tid, Producer>, rank: map<Tid, nat>, u: Tid,
                        pc: Pc)
    requires ThreadOk(tables, producerOf, rank, u, pc) && Unused(table) && !pc.Allocating?
    ensures ThreadOk(tables + [table], producerOf, rank, u, pc)
  {
  }

  lemma PublishKeepsInv(s: State, s': State, t: Tid, n: nat, table: Table)
    requires Inv(s) && t in s.threads && s.threads[t] == Allocating(s.current, n)
    requires TableOk(table, |s.tables|, s.producerOf, s.rank) && 2 * Last(s.tables).capacity <= table.capacity
    requires Unused(table)
    requires s' == s.(tables := s.tables + [table], current := |s.tables|,
                      threads := s.threads[t := Unlocking(|s.tables|, n)])
    ensures Inv(s')
  {
    var pc := Unlocking(|s.tables|, n);
    TableAdded(s.tables, s.producerOf, s.rank, table);
    LockKept(s.threads, s.resizing, t, pc);
    assert ThreadOk(s.tables, s.producerOf, s.rank, t, s.threads[t]);
    PublishThreads(s.tables, table, s.producerOf, s.rank, s.threads, t, n);
    PublishValues(s, s', t, table);
    PublishOwners(s.tables, table, s.producerOf, s.threads, t, pc);
    PublishCounted(s.order, s.producerOf, s.threads, t, pc);
  }

  /** The publisher is at its new table, and the others see one more. */
  lemma PublishThreads(tables: seq<Table>, table: Table, producerOf: map<Tid, Producer>, rank: map<Tid, nat>,
                       threads: map<Tid, Pc>, t: Tid, n: nat)
    requires ThreadsOk(tables, producerOf, rank, threads) && Unused(table)
    requires t in threads && New(producerOf, rank, t, n)
    requires forall u | u in threads && u != t :: !threads[u].Allocating?
    ensures ThreadsOk(tables + [table], producerOf, rank, threads[t := Unlocking(|tables|, n)])
  {
    forall u | u in threads && u != t
      ensures ThreadOk(tables + [table], producerOf, rank, u, threads[u])
    {
      ThreadSeesTable(tables, table, producerOf, rank, u, threads[u]);
    }
  }

  lemma PublishOwners(tables: seq<Table>, table: Table, producerOf: map<Tid, Producer>, threads: map<Tid, Pc>, t: Tid,
                      pc: Pc)
    requires forall u | u in producerOf :: OwnerOk(tables, threads, u)
    requires t in threads && t !in producerOf
    ensures forall u | u in producerOf :: OwnerOk(tables + [table], threads[t := pc], u)
  {
    forall u | u in producerOf
      ensures OwnerOk(tables + [table], threads[t := pc], u)
    {
      assert OwnerOk(tables, threads, u);
      if IsIn(tables, u) {
        IsInLonger(tables, table, u);
      }
    }
  }

  lemma PublishCounted(order: seq<Tid>, producerOf: map<Tid, Producer>, threads: map<Tid, Pc>, t: Tid, pc: Pc)
    requires CountedOk(order, producerOf, threads) && t in threads && InFlight(threads[t]) && InFlight(pc)
    ensures CountedOk(order, producerOf, threads[t := pc])
  {
  }

  lemma PublishValues(s: State, s': State, t: Tid, table: Table)
    requires ValuesOk(s) && t in s.threads && !s.threads[t].PlaceValue? && Unused(table)
    requires s' == s.(tables := s.tables + [table], current := s'.current, threads := s'.threads) && t in s'.threads
    requires s'.threads == s.threads[t := s'.threads[t]]
    ensures ValuesOk(s')
  {
    forall k: nat, j: nat
      ensures ValueOk(s', k, j)
    {
      assert ValueOk(s, k, j);
    }
  }

  lemma IsInLonger(tables: seq<Table>, table: Table, u: Tid)
    requires IsIn(tables, u)
    ensures IsIn(tables + [table], u)
  {
    var k :| 0 <= k < |tables| && !NotIn(tables[k], u);
    assert (tables + [table])[k] == tables[k];
  }

  function Last(tables: seq<Table>): Table
    requires |tables| > 0
  {
    tables[|tables| - 1]
  }

  lemma AllocateStep(s: State, t: Tid, granted: bool)
    requires Inv(s) && CanStep(s, t) && s.threads[t].Allocating?
    ensures Inv(Step(s, t, granted))
  {
    var Allocating(main, n) := s.threads[t];
    if granted {
      var capacity := Enough(2 * s.tables[main].capacity, n);
      EnoughGrows(2 * s.tables[main].capacity, n);
      EmptyTableOk(capacity, |s.tables|, Some(main), s.producerOf, s.rank);
      PublishKeepsInv(s, Step(s, t, granted), t, n, EmptyTable(capacity, Some(main)));
    } else {
      LockKept(s.threads, s.resizing, t, Uncounting(true));
      MoveKeepsInv(s, Step(s, t, granted), t, Uncounting(true));
    }
  }

  lemma UnlockStep(s: State, t: Tid, granted: bool)
    requires Inv(s) && CanStep(s, t) && s.threads[t].Unlocking?
    ensures Inv(Step(s, t, granted))
  {
    var Unlocking(main, n) := s.threads[t];
    LockReleased(s.threads, s.resizing, t, Fitting(main, n));
    MoveKeepsInv(s, Step(s, t, granted), t, Fitting(main, n));
  }

  lemma FitStep(s: State, t: Tid, granted: bool)
    requires Inv(s) && CanStep(s, t) && s.threads[t].Fitting?
    ensures Inv(Step(s, t, granted))
  {
    var Fitting(main, n) := s.threads[t];
    var pc := if n < Limit(s.tables[main].capacity) then Creating(main, n) else Reloading(n);
    LockKept(s.threads, s.resizing, t, pc);
    MoveKeepsInv(s, Step(s, t, granted), t, pc);
  }

  lemma ReloadStep(s: State, t: Tid, granted: bool)
    requires Inv(s) && CanStep(s, t) && s.threads[t].Reloading?
    ensures Inv(Step(s, t, granted))
  {
    var pc := Testing(s.current, s.threads[t].n);
    LockKept(s.threads, s.resizing, t, pc);
    MoveKeepsInv(s, Step(s, t, granted), t, pc);
  }

  lemma UnknownIsAbsent(tables: seq<Table>, producerOf: map<Tid, Producer>, rank: map<Tid, nat>, t: Tid)
    requires TablesOk(tables, producerOf, rank) && t !in producerOf
    ensures Absent(tables, t, 0)
  {
    forall k | 0 <= k < |tables|
      ensures NotIn(tables[k], t)
    {
      forall j | 0 <= j < |tables[k].entries|
        ensures tables[k].entries[j].key != Some(t)
      {
        assert KeyOk(tables[k], j, producerOf, rank);
      }
    }
  }

  lemma CreateTables(tables: seq<Table>, producerOf: map<Tid, Producer>, producerOf': map<Tid, Producer>,
                     rank: map<Tid, nat>)
    requires TablesOk(tables, producerOf, rank) && forall t | t in producerOf :: t in producerOf'
    ensures TablesOk(tables, producerOf', rank)
  {
    forall k | 0 <= k < |tables|
      ensures TableOk(tables[k], k, producerOf', rank)
    {
      forall slot: nat | slot < |tables[k].entries|
        ensures KeyOk(tables[k], slot, producerOf', rank)
      {
        assert KeyOk(tables[k], slot, producerOf, rank);
      }
    }
  }

  lemma OwnersStay(tables: seq<Table>, producerOf: map<Tid, Producer>, producerOf': map<Tid, Producer>,
                   threads: map<Tid, Pc>, threads': map<Tid, Pc>, t: Tid)
    requires (forall u | u in producerOf :: OwnerOk(tables, threads, u)) && t in threads'
    requires producerOf'.Keys == producerOf.Keys + {t} && threads' == threads[t := threads'[t]] && threads'[t].Placing?
    ensures forall u | u in producerOf' :: OwnerOk(tables, threads', u)
  {
    forall u | u in producerOf'
      ensures OwnerOk(tables, threads', u)
    {
      if u != t {
        assert OwnerOk(tables, threads, u);
      }
    }
  }

  lemma CreatedPlace(tables: seq<Table>, producerOf: map<Tid, Producer>, rank: map<Tid, nat>, t: Tid, main: nat,
                     n: nat, p: Producer)
    requires TablesOk(tables, producerOf, rank) && ThreadOk(tables, producerOf, rank, t, Creating(main, n))
    ensures ThreadOk(tables, producerOf[t := p], rank, t, Placing(main, p, 0))
  {
    UnknownIsAbsent(tables, producerOf, rank, t);
  }

  lemma FreshProducer(producerOf: map<Tid, Producer>, created: nat, answers: seq<Answer>, t: Tid)
    requires ProducersOk(producerOf, created) && AnswersOk(answers, producerOf) && t !in producerOf
    ensures ProducersOk(producerOf[t := created], created + 1) && AnswersOk(answers, producerOf[t := created])
  {
  }

  lemma CreateKeepsInv(s: State, s': State, t: Tid, main: nat, n: nat)
    requires Inv(s) && t in s.threads && s.threads[t] == Creating(main, n)
    requires s' == s.(created := s.created + 1, producerOf := s.producerOf[t := s.created],
                      threads := s.threads[t := Placing(main, s.created, 0)])
    ensures Inv(s')
  {
    CreateKeepsTables(s, s', t, main, n);
    CreateKeepsThreads(s, s', t, main, n);
  }

  lemma CreateKeepsTables(s: State, s': State, t: Tid, main: nat, n: nat)
    requires Inv(s) && t in s.threads && s.threads[t] == Creating(main, n)
    requires s' == s.(created := s.created + 1, producerOf := s.producerOf[t := s.created],
                      threads := s.threads[t := Placing(main, s.created, 0)])
    ensures TablesOk(s'.tables, s'.producerOf, s'.rank)
    ensures ThreadsOk(s'.tables, s'.producerOf, s'.rank, s'.threads)
    ensures forall u | u in s'.producerOf :: OwnerOk(s'.tables, s'.threads, u)
  {
    CreatedPlace(s.tables, s.producerOf, s.rank, t, main, n, s.created);
    CreateTables(s.tables, s.producerOf, s'.producerOf, s.rank);
    ThreadsStay(s.tables, s.producerOf, s'.producerOf, s.rank, s.rank, s.threads, t, Placing(main, s.created, 0));
    OwnersStay(s.tables, s.producerOf, s'.producerOf, s.threads, s'.threads, t);
  }

  lemma CreateKeepsThreads(s: State, s': State, t: Tid, main: nat, n: nat)
    requires Inv(s) && t in s.threads && s.threads[t] == Creating(main, n)
    requires s' == s.(created := s.created + 1, producerOf := s.producerOf[t := s.created],
                      threads := s.threads[t := Placing(main, s.created, 0)])
    ensures ValuesOk(s') && LockOk(s'.threads, s'.resizing) && CountedOk(s'.order, s'.producerOf, s'.threads)
    ensures ProducersOk(s'.producerOf, s'.created) && AnswersOk(s'.answers, s'.producerOf)
  {
    LockKept(s.threads, s.resizing, t, Placing(main, s.created, 0));
    ValuesStay(s, s');
    CountedStays(s.order, s.order, s.producerOf, s'.producerOf, s.threads, s'.threads, t);
    FreshProducer(s.producerOf, s.created, s.answers, t);
  }

  lemma CreateStep(s: State, t: Tid, granted: bool)
    requires Inv(s) && CanStep(s, t) && s.threads[t].Creating?
    ensures Inv(Step(s, t, granted))
  {
    if granted {
      CreateKeepsInv(s, Step(s, t, granted), t, s.threads[t].main, s.threads[t].n);
    } else {
      LockKept(s.threads, s.resizing, t, Uncounting(false));
      MoveKeepsInv(s, Step(s, t, granted), t, Uncounting(false));
    }
  }

  lemma {:induction false} WithoutIsCut(order: seq<Tid>, t: Tid) returns (i: nat)
    requires t in order
    ensures i < |order| && order[i] == t && Without(order, t) == order[..i] + order[i + 1..]
  {
    if order[0] == t {
      i := 0;
    } else {
      var j := WithoutIsCut(order[1..], t);
      i := j + 1;
      assert order[1..][..j] == order[1..j + 1] && order[1..][j + 1..] == order[j + 2..];
      assert [order[0]] + order[1..j + 1] == order[..j + 1];
    }
  }

  lemma CutMembers(order: seq<Tid>, t: Tid, i: nat, u: Tid)
    requires i < |order| && order[i] == t && forall j | 0 <= j < |order| && j != i :: order[j] != t
    ensures u in order[..i] + order[i + 1..] <==> u in order && u != t
  {
    var cut := order[..i] + order[i + 1..];
    if u in order && u != t {
      var j :| 0 <= j < |order| && order[j] == u;
      assert cut[if j < i then j else j - 1] == u;
    }
    if u in cut {
      var j :| 0 <= j < |cut| && cut[j] == u;
      assert order[if j < i then j else j + 1] == u;
    }
  }

  /** Who leaves moves those behind forward, where less is asked of them. */
  lemma CutOk(order: seq<Tid>, rank: map<Tid, nat>, i: nat)
    requires OrderOk(order, rank) && i < |order|
    ensures OrderOk(order[..i] + order[i + 1..], rank)
  {
    var cut := order[..i] + order[i + 1..];
    forall j | 0 <= j < |cut|
      ensures cut[j] == order[if j < i then j else j + 1]
    {
    }
  }

  lemma UncountOrder(order: seq<Tid>, rank: map<Tid, nat>, producerOf: map<Tid, Producer>, threads: map<Tid, Pc>,
                     t: Tid, pc: Pc)
    requires OrderOk(order, rank) && CountedOk(order, producerOf, threads)
    requires t in threads && threads[t].Uncounting? && t !in producerOf && !InFlight(pc)
    ensures OrderOk(Without(order, t), rank) && |Without(order, t)| == |order| - 1
    ensures CountedOk(Without(order, t), producerOf, threads[t := pc])
  {
    assert t in order;
    var i := WithoutIsCut(order, t);
    CutOk(order, rank, i);
    forall u
      ensures u in Without(order, t) <==> u in order && u != t
    {
      CutMembers(order, t, i, u);
    }
    CountedStays(order, Without(order, t), producerOf, producerOf, threads, threads[t := pc], t);
  }

  lemma UncountKeepsInv(s: State, s': State, t: Tid, pc: Pc)
    requires Inv(s) && t in s.threads && s.threads[t].Uncounting? && s.count > 0
    requires pc == Clearing || pc == Idle
    requires HoldsLock(pc) ==> HoldsLock(s.threads[t])
    requires s' == s.(count := s.count - 1, order := Without(s.order, t), threads := s.threads[t := pc])
    ensures Inv(s')
  {
    assert ThreadOk(s.tables, s.producerOf, s.rank, t, s.threads[t]);
    UncountOrder(s.order, s.rank, s.producerOf, s.threads, t, pc);
    LockKept(s.threads, s.resizing, t, pc);
    ThreadsStay(s.tables, s.producerOf, s.producerOf, s.rank, s.rank, s.threads, t, pc);
    ValuesStay(s, s');
    OwnersMove(s.tables, s.producerOf, s.threads, t, pc);
  }

  lemma UncountStep(s: State, t: Tid, granted: bool)
    requires Inv(s) && CanStep(s, t) && s.threads[t].Uncounting?
    ensures Inv(Step(s, t, granted))
  {
    UncountKeepsInv(s, Step(s, t, granted), t, if s.threads[t].locked then Clearing else Idle);
  }

  lemma ClearStep(s: State, t: Tid, granted: bool)
    requires Inv(s) && CanStep(s, t) && s.threads[t].Clearing?
    ensures Inv(Step(s, t, granted))
  {
    LockReleased(s.threads, s.resizing, t, Idle);
    MoveKeepsInv(s, Step(s, t, granted), t, Idle);
  }

  lemma StepKeepsInv(s: State, t: Tid, granted: bool)
    requires Inv(s) && CanStep(s, t)
    ensures Inv(Step(s, t, granted))
  {
    match s.threads[t] {
      case Idle =>
      case Loading => LoadStep(s, t, granted);
      case Probing(_, _, _) => ProbeStep(s, t, granted);
      case Found(_, _, _) => FoundStep(s, t, granted);
      case Placing(_, _, _) => PlacingStep(s, t, granted);
      case PlaceCas(_, _, _) => CasStep(s, t, granted);
      case PlaceValue(_, _, _) => WriteStep(s, t, granted);
      case Counting(_) => CountStep(s, t, granted);
      case Testing(_, _) => TestStep(s, t, granted);
      case Locked(_) => LockedStep(s, t, granted);
      case Allocating(_, _) => AllocateStep(s, t, granted);
      case Unlocking(_, _) => UnlockStep(s, t, granted);
      case Fitting(_, _) => FitStep(s, t, granted);
      case Creating(_, _) => CreateStep(s, t, granted);
      case Reloading(_) => ReloadStep(s, t, granted);
      case Uncounting(_) => UncountStep(s, t, granted);
      case Clearing => ClearStep(s, t, granted);
    }
  }

  lemma NextKeepsInv(s: State, s': State)
    requires Inv(s) && Next(s, s')
    ensures Inv(s')
  {
    if t :| t in s.threads && s.threads[t] == Idle && s' == Move(s, t, Loading) {
      StartStep(s, t);
    } else {
      var t, granted :| CanStep(s, t) && s' == Step(s, t, granted);
      StepKeepsInv(s, t, granted);
    }
  }

  lemma {:induction false} RunHasInv(states: seq<State>, i: nat)
    requires Run(states) && i < |states|
    ensures Inv(states[i])
  {
    if i == 0 {
      InitHasInv(states[0]);
    } else {
      RunHasInv(states, i - 1);
      NextKeepsInv(states[i - 1], states[i]);
    }
  }

  // ------------------------------------------------------------------------------------- results

  /** The threads that have an entry in the table. */
  function Keys(entries: seq<Entry>): set<Tid> {
    if entries == [] then {}
    else Keys(entries[1..]) + (if entries[0].key.Some? then {entries[0].key.value} else {})
  }

  lemma {:induction false} KeysAre(entries: seq<Entry>)
    ensures forall t :: t in Keys(entries) <==> exists j :: 0 <= j < |entries| && entries[j].key == Some(t)
  {
    if entries != [] {
      KeysAre(entries[1..]);
      forall t
        ensures t in Keys(entries) <==> exists j :: 0 <= j < |entries| && entries[j].key == Some(t)
      {
        if t in Keys(entries[1..]) {
          var j :| 0 <= j < |entries[1..]| && entries[1..][j].key == Some(t);
          assert entries[j + 1].key == Some(t);
        }
        if j :| 0 <= j < |entries| && entries[j].key == Some(t) {
          if j > 0 {
            assert entries[1..][j - 1].key == Some(t);
          }
        }
      }
    }
  }

  /** A table without empty slots has as many threads as slots. */
  lemma {:induction false} FullTable(entries: seq<Entry>)
    requires forall j | 0 <= j < |entries| :: entries[j].key != None
    requires forall i, j | 0 <= i < j < |entries| :: entries[i].key != entries[j].key
    ensures |Keys(entries)| == |entries|
  {
    if entries != [] {
      FullTable(entries[1..]);
      KeysAre(entries[1..]);
    }
  }

  function Members(s: seq<Tid>): set<Tid> {
    set t | t in s
  }

  lemma {:induction false} MembersBound(s: seq<Tid>)
    ensures |Members(s)| <= |s|
  {
    if s != [] {
      MembersBound(s[1..]);
      assert Members(s) == Members(s[1..]) + {s[0]};
    }
  }

  /**
   Every table stays below three quarters full: under any interleaving of insertions, resizes and lazy
   copies, and whatever the allocator refuses.
   */
  lemma TablesStayBelowThreeQuarters(states: seq<State>, i: nat, k: nat)
    requires Run(states) && i < |states| && k < |states[i].tables|
    ensures var table := states[i].tables[k];
            && |table.entries| == table.capacity > 0
            && (|Keys(table.entries)| == 0 || |Keys(table.entries)| < table.capacity / 2 + table.capacity / 4)
  {
    RunHasInv(states, i);
    KeysBelowLimit(states[i], k);
  }

  lemma KeysBelowLimit(s: State, k: nat)
    requires Inv(s) && k < |s.tables|
    ensures |Keys(s.tables[k].entries)| == 0 || |Keys(s.tables[k].entries)| < Limit(s.tables[k].capacity)
  {
    var table := s.tables[k];
    var keys := Keys(table.entries);
    KeysAre(table.entries);
    if keys != {} {
      var n := if Limit(table.capacity) - 1 < |s.order| then Limit(table.capacity) - 1 else |s.order|;
      forall t | t in keys
        ensures 0 < Limit(table.capacity) && t in s.order[..n]
      {
        var j :| 0 <= j < |table.entries| && table.entries[j].key == Some(t);
        assert KeyOk(table, j, s.producerOf, s.rank);
        assert OwnerOk(s.tables, s.threads, t);
        var p :| 0 <= p < |s.order| && s.order[p] == t;
        assert s.order[..n][p] == t;
      }
      assert keys <= Members(s.order[..n]);
      Arith.SubsetSize(keys, Members(s.order[..n]));
      MembersBound(s.order[..n]);
    }
  }

  lemma EverySlotIsProbed(t: Tid, slot: nat, capacity: nat)
    requires slot < capacity
    ensures Probe(t, Arith.Wrap(slot - HASH(t), capacity), capacity) == slot
  {
    Arith.WrapShift(slot - HASH(t), HASH(t), capacity);
  }

  /** So many taken slots fit into no table. */
  lemma PassedIsShort(s: State, k: nat, t: Tid, i: nat)
    requires Inv(s) && k < |s.tables| && Passed(s.tables[k], t, i)
    ensures i < s.tables[k].capacity
  {
    var table := s.tables[k];
    if i >= table.capacity {
      forall slot: nat | slot < |table.entries|
        ensures table.entries[slot].key != None
      {
        EverySlotIsProbed(t, slot, table.capacity);
        PassedAt(table, t, i, Arith.Wrap(slot - HASH(t), table.capacity));
      }
      FullTable(table.entries);
      KeysBelowLimit(s, k);
      assert false;
    }
  }

  /**
   Every probe loop ends: a lookup, a lazy copy or an insertion is always still within its first
   capacity probes, and each of its further probes moves on.
   */
  lemma EveryProbeEnds(states: seq<State>, i: nat, t: Tid)
    requires Run(states) && i < |states| && t in states[i].threads
    ensures var s := states[i];
            match s.threads[t]
            case Probing(main, h, n) => h < |s.tables| && n < s.tables[h].capacity
            case Placing(main, p, n) => main < |s.tables| && n < s.tables[main].capacity
            case PlaceCas(main, p, n) => main < |s.tables| && n < s.tables[main].capacity
            case _ => true
  {
    RunHasInv(states, i);
    var s := states[i];
    match s.threads[t] {
      case Probing(_, h, n) => PassedIsShort(s, h, t, n);
      case Placing(main, _, n) => PassedIsShort(s, main, t, n);
      case PlaceCas(main, _, n) => PassedIsShort(s, main, t, n);
      case _ =>
    }
  }

  /** Each thread always gets the one producer it first got, and no two threads share one. */
  lemma OneProducerPerThread(states: seq<State>, i: nat, q: nat, r: nat)
    requires Run(states) && i < |states| && q < |states[i].answers| && r < |states[i].answers|
    ensures var answers := states[i].answers;
            answers[q].thread == answers[r].thread <==> answers[q].producer == answers[r].producer
  {
    RunHasInv(states, i);
    assert states[i].answers[q] in states[i].answers && states[i].answers[r] in states[i].answers;
  }

  /** A thread that has a producer creates no second one, and no thread is counted twice. */
  lemma NoSecondProducer(states: seq<State>, i: nat, t: Tid)
    requires Run(states) && i < |states| && t in states[i].threads && t in states[i].producerOf
    ensures !states[i].threads[t].Counting? && !InFlight(states[i].threads[t])
    ensures states[i].count == |states[i].order|
    ensures forall p, q | 0 <= p < q < |states[i].order| :: states[i].order[p] != states[i].order[q]
  {
    RunHasInv(states, i);
    var s := states[i];
    HasProducer(s.tables, s.producerOf, s.rank, t, s.threads[t]);
  }

  lemma HasProducer(tables: seq<Table>, producerOf: map<Tid, Producer>, rank: map<Tid, nat>, t: Tid, pc: Pc)
    requires ThreadOk(tables, producerOf, rank, t, pc) && t in producerOf
    ensures !pc.Counting? && !InFlight(pc)
  {
  }

  /** The chain from the current table through prev has every table ever published. */
  lemma NoTableIsLost(states: seq<State>, i: nat, k: nat)
    requires Run(states) && i < |states| && k < |states[i].tables|
    ensures states[i].current == |states[i].tables| - 1
    ensures states[i].tables[k].prev == if k == 0 then None else Some(k - 1)
  {
    RunHasInv(states, i);
  }

  lemma NeverStuck(s: State, t: Tid)
    requires Inv(s) && t in s.threads && s.threads[t] != Idle
    ensures CanStep(s, t)
  {
    match s.threads[t] {
      case Found(_, _, _) => FoundOwn(s, t);
      case Uncounting(_) => assert t in s.order;
      case _ =>
    }
  }

  /** Every access of a thread is to memory that exists, and a value it reads was written. */
  lemma NoThreadIsStuck(states: seq<State>, i: nat, t: Tid)
    requires Run(states) && i < |states| && t in states[i].threads && states[i].threads[t] != Idle
    ensures CanStep(states[i], t)
  {
    RunHasInv(states, i);
    NeverStuck(states[i], t);
  }
}
