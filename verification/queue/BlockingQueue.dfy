/**
 BlockingConcurrentQueue: a queue and a semaphore that counts its items.  The inner queue is taken by
 its specification: an enqueue of one or many items makes them available at once, and a dequeue takes
 out some items that are there, at most as many as asked for, and perhaps none though there are some.
 The semaphore is the machine of the module Semaphore, step by step.
 */
module BlockingQueue {
  import Semaphore

  type Item(==, !new)

  /** What a thread's call of this class is doing. */
  datatype Op =
    | Free
    // enqueue or enqueue_bulk: so many items are in the inner queue and not signalled yet
    | Signalling(count: nat)
    // the fetch_add of signal is done, wakeups may still have to be posted
    | Signalled
    // a dequeue waits for permits
    | Asking
    // a dequeue takes out an item for each of its permits; with none it returns, or asks again as wait_dequeue does
    | Taking(permits: nat, got: multiset<Item>)

  /** History variables: the items that were enqueued so far, and those that dequeues returned with. */
  datatype State = State(
    sem: Semaphore.State,
    inner: multiset<Item>,
    ops: seq<Op>,
    entered: multiset<Item>,
    left: multiset<Item>)

  ghost predicate Init(s: State) {
    && Semaphore.Init(s.sem) && s.sem.initial == 0
    && s.inner == s.entered == s.left == multiset{}
    && |s.ops| == |s.sem.threads| && forall t | 0 <= t < |s.ops| :: s.ops[t] == Free
  }

  ghost predicate WellSized(s: State, t: nat) {
    t < |s.ops| == |s.sem.threads| == |s.sem.asked|
  }

  /** inner.enqueue or inner.enqueue_bulk succeeded. */
  function Enqueue(s: State, t: nat, items: multiset<Item>): State
    requires t < |s.ops|
  {
    s.(inner := s.inner + items, entered := s.entered + items, ops := s.ops[t := Signalling(|items|)])
  }

  /** sema->signal(count) is called. */
  ghost function StartSignal(s: State, t: nat): State
    requires WellSized(s, t) && s.sem.threads[t] == Semaphore.Idle && s.ops[t].Signalling?
  {
    s.(sem := Semaphore.Begin(s.sem, t, Semaphore.Signal(s.ops[t].count)))
  }

  /** sema->wait(), tryWait(), waitMany(max) or tryWaitMany(max) is called. */
  ghost function StartAsk(s: State, t: nat, max: nat, after: Semaphore.After): State
    requires WellSized(s, t) && Semaphore.CanBegin(s.sem, t, Semaphore.TryLoad(max, after))
  {
    s.(sem := Semaphore.Begin(s.sem, t, Semaphore.TryLoad(max, after)), ops := s.ops[t := Asking])
  }

  /** A step inside the semaphore. */
  function SemStep(s: State, t: nat, lucky: bool): State
    requires t < |s.ops| && Semaphore.CanStep(s.sem, t, lucky)
  {
    s.(sem := Semaphore.Step(s.sem, t, lucky),
       ops := if s.sem.threads[t].Signal? then s.ops[t := Signalled] else s.ops)
  }

  /** The semaphore gave some permits, or none. */
  function GotPermits(s: State, t: nat): State
    requires t < |s.ops| && t < |s.sem.threads| && s.sem.threads[t].Returned? && s.ops[t].Asking?
  {
    var permits := s.sem.threads[t].result;
    s.(sem := Semaphore.Leave(s.sem, t), ops := s.ops[t := Taking(permits, multiset{})])
  }

  /** inner.try_dequeue or inner.try_dequeue_bulk took out these items. */
  function TakeOut(s: State, t: nat, items: multiset<Item>): State
    requires t < |s.ops| && s.ops[t].Taking?
  {
    s.(inner := s.inner - items, ops := s.ops[t := Taking(s.ops[t].permits, s.ops[t].got + items)])
  }

  /** The call returns with an item for each permit. */
  function Deliver(s: State, t: nat): State
    requires t < |s.ops| && s.ops[t].Taking?
  {
    s.(left := s.left + s.ops[t].got, ops := s.ops[t := Free])
  }

  ghost predicate Enqueues(s: State, s': State, t: nat) {
    && t < |s.ops| && s.ops[t] == Free
    && exists items :: s' == Enqueue(s, t, items)
  }

  ghost predicate Signals(s: State, s': State, t: nat) {
    && WellSized(s, t) && s.sem.threads[t] == Semaphore.Idle
    && ((s.ops[t].Signalling? && s' == StartSignal(s, t))
        || (s.ops[t] == Signalled && s' == s.(ops := s.ops[t := Free])))
  }

  ghost predicate Asks(s: State, s': State, t: nat) {
    && WellSized(s, t)
    && exists max: nat, after ::
         && Semaphore.CanBegin(s.sem, t, Semaphore.TryLoad(max, after))
         && (s.ops[t] == Free || s.ops[t] == Taking(0, multiset{}))
         && s' == StartAsk(s, t, max, after)
  }

  ghost predicate InSemaphore(s: State, s': State, t: nat) {
    t < |s.ops| && exists lucky :: Semaphore.CanStep(s.sem, t, lucky) && s' == SemStep(s, t, lucky)
  }

  ghost predicate GetsPermits(s: State, s': State, t: nat) {
    && t < |s.ops| && t < |s.sem.threads| && s.sem.threads[t].Returned? && s.ops[t].Asking?
    && s' == GotPermits(s, t)
  }

  ghost predicate Takes(s: State, s': State, t: nat) {
    && t < |s.ops| && s.ops[t].Taking?
    && ((|s.ops[t].got| == s.ops[t].permits && s' == Deliver(s, t))
        || exists items :: CanTakeOut(s, t, items) && s' == TakeOut(s, t, items))
  }

  predicate CanTakeOut(s: State, t: nat, items: multiset<Item>)
    requires t < |s.ops| && s.ops[t].Taking?
  {
    items <= s.inner && |s.ops[t].got| + |items| <= s.ops[t].permits
  }

  ghost predicate Next(s: State, s': State) {
    exists t: nat :: Enqueues(s, s', t) || Signals(s, s', t) || Asks(s, s', t)
                     || InSemaphore(s, s', t) || GetsPermits(s, s', t) || Takes(s, s', t)
  }

  ghost predicate Run(states: seq<State>) {
    && |states| > 0
    && Init(states[0])
    && forall i | 0 <= i < |states| - 1 :: Next(states[i], states[i + 1])
  }

  // ------------------------------------------------------------------------------- the invariant

  /** Items that were enqueued and not signalled, and permits for which no item was taken out yet. */
  function Open(op: Op): int {
    match op
    case Signalling(count) => count
    case Taking(permits, got) => permits - |got|
    case _ => 0
  }

  function Spins(op: Op): int {
    if op.Taking? then op.permits - |op.got| else 0
  }

  function Got(op: Op): multiset<Item> {
    if op.Taking? then op.got else multiset{}
  }

  function Sum(ops: seq<Op>, weight: Op -> int): int {
    if ops == [] then 0 else weight(ops[0]) + Sum(ops[1..], weight)
  }

  /** The items that dequeues under way have taken out. */
  function Hands(ops: seq<Op>): multiset<Item> {
    if ops == [] then multiset{} else Got(ops[0]) + Hands(ops[1..])
  }

  predicate OpOk(op: Op, pc: Semaphore.Pc) {
    match op
    case Free => pc == Semaphore.Idle
    case Signalling(count) => pc == Semaphore.Idle || pc == Semaphore.Signal(count)
    case Signalled => pc == Semaphore.Idle || pc.Post?
    case Asking => !pc.Idle? && !pc.Signal? && !pc.Post?
    case Taking(permits, got) => pc == Semaphore.Idle && |got| <= permits
  }

  ghost predicate Inv(s: State) {
    && Semaphore.Inv(s.sem) && s.sem.initial == 0
    && |s.ops| == |s.sem.threads|
    && (forall t | 0 <= t < |s.ops| :: OpOk(s.ops[t], s.sem.threads[t]))
    && |s.inner| == s.sem.signalled - s.sem.delivered + Sum(s.ops, Open)
    && s.entered == s.inner + Hands(s.ops) + s.left
  }

  lemma {:induction false} SumUpdate(ops: seq<Op>, t: nat, op: Op, weight: Op -> int)
    requires t < |ops|
    ensures Sum(ops[t := op], weight) == Sum(ops, weight) - weight(ops[t]) + weight(op)
  {
    if t == 0 {
      assert ops[t := op][1..] == ops[1..];
    } else {
      SumUpdate(ops[1..], t - 1, op, weight);
      assert ops[t := op][1..] == ops[1..][t - 1 := op];
    }
  }

  lemma {:induction false} HandsUpdate(ops: seq<Op>, t: nat, op: Op)
    requires t < |ops|
    ensures forall x :: Hands(ops[t := op])[x] + Got(ops[t])[x] == Hands(ops)[x] + Got(op)[x]
  {
    if t == 0 {
      assert ops[t := op][1..] == ops[1..];
    } else {
      HandsUpdate(ops[1..], t - 1, op);
      assert ops[t := op][1..] == ops[1..][t - 1 := op];
    }
  }

  lemma {:induction false} NothingUnderWay(ops: seq<Op>)
    requires forall t | 0 <= t < |ops| :: ops[t] == Free
    ensures Sum(ops, Open) == 0 && Hands(ops) == multiset{}
  {
    if ops != [] {
      NothingUnderWay(ops[1..]);
    }
  }

  /** There are runs with any number of threads. */
  lemma RunsBegin(n: nat) returns (s: State)
    ensures |s.ops| == n && Run([s])
  {
    var sem := Semaphore.RunsBegin(n, 0);
    s := State(sem, multiset{}, seq(n, _ => Free), multiset{}, multiset{});
  }

  lemma InitHasInv(s: State)
    requires Init(s)
    ensures Inv(s)
  {
    Semaphore.InitHasInv(s.sem);
    NothingUnderWay(s.ops);
  }

  lemma EnqueueKeepsInv(s: State, t: nat, items: multiset<Item>)
    requires Inv(s) && t < |s.ops| && s.ops[t] == Free
    ensures Inv(Enqueue(s, t, items))
  {
    SumUpdate(s.ops, t, Signalling(|items|), Open);
    HandsUpdate(s.ops, t, Signalling(|items|));
  }

  lemma SignalsKeepsInv(s: State, s': State, t: nat)
    requires Inv(s) && Signals(s, s', t)
    ensures Inv(s')
  {
    if s.ops[t].Signalling? {
      Semaphore.BeginKeepsInv(s.sem, t, Semaphore.Signal(s.ops[t].count));
    } else {
      SumUpdate(s.ops, t, Free, Open);
      HandsUpdate(s.ops, t, Free);
    }
  }

  lemma AskKeepsInv(s: State, t: nat, max: nat, after: Semaphore.After)
    requires Inv(s) && WellSized(s, t) && Semaphore.CanBegin(s.sem, t, Semaphore.TryLoad(max, after))
    requires s.ops[t] == Free || s.ops[t] == Taking(0, multiset{})
    ensures Inv(StartAsk(s, t, max, after))
  {
    Semaphore.BeginKeepsInv(s.sem, t, Semaphore.TryLoad(max, after));
    SumUpdate(s.ops, t, Asking, Open);
    HandsUpdate(s.ops, t, Asking);
  }

  /** What a step in the semaphore does to the permits signalled and returned. */
  lemma SemStepEffect(s: Semaphore.State, t: nat, lucky: bool)
    requires Semaphore.CanStep(s, t, lucky)
    ensures var s', pc := Semaphore.Step(s, t, lucky), s.threads[t];
            && s'.threads == s.threads[t := s'.threads[t]] && s'.delivered == s.delivered && s'.initial == s.initial
            && s'.signalled == s.signalled + (if pc.Signal? then pc.count else 0)
            && (pc.Signal? || pc.Post? ==> s'.threads[t].Post? || s'.threads[t].Idle?)
            && (!pc.Signal? && !pc.Post? ==> !s'.threads[t].Post? && !s'.threads[t].Signal? && !s'.threads[t].Idle?)
  {
  }

  lemma SemStepKeepsInv(s: State, t: nat, lucky: bool)
    requires Inv(s) && t < |s.ops| && Semaphore.CanStep(s.sem, t, lucky)
    ensures Inv(SemStep(s, t, lucky))
  {
    Semaphore.StepKeepsInv(s.sem, t, lucky);
    SemStepEffect(s.sem, t, lucky);
    assert OpOk(s.ops[t], s.sem.threads[t]);
    if s.sem.threads[t].Signal? {
      SumUpdate(s.ops, t, Signalled, Open);
      HandsUpdate(s.ops, t, Signalled);
    }
  }

  lemma GotPermitsKeepsInv(s: State, t: nat)
    requires Inv(s) && t < |s.ops| && s.sem.threads[t].Returned? && s.ops[t].Asking?
    ensures Inv(GotPermits(s, t))
  {
    Semaphore.LeaveKeepsInv(s.sem, t);
    var op := Taking(s.sem.threads[t].result, multiset{});
    SumUpdate(s.ops, t, op, Open);
    HandsUpdate(s.ops, t, op);
  }

  lemma TakeOutKeepsInv(s: State, t: nat, items: multiset<Item>)
    requires Inv(s) && t < |s.ops| && s.ops[t].Taking? && CanTakeOut(s, t, items)
    ensures Inv(TakeOut(s, t, items))
  {
    var op := Taking(s.ops[t].permits, s.ops[t].got + items);
    SumUpdate(s.ops, t, op, Open);
    HandsUpdate(s.ops, t, op);
    assert s.inner == (s.inner - items) + items;
  }

  lemma DeliverKeepsInv(s: State, t: nat)
    requires Inv(s) && t < |s.ops| && s.ops[t].Taking? && |s.ops[t].got| == s.ops[t].permits
    ensures Inv(Deliver(s, t))
  {
    SumUpdate(s.ops, t, Free, Open);
    HandsUpdate(s.ops, t, Free);
  }

  lemma TakesKeepsInv(s: State, s': State, t: nat)
    requires Inv(s) && Takes(s, s', t)
    ensures Inv(s')
  {
    if |s.ops[t].got| == s.ops[t].permits && s' == Deliver(s, t) {
      DeliverKeepsInv(s, t);
    } else {
      var items :| CanTakeOut(s, t, items) && s' == TakeOut(s, t, items);
      TakeOutKeepsInv(s, t, items);
    }
  }

  lemma NextKeepsInv(s: State, s': State)
    requires Inv(s) && Next(s, s')
    ensures Inv(s')
  {
    var t: nat :| Enqueues(s, s', t) || Signals(s, s', t) || Asks(s, s', t)
                  || InSemaphore(s, s', t) || GetsPermits(s, s', t) || Takes(s, s', t);
    if Enqueues(s, s', t) {
      var items :| s' == Enqueue(s, t, items);
      EnqueueKeepsInv(s, t, items);
    } else if Signals(s, s', t) {
      SignalsKeepsInv(s, s', t);
    } else if Asks(s, s', t) {
      var max: nat, after :|
        && Semaphore.CanBegin(s.sem, t, Semaphore.TryLoad(max, after))
        && (s.ops[t] == Free || s.ops[t] == Taking(0, multiset{}))
        && s' == StartAsk(s, t, max, after);
      AskKeepsInv(s, t, max, after);
    } else if InSemaphore(s, s', t) {
      var lucky :| Semaphore.CanStep(s.sem, t, lucky) && s' == SemStep(s, t, lucky);
      SemStepKeepsInv(s, t, lucky);
    } else if GetsPermits(s, s', t) {
      GotPermitsKeepsInv(s, t);
    } else {
      TakesKeepsInv(s, s', t);
    }
  }

  lemma {:induction false} RunHasInv(states: seq<State>, i: nat)
    requires Run(states) && i < |states|
    ensures Inv(states[i])
  {
    if i == 0 {
      InitHasInv(states[0]);
    } else {
      RunHasInv(states, i - 1);
      NextKeepsInv(states[i - 1], states[i]);
    }
  }

  // ------------------------------------------------------------------------------------- results

  /**
   The items in the inner queue are the permits that are free (in the count, posted, or on their way),
   those that waiting calls have got, those that dequeues still spin on, and the items that were
   enqueued and not signalled yet.
   */
  lemma ItemsMatchPermits(states: seq<State>, i: nat)
    requires Run(states) && i < |states|
    ensures var s := states[i];
            |s.inner| == Semaphore.Positive(s.sem.count) + s.sem.posted + Semaphore.Owed(s.sem)
                         + Semaphore.InCalls(s.sem) + Sum(s.ops, Open)
  {
    RunHasInv(states, i);
  }

  lemma {:induction false} SpinsWithin(ops: seq<Op>)
    requires forall t | 0 <= t < |ops| :: Open(ops[t]) >= 0
    ensures 0 <= Sum(ops, Spins) <= Sum(ops, Open)
  {
    if ops != [] {
      SpinsWithin(ops[1..]);
    }
  }

  lemma {:induction false} OneSpins(ops: seq<Op>, t: nat)
    requires t < |ops| && forall u | 0 <= u < |ops| :: Open(ops[u]) >= 0
    ensures Spins(ops[t]) <= Sum(ops, Spins)
  {
    SpinsWithin(ops[1..]);
    if t > 0 {
      OneSpins(ops[1..], t - 1);
    }
  }

  /** No dequeue spins for an item that does not exist: there are enough for all that hold permits. */
  lemma NoConsumerSpinsInVain(states: seq<State>, i: nat, t: nat)
    requires Run(states) && i < |states| && t < |states[i].ops| && states[i].ops[t].Taking?
    ensures var s := states[i];
            && |s.ops[t].got| <= s.ops[t].permits
            && s.ops[t].permits - |s.ops[t].got| <= Sum(s.ops, Spins) <= |s.inner|
  {
    RunHasInv(states, i);
    var s := states[i];
    forall u | 0 <= u < |s.ops|
      ensures Open(s.ops[u]) >= 0
    {
      assert OpOk(s.ops[u], s.sem.threads[u]);
    }
    OneSpins(s.ops, t);
    SpinsWithin(s.ops);
  }

  /** Every item that was enqueued is in the inner queue, in the hands of a dequeue, or was returned: once. */
  lemma NoItemIsLost(states: seq<State>, i: nat)
    requires Run(states) && i < |states|
    ensures states[i].entered == states[i].inner + Hands(states[i].ops) + states[i].left
  {
    RunHasInv(states, i);
  }

  /** With no call under way, the semaphore's count is the number of items. */
  lemma QuietCountIsSize(states: seq<State>, i: nat)
    requires Run(states) && i < |states| && forall t | 0 <= t < |states[i].ops| :: states[i].ops[t] == Free
    ensures states[i].sem.count == |states[i].inner| && states[i].sem.posted == 0
    ensures states[i].entered == states[i].inner + states[i].left
  {
    RunHasInv(states, i);
    var s := states[i];
    NothingUnderWay(s.ops);
    forall t | 0 <= t < |s.sem.threads|
      ensures s.sem.threads[t] == Semaphore.Idle
    {
      assert OpOk(s.ops[t], s.sem.threads[t]);
    }
    Semaphore.SumZero(s.sem.threads, Semaphore.Waits);
    Semaphore.SumZero(s.sem.threads, Semaphore.Owes);
    Semaphore.SumZero(s.sem.threads, Semaphore.Has);
  }

  /** A consumer asleep with no wakeup on its way has nothing to wake up for: no item is free. */
  lemma SleeperHasNoItem(states: seq<State>, i: nat, t: nat)
    requires Run(states) && i < |states| && t < |states[i].sem.threads| && states[i].sem.threads[t].Asleep?
    requires states[i].sem.posted == 0 && Semaphore.Owed(states[i].sem) == 0
    ensures |states[i].inner| == Semaphore.InCalls(states[i].sem) + Sum(states[i].ops, Open)
  {
    RunHasInv(states, i);
    Semaphore.SumAtLeast(states[i].sem.threads, t, Semaphore.Waits);
  }

  // --------------------------------------------------------------------------- a dequeue on its own

  /** States in a row. */
  ghost predicate Path(states: seq<State>) {
    |states| > 0 && (|states| > 1 ==> Next(states[0], states[1]) && Path(states[1..]))
  }

  lemma Prepend(s: State, states: seq<State>)
    requires Path(states) && Next(s, states[0])
    ensures Path([s] + states)
  {
    assert ([s] + states)[1..] == states;
  }

  /** The semaphore's steps, while nothing else moves. */
  lemma {:induction false} InsideSemaphore(s: State, t: nat, sems: seq<Semaphore.State>, more: seq<State>)
    returns (states: seq<State>)
    requires t < |s.ops| && Semaphore.Solo(sems, t) && Semaphore.Tries(sems[0].threads[t], sems[0].count)
    requires Path(more) && more[0] == s.(sem := sems[|sems| - 1])
    ensures Path(states) && states[0] == s.(sem := sems[0]) && states[|states| - 1] == more[|more| - 1]
  {
    if |sems| == 1 {
      states := more;
    } else {
      var lucky :| Semaphore.StepOf(sems[0], sems[1], t, lucky);
      Semaphore.TriesOn(sems[0], sems[1], t, lucky);
      states := InsideSemaphore(s, t, sems[1..], more);
      var first := s.(sem := sems[0]);
      assert InSemaphore(first, states[0], t);
      Prepend(first, states);
      states := [first] + states;
    }
  }

  /** Behind the semaphore: the permits, an item for each, and the return. */
  lemma Collects(s: State, t: nat, items: multiset<Item>) returns (states: seq<State>)
    requires t < |s.ops| && t < |s.sem.threads| && s.sem.threads[t] == Semaphore.Returned(|items|)
    requires s.ops[t] == Asking && items <= s.inner
    ensures Path(states) && states[0] == s
    ensures var s' := states[|states| - 1];
            && s'.inner == s.inner - items && s'.left == s.left + items
            && s'.ops == s.ops[t := Free] && s'.sem == Semaphore.Leave(s.sem, t)
  {
    var s1 := GotPermits(s, t);
    var s2 := TakeOut(s1, t, items);
    var s3 := Deliver(s2, t);
    assert multiset{} + items == items;
    GetsPermitsNext(s, t);
    TakesNext(s1, t, items);
    Prepend(s2, [s3]);
    Prepend(s1, [s2] + [s3]);
    Prepend(s, [s1] + ([s2] + [s3]));
    states := [s] + ([s1] + ([s2] + [s3]));
  }

  lemma GetsPermitsNext(s: State, t: nat)
    requires t < |s.ops| && t < |s.sem.threads| && s.sem.threads[t].Returned? && s.ops[t] == Asking
    ensures Next(s, GotPermits(s, t))
  {
    assert GetsPermits(s, GotPermits(s, t), t);
  }

  lemma TakesNext(s: State, t: nat, items: multiset<Item>)
    requires t < |s.ops| && s.ops[t] == Taking(|items|, multiset{}) && items <= s.inner
    ensures Next(s, TakeOut(s, t, items)) && Next(TakeOut(s, t, items), Deliver(TakeOut(s, t, items), t))
  {
    assert CanTakeOut(s, t, items) && Takes(s, TakeOut(s, t, items), t);
    assert multiset{} + items == items;
    assert Takes(TakeOut(s, t, items), Deliver(TakeOut(s, t, items), t), t);
  }

  /**
   A dequeue of at most max items that runs alone on a quiet queue with items inside returns the smaller of max and
   their number, whichever of them the inner queue gives it; so one at least, if it asked for any.
   */
  lemma QuietDequeueReturns(states: seq<State>, i: nat, t: nat, max: nat, after: Semaphore.After, items: multiset<Item>)
    returns (path: seq<State>)
    requires Run(states) && i < |states| && forall u | 0 <= u < |states[i].ops| :: states[i].ops[u] == Free
    requires t < |states[i].ops| && (after.Spin? || after == Semaphore.Add(0))
    requires var inner := states[i].inner;
             items <= inner && |inner| > 0 && |items| == if max < |inner| then max else |inner|
    ensures Path(path) && path[0] == states[i]
    ensures var s, s' := states[i], path[|path| - 1];
            s'.inner == s.inner - items && s'.left == s.left + items && s'.ops == s.ops
  {
    var s := states[i];
    QuietCountIsSize(states, i);
    RunHasInv(states, i);
    assert OpOk(s.ops[t], s.sem.threads[t]);
    var asking := StartAsk(s, t, max, after);
    var sems := Semaphore.SoloCallReturns(asking.sem, t);
    Semaphore.SoloCallGets(sems, t);
    var returned := asking.(sem := sems[|sems| - 1]);
    path := Collects(returned, t, items);
    path := InsideSemaphore(asking, t, sems, path);
    assert Asks(s, asking, t);
    Prepend(s, path);
    path := [s] + path;
    assert s.ops[t := Asking][t := Free] == s.ops;
  }
}
