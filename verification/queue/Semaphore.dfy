/**
 LightweightSemaphore: a count on which most calls are settled by one atomic access, and a kernel
 semaphore for the threads that have to sleep.  A negative count is the number of sleepers that no
 wakeup is meant for yet.  Every access to the count or the kernel semaphore is one step of the thread
 that performs it; any number of threads run at once.  The single-permit calls are the calls for
 many with max == 1.
 */
module Semaphore {

  /** The timeout: zero, positive, negative. */
  datatype Timeout = Poll | Timed | Forever

  /** What a caller of tryWaitMany does with its result: returns it on top of what it has, or goes on to spin. */
  datatype After = Add(have: nat) | Spin(timeout: Timeout)

  datatype Pc =
    | Idle
    // tryWaitMany(max): about to load, about to exchange
    | TryLoad(max: nat, after: After)
    | TryCas(max: nat, seen: int, after: After)
    // waitManyWithPartialSpinning(max)
    | SpinLoad(max: nat, timeout: Timeout)
    | SpinCas(max: nat, seen: int, timeout: Timeout)
    | Decrement(max: nat, timeout: Timeout)
    | Asleep(max: nat)
    | AdjustLoad(max: nat)
    | AdjustTry(max: nat)
    | AdjustCas(max: nat, seen: int)
    // signal(count): about to add, about to post so many wakeups
    | Signal(count: nat)
    | Post(wakeups: nat)
    // the call returned
    | Returned(result: nat)

  /**
   The count, the kernel semaphore's value and the threads.  History variables: the permits there
   were at first, those signalled, those granted to calls, those that calls returned with, and the
   most that each thread's call asked for.
   */
  datatype State = State(
    count: int,
    posted: nat,
    threads: seq<Pc>,
    initial: nat,
    signalled: nat,
    granted: nat,
    delivered: nat,
    asked: seq<nat>)

  ghost predicate Init(s: State) {
    && s.count == s.initial && s.posted == 0
    && (forall t | 0 <= t < |s.threads| :: s.threads[t] == Idle)
    && s.signalled == 0 && s.granted == 0 && s.delivered == 0 && |s.asked| == |s.threads|
  }

  function Move(s: State, t: nat, pc: Pc): State
    requires t < |s.threads|
  {
    s.(threads := s.threads[t := pc])
  }

  /** The call that a thread makes: tryWaitMany, waitMany or signal. */
  predicate CanBegin(s: State, t: nat, pc: Pc) {
    && t < |s.threads| && s.threads[t] == Idle
    && match pc
       case TryLoad(max, after) => after.Spin? || after == Add(0)
       case Signal(_) => true
       case _ => false
  }

  function Begin(s: State, t: nat, pc: Pc): State
    requires CanBegin(s, t, pc) && |s.asked| == |s.threads|
  {
    Move(s.(asked := s.asked[t := Wants(pc)]), t, pc)
  }

  /** The most permits that the call may still get. */
  function Wants(pc: Pc): nat {
    match pc
    case TryLoad(max, _) => max
    case TryCas(max, _, _) => max
    case SpinLoad(max, _) => max
    case SpinCas(max, _, _) => max
    case Decrement(max, _) => max
    case Asleep(max) => max
    case AdjustLoad(max) => max
    case AdjustTry(max) => max
    case AdjustCas(max, _) => max
    case _ => 0
  }

  function Leave(s: State, t: nat): State
    requires t < |s.threads| && s.threads[t].Returned?
  {
    Move(s.(delivered := s.delivered + s.threads[t].result), t, Idle)
  }

  /** The count that is left after at most max permits were taken. */
  function Rest(seen: int, max: nat): int {
    if seen > max then seen - max else 0
  }

  /** tryWaitMany returns got. */
  function Finish(max: nat, after: After, got: nat): Pc {
    match after
    case Add(have) => Returned(have + got)
    case Spin(timeout) => if got == 0 && max > 0 then SpinLoad(max, timeout) else Returned(got)
  }

  /** tryWaitMany has read the count. */
  function Seen(count: int, max: nat, after: After): Pc {
    if count > 0 then TryCas(max, count, after) else Finish(max, after, 0)
  }

  /** Holding one permit, the call tries for more. */
  function HaveOne(max: nat): Pc {
    if max > 1 then TryLoad(max - 1, Add(1)) else Returned(1)
  }

  /** How many wakeups signal(count) owes. */
  function ToRelease(seen: int, count: nat): int {
    if -seen < count then -seen else count
  }

  predicate CanStep(s: State, t: nat, lucky: bool) {
    && t < |s.threads|
    && match s.threads[t]
       case Idle => false
       case Returned(_) => false
       case TryCas(_, seen, _) => seen > 0
       case SpinCas(_, seen, _) => seen > 0
       case Asleep(_) => lucky ==> s.posted > 0
       case _ => true
  }

  /**
   The next access of thread t.  lucky says whether a weak exchange that may succeed does, whether
   the thread spins once more, and whether the kernel's wait ends with a permit.
   */
  function Step(s: State, t: nat, lucky: bool): State
    requires CanStep(s, t, lucky)
  {
    match s.threads[t]
    case Idle => s
    case Returned(_) => s
    case TryLoad(max, after) => Move(s, t, Seen(s.count, max, after))
    case TryCas(max, seen, after) =>
      if lucky && s.count == seen then Take(s, t, max, Finish(max, after, seen - Rest(seen, max)))
      else Move(s, t, Seen(s.count, max, after))
    case SpinLoad(max, timeout) =>
      Move(s, t, if !lucky then Decrement(max, timeout)
                 else if s.count > 0 then SpinCas(max, s.count, timeout)
                 else SpinLoad(max, timeout))
    case SpinCas(max, seen, timeout) =>
      if s.count == seen then Take(s, t, max, Returned(seen - Rest(seen, max))) else Move(s, t, SpinLoad(max, timeout))
    case Decrement(max, timeout) =>
      if s.count > 0 then Move(s.(count := s.count - 1, granted := s.granted + 1), t, HaveOne(max))
      else Move(s.(count := s.count - 1), t, if timeout == Poll then AdjustLoad(max) else Asleep(max))
    case Asleep(max) =>
      if lucky then Wake(s, t, max) else Move(s, t, AdjustLoad(max))
    case AdjustLoad(max) =>
      Move(s, t, if s.count >= 0 then AdjustTry(max) else AdjustCas(max, s.count))
    case AdjustTry(max) =>
      if s.posted > 0 then Wake(s, t, max) else Move(s, t, AdjustLoad(max))
    case AdjustCas(max, seen) =>
      if s.count == seen then Move(s.(count := s.count + 1), t, Returned(0)) else Move(s, t, AdjustLoad(max))
    case Signal(count) =>
      var wakeups := ToRelease(s.count, count);
      Move(s.(count := s.count + count, signalled := s.signalled + count), t,
           if wakeups > 0 then Post(wakeups) else Idle)
    case Post(wakeups) =>
      if wakeups == 0 then Move(s, t, Idle) else Move(s.(posted := s.posted + 1), t, Post(wakeups - 1))
  }

  /** A successful exchange of the count. */
  function Take(s: State, t: nat, max: nat, pc: Pc): State
    requires t < |s.threads| && s.count > 0
  {
    Move(s.(count := Rest(s.count, max), granted := s.granted + (s.count - Rest(s.count, max))), t, pc)
  }

  /** A permit from the kernel semaphore. */
  function Wake(s: State, t: nat, max: nat): State
    requires t < |s.threads| && s.posted > 0
  {
    Move(s.(posted := s.posted - 1, granted := s.granted + 1), t, HaveOne(max))
  }

  ghost predicate Next(s: State, s': State) {
    || (exists t, pc :: CanBegin(s, t, pc) && |s.asked| == |s.threads| && s' == Begin(s, t, pc))
    || (exists t, lucky :: CanStep(s, t, lucky) && s' == Step(s, t, lucky))
    || (exists t: nat :: t < |s.threads| && s.threads[t].Returned? && s' == Leave(s, t))
  }

  ghost predicate Run(states: seq<State>) {
    && |states| > 0
    && Init(states[0])
    && forall i | 0 <= i < |states| - 1 :: Next(states[i], states[i + 1])
  }

  // ------------------------------------------------------------------------------------ counting

  function Sum(threads: seq<Pc>, weight: Pc -> nat): nat {
    if threads == [] then 0 else weight(threads[0]) + Sum(threads[1..], weight)
  }

  lemma {:induction false} SumUpdate(threads: seq<Pc>, t: nat, pc: Pc, weight: Pc -> nat)
    requires t < |threads|
    ensures Sum(threads[t := pc], weight) == Sum(threads, weight) - weight(threads[t]) + weight(pc)
  {
    if t == 0 {
      assert threads[t := pc][1..] == threads[1..];
    } else {
      SumUpdate(threads[1..], t - 1, pc, weight);
      assert threads[t := pc][1..] == threads[1..][t - 1 := pc];
    }
  }

  lemma {:induction false} SumZero(threads: seq<Pc>, weight: Pc -> nat)
    requires forall t | 0 <= t < |threads| :: weight(threads[t]) == 0
    ensures Sum(threads, weight) == 0
  {
    if threads != [] {
      SumZero(threads[1..], weight);
    }
  }

  lemma {:induction false} SumAtLeast(threads: seq<Pc>, t: nat, weight: Pc -> nat)
    requires t < |threads|
    ensures weight(threads[t]) <= Sum(threads, weight)
  {
    if t > 0 {
      SumAtLeast(threads[1..], t - 1, weight);
    }
  }

  /** The thread has decremented the count and not got a permit for it. */
  function Waits(pc: Pc): nat {
    if pc.Asleep? || pc.AdjustLoad? || pc.AdjustTry? || pc.AdjustCas? then 1 else 0
  }

  /** The wakeups that the thread is about to post. */
  function Owes(pc: Pc): nat {
    if pc.Post? then pc.wakeups else 0
  }

  /** The permits that the thread's call was granted so far. */
  function Has(pc: Pc): nat {
    match pc
    case TryLoad(_, Add(have)) => have
    case TryCas(_, _, Add(have)) => have
    case Returned(result) => result
    case _ => 0
  }

  function Waiters(s: State): nat { Sum(s.threads, Waits) }

  function Owed(s: State): nat { Sum(s.threads, Owes) }

  function InCalls(s: State): nat { Sum(s.threads, Has) }

  function Positive(x: int): nat {
    if x > 0 then x else 0
  }

  // ------------------------------------------------------------------------------- the invariant

  predicate PcOk(pc: Pc) {
    match pc
    case TryCas(_, seen, _) => seen > 0
    case SpinCas(max, seen, _) => seen > 0 && max > 0
    case SpinLoad(max, _) => max > 0
    case Decrement(max, _) => max > 0
    case Asleep(max) => max > 0
    case AdjustLoad(max) => max > 0
    case AdjustTry(max) => max > 0
    case AdjustCas(max, seen) => max > 0 && seen < 0
    case _ => true
  }

  ghost predicate Inv(s: State) {
    && s.initial + s.signalled - s.granted == Positive(s.count) + s.posted + Owed(s)
    && Waiters(s) == Positive(-s.count) + s.posted + Owed(s)
    && s.granted == s.delivered + InCalls(s)
    && |s.asked| == |s.threads|
    && (forall t | 0 <= t < |s.threads| :: PcOk(s.threads[t]) && Has(s.threads[t]) + Wants(s.threads[t]) <= s.asked[t])
  }

  /** There are runs with any number of threads and permits. */
  lemma RunsBegin(n: nat, initial: nat) returns (s: State)
    ensures |s.threads| == n && s.initial == initial && Run([s])
  {
    s := State(initial, 0, seq(n, _ => Idle), initial, 0, 0, 0, seq(n, _ => 0));
  }

  lemma InitHasInv(s: State)
    requires Init(s)
    ensures Inv(s)
  {
    SumZero(s.threads, Waits);
    SumZero(s.threads, Owes);
    SumZero(s.threads, Has);
  }

  lemma SumsMove(s: State, t: nat, pc: Pc)
    requires t < |s.threads|
    ensures var s' := Move(s, t, pc);
            && Waiters(s') == Waiters(s) - Waits(s.threads[t]) + Waits(pc)
            && Owed(s') == Owed(s) - Owes(s.threads[t]) + Owes(pc)
            && InCalls(s') == InCalls(s) - Has(s.threads[t]) + Has(pc)
  {
    SumUpdate(s.threads, t, pc, Waits);
    SumUpdate(s.threads, t, pc, Owes);
    SumUpdate(s.threads, t, pc, Has);
  }

  lemma BeginKeepsInv(s: State, t: nat, pc: Pc)
    requires Inv(s) && CanBegin(s, t, pc)
    ensures Inv(Begin(s, t, pc))
  {
    SumsMove(s, t, pc);
  }

  lemma LeaveKeepsInv(s: State, t: nat)
    requires Inv(s) && t < |s.threads| && s.threads[t].Returned?
    ensures Inv(Leave(s, t))
  {
    SumsMove(s, t, Idle);
  }

  /** A step of the thread alone. */
  lemma QuietKeepsInv(s: State, t: nat, pc: Pc)
    requires Inv(s) && t < |s.threads| && PcOk(pc)
    requires Waits(pc) == Waits(s.threads[t]) && Owes(pc) == Owes(s.threads[t]) && Has(pc) == Has(s.threads[t])
    requires Wants(pc) <= Wants(s.threads[t])
    ensures Inv(Move(s, t, pc))
  {
    SumsMove(s, t, pc);
  }

  lemma TakeKeepsInv(s: State, t: nat, max: nat, pc: Pc)
    requires Inv(s) && t < |s.threads| && PcOk(pc) && s.count > 0
    requires Waits(pc) == Waits(s.threads[t]) == 0 && Owes(pc) == Owes(s.threads[t]) == 0
    requires Has(pc) == Has(s.threads[t]) + (s.count - Rest(s.count, max))
    requires Wants(pc) == 0 && max == Wants(s.threads[t])
    ensures Inv(Take(s, t, max, pc))
  {
    SumsMove(s, t, pc);
  }

  /** A permit from the kernel semaphore is one that was meant for some waiter. */
  lemma WakeKeepsInv(s: State, t: nat, max: nat)
    requires Inv(s) && t < |s.threads| && s.posted > 0
    requires s.threads[t] == Asleep(max) || s.threads[t] == AdjustTry(max)
    ensures Inv(Wake(s, t, max))
  {
    SumsMove(s, t, HaveOne(max));
  }

  lemma DecrementKeepsInv(s: State, s': State, t: nat, pc: Pc)
    requires Inv(s) && t < |s.threads| && s.threads[t].Decrement? && PcOk(pc) && Owes(pc) == 0
    requires Has(pc) + Wants(pc) <= Wants(s.threads[t])
    requires if s.count > 0 then Has(pc) == 1 && Waits(pc) == 0
             && s' == Move(s.(count := s.count - 1, granted := s.granted + 1), t, pc)
             else Has(pc) == 0 && Waits(pc) == 1 && s' == Move(s.(count := s.count - 1), t, pc)
    ensures Inv(s')
  {
    SumsMove(s, t, pc);
  }

  /** A call that timed out undoes its decrement. */
  lemma AdjustKeepsInv(s: State, t: nat)
    requires Inv(s) && t < |s.threads| && s.threads[t].AdjustCas? && s.count < 0
    ensures Inv(Move(s.(count := s.count + 1), t, Returned(0)))
  {
    SumsMove(s, t, Returned(0));
  }

  lemma SignalKeepsInv(s: State, t: nat, count: nat, pc: Pc)
    requires Inv(s) && t < |s.threads| && s.threads[t] == Signal(count)
    requires pc == if ToRelease(s.count, count) > 0 then Post(ToRelease(s.count, count)) else Idle
    ensures Inv(Move(s.(count := s.count + count, signalled := s.signalled + count), t, pc))
  {
    SumsMove(s, t, pc);
  }

  lemma PostKeepsInv(s: State, t: nat, wakeups: nat)
    requires Inv(s) && t < |s.threads| && s.threads[t] == Post(wakeups) && wakeups > 0
    ensures Inv(Move(s.(posted := s.posted + 1), t, Post(wakeups - 1)))
  {
    SumsMove(s, t, Post(wakeups - 1));
  }

  lemma TryStep(s: State, t: nat, lucky: bool)
    requires Inv(s) && CanStep(s, t, lucky) && (s.threads[t].TryLoad? || s.threads[t].TryCas?)
    ensures Inv(Step(s, t, lucky))
  {
    var max, after := s.threads[t].max, s.threads[t].after;
    assert PcOk(s.threads[t]);
    if s.threads[t].TryCas? && lucky && s.count == s.threads[t].seen {
      TakeKeepsInv(s, t, max, Finish(max, after, s.count - Rest(s.count, max)));
    } else {
      QuietKeepsInv(s, t, Seen(s.count, max, after));
    }
  }

  lemma SpinLoadStep(s: State, t: nat, lucky: bool)
    requires Inv(s) && CanStep(s, t, lucky) && s.threads[t].SpinLoad?
    ensures Inv(Step(s, t, lucky))
  {
    var SpinLoad(max, timeout) := s.threads[t];
    assert PcOk(s.threads[t]);
    QuietKeepsInv(s, t, if !lucky then Decrement(max, timeout)
                        else if s.count > 0 then SpinCas(max, s.count, timeout)
                        else SpinLoad(max, timeout));
  }

  lemma SpinCasStep(s: State, t: nat, lucky: bool)
    requires Inv(s) && CanStep(s, t, lucky) && s.threads[t].SpinCas?
    ensures Inv(Step(s, t, lucky))
  {
    var SpinCas(max, seen, timeout) := s.threads[t];
    assert PcOk(s.threads[t]);
    if s.count == seen {
      TakeKeepsInv(s, t, max, Returned(seen - Rest(seen, max)));
    } else {
      QuietKeepsInv(s, t, SpinLoad(max, timeout));
    }
  }

  lemma DecrementStep(s: State, t: nat, lucky: bool)
    requires Inv(s) && CanStep(s, t, lucky) && s.threads[t].Decrement?
    ensures Inv(Step(s, t, lucky))
  {
    var Decrement(max, timeout) := s.threads[t];
    assert PcOk(s.threads[t]);
    DecrementKeepsInv(s, Step(s, t, lucky), t,
      if s.count > 0 then HaveOne(max) else if timeout == Poll then AdjustLoad(max) else Asleep(max));
  }

  lemma SleepStep(s: State, t: nat, lucky: bool)
    requires Inv(s) && CanStep(s, t, lucky) && (s.threads[t].Asleep? || s.threads[t].AdjustTry?)
    ensures Inv(Step(s, t, lucky))
  {
    var max := s.threads[t].max;
    assert PcOk(s.threads[t]);
    if s.posted > 0 && (s.threads[t].Asleep? ==> lucky) {
      WakeKeepsInv(s, t, max);
    } else {
      QuietKeepsInv(s, t, AdjustLoad(max));
    }
  }

  lemma AdjustStep(s: State, t: nat, lucky: bool)
    requires Inv(s) && CanStep(s, t, lucky) && (s.threads[t].AdjustLoad? || s.threads[t].AdjustCas?)
    ensures Inv(Step(s, t, lucky))
  {
    var max := s.threads[t].max;
    assert PcOk(s.threads[t]);
    if s.threads[t].AdjustLoad? {
      QuietKeepsInv(s, t, if s.count >= 0 then AdjustTry(max) else AdjustCas(max, s.count));
    } else if s.count == s.threads[t].seen {
      AdjustKeepsInv(s, t);
    } else {
      QuietKeepsInv(s, t, AdjustLoad(max));
    }
  }

  lemma SignalStep(s: State, t: nat, lucky: bool)
    requires Inv(s) && CanStep(s, t, lucky) && (s.threads[t].Signal? || s.threads[t].Post?)
    ensures Inv(Step(s, t, lucky))
  {
    if s.threads[t].Signal? {
      var wakeups := ToRelease(s.count, s.threads[t].count);
      SignalKeepsInv(s, t, s.threads[t].count, if wakeups > 0 then Post(wakeups) else Idle);
    } else if s.threads[t].wakeups > 0 {
      PostKeepsInv(s, t, s.threads[t].wakeups);
    } else {
      QuietKeepsInv(s, t, Idle);
    }
  }

  lemma StepKeepsInv(s: State, t: nat, lucky: bool)
    requires Inv(s) && CanStep(s, t, lucky)
    ensures Inv(Step(s, t, lucky))
  {
    match s.threads[t] {
      case Idle =>
      case Returned(_) =>
      case TryLoad(_, _) => TryStep(s, t, lucky);
      case TryCas(_, _, _) => TryStep(s, t, lucky);
      case SpinLoad(_, _) => SpinLoadStep(s, t, lucky);
      case SpinCas(_, _, _) => SpinCasStep(s, t, lucky);
      case Decrement(_, _) => DecrementStep(s, t, lucky);
      case Asleep(_) => SleepStep(s, t, lucky);
      case AdjustLoad(_) => AdjustStep(s, t, lucky);
      case AdjustTry(_) => SleepStep(s, t, lucky);
      case AdjustCas(_, _) => AdjustStep(s, t, lucky);
      case Signal(_) => SignalStep(s, t, lucky);
      case Post(_) => SignalStep(s, t, lucky);
    }
  }

  lemma NextKeepsInv(s: State, s': State)
    requires Inv(s) && Next(s, s')
    ensures Inv(s')
  {
    if t, pc :| CanBegin(s, t, pc) && s' == Begin(s, t, pc) {
      BeginKeepsInv(s, t, pc);
    } else if t, lucky :| CanStep(s, t, lucky) && s' == Step(s, t, lucky) {
      StepKeepsInv(s, t, lucky);
    } else {
      var t: nat :| t < |s.threads| && s.threads[t].Returned? && s' == Leave(s, t);
      LeaveKeepsInv(s, t);
    }
  }

  lemma {:induction false} RunHasInv(states: seq<State>, i: nat)
    requires Run(states) && i < |states|
    ensures Inv(states[i])
  {
    if i == 0 {
      InitHasInv(states[0]);
    } else {
      RunHasInv(states, i - 1);
      NextKeepsInv(states[i - 1], states[i]);
    }
  }

  // ------------------------------------------------------------------------------------- results

  /** No permit is granted twice, or before it is signalled; and what was granted is what calls return. */
  lemma NoOvergrant(states: seq<State>, i: nat)
    requires Run(states) && i < |states|
    ensures states[i].granted <= states[i].initial + states[i].signalled
    ensures states[i].granted == states[i].delivered + InCalls(states[i])
  {
    RunHasInv(states, i);
  }

  /**
   The two accounts: permits that are not granted are in the count, in the kernel semaphore or on
   their way there, and every waiter is either counted below zero or has a wakeup coming.
   */
  lemma AccountsBalance(states: seq<State>, i: nat)
    requires Run(states) && i < |states|
    ensures var s := states[i];
            && s.initial + s.signalled - s.granted == Positive(s.count) + s.posted + Owed(s)
            && Waiters(s) == Positive(-s.count) + s.posted + Owed(s)
  {
    RunHasInv(states, i);
  }

  /** As long as there are waiters, every permit that is free has a wakeup for one of them, or every waiter has one. */
  lemma NoLostWakeup(states: seq<State>, i: nat)
    requires Run(states) && i < |states|
    ensures var s := states[i];
            var free := s.initial + s.signalled - s.granted;
            s.posted + Owed(s) == if free < Waiters(s) then free else Waiters(s)
  {
    RunHasInv(states, i);
  }

  /** A thread asleep for which no wakeup is posted or owed sleeps rightly: there is no permit. */
  lemma SleepersSleepRightly(states: seq<State>, i: nat, t: nat)
    requires Run(states) && i < |states| && t < |states[i].threads| && states[i].threads[t].Asleep?
    requires states[i].posted == 0 && Owed(states[i]) == 0
    ensures states[i].granted == states[i].initial + states[i].signalled
  {
    RunHasInv(states, i);
    SumAtLeast(states[i].threads, t, Waits);
  }

  /**
   Only calls under way bend the count: it is what was signalled and not granted, less one for each
   waiter.  So a call that timed out has undone its decrement, once, and with no call under way the
   count is exact.
   */
  lemma CountIsExact(states: seq<State>, i: nat)
    requires Run(states) && i < |states|
    ensures var s := states[i];
            && s.count == s.initial + s.signalled - s.granted - Waiters(s)
            && ((forall t | 0 <= t < |s.threads| :: s.threads[t] == Idle) ==>
                  s.count == s.initial + s.signalled - s.delivered && s.posted == 0)
  {
    RunHasInv(states, i);
    var s := states[i];
    if forall t | 0 <= t < |s.threads| :: s.threads[t] == Idle {
      SumZero(s.threads, Waits);
      SumZero(s.threads, Has);
    }
  }

  /** A call returns with no more than it asked for. */
  lemma NoMoreThanAsked(states: seq<State>, i: nat, t: nat)
    requires Run(states) && i < |states| && t < |states[i].threads| && states[i].threads[t].Returned?
    ensures t < |states[i].asked| && states[i].threads[t].result <= states[i].asked[t]
  {
    RunHasInv(states, i);
  }

  // ------------------------------------------------------------------- what a call gets when permits are there

  predicate StepOf(s: State, s': State, t: nat, lucky: bool) {
    CanStep(s, t, lucky) && s' == Step(s, t, lucky)
  }

  /** Thread t moves alone, with any luck, while all others stand wherever they are. */
  ghost predicate Solo(states: seq<State>, t: nat) {
    && |states| > 0 && t < |states[0].threads|
    && (|states| > 1 ==> (exists lucky :: StepOf(states[0], states[1], t, lucky)) && Solo(states[1..], t))
  }

  /** It tries for permits, and if there are any it takes them without sleeping. */
  predicate Tries(pc: Pc, count: int) {
    match pc
    case TryLoad(_, after) => after.Add? || count > 0
    case TryCas(_, seen, after) => seen > 0 && (after.Add? || count > 0)
    case SpinLoad(max, _) => max > 0 && count > 0
    case SpinCas(max, seen, _) => max > 0 && seen > 0 && count > 0
    case Decrement(max, _) => max > 0 && count > 0
    case Returned(_) => true
    case _ => false
  }

  /** What such a call has and what it will get: all that is there, up to what it wants. */
  function Due(pc: Pc, count: int): nat {
    Has(pc) + if Wants(pc) < Positive(count) then Wants(pc) else Positive(count)
  }

  lemma TriesOn(s: State, s': State, t: nat, lucky: bool)
    requires StepOf(s, s', t, lucky) && Tries(s.threads[t], s.count)
    ensures |s'.threads| == |s.threads| && Tries(s'.threads[t], s'.count)
    ensures Due(s'.threads[t], s'.count) == Due(s.threads[t], s.count)
    ensures s.count - s'.count == Has(s'.threads[t]) - Has(s.threads[t])
  {
  }

  /** Whatever its luck, a call that runs alone returns with the permits that are there, up to what it wants. */
  lemma {:induction false} SoloCallGets(states: seq<State>, t: nat)
    requires Solo(states, t) && Tries(states[0].threads[t], states[0].count)
    ensures var s, s' := states[0], states[|states| - 1];
            && t < |s'.threads| && Tries(s'.threads[t], s'.count)
            && Due(s'.threads[t], s'.count) == Due(s.threads[t], s.count)
            && s.count - s'.count == Has(s'.threads[t]) - Has(s.threads[t])
  {
    if |states| > 1 {
      var lucky :| StepOf(states[0], states[1], t, lucky);
      TriesOn(states[0], states[1], t, lucky);
      SoloCallGets(states[1..], t);
    }
  }

  /**
   tryWaitMany(max), alone: it returns the smaller of max and the count, or nothing if the count is not positive,
   and leaves the count that much lower.
   */
  lemma SoloTryWaitMany(states: seq<State>, s: State, t: nat, max: nat)
    requires CanBegin(s, t, TryLoad(max, Add(0))) && |s.asked| == |s.threads|
    requires Solo(states, t) && states[0] == Begin(s, t, TryLoad(max, Add(0)))
    requires var s' := states[|states| - 1]; t < |s'.threads| && s'.threads[t].Returned?
    ensures var s', got := states[|states| - 1], if max < Positive(s.count) then max else Positive(s.count);
            t < |s'.threads| && s'.threads[t] == Returned(got) && s'.count == s.count - got
  {
    SoloCallGets(states, t);
  }

  /** waitMany(max, timeout), alone and with permits there: the same, so at least one and greedily up to max. */
  lemma SoloWaitMany(states: seq<State>, s: State, t: nat, max: nat, timeout: Timeout)
    requires CanBegin(s, t, TryLoad(max, Spin(timeout))) && |s.asked| == |s.threads| && s.count > 0
    requires Solo(states, t) && states[0] == Begin(s, t, TryLoad(max, Spin(timeout)))
    requires var s' := states[|states| - 1]; t < |s'.threads| && s'.threads[t].Returned?
    ensures var s', got := states[|states| - 1], if max < s.count then max else s.count;
            t < |s'.threads| && s'.threads[t] == Returned(got) && s'.count == s.count - got && (max > 0 ==> got > 0)
  {
    SoloCallGets(states, t);
  }

  /** A sleeper that a wakeup reaches, or that timed out and finds a wakeup, returns one permit and what is there. */
  lemma SoloSleeper(states: seq<State>, s: State, t: nat, max: nat)
    requires t < |s.threads| && (s.threads[t] == Asleep(max) || s.threads[t] == AdjustTry(max))
    requires max > 0 && s.posted > 0
    requires Solo(states, t) && StepOf(s, states[0], t, true)
    requires var s' := states[|states| - 1]; t < |s'.threads| && s'.threads[t].Returned?
    ensures var s', more := states[|states| - 1], if max - 1 < Positive(s.count) then max - 1 else Positive(s.count);
            t < |s'.threads| && s'.threads[t] == Returned(1 + more) && s'.count == s.count - more
  {
    SoloCallGets(states, t);
  }

  lemma Prepend(s: State, states: seq<State>, t: nat, lucky: bool)
    requires t < |s.threads| && Solo(states, t) && StepOf(s, states[0], t, lucky)
    ensures Solo([s] + states, t)
  {
    assert ([s] + states)[1..] == states;
  }

  function StepsToGo(pc: Pc): nat {
    match pc
    case Returned(_) => 0
    case TryCas(_, _, _) => 2
    case TryLoad(_, _) => 3
    case SpinCas(_, _, _) => 2
    case SpinLoad(_, _) => 3
    case _ => 4
  }

  /** With luck the call does return; it has seen the count as it is, or is going to. */
  predicate Fresh(pc: Pc, count: int) {
    match pc
    case TryCas(_, seen, _) => seen == count
    case SpinCas(_, seen, _) => seen == count
    case _ => true
  }

  lemma {:induction false} SoloCallReturns(s: State, t: nat) returns (states: seq<State>)
    requires t < |s.threads| && Tries(s.threads[t], s.count) && Fresh(s.threads[t], s.count)
    ensures Solo(states, t) && states[0] == s
    ensures var s' := states[|states| - 1]; t < |s'.threads| && s'.threads[t].Returned?
    decreases StepsToGo(s.threads[t])
  {
    if s.threads[t].Returned? {
      states := [s];
    } else {
      var s' := Step(s, t, true);
      TriesOn(s, s', t, true);
      var more := SoloCallReturns(s', t);
      Prepend(s, more, t, true);
      states := [s] + more;
    }
  }

  /** A call that timed out below zero undoes its decrement and returns nothing, in two steps of its own. */
  lemma SoloTimeout(s: State, t: nat, max: nat)
    requires t < |s.threads| && s.threads[t] == AdjustLoad(max) && s.count < 0
    ensures CanStep(s, t, true) && CanStep(Step(s, t, true), t, true)
    ensures Step(Step(s, t, true), t, true) == Move(s.(count := s.count + 1), t, Returned(0))
  {
    assert Step(s, t, true).threads[t] == AdjustCas(max, s.count);
  }

  /** The wakeups that a signaller still owes. */
  lemma {:induction false} SoloPosts(s: State, t: nat, wakeups: nat) returns (states: seq<State>)
    requires t < |s.threads| && s.threads[t] == Post(wakeups)
    ensures Solo(states, t) && states[0] == s
    ensures var s' := states[|states| - 1];
            s'.threads == s.threads[t := Idle] && s'.count == s.count && s'.posted == s.posted + wakeups
    decreases wakeups
  {
    var s' := Step(s, t, true);
    if wakeups == 0 {
      Prepend(s, [s'], t, true);
      states := [s] + [s'];
    } else {
      var more := SoloPosts(s', t, wakeups - 1);
      Prepend(s, more, t, true);
      states := [s] + more;
    }
  }

  /** signal(count), alone: the count rises by that, and one wakeup is posted for each sleeper that gets a permit. */
  lemma SoloSignal(s: State, t: nat, count: nat) returns (states: seq<State>)
    requires t < |s.threads| && s.threads[t] == Signal(count)
    ensures Solo(states, t) && states[0] == s
    ensures var s', wakeups := states[|states| - 1], if count < Positive(-s.count) then count else Positive(-s.count);
            && t < |s'.threads| && s'.threads[t] == Idle
            && s'.count == s.count + count && s'.posted == s.posted + wakeups
  {
    var s' := Step(s, t, true);
    var more := [s'];
    if s'.threads[t].Post? {
      more := SoloPosts(s', t, s'.threads[t].wakeups);
    }
    Prepend(s, more, t, true);
    states := [s] + more;
  }

  // --------------------------------------------------------------------- a call that returns with nothing

  /** t accesses the count in this step and sees that there is no permit. */
  ghost predicate SeesNone(s: State, s': State, t: nat) {
    && t < |s.threads| && (s.threads[t].TryLoad? || s.threads[t].TryCas? || s.threads[t].Decrement?) && s.count <= 0
    && exists lucky :: StepOf(s, s', t, lucky)
  }

  /** It did so in its present call, at some step up to states[i]. */
  ghost predicate SawNone(states: seq<State>, i: nat, t: nat) {
    && 0 < i < |states| && t < |states[i].threads| && states[i].threads[t] != Idle
    && (SeesNone(states[i - 1], states[i], t) || SawNone(states, i - 1, t))
  }

  /** What t knows of the count, by where it is. */
  ghost predicate Knows(states: seq<State>, i: nat, t: nat)
    requires i < |states|
  {
    && t < |states[i].threads| == |states[i].asked|
    && match states[i].threads[t]
       case TryLoad(max, after) => (after == Add(0) || after.Spin?) ==> max == states[i].asked[t]
       case TryCas(max, seen, after) => seen > 0 && ((after == Add(0) || after.Spin?) ==> max == states[i].asked[t])
       case SpinLoad(_, _) => SawNone(states, i, t)
       case SpinCas(_, seen, _) => seen > 0 && SawNone(states, i, t)
       case Decrement(_, _) => SawNone(states, i, t)
       case Asleep(_) => SawNone(states, i, t)
       case AdjustLoad(_) => SawNone(states, i, t)
       case AdjustTry(_) => SawNone(states, i, t)
       case AdjustCas(_, _) => SawNone(states, i, t)
       case Returned(result) => result > 0 || states[i].asked[t] == 0 || SawNone(states, i, t)
       case _ => true
  }

  lemma KnowsOwnStep(states: seq<State>, i: nat, t: nat, lucky: bool)
    requires 0 < i < |states| && Knows(states, i - 1, t) && PcOk(states[i - 1].threads[t])
    requires StepOf(states[i - 1], states[i], t, lucky)
    ensures Knows(states, i, t)
  {
  }

  lemma KnowsStill(states: seq<State>, i: nat, t: nat)
    requires 0 < i < |states| && Knows(states, i - 1, t)
    requires |states[i].threads| == |states[i].asked| == |states[i - 1].threads|
    requires states[i].threads[t] == states[i - 1].threads[t] && states[i].asked[t] == states[i - 1].asked[t]
    ensures Knows(states, i, t)
  {
  }

  lemma OthersStand(s: State, u: nat, lucky: bool)
    requires CanStep(s, u, lucky)
    ensures var s' := Step(s, u, lucky);
            && s'.asked == s.asked && |s'.threads| == |s.threads|
            && forall t | 0 <= t < |s.threads| && t != u :: s'.threads[t] == s.threads[t]
  {
  }

  lemma OwnOrNot(s: State, s': State, t: nat)
    requires Next(s, s') && |s.asked| == |s.threads| && t < |s.threads|
    ensures |s'.asked| == |s'.threads| == |s.threads|
    ensures || (s'.threads[t] == s.threads[t] && s'.asked[t] == s.asked[t])
            || s'.threads[t] == Idle || s'.threads[t].Signal?
            || (s'.threads[t].TryLoad? && s'.threads[t].max == s'.asked[t])
            || exists lucky :: StepOf(s, s', t, lucky)
  {
    if u, lucky :| CanStep(s, u, lucky) && s' == Step(s, u, lucky) {
      OthersStand(s, u, lucky);
      assert u == t ==> StepOf(s, s', t, lucky);
    }
  }

  lemma {:induction false} EveryoneKnows(states: seq<State>, i: nat, t: nat)
    requires Run(states) && i < |states| && t < |states[i].threads|
    ensures Knows(states, i, t)
  {
    if i > 0 {
      RunHasInv(states, i - 1);
      var s, s' := states[i - 1], states[i];
      OwnOrNot(s, s', t);
      EveryoneKnows(states, i - 1, t);
      if s'.threads[t] == s.threads[t] && s'.asked[t] == s.asked[t] {
        KnowsStill(states, i, t);
      } else if lucky :| StepOf(s, s', t, lucky) {
        KnowsOwnStep(states, i, t, lucky);
      }
    }
  }

  /** A call that asked for permits returns with none only if, in an access of its own, it saw that there were none. */
  lemma NothingOnlyIfSeen(states: seq<State>, i: nat, t: nat)
    requires Run(states) && i < |states| && t < |states[i].threads| && states[i].threads[t] == Returned(0)
    ensures t < |states[i].asked| && (states[i].asked[t] == 0 || SawNone(states, i, t))
  {
    EveryoneKnows(states, i, t);
  }
}
