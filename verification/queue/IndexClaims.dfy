/**
 The optimistic dequeue protocol of one sub-queue: one producer that advances tailIndex and any
 number of consumers that claim indices through dequeueOptimisticCount, dequeueOvercommit and
 headIndex.  Every atomic access is one step; a consumer keeps, between its steps, only what it
 loaded.  A single dequeue is a bulk dequeue of at most one.
 */
module IndexClaims {
  import Arith

  type Tid = nat

  /** Where a consumer is; the fields are the values its locals hold. */
  datatype Pc =
    | Idle
    | GotTail(max: nat, tail: nat)
    | GotOver(max: nat, tail: nat, over: nat)
    | Wanting(desired: nat, over: nat)
    | Ticketed(desired: nat, over: nat, ticket: nat, slot: nat)
    | Passed(excess: nat, actual: nat, over: nat, ticket: nat, slot: nat)
    | Returned(actual: nat, over: nat, ticket: nat, slot: nat)
    | GivingBack(desired: nat, slot: nat)

  /**
   History of one fetch_add on dequeueOptimisticCount: how many units it asked for, the stale
   overcommit its issuer had loaded, how many units it turned into indices, how many it gave back.
   */
  datatype Attempt = Attempt(units: nat, over: nat, granted: nat, returned: nat)

  /** A block of indices handed to one consumer by headIndex.fetch_add. */
  datatype Claim = Claim(who: Tid, first: nat, count: nat)

  /** The four shared counters, the consumers, and the history variables attempts and claims. */
  datatype State = State(
    tailIndex: nat,
    headIndex: nat,
    optimisticCount: nat,
    overcommit: nat,
    threads: map<Tid, Pc>,
    attempts: seq<Attempt>,
    claims: seq<Claim>)

  function Min(a: int, b: int): int {
    if a < b then a else b
  }

  ghost predicate Init(s: State) {
    && s.tailIndex == s.headIndex == s.optimisticCount == s.overcommit == 0
    && (forall t | t in s.threads :: s.threads[t] == Idle)
    && s.attempts == [] && s.claims == []
  }

  /** The producer publishes one more element. */
  function Enqueue(s: State): State {
    s.(tailIndex := s.tailIndex + 1)
  }

  /** Thread t begins a dequeue of at most max elements: the first load of tailIndex. */
  function Begin(s: State, t: Tid, max: nat): State
    requires t in s.threads && s.threads[t] == Idle
  {
    s.(threads := s.threads[t := GotTail(max, s.tailIndex)])
  }

  /** The next atomic access of a thread that is inside a dequeue. */
  function Advance(s: State, t: Tid): State
    requires t in s.threads && s.threads[t] != Idle
    requires s.threads[t].Ticketed? || s.threads[t].Passed? || s.threads[t].Returned? || s.threads[t].GivingBack? ==>
               s.threads[t].slot < |s.attempts|
  {
    match s.threads[t]
    case GotTail(max, tail) =>
      s.(threads := s.threads[t := GotOver(max, tail, s.overcommit)])
    case GotOver(max, tail, over) =>
      // the load of dequeueOptimisticCount and the first test
      if s.optimisticCount - over < tail then
        s.(threads := s.threads[t := Wanting(Min(tail - (s.optimisticCount - over), max), over)])
      else
        s.(threads := s.threads[t := Idle])
    case Wanting(desired, over) =>
      s.(optimisticCount := s.optimisticCount + desired,
         attempts := s.attempts + [Attempt(desired, over, 0, 0)],
         threads := s.threads[t := Ticketed(desired, over, s.optimisticCount, |s.attempts|)])
    case Ticketed(desired, over, ticket, slot) =>
      // the second load of tailIndex and the second test
      if ticket - over < s.tailIndex then
        var actual := Min(desired, s.tailIndex - (ticket - over));
        s.(threads := s.threads[t := if actual < desired then Passed(desired - actual, actual, over, ticket, slot)
                                     else Returned(actual, over, ticket, slot)])
      else
        s.(threads := s.threads[t := GivingBack(desired, slot)])
    case Passed(excess, actual, over, ticket, slot) =>
      // the part of the request that cannot be served goes to dequeueOvercommit
      s.(overcommit := s.overcommit + excess,
         attempts := s.attempts[slot := s.attempts[slot].(returned := excess)],
         threads := s.threads[t := Returned(actual, over, ticket, slot)])
    case Returned(actual, over, ticket, slot) =>
      s.(headIndex := s.headIndex + actual,
         attempts := s.attempts[slot := s.attempts[slot].(granted := actual)],
         claims := s.claims + [Claim(t, s.headIndex, actual)],
         threads := s.threads[t := Idle])
    case GivingBack(desired, slot) =>
      s.(overcommit := s.overcommit + desired,
         attempts := s.attempts[slot := s.attempts[slot].(returned := desired)],
         threads := s.threads[t := Idle])
  }

  ghost predicate Next(s: State, s': State) {
    || s' == Enqueue(s)
    || (exists t, max: nat :: t in s.threads && s.threads[t] == Idle && s' == Begin(s, t, max))
    || (exists t :: t in s.threads && s.threads[t] != Idle && SlotInRange(s, t) && s' == Advance(s, t))
  }

  predicate HoldsSlot(pc: Pc) {
    pc.Ticketed? || pc.Passed? || pc.Returned? || pc.GivingBack?
  }

  predicate SlotInRange(s: State, t: Tid)
    requires t in s.threads
  {
    HoldsSlot(s.threads[t]) ==> s.threads[t].slot < |s.attempts|
  }

  /** A finite run of the protocol. */
  ghost predicate Run(states: seq<State>) {
    && |states| > 0
    && Init(states[0])
    && forall i | 0 <= i < |states| - 1 :: Next(states[i], states[i + 1])
  }

  // ---------------------------------------------------------------------- sums over the history

  function Units(a: seq<Attempt>): nat {
    if |a| == 0 then 0 else Units(a[..|a| - 1]) + a[|a| - 1].units
  }

  function Granted(a: seq<Attempt>): nat {
    if |a| == 0 then 0 else Granted(a[..|a| - 1]) + a[|a| - 1].granted
  }

  function GivenBack(a: seq<Attempt>): nat {
    if |a| == 0 then 0 else GivenBack(a[..|a| - 1]) + a[|a| - 1].returned
  }

  function Claimed(c: seq<Claim>): nat {
    if |c| == 0 then 0 else Claimed(c[..|c| - 1]) + c[|c| - 1].count
  }

  lemma {:induction false} SumsAfterUpdate(a: seq<Attempt>, i: nat, x: Attempt)
    requires i < |a|
    requires x.units == a[i].units
    ensures Units(a[i := x]) == Units(a)
    ensures Granted(a[i := x]) == Granted(a) - a[i].granted + x.granted
    ensures GivenBack(a[i := x]) == GivenBack(a) - a[i].returned + x.returned
  {
    var n := |a| - 1;
    if i == n {
      assert a[i := x][..n] == a[..n];
    } else {
      SumsAfterUpdate(a[..n], i, x);
      assert a[i := x][..n] == a[..n][i := x];
    }
  }

  lemma SumsAfterAppend(a: seq<Attempt>, x: Attempt)
    ensures Units(a + [x]) == Units(a) + x.units
    ensures Granted(a + [x]) == Granted(a) + x.granted
    ensures GivenBack(a + [x]) == GivenBack(a) + x.returned
  {
    assert (a + [x])[..|a|] == a;
  }

  // ------------------------------------------------------------------------------- the invariant

  /** What the history says about the attempt at position i, seen from a queue with that tail. */
  ghost predicate AttemptOk(a: seq<Attempt>, i: nat, tail: nat)
    requires i < |a|
  {
    && a[i].granted + a[i].returned <= a[i].units
    && a[i].over <= GivenBack(a[..i])
    && (a[i].granted > 0 ==> Units(a[..i]) + a[i].granted <= tail + a[i].over)
  }

  ghost predicate PcOk(s: State, t: Tid)
    requires t in s.threads
  {
    match s.threads[t]
    case Idle => true
    case GotTail(max, tail) => tail <= s.tailIndex
    case GotOver(max, tail, over) => tail <= s.tailIndex && over <= s.overcommit
    case Wanting(desired, over) => over <= s.overcommit
    case Ticketed(desired, over, ticket, slot) =>
      Unresolved(s, slot, desired, over, ticket)
    case Passed(excess, actual, over, ticket, slot) =>
      Unresolved(s, slot, actual + excess, over, ticket) && ticket + actual <= s.tailIndex + over
    case Returned(actual, over, ticket, slot) =>
      && slot < |s.attempts|
      && var a := s.attempts[slot];
      && a.over == over && Units(s.attempts[..slot]) == ticket
      && a.granted == 0 && a.returned + actual == a.units
      && ticket + actual <= s.tailIndex + over
    case GivingBack(desired, slot) =>
      slot < |s.attempts| && s.attempts[slot].units == desired
      && s.attempts[slot].granted == 0 && s.attempts[slot].returned == 0
  }

  ghost predicate Unresolved(s: State, slot: nat, desired: nat, over: nat, ticket: nat) {
    && slot < |s.attempts|
    && s.attempts[slot] == Attempt(desired, over, 0, 0)
    && Units(s.attempts[..slot]) == ticket
  }

  ghost predicate Resolved(a: Attempt) {
    a.granted + a.returned == a.units
  }

  ghost predicate HeldBy(s: State, t: Tid, i: nat) {
    t in s.threads && HoldsSlot(s.threads[t]) && s.threads[t].slot == i
  }

  /** Every claim starts where the earlier ones end. */
  ghost predicate Contiguous(c: seq<Claim>) {
    forall k | 0 <= k < |c| :: c[k].first == Claimed(c[..k])
  }

  ghost predicate Inv(s: State) {
    && s.optimisticCount == Units(s.attempts)
    && s.headIndex == Granted(s.attempts) == Claimed(s.claims)
    && s.overcommit == GivenBack(s.attempts)
    && (forall i | 0 <= i < |s.attempts| :: AttemptOk(s.attempts, i, s.tailIndex))
    && (forall t | t in s.threads :: PcOk(s, t))
    && (forall t, u, i: nat :: HeldBy(s, t, i) && HeldBy(s, u, i) ==> t == u)
    && (forall i | 0 <= i < |s.attempts| :: Resolved(s.attempts[i]) || exists t :: HeldBy(s, t, i))
    && (Contiguous(s.claims))
  }

  /**
   The heart of the argument: although every consumer tests against a stale overcommit, the units
   that became indices never outnumber the published elements.
   */
  lemma {:induction false} GrantedAtMostTail(a: seq<Attempt>, tail: nat, n: nat)
    requires n <= |a|
    requires forall i | 0 <= i < |a| :: AttemptOk(a, i, tail)
    ensures Granted(a[..n]) <= tail
    ensures Granted(a[..n]) + GivenBack(a[..n]) <= Units(a[..n])
  {
    if n > 0 {
      GrantedAtMostTail(a, tail, n - 1);
      assert a[..n][..n - 1] == a[..n - 1];
      assert AttemptOk(a, n - 1, tail);
    }
  }

  /** There are runs with any consumers. */
  lemma RunsBegin(tids: set<Tid>) returns (s: State)
    ensures s.threads.Keys == tids && Run([s])
  {
    s := State(0, 0, 0, 0, map t | t in tids :: Idle, [], []);
  }

  lemma RunGoesOn(states: seq<State>, s: State)
    requires Run(states) && Next(states[|states| - 1], s)
    ensures Run(states + [s])
  {
    var states' := states + [s];
    forall i | 0 <= i < |states'| - 1
      ensures Next(states'[i], states'[i + 1])
    {
      assert states'[i] == states[i];
    }
  }

  lemma InitHasInv(s: State)
    requires Init(s)
    ensures Inv(s)
  {
  }

  // ----------------------------------------------------------------- every step keeps the invariant

  lemma AttemptsKeepOk(a: seq<Attempt>, b: seq<Attempt>, slot: nat, tail: nat)
    requires slot < |a| && |b| == |a| && b == a[slot := b[slot]]
    requires a[slot].units == b[slot].units && a[slot].over == b[slot].over && a[slot].returned <= b[slot].returned
    requires b[slot].granted + b[slot].returned <= b[slot].units
    requires b[slot].granted > 0 ==> Units(a[..slot]) + b[slot].granted <= tail + b[slot].over
    requires forall i | 0 <= i < |a| :: AttemptOk(a, i, tail)
    ensures forall i | 0 <= i < |b| :: AttemptOk(b, i, tail)
    ensures forall i | 0 <= i <= |b| :: Units(b[..i]) == Units(a[..i])
  {
    forall i | 0 <= i <= |b|
      ensures Units(b[..i]) == Units(a[..i])
      ensures GivenBack(b[..i]) >= GivenBack(a[..i])
    {
      if slot < i {
        SumsAfterUpdate(a[..i], slot, b[slot]);
        assert b[..i] == a[..i][slot := b[slot]];
      } else {
        assert b[..i] == a[..i];
      }
    }
    forall i | 0 <= i < |b|
      ensures AttemptOk(b, i, tail)
    {
      assert AttemptOk(a, i, tail);
    }
  }

  lemma EnqueueKeepsInv(s: State)
    requires Inv(s)
    ensures Inv(Enqueue(s))
  {
    var s' := Enqueue(s);
    forall i | 0 <= i < |s'.attempts|
      ensures AttemptOk(s'.attempts, i, s'.tailIndex)
      ensures Resolved(s'.attempts[i]) || exists t :: HeldBy(s', t, i)
    {
      assert AttemptOk(s.attempts, i, s.tailIndex);
      if !Resolved(s.attempts[i]) {
        var t :| HeldBy(s, t, i);
        assert HeldBy(s', t, i);
      }
    }
    forall t | t in s'.threads
      ensures PcOk(s', t)
    {
      assert PcOk(s, t);
    }
    forall t, u, i: nat | HeldBy(s', t, i) && HeldBy(s', u, i)
      ensures t == u
    {
      assert HeldBy(s, t, i) && HeldBy(s, u, i);
    }
  }

  /** Thread t, which holds slot, rewrites its own attempt and moves on. */
  lemma RewriteKeepsInv(s: State, s': State, t: Tid, slot: nat)
    requires Inv(s) && HeldBy(s, t, slot) && slot < |s.attempts|
    requires |s'.attempts| == |s.attempts| && s'.attempts == s.attempts[slot := s'.attempts[slot]]
    requires var a, b := s.attempts[slot], s'.attempts[slot];
             && a.units == b.units && a.over == b.over && a.returned <= b.returned
             && b.granted + b.returned <= b.units
             && (b.granted > 0 ==> Units(s.attempts[..slot]) + b.granted <= s.tailIndex + b.over)
             && s'.overcommit == s.overcommit + b.returned - a.returned
             && s'.headIndex == s.headIndex + b.granted - a.granted
    requires s'.tailIndex == s.tailIndex && s'.optimisticCount == s.optimisticCount
    requires s'.headIndex == Claimed(s'.claims)
    requires Contiguous(s'.claims)
    requires t in s'.threads && s'.threads == s.threads[t := s'.threads[t]]
    requires PcOk(s', t)
    requires HeldBy(s', t, slot) || (!HoldsSlot(s'.threads[t]) && Resolved(s'.attempts[slot]))
    ensures Inv(s')
  {
    SumsAfterUpdate(s.attempts, slot, s'.attempts[slot]);
    AttemptsKeepOk(s.attempts, s'.attempts, slot, s.tailIndex);
    RewritePcs(s, s', t, slot);
    RewriteHolders(s, s', t, slot);
  }

  /** The others do not notice. */
  lemma RewritePcs(s: State, s': State, t: Tid, slot: nat)
    requires HeldBy(s, t, slot) && forall u, v, i: nat :: HeldBy(s, u, i) && HeldBy(s, v, i) ==> u == v
    requires forall u | u in s.threads :: PcOk(s, u)
    requires slot < |s.attempts| == |s'.attempts| && s'.attempts == s.attempts[slot := s'.attempts[slot]]
    requires forall i | 0 <= i <= |s.attempts| :: Units(s'.attempts[..i]) == Units(s.attempts[..i])
    requires s'.tailIndex == s.tailIndex && s'.overcommit >= s.overcommit
    requires t in s'.threads && s'.threads == s.threads[t := s'.threads[t]] && PcOk(s', t)
    ensures forall u | u in s'.threads :: PcOk(s', u)
  {
    forall u | u in s'.threads && u != t
      ensures PcOk(s', u)
    {
      assert PcOk(s, u);
      assert !HeldBy(s, u, slot);
    }
  }

  lemma RewriteHolders(s: State, s': State, t: Tid, slot: nat)
    requires HeldBy(s, t, slot) && forall u, v, i: nat :: HeldBy(s, u, i) && HeldBy(s, v, i) ==> u == v
    requires forall i | 0 <= i < |s.attempts| :: Resolved(s.attempts[i]) || exists u :: HeldBy(s, u, i)
    requires slot < |s.attempts| == |s'.attempts| && s'.attempts == s.attempts[slot := s'.attempts[slot]]
    requires t in s'.threads && s'.threads == s.threads[t := s'.threads[t]]
    requires HeldBy(s', t, slot) || (!HoldsSlot(s'.threads[t]) && Resolved(s'.attempts[slot]))
    ensures forall u, v, i: nat :: HeldBy(s', u, i) && HeldBy(s', v, i) ==> u == v
    ensures forall i | 0 <= i < |s'.attempts| :: Resolved(s'.attempts[i]) || exists u :: HeldBy(s', u, i)
  {
    forall i | 0 <= i < |s'.attempts|
      ensures Resolved(s'.attempts[i]) || exists u :: HeldBy(s', u, i)
    {
      if i != slot && !Resolved(s.attempts[i]) {
        var u :| HeldBy(s, u, i);
        assert HeldBy(s', u, i);
      }
    }
    forall u, v, i: nat | HeldBy(s', u, i) && HeldBy(s', v, i)
      ensures u == v
    {
      assert HeldBy(s, u, i) && HeldBy(s, v, i);
    }
  }

  /** Thread t moves without touching the shared counters or its hold on a slot. */
  lemma LocalMoveKeepsInv(s: State, s': State, t: Tid)
    requires Inv(s) && t in s.threads
    requires t in s'.threads && s' == s.(threads := s.threads[t := s'.threads[t]])
    requires PcOk(s', t)
    requires HoldsSlot(s.threads[t]) == HoldsSlot(s'.threads[t])
    requires HoldsSlot(s.threads[t]) ==> s.threads[t].slot == s'.threads[t].slot
    ensures Inv(s')
  {
    forall u | u in s'.threads
      ensures PcOk(s', u)
    {
      assert PcOk(s, u);
    }
    forall u, i: nat
      ensures HeldBy(s', u, i) <==> HeldBy(s, u, i)
    {
    }
    forall i | 0 <= i < |s'.attempts|
      ensures Resolved(s'.attempts[i]) || exists u :: HeldBy(s', u, i)
    {
      if !Resolved(s.attempts[i]) {
        var u :| HeldBy(s, u, i);
        assert HeldBy(s', u, i);
      }
    }
  }

  /** One more attempt. */
  lemma AttemptAdded(a: seq<Attempt>, x: Attempt, tail: nat)
    requires forall i | 0 <= i < |a| :: AttemptOk(a, i, tail)
    requires x.granted == x.returned == 0 && x.over <= GivenBack(a)
    ensures forall i | 0 <= i < |a + [x]| :: AttemptOk(a + [x], i, tail)
    ensures forall i | 0 <= i <= |a| :: (a + [x])[..i] == a[..i]
  {
    var b := a + [x];
    assert forall i | 0 <= i <= |a| :: b[..i] == a[..i];
    assert a[..|a|] == a;
    forall i | 0 <= i < |b|
      ensures AttemptOk(b, i, tail)
    {
      assert i < |a| ==> AttemptOk(a, i, tail);
    }
  }

  lemma TicketHolders(s: State, s': State, t: Tid, x: Attempt)
    requires (forall u | u in s.threads :: PcOk(s, u)) && t in s.threads && !HoldsSlot(s.threads[t])
    requires forall u, v, i: nat :: HeldBy(s, u, i) && HeldBy(s, v, i) ==> u == v
    requires forall i | 0 <= i < |s.attempts| :: Resolved(s.attempts[i]) || exists u :: HeldBy(s, u, i)
    requires s'.attempts == s.attempts + [x] && t in s'.threads && s'.threads == s.threads[t := s'.threads[t]]
    requires s'.threads[t].Ticketed? && s'.threads[t].slot == |s.attempts|
    ensures forall u, v, i: nat :: HeldBy(s', u, i) && HeldBy(s', v, i) ==> u == v
    ensures forall i | 0 <= i < |s'.attempts| :: Resolved(s'.attempts[i]) || exists u :: HeldBy(s', u, i)
  {
    forall u, i: nat | u != t
      ensures HeldBy(s', u, i) <==> HeldBy(s, u, i)
      ensures HeldBy(s, u, i) ==> i < |s.attempts|
    {
      assert HeldBy(s, u, i) ==> PcOk(s, u);
    }
    forall i | 0 <= i < |s'.attempts|
      ensures Resolved(s'.attempts[i]) || exists u :: HeldBy(s', u, i)
    {
      if i == |s.attempts| {
        assert HeldBy(s', t, i);
      } else if !Resolved(s.attempts[i]) {
        var u :| HeldBy(s, u, i);
        assert HeldBy(s', u, i);
      }
    }
  }

  lemma TicketPcs(s: State, s': State, t: Tid, x: Attempt)
    requires (forall u | u in s.threads :: PcOk(s, u)) && t in s.threads && s.optimisticCount == Units(s.attempts)
    requires s'.attempts == s.attempts + [x] && s'.tailIndex == s.tailIndex && s'.overcommit == s.overcommit
    requires s'.threads == s.threads[t := Ticketed(x.units, x.over, s.optimisticCount, |s.attempts|)]
    requires x.granted == x.returned == 0
    ensures forall u | u in s'.threads :: PcOk(s', u)
  {
    assert forall i | 0 <= i <= |s.attempts| :: s'.attempts[..i] == s.attempts[..i];
    assert s.attempts[..|s.attempts|] == s.attempts;
    forall u | u in s'.threads
      ensures PcOk(s', u)
    {
      assert PcOk(s, u);
    }
  }

  lemma TicketKeepsInv(s: State, s': State, t: Tid, x: Attempt)
    requires Inv(s) && t in s.threads && s.threads[t] == Wanting(x.units, x.over) && x.granted == x.returned == 0
    requires s' == s.(optimisticCount := s.optimisticCount + x.units, attempts := s.attempts + [x],
                      threads := s.threads[t := Ticketed(x.units, x.over, s.optimisticCount, |s.attempts|)])
    ensures Inv(s')
  {
    assert PcOk(s, t);
    SumsAfterAppend(s.attempts, x);
    AttemptAdded(s.attempts, x, s.tailIndex);
    TicketHolders(s, s', t, x);
    TicketPcs(s, s', t, x);
  }

  lemma PassedKeepsInv(s: State, t: Tid)
    requires Inv(s) && t in s.threads && s.threads[t].Passed? && SlotInRange(s, t)
    ensures Inv(Advance(s, t))
  {
    var s', slot := Advance(s, t), s.threads[t].slot;
    assert PcOk(s, t) && HeldBy(s, t, slot);
    AttemptsKeepOk(s.attempts, s'.attempts, slot, s.tailIndex);
    RewriteKeepsInv(s, s', t, slot);
  }

  lemma ClaimKeepsInv(s: State, t: Tid)
    requires Inv(s) && t in s.threads && s.threads[t].Returned? && SlotInRange(s, t)
    ensures Inv(Advance(s, t))
  {
    var s', slot := Advance(s, t), s.threads[t].slot;
    assert PcOk(s, t) && HeldBy(s, t, slot);
    assert s'.claims[..|s.claims|] == s.claims;
    assert forall k | 0 <= k <= |s.claims| :: s'.claims[..k] == s.claims[..k];
    RewriteKeepsInv(s, s', t, slot);
  }

  lemma GiveBackKeepsInv(s: State, t: Tid)
    requires Inv(s) && t in s.threads && s.threads[t].GivingBack? && SlotInRange(s, t)
    ensures Inv(Advance(s, t))
  {
    assert PcOk(s, t) && HeldBy(s, t, s.threads[t].slot);
    RewriteKeepsInv(s, Advance(s, t), t, s.threads[t].slot);
  }

  lemma AdvanceKeepsInv(s: State, t: Tid)
    requires Inv(s) && t in s.threads && s.threads[t] != Idle && SlotInRange(s, t)
    ensures Inv(Advance(s, t))
  {
    assert PcOk(s, t);
    match s.threads[t]
    case Wanting(desired, over) => TicketKeepsInv(s, Advance(s, t), t, Attempt(desired, over, 0, 0));
    case Passed(_, _, _, _, _) => PassedKeepsInv(s, t);
    case Returned(_, _, _, _) => ClaimKeepsInv(s, t);
    case GivingBack(_, _) => GiveBackKeepsInv(s, t);
    case GotTail(_, _) => LocalMoveKeepsInv(s, Advance(s, t), t);
    case GotOver(_, _, _) => LocalMoveKeepsInv(s, Advance(s, t), t);
    case Ticketed(_, _, _, _) => LocalMoveKeepsInv(s, Advance(s, t), t);
  }

  lemma NextKeepsInv(s: State, s': State)
    requires Inv(s) && Next(s, s')
    ensures Inv(s')
  {
    if s' == Enqueue(s) {
      EnqueueKeepsInv(s);
    } else if t, max: nat :| t in s.threads && s.threads[t] == Idle && s' == Begin(s, t, max) {
      LocalMoveKeepsInv(s, s', t);
    } else {
      var t :| t in s.threads && s.threads[t] != Idle && SlotInRange(s, t) && s' == Advance(s, t);
      AdvanceKeepsInv(s, t);
    }
  }

  lemma {:induction false} RunHasInv(states: seq<State>, i: nat)
    requires Run(states) && i < |states|
    ensures Inv(states[i])
  {
    if i == 0 {
      InitHasInv(states[0]);
    } else {
      RunHasInv(states, i - 1);
      NextKeepsInv(states[i - 1], states[i]);
    }
  }

  // ------------------------------------------------------------------------------------- results

  ghost predicate Covers(c: Claim, x: nat) {
    c.first <= x < c.first + c.count
  }

  ghost predicate IsClaimed(c: seq<Claim>, x: nat) {
    exists k :: 0 <= k < |c| && Covers(c[k], x)
  }

  /**
   In every run, at every moment: all indices handed out lie below tailIndex, two claims never
   share an index, and together they are exactly the indices below headIndex.
   */
  lemma ClaimsAreSafe(states: seq<State>, i: nat)
    requires Run(states) && i < |states|
    ensures var s := states[i];
            && s.headIndex <= s.tailIndex
            && (forall k | 0 <= k < |s.claims| :: s.claims[k].first + s.claims[k].count <= s.tailIndex)
            && (forall k, l | 0 <= k < l < |s.claims| :: s.claims[k].first + s.claims[k].count <= s.claims[l].first)
            && (forall x: nat :: IsClaimed(s.claims, x) <==> x < s.headIndex)
  {
    RunHasInv(states, i);
    var s := states[i];
    GrantedAtMostTail(s.attempts, s.tailIndex, |s.attempts|);
    assert s.attempts[..|s.attempts|] == s.attempts;
    assert s.claims[..|s.claims|] == s.claims;
    forall k | 0 <= k < |s.claims|
      ensures s.claims[k].first + s.claims[k].count <= s.headIndex
    {
      ClaimEndsBefore(s.claims, k, |s.claims|);
    }
    forall k, l | 0 <= k < l < |s.claims|
      ensures s.claims[k].first + s.claims[k].count <= s.claims[l].first
    {
      ClaimEndsBefore(s.claims, k, l);
    }
    forall x: nat
      ensures IsClaimed(s.claims, x) <==> x < s.headIndex
    {
      ClaimsCover(s.claims, x);
    }
  }

  lemma {:induction false} ClaimedGrows(c: seq<Claim>, k: nat, l: nat)
    requires k <= l <= |c|
    ensures Claimed(c[..k]) <= Claimed(c[..l])
  {
    if k < l {
      assert c[..l][..l - 1] == c[..l - 1];
      ClaimedGrows(c, k, l - 1);
    }
  }

  /** A claim that starts where the earlier ones end lies before the end of any longer prefix. */
  lemma ClaimEndsBefore(c: seq<Claim>, k: nat, l: nat)
    requires k < l <= |c| && c[k].first == Claimed(c[..k])
    ensures c[k].first + c[k].count <= Claimed(c[..l])
  {
    assert c[..k + 1][..k] == c[..k];
    ClaimedGrows(c, k + 1, l);
  }

  /** They also leave no gap. */
  lemma {:induction false} ClaimsCover(c: seq<Claim>, x: nat)
    requires Contiguous(c)
    ensures IsClaimed(c, x) <==> x < Claimed(c)
  {
    if |c| > 0 {
      var d := c[..|c| - 1];
      assert forall k | 0 <= k < |d| :: d[k] == c[k] && d[..k] == c[..k];
      assert c[|d|].first == Claimed(d);
      ClaimsCover(d, x);
      ClaimedByLast(c, x);
    }
  }

  lemma ClaimedByLast(c: seq<Claim>, x: nat)
    requires |c| > 0
    ensures IsClaimed(c, x) <==> IsClaimed(c[..|c| - 1], x) || Covers(c[|c| - 1], x)
  {
    if IsClaimed(c[..|c| - 1], x) {
      var k :| 0 <= k < |c| - 1 && Covers(c[..|c| - 1][k], x);
      assert Covers(c[k], x);
    }
    if IsClaimed(c, x) {
      var k :| 0 <= k < |c| && Covers(c[k], x);
      assert k < |c| - 1 ==> Covers(c[..|c| - 1][k], x);
    }
  }

  /**
   Nothing is lost either: whenever no dequeue is in progress, the effective dequeue count
   dequeueOptimisticCount - dequeueOvercommit is the head again.  So a dequeue that then runs alone
   passes its first test exactly when the sub-queue holds an element, and claims as many as it can.
   */
  lemma QuietMeansExact(states: seq<State>, i: nat)
    requires Run(states) && i < |states|
    requires forall t | t in states[i].threads :: states[i].threads[t] == Idle
    ensures states[i].optimisticCount - states[i].overcommit == states[i].headIndex
  {
    RunHasInv(states, i);
    QuietIsExact(states[i]);
  }

  lemma QuietIsExact(s: State)
    requires Inv(s) && forall t | t in s.threads :: s.threads[t] == Idle
    ensures s.optimisticCount - s.overcommit == s.headIndex
  {
    forall k | 0 <= k < |s.attempts|
      ensures Resolved(s.attempts[k])
    {
      assert forall t :: !HeldBy(s, t, k);
    }
    AllResolved(s.attempts);
  }

  lemma {:induction false} AllResolved(a: seq<Attempt>)
    requires forall k | 0 <= k < |a| :: Resolved(a[k])
    ensures Units(a) == Granted(a) + GivenBack(a)
  {
    if |a| > 0 {
      AllResolved(a[..|a| - 1]);
    }
  }

  /** A whole dequeue by one thread while nobody else moves. */
  function Alone(s: State, t: Tid, max: nat): State
    requires t in s.threads && s.threads[t] == Idle
  {
    var s1 := Begin(s, t, max);
    var s2 := Advance(s1, t);
    var s3 := Advance(s2, t);
    if s3.threads[t] == Idle then s3 else
    var s4 := Advance(s3, t);
    var s5 := Advance(s4, t);
    Advance(s5, t)
  }

  lemma QuietDequeueSucceeds(states: seq<State>, i: nat, t: Tid, max: nat)
    requires Run(states) && i < |states|
    requires forall u | u in states[i].threads :: states[i].threads[u] == Idle
    requires t in states[i].threads
    ensures var s, s' := states[i], Alone(states[i], t, max);
            && s'.threads[t] == Idle
            && s'.headIndex == s.headIndex + Min(s.tailIndex - s.headIndex, max)
            && s'.optimisticCount - s'.overcommit == s'.headIndex
  {
    QuietMeansExact(states, i);
    ClaimsAreSafe(states, i);
  }

  // ------------------------------------------------- what the rest of the queue relies on

  /** The sub-queue as its block index sees it: elements appear at the tail, claims eat the head. */
  ghost predicate ClaimSpec(tail: nat, head: nat, tail': nat, head': nat) {
    || (tail' == tail && head' == head)
    || (tail' == tail + 1 && head' == head)
    || (tail' == tail && head <= head' <= tail)
  }

  lemma StepRefinesClaimSpec(states: seq<State>, i: nat)
    requires Run(states) && i + 1 < |states|
    ensures ClaimSpec(states[i].tailIndex, states[i].headIndex, states[i + 1].tailIndex, states[i + 1].headIndex)
  {
    ClaimsAreSafe(states, i + 1);
    assert Next(states[i], states[i + 1]);
  }

  // --------------------------------------------------------------------------- wrapped indices

  /** circular_less_than on an unsigned type with the given number of values (a power of two). */
  predicate CircularLessThan(values: int, a: nat, b: nat)
    requires values > 0 && a < values && b < values
  {
    (a - b) % values > values / 2
  }

  /**
   On wrapped indices the comparison agrees with < of the true indices exactly when the smaller
   one is behind by less than half the range and the other way round by at most half.
   */
  lemma CircularLessThanAgrees(values: int, x: nat, y: nat)
    requires values > 0 && values % 2 == 0
    requires -values < x - y < values
    ensures (CircularLessThan(values, x % values, y % values) <==> x < y) <==>
            (if x < y then y - x < values / 2 else x - y <= values / 2)
  {
    var a, b := x % values, y % values;
    var q := x / values - y / values;
    assert values * q == values * (x / values) - values * (y / values);
    if x < y {
      assert values * (-1 - q) == -values - values * q;
      Arith.ModUnique(values, a - b, x - y + values, -1 - q);
    } else {
      assert values * (-q) == -(values * q);
      Arith.ModUnique(values, a - b, x - y, -q);
    }
  }
}
