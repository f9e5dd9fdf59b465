/**
 A sub-queue's indices and the counters that consumers test: the fetch_add that hands out indices is one step
 of both, and so is the store of tailIndex.  Nothing tests, in the step that hands out indices, whether they
 exist; the counters' own steps, in which they do, are all that can happen.  A call asks for at most as many
 elements as one of the given sizes says.
 */
module Indices {
  import C = IndexClaims

  type Tid = nat

  /** Thread t begins a dequeue of at most max elements. */
  ghost predicate Begins(sizes: iset<nat>, c: C.State, c': C.State, t: Tid, max: nat) {
    max in sizes && t in c.threads && c.threads[t] == C.Idle && c' == C.Begin(c, t, max)
  }

  predicate CanTest(c: C.State, t: Tid) {
    t in c.threads && c.threads[t] != C.Idle && !c.threads[t].Returned? && C.SlotInRange(c, t)
  }

  /** Thread t tests, takes a ticket or gives units back. */
  predicate Tests(c: C.State, c': C.State, t: Tid) {
    CanTest(c, t) && c' == C.Advance(c, t)
  }

  ghost predicate Counts(sizes: iset<nat>, c: C.State, c': C.State) {
    (exists t, max :: Begins(sizes, c, c', t, max)) || exists t :: Tests(c, c', t)
  }

  /** Thread t is about to claim so many indices, or none. */
  predicate Claiming(c: C.State, t: Tid) {
    t in c.threads && c.threads[t].Returned? && C.SlotInRange(c, t)
  }

  /** The counters, and the sub-queue's own indices. */
  datatype View = View(counters: C.State, tailIndex: nat, headIndex: nat)

  ghost predicate Claims(v: View, v': View, t: Tid) {
    && Claiming(v.counters, t)
    && v' == View(C.Advance(v.counters, t), v.tailIndex, v.headIndex + v.counters.threads[t].actual)
  }

  /** What a step of the whole is for the counters and the indices. */
  ghost predicate Moves(sizes: iset<nat>, v: View, v': View) {
    || v' == v
    || (Counts(sizes, v.counters, v'.counters) && v' == v.(counters := v'.counters))
    || v' == View(C.Enqueue(v.counters), v.tailIndex + 1, v.headIndex)
    || exists t :: Claims(v, v', t)
  }

  ghost predicate Run(sizes: iset<nat>, views: seq<View>) {
    && |views| > 0
    && C.Init(views[0].counters) && views[0].tailIndex == views[0].headIndex == 0
    && forall i | 0 <= i < |views| - 1 :: Moves(sizes, views[i], views[i + 1])
  }

  // ------------------------------------------------------------------------------- the invariant

  predicate BehindFirstTest(pc: C.Pc) {
    pc.Wanting? || pc.Ticketed? || pc.Passed? || pc.Returned? || pc.GivingBack?
  }

  /** Whoever passed a test saw an element. */
  ghost predicate Seen(c: C.State) {
    c.tailIndex == 0 ==> forall t | t in c.threads :: !BehindFirstTest(c.threads[t])
  }

  /** Counters and sub-queue agree on the indices. */
  ghost predicate Inv(v: View) {
    && C.Inv(v.counters) && Seen(v.counters)
    && v.tailIndex == v.counters.tailIndex && v.headIndex == v.counters.headIndex
  }

  lemma InitHasInv(v: View)
    requires C.Init(v.counters) && v.tailIndex == v.headIndex == 0
    ensures Inv(v)
  {
    C.InitHasInv(v.counters);
  }

  /** So many units were never given back as were taken. */
  lemma EnoughTaken(c: C.State)
    requires C.Inv(c)
    ensures c.overcommit <= c.optimisticCount && c.headIndex <= c.tailIndex
  {
    C.GrantedAtMostTail(c.attempts, c.tailIndex, |c.attempts|);
    assert c.attempts[..|c.attempts|] == c.attempts;
  }

  lemma TestsKeepSeen(c: C.State, c': C.State, t: Tid)
    requires C.Inv(c) && Seen(c) && Tests(c, c', t)
    ensures Seen(c')
  {
    EnoughTaken(c);
    assert C.PcOk(c, t);
  }

  lemma CountsKeepInv(sizes: iset<nat>, c: C.State, c': C.State)
    requires C.Inv(c) && Seen(c) && Counts(sizes, c, c')
    ensures C.Next(c, c') && C.Inv(c') && Seen(c')
    ensures c'.tailIndex == c.tailIndex && c'.headIndex == c.headIndex
  {
    if t, max :| Begins(sizes, c, c', t, max) {
      C.LocalMoveKeepsInv(c, c', t);
    } else {
      var t :| Tests(c, c', t);
      TestsKeepSeen(c, c', t);
      C.AdvanceKeepsInv(c, t);
    }
  }

  /** The indices that are claimed, after tests against stale counters, are there: this is what counters are for. */
  lemma ClaimFits(c: C.State, t: Tid)
    requires C.Inv(c) && Seen(c) && Claiming(c, t)
    ensures 0 < c.tailIndex && c.headIndex + c.threads[t].actual <= c.tailIndex
    ensures C.Next(c, C.Advance(c, t)) && C.Inv(C.Advance(c, t)) && Seen(C.Advance(c, t))
  {
    C.AdvanceKeepsInv(c, t);
    EnoughTaken(C.Advance(c, t));
  }

  /** Every step keeps them together, and is a step of the counters' own or nothing. */
  lemma MovesKeepInv(sizes: iset<nat>, v: View, v': View)
    requires Inv(v) && Moves(sizes, v, v')
    ensures Inv(v') && (v'.counters == v.counters || C.Next(v.counters, v'.counters))
    ensures C.ClaimSpec(v.tailIndex, v.headIndex, v'.tailIndex, v'.headIndex)
  {
    if v'.counters == v.counters {
    } else if v'.counters == C.Enqueue(v.counters) {
      C.NextKeepsInv(v.counters, v'.counters);
    } else if t :| Claims(v, v', t) {
      ClaimFits(v.counters, t);
    } else {
      CountsKeepInv(sizes, v.counters, v'.counters);
    }
  }

  lemma {:induction false} RunHasInv(sizes: iset<nat>, views: seq<View>, i: nat)
    requires Run(sizes, views) && i < |views|
    ensures Inv(views[i])
  {
    if i == 0 {
      InitHasInv(views[0]);
    } else {
      RunHasInv(sizes, views, i - 1);
      MovesKeepInv(sizes, views[i - 1], views[i]);
    }
  }

  /** Head and tail change as the counters' claims allow, step by step, whatever calls ask for. */
  lemma StepsAreClaims(sizes: iset<nat>, views: seq<View>, i: nat)
    requires Run(sizes, views) && i + 1 < |views|
    ensures C.ClaimSpec(views[i].tailIndex, views[i].headIndex, views[i + 1].tailIndex, views[i + 1].headIndex)
  {
    RunHasInv(sizes, views, i);
    MovesKeepInv(sizes, views[i], views[i + 1]);
  }

  /** A consumer that claims indices, after tests against stale counters, claims elements that were enqueued. */
  lemma ClaimedIndicesExist(sizes: iset<nat>, views: seq<View>, i: nat, t: Tid)
    requires Run(sizes, views) && i + 1 < |views| && Claims(views[i], views[i + 1], t)
    ensures views[i].headIndex + views[i].counters.threads[t].actual <= views[i].tailIndex
  {
    RunHasInv(sizes, views, i);
    ClaimFits(views[i].counters, t);
  }

  // ----------------------------------------------------------------- calls that ask for something

  /** The dequeue asked for an element at least, and will claim one if it claims. */
  predicate AsksForSome(pc: C.Pc) {
    match pc
    case Idle => true
    case GotTail(max, _) => max > 0
    case GotOver(max, _, _) => max > 0
    case Wanting(desired, _) => desired > 0
    case Ticketed(desired, _, _, _) => desired > 0
    case Passed(_, actual, _, _, _) => actual > 0
    case Returned(actual, _, _, _) => actual > 0
    case GivingBack(_, _) => true
  }

  ghost predicate AllAskForSome(c: C.State) {
    forall t | t in c.threads :: AsksForSome(c.threads[t])
  }

  lemma MovesKeepAsking(sizes: iset<nat>, v: View, v': View)
    requires AllAskForSome(v.counters) && 0 !in sizes && Moves(sizes, v, v')
    ensures AllAskForSome(v'.counters)
  {
  }
}
