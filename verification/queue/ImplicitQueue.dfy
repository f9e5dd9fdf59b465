/**
 An implicit sub-queue as a whole: the counters that consumers test, and the blocks behind the indices.  Whether
 the indices that a consumer claims exist is tested by the counters alone.  Calls ask for at most as many elements
 as one of the given sizes says; what comes of calls that ask for none is in NoElements.
 */
module ImplicitQueue {
  import C = IndexClaims
  import I = ImplicitProducer
  import Indices
  import opened Options

  type Tid = nat

  datatype State = State(counters: C.State, sub: I.State)

  ghost predicate Init(s: State) {
    C.Init(s.counters) && I.Init(s.sub) && s.counters.threads.Keys == s.sub.consumers.Keys
  }

  /** A consumer begins, tests, takes a ticket or gives units back. */
  ghost predicate Counts(sizes: iset<nat>, s: State, s': State) {
    Indices.Counts(sizes, s.counters, s'.counters) && s'.sub == s.sub
  }

  /** The producer begins an element. */
  ghost predicate Begins(s: State, s': State) {
    s'.counters == s.counters && exists item :: s.sub.pc == I.Ready && s'.sub == I.BeginEnqueue(s.sub, item)
  }

  /** It works on the element without publishing it. */
  ghost predicate Produces(s: State, s': State) {
    && s'.counters == s.counters
    && exists c :: I.ProducerCan(s.sub, c) && !s.sub.pc.Advancing? && s'.sub == I.ProducerStep(s.sub, c)
  }

  /** It publishes it. */
  ghost predicate Publishes(s: State, s': State) {
    && s'.counters == C.Enqueue(s.counters)
    && exists c :: I.ProducerCan(s.sub, c) && s.sub.pc.Advancing? && s'.sub == I.ProducerStep(s.sub, c)
  }

  /** A consumer claims indices: headIndex.fetch_add. */
  ghost predicate Claims(s: State, s': State, t: Tid) {
    && Indices.Claiming(s.counters, t) && s'.counters == C.Advance(s.counters, t)
    && t in s.sub.consumers && s.sub.consumers[t] == I.Idle
    && s'.sub == I.Claim(s.sub, t, s.counters.threads[t].actual)
  }

  predicate Consumes(s: State, s': State, t: Tid) {
    s'.counters == s.counters && I.ConsumerCan(s.sub, t) && s'.sub == I.ConsumerStep(s.sub, t)
  }

  ghost predicate Next(sizes: iset<nat>, s: State, s': State) {
    || Counts(sizes, s, s') || Begins(s, s') || Produces(s, s') || Publishes(s, s')
    || (exists t :: Claims(s, s', t)) || exists t :: Consumes(s, s', t)
  }

  ghost predicate Run(sizes: iset<nat>, states: seq<State>) {
    && |states| > 0
    && Init(states[0])
    && forall i | 0 <= i < |states| - 1 :: Next(sizes, states[i], states[i + 1])
  }

  /** As it was made: one index, and no block for any of its entries. */
  ghost predicate Fresh(s: State) {
    Init(s) && |s.sub.headers| == 1 && forall e | e in s.sub.values :: s.sub.values[e] == None
  }

  /** There are runs with any consumers and a first index of any capacity. */
  lemma RunsBegin(sizes: iset<nat>, tids: set<Tid>, capacity: nat) returns (s: State)
    requires capacity > 0
    ensures s.sub.consumers.Keys == s.counters.threads.Keys == tids && Run(sizes, [s]) && Fresh(s)
  {
    var counters := C.RunsBegin(tids);
    var sub := I.RunsBegin(tids, capacity);
    assert C.Init([counters][0]);
    s := State(counters, sub);
  }

  lemma RunGoesOn(sizes: iset<nat>, states: seq<State>, s: State)
    requires Run(sizes, states) && Next(sizes, states[|states| - 1], s)
    ensures Run(sizes, states + [s])
  {
    var states' := states + [s];
    forall i | 0 <= i < |states'| - 1
      ensures Next(sizes, states'[i], states'[i + 1])
    {
      assert states'[i] == states[i];
    }
  }

  // ------------------------------------------------------------------------ the indices of the parts

  function ViewOf(s: State): Indices.View {
    Indices.View(s.counters, s.sub.tailIndex, s.sub.headIndex)
  }

  /** Nothing but Advancing touches tailIndex, and no step of the producer touches headIndex. */
  lemma ProducerIndices(e: I.State, c: I.Choice)
    requires I.ProducerCan(e, c)
    ensures I.ProducerStep(e, c).headIndex == e.headIndex
    ensures I.ProducerStep(e, c).tailIndex == e.tailIndex + (if e.pc.Advancing? then 1 else 0)
  {
    I.StepHasFrame(e, c);
  }

  lemma ConsumerIndices(e: I.State, t: Tid)
    requires I.ConsumerCan(e, t)
    ensures I.ConsumerStep(e, t).headIndex == e.headIndex && I.ConsumerStep(e, t).tailIndex == e.tailIndex
  {
  }

  lemma StepMoves(sizes: iset<nat>, s: State, s': State)
    requires Next(sizes, s, s')
    ensures Indices.Moves(sizes, ViewOf(s), ViewOf(s'))
  {
    if Produces(s, s') || Publishes(s, s') {
      var c :| I.ProducerCan(s.sub, c) && s'.sub == I.ProducerStep(s.sub, c);
      ProducerIndices(s.sub, c);
    } else if t :| Consumes(s, s', t) {
      ConsumerIndices(s.sub, t);
    } else if t :| Claims(s, s', t) {
      assert Indices.Claims(ViewOf(s), ViewOf(s'), t);
    }
  }

  /** Whatever the whole does is for the sub-queue a step of its own, or nothing: what it claims is there. */
  lemma StepOfSub(sizes: iset<nat>, s: State, s': State)
    requires Indices.Inv(ViewOf(s)) && Next(sizes, s, s') && (0 !in sizes ==> Indices.AllAskForSome(s.counters))
    ensures s'.sub == s.sub || I.Next(0 in sizes, s.sub, s'.sub)
  {
    if t :| Claims(s, s', t) {
      Indices.ClaimFits(s.counters, t);
      assert I.CanClaim(s.sub, t, s.counters.threads[t].actual);
    }
  }

  /** And for the indices a step as in Indices, so that its results hold, whatever calls ask for. */
  lemma IndicesRun(sizes: iset<nat>, states: seq<State>)
    requires Run(sizes, states)
    ensures Indices.Run(sizes, seq(|states|, i requires 0 <= i < |states| => ViewOf(states[i])))
  {
    forall i | 0 <= i < |states| - 1
      ensures Indices.Moves(sizes, ViewOf(states[i]), ViewOf(states[i + 1]))
    {
      StepMoves(sizes, states[i], states[i + 1]);
    }
  }

  // ------------------------------------------------------------------------------- the invariant

  ghost predicate Inv(s: State) {
    Indices.Inv(ViewOf(s)) && I.Inv(s.sub) && Indices.AllAskForSome(s.counters)
  }

  lemma InitHasInv(s: State)
    requires Init(s)
    ensures Inv(s)
  {
    Indices.InitHasInv(ViewOf(s));
    I.InitHasInv(s.sub);
  }

  lemma NextKeepsInv(sizes: iset<nat>, s: State, s': State)
    requires Inv(s) && Next(sizes, s, s') && 0 !in sizes
    ensures Inv(s')
  {
    StepMoves(sizes, s, s');
    Indices.MovesKeepInv(sizes, ViewOf(s), ViewOf(s'));
    StepOfSub(sizes, s, s');
    if s'.sub != s.sub {
      I.NextKeepsInv(s.sub, s'.sub);
    }
    Indices.MovesKeepAsking(sizes, ViewOf(s), ViewOf(s'));
  }

  /** The indices that a consumer is about to claim are those of elements that were enqueued. */
  lemma ClaimFits(s: State, t: Tid)
    requires Inv(s) && Indices.Claiming(s.counters, t)
    ensures s.sub.headIndex + s.counters.threads[t].actual <= |s.sub.items|
  {
    Indices.ClaimFits(s.counters, t);
  }

  lemma {:induction false} RunHasInv(sizes: iset<nat>, states: seq<State>, i: nat)
    requires Run(sizes, states) && i < |states| && 0 !in sizes
    ensures Inv(states[i])
  {
    if i == 0 {
      InitHasInv(states[0]);
    } else {
      RunHasInv(sizes, states, i - 1);
      NextKeepsInv(sizes, states[i - 1], states[i]);
    }
  }

  /** The sub-queue's part of a run is a run of its own. */
  lemma {:induction false} SubRuns(sizes: iset<nat>, states: seq<State>, i: nat) returns (subs: seq<I.State>)
    requires Run(sizes, states) && i < |states|
    ensures I.Run(0 in sizes, subs) && subs[|subs| - 1] == states[i].sub
  {
    if i == 0 {
      subs := [states[0].sub];
    } else {
      subs := SubRuns(sizes, states, i - 1);
      IndicesRun(sizes, states);
      Indices.RunHasInv(sizes, seq(|states|, j requires 0 <= j < |states| => ViewOf(states[j])), i - 1);
      if 0 !in sizes {
        RunHasInv(sizes, states, i - 1);
      }
      StepOfSub(sizes, states[i - 1], states[i]);
      if states[i].sub != states[i - 1].sub {
        I.RunGoesOn(0 in sizes, subs, states[i].sub);
        subs := subs + [states[i].sub];
      }
    }
  }

  // ------------------------------------------------------------------------------------- results

  /** Each block was handed back once at most, and no consumer is stuck. */
  ghost predicate Sound(s: State) {
    && I.Distinct(s.sub.freed)
    && forall t | t in s.sub.consumers && s.sub.consumers[t] != I.Idle :: I.ConsumerCan(s.sub, t)
  }

  lemma RunIsSound(sizes: iset<nat>, states: seq<State>, i: nat)
    requires Run(sizes, states) && i < |states| && 0 !in sizes
    ensures Sound(states[i])
  {
    RunHasInv(sizes, states, i);
    forall t | t in states[i].sub.consumers && states[i].sub.consumers[t] != I.Idle
      ensures I.ConsumerCan(states[i].sub, t)
    {
      I.NeverStuck(states[i].sub, t);
    }
  }

  /** What a consumer moves out is what was enqueued at the index it claimed. */
  lemma DequeuedIsEnqueued(sizes: iset<nat>, states: seq<State>, i: nat, t: Tid)
    requires Run(sizes, states) && i < |states| && 0 !in sizes && t in states[i].sub.consumers
    requires states[i].sub.consumers[t].Reading? && states[i].sub.consumers[t].index < states[i].sub.consumers[t].end
    ensures var s, index := states[i].sub, states[i].sub.consumers[t].index;
            I.ConsumerCan(s, t) && index < |s.items| && I.Fetched(s, t) == s.items[index]
  {
    RunHasInv(sizes, states, i);
    I.FetchesItsElement(states[i].sub, t);
  }
}
