/**
 An explicit sub-queue as a whole: the counters that consumers test, and the blocks behind the indices.  Whether
 the indices that a consumer claims exist is tested by the counters alone.  Calls ask for at most as many elements
 as one of the given sizes says.
 */
module ExplicitQueue {
  import C = IndexClaims
  import E = ExplicitProducer
  import Indices

  type Tid = nat

  datatype State = State(counters: C.State, sub: E.State)

  ghost predicate Init(s: State) {
    C.Init(s.counters) && E.Init(s.sub) && s.counters.threads.Keys == s.sub.consumers.Keys
  }

  /** A consumer begins, tests, takes a ticket or gives units back. */
  ghost predicate Counts(sizes: iset<nat>, s: State, s': State) {
    Indices.Counts(sizes, s.counters, s'.counters) && s'.sub == s.sub
  }

  /** The producer begins an element. */
  ghost predicate Begins(s: State, s': State) {
    s'.counters == s.counters && exists item :: s.sub.producer.pc == E.Ready && s'.sub == E.BeginEnqueue(s.sub, item)
  }

  /** It works on the element without publishing it. */
  ghost predicate Produces(s: State, s': State) {
    && s'.counters == s.counters
    && exists c :: E.ProducerCan(s.sub, c) && !s.sub.producer.pc.Advancing? && s'.sub == E.ProducerStep(s.sub, c)
  }

  /** It publishes it. */
  ghost predicate Publishes(s: State, s': State) {
    && s'.counters == C.Enqueue(s.counters)
    && exists c :: E.ProducerCan(s.sub, c) && s.sub.producer.pc.Advancing? && s'.sub == E.ProducerStep(s.sub, c)
  }

  /** A consumer claims indices: headIndex.fetch_add. */
  ghost predicate Claims(s: State, s': State, t: Tid) {
    && Indices.Claiming(s.counters, t) && s'.counters == C.Advance(s.counters, t)
    && t in s.sub.consumers && s.sub.consumers[t] == E.Idle
    && s'.sub == E.Claim(s.sub, t, s.counters.threads[t].actual)
  }

  predicate Consumes(s: State, s': State, t: Tid) {
    s'.counters == s.counters && E.ConsumerCan(s.sub, t) && s'.sub == E.ConsumerStep(s.sub, t)
  }

  ghost predicate Next(sizes: iset<nat>, s: State, s': State) {
    || Counts(sizes, s, s') || Begins(s, s') || Produces(s, s') || Publishes(s, s')
    || (exists t :: Claims(s, s', t)) || exists t :: Consumes(s, s', t)
  }

  ghost predicate Run(sizes: iset<nat>, states: seq<State>) {
    && |states| > 0
    && Init(states[0])
    && forall i | 0 <= i < |states| - 1 :: Next(sizes, states[i], states[i + 1])
  }

  /** There are runs with any consumers and a first index of any size. */
  lemma RunsBegin(sizes: iset<nat>, tids: set<Tid>, size: nat) returns (s: State)
    requires size > 0
    ensures s.sub.consumers.Keys == s.counters.threads.Keys == tids && Run(sizes, [s])
  {
    var counters := C.RunsBegin(tids);
    var sub := E.RunsBegin(tids, size);
    assert C.Init([counters][0]) && E.Init([sub][0]);
    s := State(counters, sub);
  }

  lemma RunGoesOn(sizes: iset<nat>, states: seq<State>, s: State)
    requires Run(sizes, states) && Next(sizes, states[|states| - 1], s)
    ensures Run(sizes, states + [s])
  {
    var states' := states + [s];
    forall i | 0 <= i < |states'| - 1
      ensures Next(sizes, states'[i], states'[i + 1])
    {
      assert states'[i] == states[i];
    }
  }

  // ------------------------------------------------------------------------ the indices of the parts

  function ViewOf(s: State): Indices.View {
    Indices.View(s.counters, s.sub.tailIndex, s.sub.headIndex)
  }

  /** Nothing but Advancing touches tailIndex, and no step of the producer touches headIndex. */
  lemma ProducerIndices(e: E.State, c: E.Choice)
    requires E.ProducerCan(e, c)
    ensures E.ProducerStep(e, c).headIndex == e.headIndex
    ensures E.ProducerStep(e, c).tailIndex == e.tailIndex + (if e.producer.pc.Advancing? then 1 else 0)
  {
  }

  lemma ConsumerIndices(e: E.State, t: Tid)
    requires E.ConsumerCan(e, t)
    ensures E.ConsumerStep(e, t).headIndex == e.headIndex && E.ConsumerStep(e, t).tailIndex == e.tailIndex
  {
  }

  lemma StepMoves(sizes: iset<nat>, s: State, s': State)
    requires Next(sizes, s, s')
    ensures Indices.Moves(sizes, ViewOf(s), ViewOf(s'))
  {
    if Produces(s, s') || Publishes(s, s') {
      var c :| E.ProducerCan(s.sub, c) && s'.sub == E.ProducerStep(s.sub, c);
      ProducerIndices(s.sub, c);
    } else if t :| Consumes(s, s', t) {
      ConsumerIndices(s.sub, t);
    } else if t :| Claims(s, s', t) {
      assert Indices.Claims(ViewOf(s), ViewOf(s'), t);
    }
  }

  /** Whatever the whole does is for the sub-queue a step of its own, or nothing: what it claims is there. */
  lemma StepOfSub(sizes: iset<nat>, s: State, s': State)
    requires Indices.Inv(ViewOf(s)) && Next(sizes, s, s')
    ensures s'.sub == s.sub || E.Next(s.sub, s'.sub)
  {
    if t :| Claims(s, s', t) {
      Indices.ClaimFits(s.counters, t);
      assert E.CanClaim(s.sub, t, s.counters.threads[t].actual);
    }
  }

  // ------------------------------------------------------------------------------- the invariant

  ghost predicate Inv(s: State) {
    Indices.Inv(ViewOf(s)) && E.Inv(s.sub)
  }

  lemma InitHasInv(s: State)
    requires Init(s)
    ensures Inv(s)
  {
    Indices.InitHasInv(ViewOf(s));
    E.InitHasInv(s.sub);
  }

  lemma NextKeepsInv(sizes: iset<nat>, s: State, s': State)
    requires Inv(s) && Next(sizes, s, s')
    ensures Inv(s')
  {
    StepMoves(sizes, s, s');
    Indices.MovesKeepInv(sizes, ViewOf(s), ViewOf(s'));
    StepOfSub(sizes, s, s');
    if s'.sub != s.sub {
      E.NextKeepsInv(s.sub, s'.sub);
    }
  }

  /** The indices that a consumer is about to claim are those of elements that were enqueued. */
  lemma ClaimFits(s: State, t: Tid)
    requires Inv(s) && Indices.Claiming(s.counters, t)
    ensures s.sub.headIndex + s.counters.threads[t].actual <= |s.sub.items|
  {
    Indices.ClaimFits(s.counters, t);
  }

  lemma {:induction false} RunHasInv(sizes: iset<nat>, states: seq<State>, i: nat)
    requires Run(sizes, states) && i < |states|
    ensures Inv(states[i])
  {
    if i == 0 {
      InitHasInv(states[0]);
    } else {
      RunHasInv(sizes, states, i - 1);
      NextKeepsInv(sizes, states[i - 1], states[i]);
    }
  }

  /** The sub-queue's part of a run is a run of its own. */
  lemma {:induction false} SubRuns(sizes: iset<nat>, states: seq<State>, i: nat) returns (subs: seq<E.State>)
    requires Run(sizes, states) && i < |states|
    ensures E.Run(subs) && subs[|subs| - 1] == states[i].sub
  {
    if i == 0 {
      subs := [states[0].sub];
    } else {
      subs := SubRuns(sizes, states, i - 1);
      RunHasInv(sizes, states, i - 1);
      StepOfSub(sizes, states[i - 1], states[i]);
      if states[i].sub != states[i - 1].sub {
        E.RunGoesOn(subs, states[i].sub);
        subs := subs + [states[i].sub];
      }
    }
  }

  // ------------------------------------------------------------------------------------- results

  /** The sub-queue's head and tail change as the counters' claims allow, step by step, whatever calls ask for. */
  lemma StepsAreClaims(sizes: iset<nat>, states: seq<State>, i: nat)
    requires Run(sizes, states) && i + 1 < |states|
    ensures var e, e' := states[i].sub, states[i + 1].sub;
            C.ClaimSpec(e.tailIndex, e.headIndex, e'.tailIndex, e'.headIndex)
  {
    RunHasInv(sizes, states, i);
    StepMoves(sizes, states[i], states[i + 1]);
    Indices.MovesKeepInv(sizes, ViewOf(states[i]), ViewOf(states[i + 1]));
  }

  /** What a consumer moves out is what was enqueued at the index it claimed. */
  lemma DequeuedIsEnqueued(sizes: iset<nat>, states: seq<State>, i: nat, t: Tid)
    requires Run(sizes, states) && i < |states| && t in states[i].sub.consumers
    requires states[i].sub.consumers[t].Reading? && states[i].sub.consumers[t].index < states[i].sub.consumers[t].end
    ensures var s, index := states[i].sub, states[i].sub.consumers[t].index;
            E.ConsumerCan(s, t) && index < |s.items| && E.Fetched(s, t) == s.items[index]
  {
    RunHasInv(sizes, states, i);
    E.FetchesItsElement(states[i].sub, t);
  }
}
