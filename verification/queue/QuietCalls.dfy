/**
 Whole calls on a sub-queue on which nothing else is under way: counters and blocks together.  An enqueue that nothing
 refuses puts its element behind the others, and a dequeue moves out the oldest elements, as many as it asked for or as
 there are.
 */
module QuietCalls {
  import C = IndexClaims
  import E = ExplicitProducer
  import I = ImplicitProducer
  import X = ExplicitQueue
  import Y = ImplicitQueue
  import ExplicitCalls
  import ImplicitCalls
  import Indices

  type Tid = nat

  // ------------------------------------------------------------------------------------ the counters

  ghost predicate AllIdle(c: C.State) {
    forall t | t in c.threads :: c.threads[t] == C.Idle
  }

  /** The counters step by step, while thread t tests and takes its ticket. */
  predicate AllTests(cs: seq<C.State>, t: Tid) {
    |cs| > 0 && (|cs| > 1 ==> Indices.Tests(cs[0], cs[1], t) && AllTests(cs[1..], t))
  }

  lemma PrependTest(c: C.State, cs: seq<C.State>, t: Tid)
    requires AllTests(cs, t) && Indices.Tests(c, cs[0], t)
    ensures AllTests([c] + cs, t)
  {
    assert ([c] + cs)[1..] == cs;
  }

  /** With elements there, a call gets to claim as many as it asks for or as there are. */
  lemma QuietTests(c: C.State, t: Tid, max: nat) returns (cs: seq<C.State>)
    requires C.Inv(c) && AllIdle(c) && t in c.threads && c.headIndex < c.tailIndex
    ensures AllTests(cs, t) && cs[0] == C.Begin(c, t, max)
    ensures var c' := cs[|cs| - 1];
            && Indices.Claiming(c', t) && c'.threads[t].actual == C.Min(c.tailIndex - c.headIndex, max)
            && C.Advance(c', t).threads == c.threads
  {
    C.QuietIsExact(c);
    var c1 := C.Begin(c, t, max);
    var c2 := C.Advance(c1, t);
    var c3 := C.Advance(c2, t);
    var c4 := C.Advance(c3, t);
    var c5 := C.Advance(c4, t);
    PrependTest(c4, [c5], t);
    PrependTest(c3, [c4] + [c5], t);
    PrependTest(c2, [c3] + ([c4] + [c5]), t);
    PrependTest(c1, [c2] + ([c3] + ([c4] + [c5])), t);
    cs := [c1] + ([c2] + ([c3] + ([c4] + [c5])));
    assert c.threads[t := C.Idle] == c.threads;
  }

  // ------------------------------------------------------------------------ the explicit sub-queue

  ghost predicate ExplicitPath(sizes: iset<nat>, states: seq<X.State>) {
    |states| > 0 && (|states| > 1 ==> X.Next(sizes, states[0], states[1]) && ExplicitPath(sizes, states[1..]))
  }

  lemma ExplicitPrepend(sizes: iset<nat>, s: X.State, states: seq<X.State>)
    requires ExplicitPath(sizes, states) && X.Next(sizes, s, states[0])
    ensures ExplicitPath(sizes, [s] + states)
  {
    assert ([s] + states)[1..] == states;
  }

  /** The consumer's steps, while the counters stand. */
  lemma {:induction false} ExplicitFetch(sizes: iset<nat>, c: C.State, subs: seq<E.State>, t: Tid)
    returns (states: seq<X.State>)
    requires ExplicitCalls.Consumes(subs, t)
    ensures ExplicitPath(sizes, states) && states[0] == X.State(c, subs[0])
    ensures states[|states| - 1] == X.State(c, subs[|subs| - 1])
  {
    states := [X.State(c, subs[0])];
    if |subs| > 1 {
      var more := ExplicitFetch(sizes, c, subs[1..], t);
      assert X.Consumes(states[0], more[0], t);
      ExplicitPrepend(sizes, states[0], more);
      states := states + more;
    }
  }

  /** The steps of the counters in front of that. */
  lemma {:induction false} ExplicitTests(sizes: iset<nat>, cs: seq<C.State>, sub: E.State, t: Tid, more: seq<X.State>)
    returns (states: seq<X.State>)
    requires AllTests(cs, t) && ExplicitPath(sizes, more) && more[0] == X.State(cs[|cs| - 1], sub)
    ensures ExplicitPath(sizes, states) && states[0] == X.State(cs[0], sub)
    ensures states[|states| - 1] == more[|more| - 1]
  {
    if |cs| == 1 {
      states := more;
    } else {
      states := ExplicitTests(sizes, cs[1..], sub, t, more);
      var s := X.State(cs[0], sub);
      assert Indices.Counts(sizes, cs[0], cs[1]);
      ExplicitPrepend(sizes, s, states);
      states := [s] + states;
    }
  }

  lemma ExplicitClaims(sizes: iset<nat>, c: C.State, sub: E.State, t: Tid, states: seq<X.State>)
    requires Indices.Claiming(c, t) && t in sub.consumers && sub.consumers[t] == E.Idle
    requires ExplicitPath(sizes, states)
    requires states[0] == X.State(C.Advance(c, t), E.Claim(sub, t, c.threads[t].actual))
    ensures ExplicitPath(sizes, [X.State(c, sub)] + states)
  {
    assert X.Claims(X.State(c, sub), states[0], t);
    ExplicitPrepend(sizes, X.State(c, sub), states);
  }

  lemma ExplicitBegins(sizes: iset<nat>, s: X.State, t: Tid, max: nat, states: seq<X.State>)
    requires max in sizes && t in s.counters.threads && s.counters.threads[t] == C.Idle
    requires ExplicitPath(sizes, states) && states[0] == X.State(C.Begin(s.counters, t, max), s.sub)
    ensures ExplicitPath(sizes, [s] + states)
  {
    assert Indices.Begins(sizes, s.counters, states[0].counters, t, max);
    ExplicitPrepend(sizes, s, states);
  }

  /** Counters and blocks are sound, and agree on the indices. */
  ghost predicate ExplicitOk(s: X.State) {
    && C.Inv(s.counters) && E.Inv(s.sub)
    && s.sub.headIndex == s.counters.headIndex && s.sub.tailIndex == s.counters.tailIndex == |s.sub.items|
  }

  lemma ExplicitCanClaim(s: X.State)
    requires X.Inv(s)
    ensures ExplicitOk(s)
  {
  }

  /** The last of the states, in which t is done, and what t moved out on the way: the elements from the head on. */
  predicate ExplicitGot(sub: E.State, t: Tid, count: nat, subs: seq<E.State>) {
    && |subs| > 0 && ExplicitCalls.TookAll(sub, count, ExplicitCalls.Taken(subs, t))
    && t in subs[|subs| - 1].consumers && subs[|subs| - 1].consumers[t] == E.Idle
  }

  lemma ExplicitFetches(sub: E.State, t: Tid, count: nat) returns (subs: seq<E.State>)
    requires E.Inv(sub) && E.CanClaim(sub, t, count)
    ensures ExplicitCalls.Consumes(subs, t) && subs[0] == E.Claim(sub, t, count)
    ensures ExplicitGot(sub, t, count, subs)
  {
    subs := ExplicitCalls.DequeueSucceeds(sub, t, count);
  }

  /** The tests, the claim and the fetches, put together. */
  lemma ExplicitBuild(sizes: iset<nat>, s: X.State, t: Tid, max: nat, cs: seq<C.State>, subs: seq<E.State>)
    returns (states: seq<X.State>)
    requires max in sizes && t in s.counters.threads && s.counters.threads[t] == C.Idle
    requires t in s.sub.consumers && s.sub.consumers[t] == E.Idle
    requires AllTests(cs, t) && cs[0] == C.Begin(s.counters, t, max) && Indices.Claiming(cs[|cs| - 1], t)
    requires ExplicitCalls.Consumes(subs, t) && subs[0] == E.Claim(s.sub, t, cs[|cs| - 1].threads[t].actual)
    ensures ExplicitPath(sizes, states) && states[0] == s
    ensures states[|states| - 1] == X.State(C.Advance(cs[|cs| - 1], t), subs[|subs| - 1])
  {
    var c := cs[|cs| - 1];
    states := ExplicitFetch(sizes, C.Advance(c, t), subs, t);
    ExplicitClaims(sizes, c, s.sub, t, states);
    states := ExplicitTests(sizes, cs, s.sub, t, [X.State(c, s.sub)] + states);
    ExplicitBegins(sizes, s, t, max, states);
    states := [s] + states;
  }

  /** The counters' steps up to the claim, and the consumer's behind it. */
  ghost predicate ExplicitPlanned(s: X.State, t: Tid, max: nat, cs: seq<C.State>, subs: seq<E.State>) {
    && t in s.counters.threads && s.counters.threads[t] == C.Idle
    && t in s.sub.consumers && s.sub.consumers[t] == E.Idle
    && AllTests(cs, t) && cs[0] == C.Begin(s.counters, t, max) && Indices.Claiming(cs[|cs| - 1], t)
    && C.Advance(cs[|cs| - 1], t).threads == s.counters.threads
    && var count := cs[|cs| - 1].threads[t].actual;
    && count == C.Min(|s.sub.items| - s.sub.headIndex, max)
    && ExplicitCalls.Consumes(subs, t) && subs[0] == E.Claim(s.sub, t, count)
    && ExplicitGot(s.sub, t, count, subs)
  }

  /** What the counters do, and what the consumer does behind its claim. */
  lemma ExplicitPlan(s: X.State, t: Tid, max: nat) returns (cs: seq<C.State>, subs: seq<E.State>)
    requires ExplicitOk(s) && AllIdle(s.counters) && t in s.counters.threads
    requires t in s.sub.consumers && s.sub.consumers[t] == E.Idle && s.sub.headIndex < s.sub.tailIndex
    ensures ExplicitPlanned(s, t, max, cs, subs)
  {
    cs := QuietTests(s.counters, t, max);
    subs := ExplicitFetches(s.sub, t, cs[|cs| - 1].threads[t].actual);
  }

  /** A dequeue by t of at most max elements from s on, in which t alone moves; subs is its part from the claim on. */
  ghost predicate ExplicitDequeues(sizes: iset<nat>, states: seq<X.State>, subs: seq<E.State>, s: X.State, t: Tid,
                                   max: nat)
  {
    && ExplicitPath(sizes, states) && states[0] == s && AllIdle(states[|states| - 1].counters)
    && s.sub.headIndex <= |s.sub.items| && ExplicitGot(s.sub, t, C.Min(|s.sub.items| - s.sub.headIndex, max), subs)
    && states[|states| - 1].sub == subs[|subs| - 1]
  }

  /** A dequeue on a quiet explicit sub-queue that is not empty gets its oldest elements. */
  lemma ExplicitDequeue(sizes: iset<nat>, s: X.State, t: Tid, max: nat)
    requires X.Inv(s) && AllIdle(s.counters) && t in s.counters.threads && max in sizes
    requires t in s.sub.consumers && s.sub.consumers[t] == E.Idle && s.sub.headIndex < s.sub.tailIndex
    ensures exists states, subs :: ExplicitDequeues(sizes, states, subs, s, t, max)
  {
    ExplicitCanClaim(s);
    var cs, subs := ExplicitPlan(s, t, max);
    ExplicitAssembled(sizes, s, t, max, cs, subs);
  }

  lemma ExplicitAssembled(sizes: iset<nat>, s: X.State, t: Tid, max: nat, cs: seq<C.State>, subs: seq<E.State>)
    requires max in sizes && AllIdle(s.counters) && ExplicitPlanned(s, t, max, cs, subs)
    ensures exists states :: ExplicitDequeues(sizes, states, subs, s, t, max)
  {
    var states := ExplicitBuild(sizes, s, t, max, cs, subs);
    assert ExplicitDequeues(sizes, states, subs, s, t, max);
  }

  lemma ExplicitPublishing(s: E.State, c: E.Choice)
    requires E.ProducerCan(s, c) && !c.Fails?
    ensures E.ProducerStep(s, c).producer.pc == E.Ready <==> s.producer.pc.Advancing?
  {
  }

  /** A step of the producer is one of the whole; when it publishes its element the counters learn of it. */
  lemma ExplicitFillStep(sizes: iset<nat>, c: C.State, sub: E.State, sub': E.State)
    requires ExplicitCalls.Fills(sub, sub')
    ensures X.Next(sizes, X.State(c, sub), X.State(if sub'.producer.pc == E.Ready then C.Enqueue(c) else c, sub'))
  {
    var choice :| E.ProducerCan(sub, choice) && !choice.Fails? && sub' == E.ProducerStep(sub, choice);
    ExplicitPublishing(sub, choice);
    if sub'.producer.pc == E.Ready {
      assert X.Publishes(X.State(c, sub), X.State(C.Enqueue(c), sub'));
    } else {
      assert X.Produces(X.State(c, sub), X.State(c, sub'));
    }
  }

  /** The producer's steps up to the one that publishes its element. */
  lemma {:induction false} ExplicitFill(sizes: iset<nat>, c: C.State, subs: seq<E.State>) returns (states: seq<X.State>)
    requires ExplicitCalls.AllFills(subs) && ExplicitCalls.InCall(subs) && ExplicitCalls.Ended(subs)
    requires subs[0].producer.pc != E.Ready
    ensures ExplicitPath(sizes, states) && states[0] == X.State(c, subs[0])
    ensures states[|states| - 1] == X.State(C.Enqueue(c), subs[|subs| - 1])
  {
    var s := X.State(c, subs[0]);
    ExplicitFillStep(sizes, c, subs[0], subs[1]);
    if subs[1].producer.pc == E.Ready {
      states := [X.State(C.Enqueue(c), subs[1])];
    } else {
      states := ExplicitFill(sizes, c, subs[1..]);
    }
    ExplicitPrepend(sizes, s, states);
    states := [s] + states;
  }

  lemma ExplicitStores(sub: E.State, item: E.Item, g: ExplicitCalls.Supply) returns (subs: seq<E.State>)
    requires E.Inv(sub) && sub.producer.pc == E.Ready && ExplicitCalls.Supplies(sub, g)
    ensures ExplicitCalls.AllFills(subs) && ExplicitCalls.InCall(subs) && ExplicitCalls.Ended(subs)
    ensures subs[0] == E.BeginEnqueue(sub, item) && subs[0].producer.pc != E.Ready
    ensures var s' := subs[|subs| - 1];
            s'.producer.pc == E.Ready && s'.items == sub.items + [item] && s'.consumers == sub.consumers
  {
    subs := ExplicitCalls.BegunSucceeds(sub, item, g);
  }

  lemma ExplicitBeginsItem(sizes: iset<nat>, s: X.State, item: E.Item)
    requires s.sub.producer.pc == E.Ready
    ensures X.Next(sizes, s, X.State(s.counters, E.BeginEnqueue(s.sub, item)))
  {
    assert X.Begins(s, X.State(s.counters, E.BeginEnqueue(s.sub, item)));
  }

  /** An enqueue of item, beginning at s, in which the producer alone moves and nothing is refused. */
  ghost predicate ExplicitEnqueues(sizes: iset<nat>, states: seq<X.State>, s: X.State, item: E.Item) {
    && ExplicitPath(sizes, states) && states[0] == s
    && var s' := states[|states| - 1];
    && s'.sub.producer.pc == E.Ready && s'.sub.items == s.sub.items + [item]
    && s'.counters == C.Enqueue(s.counters) && s'.sub.consumers == s.sub.consumers
  }

  /** An enqueue on an explicit sub-queue: counters and blocks both learn of the element. */
  lemma ExplicitEnqueue(sizes: iset<nat>, s: X.State, item: E.Item, g: ExplicitCalls.Supply)
    requires X.Inv(s) && s.sub.producer.pc == E.Ready && ExplicitCalls.Supplies(s.sub, g)
    ensures exists states :: ExplicitEnqueues(sizes, states, s, item)
  {
    var subs := ExplicitStores(s.sub, item, g);
    ExplicitBeginsItem(sizes, s, item);
    var states := ExplicitFill(sizes, s.counters, subs);
    ExplicitPrepend(sizes, s, states);
    assert ExplicitEnqueues(sizes, [s] + states, s, item);
  }

  // ------------------------------------------------------------------------ the implicit sub-queue

  ghost predicate ImplicitPath(sizes: iset<nat>, states: seq<Y.State>) {
    |states| > 0 && (|states| > 1 ==> Y.Next(sizes, states[0], states[1]) && ImplicitPath(sizes, states[1..]))
  }

  lemma ImplicitPrepend(sizes: iset<nat>, s: Y.State, states: seq<Y.State>)
    requires ImplicitPath(sizes, states) && Y.Next(sizes, s, states[0])
    ensures ImplicitPath(sizes, [s] + states)
  {
    assert ([s] + states)[1..] == states;
  }

  /** The consumer's steps, while the counters stand. */
  lemma {:induction false} ImplicitFetch(sizes: iset<nat>, c: C.State, subs: seq<I.State>, t: Tid)
    returns (states: seq<Y.State>)
    requires ImplicitCalls.Consumes(subs, t)
    ensures ImplicitPath(sizes, states) && states[0] == Y.State(c, subs[0])
    ensures states[|states| - 1] == Y.State(c, subs[|subs| - 1])
  {
    states := [Y.State(c, subs[0])];
    if |subs| > 1 {
      var more := ImplicitFetch(sizes, c, subs[1..], t);
      assert Y.Consumes(states[0], more[0], t);
      ImplicitPrepend(sizes, states[0], more);
      states := states + more;
    }
  }

  /** The steps of the counters in front of that. */
  lemma {:induction false} ImplicitTests(sizes: iset<nat>, cs: seq<C.State>, sub: I.State, t: Tid, more: seq<Y.State>)
    returns (states: seq<Y.State>)
    requires AllTests(cs, t) && ImplicitPath(sizes, more) && more[0] == Y.State(cs[|cs| - 1], sub)
    ensures ImplicitPath(sizes, states) && states[0] == Y.State(cs[0], sub)
    ensures states[|states| - 1] == more[|more| - 1]
  {
    if |cs| == 1 {
      states := more;
    } else {
      states := ImplicitTests(sizes, cs[1..], sub, t, more);
      var s := Y.State(cs[0], sub);
      assert Indices.Counts(sizes, cs[0], cs[1]);
      ImplicitPrepend(sizes, s, states);
      states := [s] + states;
    }
  }

  lemma ImplicitClaims(sizes: iset<nat>, c: C.State, sub: I.State, t: Tid, states: seq<Y.State>)
    requires Indices.Claiming(c, t) && t in sub.consumers && sub.consumers[t] == I.Idle
    requires ImplicitPath(sizes, states)
    requires states[0] == Y.State(C.Advance(c, t), I.Claim(sub, t, c.threads[t].actual))
    ensures ImplicitPath(sizes, [Y.State(c, sub)] + states)
  {
    assert Y.Claims(Y.State(c, sub), states[0], t);
    ImplicitPrepend(sizes, Y.State(c, sub), states);
  }

  lemma ImplicitBegins(sizes: iset<nat>, s: Y.State, t: Tid, max: nat, states: seq<Y.State>)
    requires max in sizes && t in s.counters.threads && s.counters.threads[t] == C.Idle
    requires ImplicitPath(sizes, states) && states[0] == Y.State(C.Begin(s.counters, t, max), s.sub)
    ensures ImplicitPath(sizes, [s] + states)
  {
    assert Indices.Begins(sizes, s.counters, states[0].counters, t, max);
    ImplicitPrepend(sizes, s, states);
  }

  /** Counters and blocks are sound, and agree on the indices. */
  ghost predicate ImplicitOk(s: Y.State) {
    && C.Inv(s.counters) && I.Inv(s.sub)
    && s.sub.headIndex == s.counters.headIndex && s.sub.tailIndex == s.counters.tailIndex == |s.sub.items|
  }

  lemma ImplicitCanClaim(s: Y.State)
    requires Y.Inv(s)
    ensures ImplicitOk(s)
  {
  }

  /** The last of the states, in which t is done, and what t moved out on the way: the elements from the head on. */
  predicate ImplicitGot(sub: I.State, t: Tid, count: nat, subs: seq<I.State>) {
    && |subs| > 0 && ImplicitCalls.TookAll(sub, count, ImplicitCalls.Taken(subs, t))
    && t in subs[|subs| - 1].consumers && subs[|subs| - 1].consumers[t] == I.Idle
  }

  lemma ImplicitFetches(sub: I.State, t: Tid, count: nat) returns (subs: seq<I.State>)
    requires I.Inv(sub) && I.CanClaim(sub, t, count) && count > 0
    ensures ImplicitCalls.Consumes(subs, t) && subs[0] == I.Claim(sub, t, count)
    ensures ImplicitGot(sub, t, count, subs)
  {
    subs := ImplicitCalls.DequeueSucceeds(sub, t, count);
  }

  /** The tests, the claim and the fetches, put together. */
  lemma ImplicitBuild(sizes: iset<nat>, s: Y.State, t: Tid, max: nat, cs: seq<C.State>, subs: seq<I.State>)
    returns (states: seq<Y.State>)
    requires max in sizes && t in s.counters.threads && s.counters.threads[t] == C.Idle
    requires t in s.sub.consumers && s.sub.consumers[t] == I.Idle
    requires AllTests(cs, t) && cs[0] == C.Begin(s.counters, t, max) && Indices.Claiming(cs[|cs| - 1], t)
    requires ImplicitCalls.Consumes(subs, t) && subs[0] == I.Claim(s.sub, t, cs[|cs| - 1].threads[t].actual)
    ensures ImplicitPath(sizes, states) && states[0] == s
    ensures states[|states| - 1] == Y.State(C.Advance(cs[|cs| - 1], t), subs[|subs| - 1])
  {
    var c := cs[|cs| - 1];
    states := ImplicitFetch(sizes, C.Advance(c, t), subs, t);
    ImplicitClaims(sizes, c, s.sub, t, states);
    states := ImplicitTests(sizes, cs, s.sub, t, [Y.State(c, s.sub)] + states);
    ImplicitBegins(sizes, s, t, max, states);
    states := [s] + states;
  }

  /** The counters' steps up to the claim, and the consumer's behind it. */
  ghost predicate ImplicitPlanned(s: Y.State, t: Tid, max: nat, cs: seq<C.State>, subs: seq<I.State>) {
    && t in s.counters.threads && s.counters.threads[t] == C.Idle
    && t in s.sub.consumers && s.sub.consumers[t] == I.Idle
    && AllTests(cs, t) && cs[0] == C.Begin(s.counters, t, max) && Indices.Claiming(cs[|cs| - 1], t)
    && C.Advance(cs[|cs| - 1], t).threads == s.counters.threads
    && var count := cs[|cs| - 1].threads[t].actual;
    && count == C.Min(|s.sub.items| - s.sub.headIndex, max)
    && ImplicitCalls.Consumes(subs, t) && subs[0] == I.Claim(s.sub, t, count)
    && ImplicitGot(s.sub, t, count, subs)
  }

  /** What the counters do, and what the consumer does behind its claim. */
  lemma ImplicitPlan(s: Y.State, t: Tid, max: nat) returns (cs: seq<C.State>, subs: seq<I.State>)
    requires ImplicitOk(s) && AllIdle(s.counters) && t in s.counters.threads && max > 0
    requires t in s.sub.consumers && s.sub.consumers[t] == I.Idle && s.sub.headIndex < s.sub.tailIndex
    ensures ImplicitPlanned(s, t, max, cs, subs)
  {
    cs := QuietTests(s.counters, t, max);
    subs := ImplicitFetches(s.sub, t, cs[|cs| - 1].threads[t].actual);
  }

  /** A dequeue by t of at most max elements from s on, in which t alone moves; subs is its part from the claim on. */
  ghost predicate ImplicitDequeues(sizes: iset<nat>, states: seq<Y.State>, subs: seq<I.State>, s: Y.State, t: Tid,
                                   max: nat)
  {
    && ImplicitPath(sizes, states) && states[0] == s && AllIdle(states[|states| - 1].counters)
    && s.sub.headIndex <= |s.sub.items| && ImplicitGot(s.sub, t, C.Min(|s.sub.items| - s.sub.headIndex, max), subs)
    && states[|states| - 1].sub == subs[|subs| - 1]
  }

  /** A dequeue of something on a quiet implicit sub-queue that is not empty gets its oldest elements. */
  lemma ImplicitDequeue(sizes: iset<nat>, s: Y.State, t: Tid, max: nat)
    requires Y.Inv(s) && AllIdle(s.counters) && t in s.counters.threads && max in sizes && max > 0
    requires t in s.sub.consumers && s.sub.consumers[t] == I.Idle && s.sub.headIndex < s.sub.tailIndex
    ensures exists states, subs :: ImplicitDequeues(sizes, states, subs, s, t, max)
  {
    ImplicitCanClaim(s);
    var cs, subs := ImplicitPlan(s, t, max);
    ImplicitAssembled(sizes, s, t, max, cs, subs);
  }

  lemma ImplicitAssembled(sizes: iset<nat>, s: Y.State, t: Tid, max: nat, cs: seq<C.State>, subs: seq<I.State>)
    requires max in sizes && AllIdle(s.counters) && ImplicitPlanned(s, t, max, cs, subs)
    ensures exists states :: ImplicitDequeues(sizes, states, subs, s, t, max)
  {
    var states := ImplicitBuild(sizes, s, t, max, cs, subs);
    assert ImplicitDequeues(sizes, states, subs, s, t, max);
  }

  /** What is granted does not make the producer turn back, and only publishing its element ends the call. */
  lemma ImplicitPublishing(s: I.State, c: I.Choice)
    requires I.ProducerCan(s, c) && !c.Fails? && !ImplicitCalls.Backs(s.pc)
    ensures var s' := I.ProducerStep(s, c);
            (s'.pc == I.Ready <==> s.pc.Advancing?) && !ImplicitCalls.Backs(s'.pc)
  {
    ImplicitCalls.EnqueueStep(s, c, s.pc.item);
    if ImplicitCalls.Asks(s.pc) {
      ImplicitCalls.NotRefused(s, c);
    }
    I.StepHasFrame(s, c);
  }

  /** A step of the producer is one of the whole; when it publishes its element the counters learn of it. */
  lemma ImplicitFillStep(sizes: iset<nat>, c: C.State, sub: I.State, sub': I.State)
    requires ImplicitCalls.Fills(sub, sub') && !ImplicitCalls.Backs(sub.pc)
    ensures Y.Next(sizes, Y.State(c, sub), Y.State(if sub'.pc == I.Ready then C.Enqueue(c) else c, sub'))
    ensures !ImplicitCalls.Backs(sub'.pc)
  {
    var choice :| I.ProducerCan(sub, choice) && !choice.Fails? && sub' == I.ProducerStep(sub, choice);
    ImplicitPublishing(sub, choice);
    if sub'.pc == I.Ready {
      assert Y.Publishes(Y.State(c, sub), Y.State(C.Enqueue(c), sub'));
    } else {
      assert Y.Produces(Y.State(c, sub), Y.State(c, sub'));
    }
  }

  /** The producer's steps up to the one that publishes its element. */
  lemma {:induction false} ImplicitFill(sizes: iset<nat>, c: C.State, subs: seq<I.State>) returns (states: seq<Y.State>)
    requires ImplicitCalls.AllFills(subs) && ImplicitCalls.InCall(subs) && ImplicitCalls.Ended(subs)
    requires subs[0].pc != I.Ready && !ImplicitCalls.Backs(subs[0].pc)
    ensures ImplicitPath(sizes, states) && states[0] == Y.State(c, subs[0])
    ensures states[|states| - 1] == Y.State(C.Enqueue(c), subs[|subs| - 1])
  {
    var s := Y.State(c, subs[0]);
    ImplicitFillStep(sizes, c, subs[0], subs[1]);
    if subs[1].pc == I.Ready {
      states := [Y.State(C.Enqueue(c), subs[1])];
    } else {
      states := ImplicitFill(sizes, c, subs[1..]);
    }
    ImplicitPrepend(sizes, s, states);
    states := [s] + states;
  }

  lemma ImplicitStores(sub: I.State, item: I.Item, g: ImplicitCalls.Supply) returns (subs: seq<I.State>)
    requires I.Inv(sub) && sub.pc == I.Ready && ImplicitCalls.Supplies(sub, g)
    ensures ImplicitCalls.AllFills(subs) && ImplicitCalls.InCall(subs) && ImplicitCalls.Ended(subs)
    ensures subs[0] == I.BeginEnqueue(sub, item) && subs[0].pc != I.Ready && !ImplicitCalls.Backs(subs[0].pc)
    ensures var s' := subs[|subs| - 1];
            s'.pc == I.Ready && s'.items == sub.items + [item] && s'.consumers == sub.consumers
  {
    subs := ImplicitCalls.BegunSucceeds(sub, item, g);
  }

  lemma ImplicitBeginsItem(sizes: iset<nat>, s: Y.State, item: I.Item)
    requires s.sub.pc == I.Ready
    ensures Y.Next(sizes, s, Y.State(s.counters, I.BeginEnqueue(s.sub, item)))
  {
    assert Y.Begins(s, Y.State(s.counters, I.BeginEnqueue(s.sub, item)));
  }

  /** An enqueue of item, beginning at s, in which the producer alone moves and nothing is refused. */
  ghost predicate ImplicitEnqueues(sizes: iset<nat>, states: seq<Y.State>, s: Y.State, item: I.Item) {
    && ImplicitPath(sizes, states) && states[0] == s
    && var s' := states[|states| - 1];
    && s'.sub.pc == I.Ready && s'.sub.items == s.sub.items + [item]
    && s'.counters == C.Enqueue(s.counters) && s'.sub.consumers == s.sub.consumers
  }

  /** An enqueue on an implicit sub-queue: counters and blocks both learn of the element. */
  lemma ImplicitEnqueue(sizes: iset<nat>, s: Y.State, item: I.Item, g: ImplicitCalls.Supply)
    requires Y.Inv(s) && s.sub.pc == I.Ready && ImplicitCalls.Supplies(s.sub, g)
    ensures exists states :: ImplicitEnqueues(sizes, states, s, item)
  {
    var subs := ImplicitStores(s.sub, item, g);
    ImplicitBeginsItem(sizes, s, item);
    var states := ImplicitFill(sizes, s.counters, subs);
    ImplicitPrepend(sizes, s, states);
    assert ImplicitEnqueues(sizes, [s] + states, s, item);
  }
}
