/**
 A thread's whole lookup of its implicit producer when no one else moves and no one else is enlarging the tables: with
 an allocator that is willing it answers, with the producer that the thread has, or with a new one if it has none.
 */
module ProducerLookup {
  import opened Options
  import opened ProducerHash

  /** A step of t's own that the allocator does not refuse. */
  predicate StepOf(s: State, s': State, t: Tid) {
    CanStep(s, t) && s' == Step(s, t, true)
  }

  predicate Solo(states: seq<State>, t: Tid) {
    && |states| > 0
    && (|states| > 1 ==> StepOf(states[0], states[1], t) && Solo(states[1..], t))
  }

  lemma Prepend(s: State, states: seq<State>, t: Tid)
    requires Solo(states, t) && StepOf(s, states[0], t)
    ensures Solo([s] + states, t)
  {
    assert ([s] + states)[1..] == states;
  }

  /** How far the thread is from its answer, first by where it is, then by the tables, then by the probes before it. */
  function Stage(pc: Pc): nat {
    match pc
    case Idle => 0
    case PlaceValue(_, _, _) => 1
    case PlaceCas(_, _, _) => 2
    case Placing(_, _, _) => 2
    case Creating(_, _) => 3
    case Fitting(_, _) => 4
    case Unlocking(_, _) => 5
    case Allocating(_, _) => 6
    case Locked(_) => 7
    case Testing(_, _) => 8
    case Counting(_) => 9
    case Found(_, _, _) => 10
    case Probing(_, _, _) => 11
    case _ => 12
  }

  function TablesLeft(pc: Pc): nat {
    if pc.Probing? then pc.h else 0
  }

  function ProbesLeft(s: State, pc: Pc): nat {
    match pc
    case Probing(_, h, i) => Left(s, h, i)
    case Placing(main, _, i) => 2 * Left(s, main, i) + 1
    case PlaceCas(main, _, i) => 2 * Left(s, main, i)
    case _ => 0
  }

  function Left(s: State, m: nat, i: nat): nat {
    if m < |s.tables| && i < s.tables[m].capacity then s.tables[m].capacity - i else 0
  }

  predicate Nearer(s: State, s': State, t: Tid)
    requires t in s.threads && t in s'.threads
  {
    var pc, pc' := s.threads[t], s'.threads[t];
    || Stage(pc') < Stage(pc)
    || (Stage(pc') == Stage(pc)
        && (TablesLeft(pc') < TablesLeft(pc)
            || (TablesLeft(pc') == TablesLeft(pc) && ProbesLeft(s', pc') < ProbesLeft(s, pc))))
  }

  /** The thread is in a lookup, and takes the newest table for the current one; no one else holds the resize flag. */
  predicate OnWay(s: State, t: Tid) {
    && t in s.threads && (s.resizing <==> HoldsLock(s.threads[t]))
    && match s.threads[t]
       case Idle => false
       case Reloading(_) => false
       case Uncounting(_) => false
       case Clearing => false
       case Probing(main, _, _) => main == s.current
       case Counting(main) => main == s.current
       case Testing(main, _) => main == s.current
       case Allocating(main, _) => main == s.current
       case Unlocking(main, n) => main == s.current && main < |s.tables| && n < s.tables[main].capacity / 2
       case Fitting(main, n) => main == s.current && main < |s.tables| && n < s.tables[main].capacity / 2
       case Creating(main, _) => main == s.current
       case Found(main, _, _) => main == s.current
       case Placing(main, _, _) => main == s.current
       case PlaceCas(main, _, _) => main == s.current
       case PlaceValue(main, _, _) => main == s.current
       case _ => true
  }

  /** Nothing is answered yet, and a producer that is there stays. */
  predicate Underway(s: State, s': State, t: Tid) {
    s'.answers == s.answers && (t in s.producerOf ==> s'.producerOf == s.producerOf && s'.created == s.created)
  }

  /** The thread's entry is in the newest table, where its next lookup comes upon it first. */
  ghost predicate InNewest(s: State, t: Tid) {
    && t in s.producerOf && s.current < |s.tables|
    && exists slot: nat :: EntryIs(s.tables[s.current], slot, t, s.producerOf[t])
  }

  predicate EntryIs(table: Table, slot: nat, t: Tid, p: Producer) {
    slot < |table.entries| && table.entries[slot] == Entry(Some(t), Some(p))
  }

  ghost predicate Answered(s: State, s': State, t: Tid) {
    && t in s'.threads && s'.threads[t] == Idle && InNewest(s', t)
    && t in s'.producerOf && s'.answers == s.answers + [Answer(t, s'.producerOf[t])]
    && (t in s.producerOf ==> s'.producerOf == s.producerOf && s'.created == s.created)
  }

  predicate GoesOn(s: State, s': State, t: Tid) {
    OnWay(s', t) && OnWay(s, t) && Nearer(s, s', t) && Underway(s, s', t)
  }

  lemma ProbingGoesOn(s: State, t: Tid)
    requires Inv(s) && OnWay(s, t) && CanStep(s, t) && (s.threads[t].Loading? || s.threads[t].Probing?)
    ensures GoesOn(s, Step(s, t, true), t)
  {
    if s.threads[t].Probing? {
      PassedIsShort(s, s.threads[t].h, t, s.threads[t].i);
    }
  }

  lemma PlacingGoesOn(s: State, t: Tid)
    requires Inv(s) && OnWay(s, t) && CanStep(s, t) && s.threads[t].Placing?
    ensures GoesOn(s, Step(s, t, true), t)
  {
    PassedIsShort(s, s.threads[t].main, t, s.threads[t].i);
  }

  lemma CasGoesOn(s: State, t: Tid)
    requires Inv(s) && OnWay(s, t) && CanStep(s, t) && s.threads[t].PlaceCas?
    ensures GoesOn(s, Step(s, t, true), t)
  {
    PassedIsShort(s, s.threads[t].main, t, s.threads[t].i);
  }

  lemma CountingGoesOn(s: State, t: Tid)
    requires Inv(s) && OnWay(s, t) && CanStep(s, t) && (s.threads[t].Counting? || s.threads[t].Testing?)
    ensures GoesOn(s, Step(s, t, true), t)
  {
  }

  lemma LockedGoesOn(s: State, t: Tid)
    requires Inv(s) && OnWay(s, t) && CanStep(s, t) && (s.threads[t].Locked? || s.threads[t].Allocating?)
    ensures GoesOn(s, Step(s, t, true), t)
  {
    if s.threads[t].Allocating? {
      EnoughGrows(2 * s.tables[s.threads[t].main].capacity, s.threads[t].n);
    }
  }

  lemma FittingGoesOn(s: State, t: Tid)
    requires Inv(s) && OnWay(s, t) && CanStep(s, t)
    requires s.threads[t].Unlocking? || s.threads[t].Fitting? || s.threads[t].Creating?
    ensures GoesOn(s, Step(s, t, true), t)
  {
  }

  /** Its own entry was found in the newest table: that is the answer. */
  lemma FoundIsAnswer(s: State, t: Tid)
    requires Inv(s) && OnWay(s, t) && CanStep(s, t) && s.threads[t].Found? && s.threads[t].h == s.threads[t].main
    ensures var s' := Step(s, t, true);
            t in s'.threads && s'.threads[t] == Idle && IsAnswer(s, s', t)
  {
    FoundOwn(s, t);
    assert EntryIs(s.tables[s.current], s.threads[t].slot, t, s.producerOf[t]);
  }

  /** In an older one it is moved over first. */
  lemma FoundGoesOn(s: State, t: Tid)
    requires Inv(s) && OnWay(s, t) && CanStep(s, t) && s.threads[t].Found? && s.threads[t].h != s.threads[t].main
    ensures GoesOn(s, Step(s, t, true), t)
  {
  }

  lemma WrittenIsAnswer(s: State, t: Tid)
    requires Inv(s) && OnWay(s, t) && CanStep(s, t) && s.threads[t].PlaceValue?
    ensures var s' := Step(s, t, true);
            t in s'.threads && s'.threads[t] == Idle && IsAnswer(s, s', t)
  {
    var s' := Step(s, t, true);
    assert EntryIs(s'.tables[s.current], s.threads[t].slot, t, s.producerOf[t]);
  }

  /** One answer more, which is the thread's producer. */
  ghost predicate IsAnswer(s: State, s': State, t: Tid) {
    && InNewest(s', t) && t in s.producerOf && s'.producerOf == s.producerOf && s'.created == s.created
    && s'.answers == s.answers + [Answer(t, s.producerOf[t])]
  }

  lemma OneStep(s: State, t: Tid) returns (s': State)
    requires Inv(s) && OnWay(s, t)
    ensures StepOf(s, s', t) && Inv(s') && (GoesOn(s, s', t) || Answered(s, s', t))
  {
    NeverStuck(s, t);
    s' := Step(s, t, true);
    StepKeepsInv(s, t, true);
    var pc := s.threads[t];
    if pc.Loading? || pc.Probing? {
      ProbingGoesOn(s, t);
    } else if pc.Found? {
      if pc.h == pc.main {
        FoundIsAnswer(s, t);
      } else {
        FoundGoesOn(s, t);
      }
    } else if pc.Counting? || pc.Testing? {
      CountingGoesOn(s, t);
    } else if pc.Locked? || pc.Allocating? {
      LockedGoesOn(s, t);
    } else if pc.Placing? {
      PlacingGoesOn(s, t);
    } else if pc.PlaceCas? {
      CasGoesOn(s, t);
    } else if pc.PlaceValue? {
      WrittenIsAnswer(s, t);
    } else {
      FittingGoesOn(s, t);
    }
  }

  lemma {:induction false} Answers(s: State, t: Tid) returns (states: seq<State>)
    requires Inv(s) && OnWay(s, t)
    ensures Solo(states, t) && states[0] == s && Answered(s, states[|states| - 1], t)
    decreases Stage(s.threads[t]), TablesLeft(s.threads[t]), ProbesLeft(s, s.threads[t])
  {
    var s' := OneStep(s, t);
    states := [s'];
    if !Answered(s, s', t) {
      states := Answers(s', t);
    }
    Prepend(s, states, t);
    states := [s] + states;
  }

  /** A whole lookup by t, beginning at s, in which t alone moves. */
  ghost predicate IsLookup(states: seq<State>, s: State, t: Tid) {
    && Solo(states, t) && t in s.threads && s.threads[t] == Idle && states[0] == Move(s, t, Loading)
    && Answered(s, states[|states| - 1], t)
  }

  /**
   get_or_add_implicit_producer answers: from every state of every run in which no thread holds the resize flag, alone
   and with all its requests granted, a lookup ends, and its answer is the thread's producer, whose entry is then in the
   newest table; a thread that has one keeps it, and nothing is created for it.
   */
  lemma LookupAnswers(s: State, t: Tid)
    requires Inv(s) && t in s.threads && s.threads[t] == Idle && !s.resizing
    ensures exists states :: IsLookup(states, s, t)
  {
    StartStep(s, t);
    var states := Answers(Move(s, t, Loading), t);
    assert IsLookup(states, s, t);
  }
}
