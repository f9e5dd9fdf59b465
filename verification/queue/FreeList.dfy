/**
 The lock-free free list of blocks: a stack whose nodes carry a reference count and a
 should-be-on-free-list bit in one word.  Every atomic access of add, try_get and
 add_knowing_refcount_is_zero is one step of the thread that performs it, and any number of
 threads run at once.  The word is kept as a count and a bit; the bit is the topmost of 32, so the
 two stay apart as long as fewer than 2^31 - 1 threads hold references.
 */
module FreeList {
  import opened Options

  type Tid = nat
  type Node = nat

  /** freeListRefs: REFS_MASK part and SHOULD_BE_ON_FREELIST bit. */
  datatype Refs = Refs(count: nat, flag: bool)

  /** Where a thread is; the fields are its locals. */
  datatype Pc =
    | Idle
    // add(node), before its fetch_add
    | Adding(node: Node)
    // add_knowing_refcount_is_zero(node); after says what a try_get that got here goes on with
    | LoadHead(node: Node, after: Option<Option<Node>>)
    | SetNext(node: Node, head: Option<Node>, after: Option<Option<Node>>)
    | SetRefs(node: Node, head: Option<Node>, after: Option<Option<Node>>)
    | CasHead(node: Node, head: Option<Node>, after: Option<Option<Node>>)
    | Restore(node: Node, head: Option<Node>, after: Option<Option<Node>>)
    // try_get
    | Reload
    | Looking(head: Option<Node>)
    | SawRefs(at: Node, refs: Refs)
    | Holding(at: Node)
    | ReadNext(at: Node, next: Option<Node>)
    | Missed(at: Node, head: Option<Node>)
    | Taking(at: Node)

  /**
   The shared memory (head, next and refs), the threads, and three history variables: the nodes
   that exist, those in the hands of callers, and the nodes linked from head, in order.
   */
  datatype State = State(
    head: Option<Node>,
    next: map<Node, Option<Node>>,
    refs: map<Node, Refs>,
    threads: map<Tid, Pc>,
    nodes: set<Node>,
    owned: set<Node>,
    list: seq<Node>)

  ghost predicate Init(s: State) {
    && s.head == None && s.list == [] && s.nodes == {} && s.owned == {}
    && s.next == map[] && s.refs == map[]
    && forall t | t in s.threads :: s.threads[t] == Idle
  }

  /** A caller creates a block; it starts out in that caller's hands. */
  function Create(s: State, n: Node): State
    requires n !in s.nodes
  {
    s.(nodes := s.nodes + {n}, owned := s.owned + {n},
       next := s.next[n := None], refs := s.refs[n := Refs(0, false)])
  }

  /** A caller that owns n hands it to add. */
  function BeginAdd(s: State, t: Tid, n: Node): State
    requires t in s.threads && s.threads[t] == Idle && n in s.owned
  {
    s.(owned := s.owned - {n}, threads := s.threads[t := Adding(n)])
  }

  function BeginTryGet(s: State, t: Tid): State
    requires t in s.threads && s.threads[t] == Idle
  {
    s.(threads := s.threads[t := Reload])
  }

  /** What a thread does when add_knowing_refcount_is_zero returns. */
  function Resume(after: Option<Option<Node>>): Pc {
    match after
    case None => Idle
    case Some(head) => Looking(head)
  }

  /** The node whose fields the thread's next access may read or write. */
  function Target(pc: Pc): Option<Node> {
    match pc
    case Idle => None
    case Reload => None
    case Looking(head) => head
    case Adding(n) => Some(n)
    case LoadHead(n, _) => Some(n)
    case SetNext(n, _, _) => Some(n)
    case SetRefs(n, _, _) => Some(n)
    case CasHead(n, _, _) => Some(n)
    case Restore(n, _, _) => Some(n)
    case SawRefs(at, _) => Some(at)
    case Holding(at) => Some(at)
    case ReadNext(at, _) => Some(at)
    case Missed(at, _) => Some(at)
    case Taking(at) => Some(at)
  }

  predicate CanAdvance(s: State, t: Tid)
    requires t in s.threads
  {
    var target := Target(s.threads[t]);
    target.Some? ==> target.value in s.refs && target.value in s.next
  }

  /** The next atomic access of thread t. */
  function Advance(s: State, t: Tid): State
    requires t in s.threads && CanAdvance(s, t)
  {
    match s.threads[t]
    case Idle => s
    case Adding(n) =>
      var r := s.refs[n];
      s.(refs := s.refs[n := Refs(r.count, true)],
         threads := s.threads[t := if r == Refs(0, false) then LoadHead(n, None) else Idle])
    case LoadHead(n, after) =>
      s.(threads := s.threads[t := SetNext(n, s.head, after)])
    case SetNext(n, head, after) =>
      s.(next := s.next[n := head], threads := s.threads[t := SetRefs(n, head, after)])
    case SetRefs(n, head, after) =>
      s.(refs := s.refs[n := Refs(1, false)], threads := s.threads[t := CasHead(n, head, after)])
    case CasHead(n, head, after) =>
      if s.head == head then
        s.(head := Some(n), list := [n] + s.list, threads := s.threads[t := Resume(after)])
      else
        s.(threads := s.threads[t := Restore(n, s.head, after)])
    case Restore(n, head, after) =>
      var r := s.refs[n];
      s.(refs := s.refs[n := Refs(if r.count > 0 then r.count - 1 else 0, true)],
         threads := s.threads[t := if r == Refs(1, false) then SetNext(n, head, after) else Resume(after)])
    case Reload =>
      s.(threads := s.threads[t := Looking(s.head)])
    case Looking(head) =>
      if head == None then s.(threads := s.threads[t := Idle])
      else s.(threads := s.threads[t := SawRefs(head.value, s.refs[head.value])])
    case SawRefs(at, refs) =>
      if refs.count == 0 || s.refs[at] != refs then
        s.(threads := s.threads[t := Reload])
      else
        s.(refs := s.refs[at := refs.(count := refs.count + 1)], threads := s.threads[t := Holding(at)])
    case Holding(at) =>
      s.(threads := s.threads[t := ReadNext(at, s.next[at])])
    case ReadNext(at, next) =>
      if s.head == Some(at) then
        s.(head := next, list := if |s.list| > 0 then s.list[1..] else [], threads := s.threads[t := Taking(at)])
      else
        s.(threads := s.threads[t := Missed(at, s.head)])
    case Taking(at) =>
      var r := s.refs[at];
      s.(refs := s.refs[at := r.(count := if r.count >= 2 then r.count - 2 else 0)],
         owned := s.owned + {at},
         threads := s.threads[t := Idle])
    case Missed(at, head) =>
      var r := s.refs[at];
      s.(refs := s.refs[at := r.(count := if r.count > 0 then r.count - 1 else 0)],
         threads := s.threads[t := if r == Refs(1, true) then LoadHead(at, Some(head)) else Looking(head)])
  }

  ghost predicate Next(s: State, s': State) {
    || (exists n :: n !in s.nodes && s' == Create(s, n))
    || (exists t, n :: t in s.threads && s.threads[t] == Idle && n in s.owned && s' == BeginAdd(s, t, n))
    || (exists t :: t in s.threads && s.threads[t] == Idle && s' == BeginTryGet(s, t))
    || (exists t :: t in s.threads && CanAdvance(s, t) && s' == Advance(s, t))
  }

  ghost predicate Run(states: seq<State>) {
    && |states| > 0
    && Init(states[0])
    && forall i | 0 <= i < |states| - 1 :: Next(states[i], states[i + 1])
  }

  // ----------------------------------------------------------------------------- who has a node

  /** The thread holds one reference on n, taken by its compare-and-swap on the word. */
  predicate Holds(pc: Pc, n: Node) {
    (pc.Holding? || pc.ReadNext? || pc.Missed?) && pc.at == n
  }

  /** The thread has n to itself: it is adding it, relinking it, or has just unlinked it. */
  predicate Claims(pc: Pc, n: Node) {
    match pc
    case Adding(m) => m == n
    case LoadHead(m, _) => m == n
    case SetNext(m, _, _) => m == n
    case SetRefs(m, _, _) => m == n
    case CasHead(m, _, _) => m == n
    case Restore(m, _, _) => m == n
    case Taking(m) => m == n
    case _ => false
  }

  ghost function Holders(s: State, n: Node): set<Tid> {
    set t | t in s.threads && Holds(s.threads[t], n)
  }

  ghost predicate Claimant(s: State, t: Tid, n: Node) {
    t in s.threads && Claims(s.threads[t], n)
  }

  ghost predicate Claimed(s: State, n: Node) {
    exists t :: Claimant(s, t, n)
  }

  /** Nobody has the node, but its bit is set and the last reference holder will relink it. */
  ghost predicate Deferred(s: State, n: Node) {
    n in s.refs && s.refs[n].flag && Holders(s, n) != {} && !Claimed(s, n)
  }

  /** What the word of the claimed node must contain while h threads hold references on it. */
  predicate ClaimWordOk(pc: Pc, r: Refs, h: nat) {
    match pc
    case Adding(_) => r == Refs(h, false)
    case CasHead(_, _, _) => r == Refs(1 + h, false)
    case Restore(_, _, _) => r == Refs(1 + h, false)
    case Taking(_) => r == Refs(2 + h, false)
    case _ => r == Refs(0, true) && h == 0
  }

  /** What the word must contain, given who has the node. */
  ghost predicate WordOk(s: State, n: Node)
    requires n in s.refs
  {
    var r, h := s.refs[n], |Holders(s, n)|;
    && (n in s.list ==> r == Refs(1 + h, false))
    && (n in s.owned ==> r == Refs(h, false))
    && (forall t | Claimant(s, t, n) :: ClaimWordOk(s.threads[t], r, h))
    && (n !in s.list && n !in s.owned && !Claimed(s, n) ==> r == Refs(h, true) && h > 0)
  }

  /** The list's nodes are distinct and the next fields link them in order, ending in null. */
  predicate ListOk(head: Option<Node>, next: map<Node, Option<Node>>, list: seq<Node>)
    decreases list
  {
    if list == [] then head == None
    else
      && head == Some(list[0]) && list[0] in next && list[0] !in list[1..]
      && ListOk(next[list[0]], next, list[1..])
  }

  /** What a thread's locals say about the nodes that exist and their next fields. */
  predicate PcOk(nodes: set<Node>, next: map<Node, Option<Node>>, pc: Pc) {
    && Known(nodes, Target(pc))
    && match pc
       case LoadHead(_, after) => after.Some? ==> Known(nodes, after.value)
       case SetNext(_, head, after) => Known(nodes, head) && (after.Some? ==> Known(nodes, after.value))
       case SetRefs(n, head, after) =>
         Known(nodes, head) && (after.Some? ==> Known(nodes, after.value)) && n in next && next[n] == head
       case CasHead(n, head, after) =>
         Known(nodes, head) && (after.Some? ==> Known(nodes, after.value)) && n in next && next[n] == head
       case Restore(_, head, after) => Known(nodes, head) && (after.Some? ==> Known(nodes, after.value))
       case ReadNext(at, next') => at in next && next[at] == next'
       case Missed(_, head) => Known(nodes, head)
       case _ => true
  }

  predicate Known(nodes: set<Node>, n: Option<Node>) {
    n.Some? ==> n.value in nodes
  }

  /** Linked, owned, and claimed by a thread exclude each other, and a claimant is alone. */
  ghost predicate Exclusive(s: State, n: Node) {
    && !(n in s.list && n in s.owned)
    && (Claimed(s, n) ==> n !in s.list && n !in s.owned)
    && (forall t, u :: Claimant(s, t, n) && Claimant(s, u, n) ==> t == u)
  }

  ghost predicate NodeOk(s: State, n: Node) {
    n in s.refs && Exclusive(s, n) && WordOk(s, n)
  }

  ghost predicate Inv(s: State) {
    && s.refs.Keys == s.nodes && s.next.Keys == s.nodes && s.owned <= s.nodes
    && (forall n | n in s.list :: n in s.nodes)
    && ListOk(s.head, s.next, s.list)
    && (forall t | t in s.threads :: PcOk(s.nodes, s.next, s.threads[t]))
    && (forall n {:trigger NodeOk(s, n)} | n in s.nodes :: NodeOk(s, n))
  }

  // ----------------------------------------------------------------- every step keeps the invariant

  lemma HoldersChange(s: State, s': State, t: Tid, n: Node)
    requires t in s.threads && t in s'.threads && s'.threads == s.threads[t := s'.threads[t]]
    ensures Holds(s'.threads[t], n) == Holds(s.threads[t], n) ==> Holders(s', n) == Holders(s, n)
    ensures Holds(s'.threads[t], n) && !Holds(s.threads[t], n) ==>
              Holders(s', n) == Holders(s, n) + {t} && |Holders(s', n)| == |Holders(s, n)| + 1
    ensures !Holds(s'.threads[t], n) && Holds(s.threads[t], n) ==>
              Holders(s', n) == Holders(s, n) - {t} && |Holders(s', n)| == |Holders(s, n)| - 1
  {
    if Holds(s'.threads[t], n) == Holds(s.threads[t], n) {
      assert Holders(s', n) == Holders(s, n);
    } else if Holds(s'.threads[t], n) {
      assert Holders(s', n) == Holders(s, n) + {t};
    } else {
      assert Holders(s', n) == Holders(s, n) - {t};
    }
  }

  /** A node keeps its situation if the step of thread t changes nothing about it. */
  lemma Unaffected(s: State, s': State, t: Tid, n: Node)
    requires NodeOk(s, n)
    requires t in s.threads && t in s'.threads && s'.threads == s.threads[t := s'.threads[t]]
    requires n in s'.refs && s'.refs[n] == s.refs[n]
    requires n in s'.list <==> n in s.list
    requires n in s'.owned <==> n in s.owned
    requires Holds(s'.threads[t], n) == Holds(s.threads[t], n)
    requires Claims(s'.threads[t], n) == Claims(s.threads[t], n)
    requires var h := |Holders(s, n)|;
             Claims(s.threads[t], n) && ClaimWordOk(s.threads[t], s.refs[n], h) ==>
               ClaimWordOk(s'.threads[t], s.refs[n], h)
    ensures NodeOk(s', n)
  {
    HoldersChange(s, s', t, n);
    assert forall u :: Claimant(s', u, n) <==> Claimant(s, u, n);
  }

  /** Thread t moves on without writing to memory and keeps what it has. */
  lemma QuietMoveKeepsInv(s: State, s': State, t: Tid)
    requires Inv(s) && t in s.threads && t in s'.threads
    requires s' == s.(threads := s.threads[t := s'.threads[t]])
    requires PcOk(s'.nodes, s'.next, s'.threads[t])
    requires forall n :: Holds(s'.threads[t], n) == Holds(s.threads[t], n)
    requires forall n :: Claims(s'.threads[t], n) == Claims(s.threads[t], n)
    requires forall n | n in s.nodes && Claims(s.threads[t], n) ::
               ClaimWordOk(s.threads[t], s.refs[n], |Holders(s, n)|) ==>
                 ClaimWordOk(s'.threads[t], s.refs[n], |Holders(s, n)|)
    ensures Inv(s')
  {
    forall n | n in s'.nodes
      ensures NodeOk(s', n)
    {
      Unaffected(s, s', t, n);
    }
  }

  /** Thread t's step concerns node m only; it remains to look at m itself. */
  lemma StepOnNode(s: State, s': State, t: Tid, m: Node)
    requires Inv(s) && m in s.nodes && t in s.threads && t in s'.threads
    requires s'.nodes == s.nodes && s'.threads == s.threads[t := s'.threads[t]]
    requires s'.refs.Keys == s.nodes && forall n | n in s.nodes && n != m :: s'.refs[n] == s.refs[n]
    requires s'.owned <= s.nodes && forall n | n in s'.list :: n in s.nodes
    requires forall n | n in s.nodes && n != m :: (n in s'.list <==> n in s.list) && (n in s'.owned <==> n in s.owned)
    requires forall n | n in s.nodes && n != m ::
               Holds(s'.threads[t], n) == Holds(s.threads[t], n) == Claims(s'.threads[t], n) ==
                 Claims(s.threads[t], n) == false
    requires ListOk(s'.head, s'.next, s'.list)
    requires s'.next.Keys == s.nodes
    requires s'.next == s.next || forall u | u in s.threads && u != t ::
               !Holds(s.threads[u], m) && !Claims(s.threads[u], m)
    requires forall n | n in s.nodes && n != m :: s'.next[n] == s.next[n]
    requires PcOk(s'.nodes, s'.next, s'.threads[t])
    requires NodeOk(s', m)
    ensures Inv(s')
  {
    forall n | n in s'.nodes
      ensures NodeOk(s', n)
    {
      if n != m {
        Unaffected(s, s', t, n);
      }
    }
    forall u | u in s'.threads
      ensures PcOk(s'.nodes, s'.next, s'.threads[u])
    {
      if u != t {
        assert PcOk(s.nodes, s.next, s.threads[u]);
      }
    }
  }

  /** The claimants of m in s', when t is the only thread whose claim may have changed. */
  lemma ClaimantsChange(s: State, s': State, t: Tid, m: Node)
    requires t in s.threads && t in s'.threads && s'.threads == s.threads[t := s'.threads[t]]
    ensures forall u | u != t :: Claimant(s', u, m) <==> Claimant(s, u, m)
    ensures Claims(s.threads[t], m) ==> Claimant(s, t, m) && Claimed(s, m)
    ensures Claims(s'.threads[t], m) ==> Claimant(s', t, m) && Claimed(s', m)
  {
    assert Claims(s.threads[t], m) ==> Claimant(s, t, m);
    assert Claims(s'.threads[t], m) ==> Claimant(s', t, m);
  }

  lemma {:induction false} ListKept(head: Option<Node>, next: map<Node, Option<Node>>, list: seq<Node>, m: Node,
                                    v: Option<Node>)
    requires ListOk(head, next, list) && m !in list
    ensures ListOk(head, next[m := v], list)
    decreases list
  {
    if list != [] {
      ListKept(next[list[0]], next, list[1..], m, v);
    }
  }

  lemma AddKeepsInv(s: State, t: Tid)
    requires Inv(s) && t in s.threads && CanAdvance(s, t) && s.threads[t].Adding?
    ensures Inv(Advance(s, t))
  {
    var s' := Advance(s, t);
    var m := s.threads[t].node;
    HoldersChange(s, s', t, m);
    ClaimantsChange(s, s', t, m);
    assert NodeOk(s, m);
    StepOnNode(s, s', t, m);
  }

  lemma RelinkKeepsInv(s: State, t: Tid)
    requires Inv(s) && t in s.threads && CanAdvance(s, t)
    requires s.threads[t].SetNext? || s.threads[t].SetRefs?
    ensures Inv(Advance(s, t))
  {
    var s' := Advance(s, t);
    var m := s.threads[t].node;
    HoldersChange(s, s', t, m);
    ClaimantsChange(s, s', t, m);
    assert NodeOk(s, m);
    forall u | u in s.threads && u != t
      ensures !Holds(s.threads[u], m) && !Claims(s.threads[u], m)
    {
      assert u !in Holders(s, m);
      assert !Claimant(s, u, m);
    }
    if s.threads[t].SetNext? {
      ListKept(s.head, s.next, s.list, m, s.threads[t].head);
    }
    StepOnNode(s, s', t, m);
  }

  lemma PushedWord(s: State, s': State, t: Tid, m: Node)
    requires NodeOk(s, m) && m in s'.refs
    requires t in s.threads && t in s'.threads && s'.threads == s.threads[t := s'.threads[t]]
    requires s.threads[t].CasHead? && s.threads[t].node == m && !Claims(s'.threads[t], m) && !Holds(s'.threads[t], m)
    requires s'.refs[m] == s.refs[m] && m in s'.list && s'.owned == s.owned
    ensures NodeOk(s', m)
  {
    HoldersChange(s, s', t, m);
    ClaimantsChange(s, s', t, m);
    assert forall u :: !Claimant(s', u, m);
  }

  lemma PushKeepsInv(s: State, s': State, t: Tid, m: Node)
    requires Inv(s) && t in s.threads && m in s.nodes
    requires s.threads[t].CasHead? && s.threads[t].node == m && s.threads[t].head == s.head
    requires s' == s.(head := Some(m), list := [m] + s.list, threads := s.threads[t := Resume(s.threads[t].after)])
    ensures Inv(s')
  {
    assert NodeOk(s, m);
    assert PcOk(s.nodes, s.next, s.threads[t]);
    ClaimantsChange(s, s', t, m);
    assert s'.list[1..] == s.list;
    assert forall n :: n in s'.list <==> n == m || n in s.list;
    PushedWord(s, s', t, m);
    StepOnNode(s, s', t, m);
  }

  lemma CasHeadKeepsInv(s: State, t: Tid)
    requires Inv(s) && t in s.threads && CanAdvance(s, t) && s.threads[t].CasHead?
    ensures Inv(Advance(s, t))
  {
    var s' := Advance(s, t);
    if s.head == s.threads[t].head {
      PushKeepsInv(s, s', t, s.threads[t].node);
    } else {
      assert PcOk(s.nodes, s.next, s.threads[t]);
      QuietMoveKeepsInv(s, s', t);
    }
  }

  lemma RestoreKeepsInv(s: State, t: Tid)
    requires Inv(s) && t in s.threads && CanAdvance(s, t) && s.threads[t].Restore?
    ensures Inv(Advance(s, t))
  {
    var s' := Advance(s, t);
    var m := s.threads[t].node;
    HoldersChange(s, s', t, m);
    ClaimantsChange(s, s', t, m);
    assert NodeOk(s, m);
    assert PcOk(s.nodes, s.next, s.threads[t]);
    StepOnNode(s, s', t, m);
  }

  /** A compare-and-swap on the word succeeds only while the count is above zero. */
  lemma AcquiredWord(s: State, s': State, t: Tid, m: Node)
    requires NodeOk(s, m) && m in s'.refs
    requires t in s.threads && t in s'.threads && s'.threads == s.threads[t := s'.threads[t]]
    requires s.threads[t].SawRefs? && s'.threads[t] == Holding(m)
    requires s.refs[m].count > 0 && s'.refs[m] == Refs(s.refs[m].count + 1, s.refs[m].flag)
    requires s'.list == s.list && s'.owned == s.owned
    ensures NodeOk(s', m)
  {
    HoldersChange(s, s', t, m);
    ClaimantsChange(s, s', t, m);
    assert forall u :: Claimant(s', u, m) <==> Claimant(s, u, m);
  }

  lemma AcquireKeepsInv(s: State, t: Tid)
    requires Inv(s) && t in s.threads && CanAdvance(s, t) && s.threads[t].SawRefs?
    ensures Inv(Advance(s, t))
  {
    var s' := Advance(s, t);
    var m := s.threads[t].at;
    assert PcOk(s.nodes, s.next, s.threads[t]);
    if s'.threads[t] == Reload {
      QuietMoveKeepsInv(s, s', t);
    } else {
      assert NodeOk(s, m);
      AcquiredWord(s, s', t, m);
      StepOnNode(s, s', t, m);
    }
  }

  lemma PoppedWord(s: State, s': State, t: Tid, m: Node)
    requires NodeOk(s, m) && m in s'.refs
    requires t in s.threads && t in s'.threads && s'.threads == s.threads[t := Taking(m)]
    requires s.threads[t].ReadNext? && s.threads[t].at == m
    requires s'.refs[m] == s.refs[m] && m in s.list && m !in s'.list && s'.owned == s.owned
    ensures NodeOk(s', m)
  {
    HoldersChange(s, s', t, m);
    ClaimantsChange(s, s', t, m);
    assert t in Holders(s, m);
  }

  lemma PopKeepsInv(s: State, s': State, t: Tid, m: Node)
    requires Inv(s) && t in s.threads && m in s.nodes
    requires s.threads[t].ReadNext? && s.threads[t].at == m && s.head == Some(m)
    requires s' == s.(head := s.threads[t].next, list := s.list[1..], threads := s.threads[t := Taking(m)])
    ensures Inv(s')
  {
    assert PcOk(s.nodes, s.next, s.threads[t]);
    assert s.list == [m] + s'.list;
    assert forall n :: n in s.list <==> n == m || n in s'.list;
    assert m !in s'.list;
    assert NodeOk(s, m);
    PoppedWord(s, s', t, m);
    StepOnNode(s, s', t, m);
  }

  lemma ReadNextKeepsInv(s: State, t: Tid)
    requires Inv(s) && t in s.threads && CanAdvance(s, t) && s.threads[t].ReadNext?
    ensures Inv(Advance(s, t))
  {
    var s' := Advance(s, t);
    assert PcOk(s.nodes, s.next, s.threads[t]);
    if s.head == Some(s.threads[t].at) {
      PopKeepsInv(s, s', t, s.threads[t].at);
    } else {
      QuietMoveKeepsInv(s, s', t);
    }
  }

  lemma TakeKeepsInv(s: State, t: Tid)
    requires Inv(s) && t in s.threads && CanAdvance(s, t) && s.threads[t].Taking?
    ensures Inv(Advance(s, t))
  {
    var s' := Advance(s, t);
    var m := s.threads[t].at;
    HoldersChange(s, s', t, m);
    ClaimantsChange(s, s', t, m);
    assert NodeOk(s, m);
    assert PcOk(s.nodes, s.next, s.threads[t]);
    StepOnNode(s, s', t, m);
  }

  lemma MissKeepsInv(s: State, t: Tid)
    requires Inv(s) && t in s.threads && CanAdvance(s, t) && s.threads[t].Missed?
    ensures Inv(Advance(s, t))
  {
    var s' := Advance(s, t);
    var m := s.threads[t].at;
    HoldersChange(s, s', t, m);
    ClaimantsChange(s, s', t, m);
    assert t in Holders(s, m);
    assert NodeOk(s, m);
    assert PcOk(s.nodes, s.next, s.threads[t]);
    StepOnNode(s, s', t, m);
  }

  lemma AddSideKeepsInv(s: State, t: Tid)
    requires Inv(s) && t in s.threads && CanAdvance(s, t)
    requires s.threads[t].Adding? || s.threads[t].LoadHead? || s.threads[t].SetNext? || s.threads[t].SetRefs?
             || s.threads[t].CasHead? || s.threads[t].Restore?
    ensures Inv(Advance(s, t))
  {
    match s.threads[t]
    case Adding(_) => AddKeepsInv(s, t);
    case LoadHead(_, _) =>
      assert PcOk(s.nodes, s.next, s.threads[t]);
      QuietMoveKeepsInv(s, Advance(s, t), t);
    case SetNext(_, _, _) => RelinkKeepsInv(s, t);
    case SetRefs(_, _, _) => RelinkKeepsInv(s, t);
    case CasHead(_, _, _) => CasHeadKeepsInv(s, t);
    case Restore(_, _, _) => RestoreKeepsInv(s, t);
  }

  lemma AdvanceKeepsInv(s: State, t: Tid)
    requires Inv(s) && t in s.threads && CanAdvance(s, t)
    ensures Inv(Advance(s, t))
  {
    match s.threads[t]
    case Idle =>
    case Reload => QuietGetKeepsInv(s, t);
    case Looking(_) => QuietGetKeepsInv(s, t);
    case Holding(_) => QuietGetKeepsInv(s, t);
    case SawRefs(_, _) => AcquireKeepsInv(s, t);
    case ReadNext(_, _) => ReadNextKeepsInv(s, t);
    case Taking(_) => TakeKeepsInv(s, t);
    case Missed(_, _) => MissKeepsInv(s, t);
    case _ => AddSideKeepsInv(s, t);
  }

  lemma QuietGetKeepsInv(s: State, t: Tid)
    requires Inv(s) && t in s.threads && CanAdvance(s, t)
    requires s.threads[t].Reload? || s.threads[t].Looking? || s.threads[t].Holding?
    ensures Inv(Advance(s, t))
  {
    assert PcOk(s.nodes, s.next, s.threads[t]);
    QuietMoveKeepsInv(s, Advance(s, t), t);
  }

  /** A node that exists keeps its situation when another one is created. */
  lemma OldNodeKept(s: State, n: Node, m: Node)
    requires n !in s.nodes && m != n && NodeOk(s, m)
    ensures NodeOk(Create(s, n), m)
  {
    var s' := Create(s, n);
    assert Holders(s', m) == Holders(s, m);
    assert forall u :: Claimant(s', u, m) <==> Claimant(s, u, m);
  }

  lemma NewNodeOk(s: State, n: Node)
    requires n !in s.nodes && n !in s.list
    requires forall t | t in s.threads :: !Holds(s.threads[t], n) && !Claims(s.threads[t], n)
    ensures NodeOk(Create(s, n), n)
  {
    assert Holders(Create(s, n), n) == {};
    assert forall u :: !Claimant(Create(s, n), u, n);
  }

  lemma CreateKeepsInv(s: State, n: Node)
    requires Inv(s) && n !in s.nodes
    ensures Inv(Create(s, n))
  {
    var s' := Create(s, n);
    ListKept(s.head, s.next, s.list, n, None);
    forall t | t in s.threads
      ensures PcOk(s'.nodes, s'.next, s'.threads[t]) && !Holds(s.threads[t], n) && !Claims(s.threads[t], n)
    {
      PcKeptOnCreate(s.nodes, s.next, s.threads[t], n);
    }
    NewNodeOk(s, n);
    forall m | m in s.nodes
      ensures NodeOk(s', m)
    {
      OldNodeKept(s, n, m);
    }
  }

  lemma PcKeptOnCreate(nodes: set<Node>, next: map<Node, Option<Node>>, pc: Pc, n: Node)
    requires PcOk(nodes, next, pc) && n !in nodes
    ensures PcOk(nodes + {n}, next[n := None], pc) && !Holds(pc, n) && !Claims(pc, n)
  {
  }

  lemma BeginAddKeepsInv(s: State, t: Tid, n: Node)
    requires Inv(s) && t in s.threads && s.threads[t] == Idle && n in s.owned
    ensures Inv(BeginAdd(s, t, n))
  {
    var s' := BeginAdd(s, t, n);
    HoldersChange(s, s', t, n);
    ClaimantsChange(s, s', t, n);
    assert NodeOk(s, n);
    StepOnNode(s, s', t, n);
  }

  lemma NextKeepsInv(s: State, s': State)
    requires Inv(s) && Next(s, s')
    ensures Inv(s')
  {
    if n :| n !in s.nodes && s' == Create(s, n) {
      CreateKeepsInv(s, n);
    } else if t, n :| t in s.threads && s.threads[t] == Idle && n in s.owned && s' == BeginAdd(s, t, n) {
      BeginAddKeepsInv(s, t, n);
    } else if t :| t in s.threads && s.threads[t] == Idle && s' == BeginTryGet(s, t) {
      QuietMoveKeepsInv(s, s', t);
    } else {
      var t :| t in s.threads && CanAdvance(s, t) && s' == Advance(s, t);
      AdvanceKeepsInv(s, t);
    }
  }

  lemma {:induction false} RunHasInv(states: seq<State>, i: nat)
    requires Run(states) && i < |states|
    ensures Inv(states[i])
  {
    if i == 0 {
      InitHasInv(states[0]);
    } else {
      RunHasInv(states, i - 1);
      NextKeepsInv(states[i - 1], states[i]);
    }
  }

  /** There are runs with any threads. */
  lemma RunsBegin(tids: set<Tid>) returns (s: State)
    ensures s.threads.Keys == tids && Run([s])
  {
    s := State(None, map[], map[], map t | t in tids :: Idle, {}, {}, []);
  }

  lemma RunGoesOn(states: seq<State>, s: State)
    requires Run(states) && Next(states[|states| - 1], s)
    ensures Run(states + [s])
  {
    var states' := states + [s];
    forall i | 0 <= i < |states'| - 1
      ensures Next(states'[i], states'[i + 1])
    {
      assert states'[i] == states[i];
    }
  }

  lemma InitHasInv(s: State)
    requires Init(s)
    ensures Inv(s)
  {
  }

  // ------------------------------------------------------------------------------------- results

  /** How many of the four situations node n is in. */
  ghost function Situations(s: State, n: Node): nat {
    (if n in s.list then 1 else 0) + (if n in s.owned then 1 else 0)
    + (if Claimed(s, n) then 1 else 0) + (if Deferred(s, n) then 1 else 0)
  }

  /**
   In every run, at every moment, each block is in exactly one situation: linked (once: the list
   has no repetition), in the hands of one caller, being added, relinked or unlinked by exactly one
   thread, or flagged while reference holders exist, the last of whom will relink it.  So no block
   is handed out twice, lost, or linked into a cycle.
   */
  lemma EveryBlockIsSomewhereOnce(states: seq<State>, i: nat, n: Node)
    requires Run(states) && i < |states| && n in states[i].nodes
    ensures Situations(states[i], n) == 1
    ensures forall t, u :: Claimant(states[i], t, n) && Claimant(states[i], u, n) ==> t == u
  {
    RunHasInv(states, i);
    assert NodeOk(states[i], n);
  }

  /** The list reached from head through the next fields ends, and visits no block twice. */
  lemma {:induction false} ListIsAcyclic(head: Option<Node>, next: map<Node, Option<Node>>, list: seq<Node>)
    requires ListOk(head, next, list)
    ensures forall i, j | 0 <= i < j < |list| :: list[i] != list[j]
    ensures Walk(head, next, |list|) == None
    decreases list
  {
    if list != [] {
      ListIsAcyclic(next[list[0]], next, list[1..]);
      forall i, j | 0 <= i < j < |list|
        ensures list[i] != list[j]
      {
        assert list[1..][j - 1] == list[j];
        if i > 0 {
          assert list[1..][i - 1] == list[i];
        }
      }
    }
  }

  /** The node k links after n. */
  function Walk(n: Option<Node>, next: map<Node, Option<Node>>, k: nat): Option<Node>
    decreases k
  {
    if k == 0 || n == None || n.value !in next then n else Walk(next[n.value], next, k - 1)
  }

  /**
   There is no ABA: whenever the compare-and-swap in try_get succeeds, the value it installs is the
   successor the unlinked block has at that very moment, and the block's bit is clear.
   */
  lemma PopInstallsCurrentSuccessor(states: seq<State>, i: nat, t: Tid)
    requires Run(states) && i < |states| && t in states[i].threads
    requires states[i].threads[t].ReadNext? && states[i].head == Some(states[i].threads[t].at)
    ensures var s, at := states[i], states[i].threads[t].at;
            && at in s.next && at in s.refs && CanAdvance(s, t)
            && Advance(s, t).head == s.next[at]
            && !s.refs[at].flag && |s.list| > 0 && s.list[0] == at
            && ListOk(s.next[at], s.next, s.list[1..])
  {
    RunHasInv(states, i);
    var s, at := states[i], states[i].threads[t].at;
    assert PcOk(s.nodes, s.next, s.threads[t]);
    assert NodeOk(s, at);
  }

  /** A block that try_get returns was in nobody's hands, and adding sees the bit clear. */
  lemma HandoverIsExclusive(states: seq<State>, i: nat, t: Tid)
    requires Run(states) && i < |states| && t in states[i].threads
    ensures var s, pc := states[i], states[i].threads[t];
            && (pc.Taking? ==> pc.at in s.refs && pc.at !in s.owned && pc.at !in s.list
                               && s.refs[pc.at].count >= 2 && !s.refs[pc.at].flag)
            && (pc.Adding? ==> pc.node in s.refs && pc.node !in s.owned && pc.node !in s.list && !s.refs[pc.node].flag)
            && (pc.Restore? ==> pc.node in s.refs && s.refs[pc.node].count >= 1 && !s.refs[pc.node].flag)
            && (pc.Missed? ==> pc.at in s.refs && s.refs[pc.at].count >= 1)
  {
    RunHasInv(states, i);
    var s, pc := states[i], states[i].threads[t];
    assert PcOk(s.nodes, s.next, pc);
    if pc.Taking? {
      assert Claimant(s, t, pc.at) && NodeOk(s, pc.at);
    } else if pc.Adding? || pc.Restore? {
      assert Claimant(s, t, pc.node) && NodeOk(s, pc.node);
    } else if pc.Missed? {
      assert t in Holders(s, pc.at) && NodeOk(s, pc.at);
      assert |Holders(s, pc.at)| > 0;
      if Claimed(s, pc.at) {
        var u :| Claimant(s, u, pc.at);
        assert ClaimWordOk(s.threads[u], s.refs[pc.at], |Holders(s, pc.at)|);
      }
    }
  }

  /** No access of a running thread is ever to a block that does not exist. */
  lemma EveryAccessIsDefined(states: seq<State>, i: nat, t: Tid)
    requires Run(states) && i < |states| && t in states[i].threads
    ensures CanAdvance(states[i], t)
  {
    RunHasInv(states, i);
    assert PcOk(states[i].nodes, states[i].next, states[i].threads[t]);
  }

  /** When no operation is in progress, every block is on the list or in a caller's hands. */
  lemma QuietListIsComplete(states: seq<State>, i: nat)
    requires Run(states) && i < |states|
    requires forall t | t in states[i].threads :: states[i].threads[t] == Idle
    ensures forall n | n in states[i].nodes :: (n in states[i].list) != (n in states[i].owned)
  {
    var s := states[i];
    forall n | n in s.nodes
      ensures (n in s.list) != (n in s.owned)
    {
      EveryBlockIsSomewhereOnce(states, i, n);
      assert Holders(s, n) == {};
    }
  }

  // ----------------------------------------------------------------------- what a call alone does

  predicate StepOf(s: State, s': State, t: Tid) {
    t in s.threads && CanAdvance(s, t) && s' == Advance(s, t)
  }

  /** Thread t moves alone, while all others stand wherever they are. */
  predicate Solo(states: seq<State>, t: Tid) {
    && |states| > 0
    && (|states| > 1 ==> StepOf(states[0], states[1], t) && Solo(states[1..], t))
  }

  lemma Prepend(s: State, states: seq<State>, t: Tid)
    requires Solo(states, t) && StepOf(s, states[0], t)
    ensures Solo([s] + states, t)
  {
    assert ([s] + states)[1..] == states;
  }

  lemma Prepend3(s0: State, s1: State, s2: State, states: seq<State>, t: Tid)
    requires Solo(states, t) && StepOf(s0, s1, t) && StepOf(s1, s2, t) && StepOf(s2, states[0], t)
    ensures Solo([s0, s1, s2] + states, t)
  {
    Prepend(s2, states, t);
    Prepend(s1, [s2] + states, t);
    Prepend(s0, [s1] + ([s2] + states), t);
    assert [s0] + ([s1] + ([s2] + states)) == [s0, s1, s2] + states;
  }

  /** The head's word: one reference for the list, one for each thread that holds one. */
  lemma HeadWord(s: State)
    requires Inv(s) && s.list != []
    ensures s.head == Some(s.list[0]) && s.list[0] in s.nodes && s.list[0] in s.refs && s.list[0] in s.next
    ensures s.refs[s.list[0]] == Refs(1 + |Holders(s, s.list[0])|, false)
  {
    assert s.list[0] in s.list;
    assert NodeOk(s, s.list[0]);
  }

  /** A try_get that runs alone on a list that is not empty, whatever the others are at, gets the list's first block. */
  lemma SoloTryGet(s: State, t: Tid) returns (states: seq<State>)
    requires Inv(s) && t in s.threads && s.threads[t] == Reload && s.list != []
    ensures Solo(states, t) && states[0] == s
    ensures var s', n := states[|states| - 1], s.list[0];
            && t in s'.threads && s'.threads[t] == Idle
            && s'.owned == s.owned + {n} && s'.list == s.list[1..] && s'.next == s.next
            && n in s.refs && s'.refs == s.refs[n := Refs(|Holders(s, n)|, false)]
  {
    HeadWord(s);
    states := SoloHold(s, t, s.list[0], |Holders(s, s.list[0])|);
  }

  /** The first half of it: the head, its word, and a reference on it. */
  lemma SoloHold(s: State, t: Tid, n: Node, h: nat) returns (states: seq<State>)
    requires t in s.threads && s.threads[t] == Reload && n in s.refs && n in s.next
    requires s.list != [] && s.head == Some(n) && s.refs[n] == Refs(1 + h, false)
    ensures Solo(states, t) && states[0] == s
    ensures states[|states| - 1] ==
              s.(head := s.next[n], list := s.list[1..], refs := s.refs[n := Refs(h, false)], owned := s.owned + {n},
                 threads := s.threads[t := Idle])
  {
    var s1 := s.(threads := s.threads[t := Looking(Some(n))]);
    var s2 := s.(threads := s.threads[t := SawRefs(n, Refs(1 + h, false))]);
    var s3 := s.(refs := s.refs[n := Refs(2 + h, false)], threads := s.threads[t := Holding(n)]);
    assert StepOf(s, s1, t);
    assert StepOf(s1, s2, t);
    assert StepOf(s2, s3, t);
    assert s3.refs[n := Refs(h, false)] == s.refs[n := Refs(h, false)] && s3.threads[t := Idle] == s.threads[t := Idle];
    states := SoloTake(s3, t, n, h);
    Prepend3(s, s1, s2, states, t);
    states := [s, s1, s2] + states;
  }

  /** The second half of it: the head's next field, the exchange, and the two references given up. */
  lemma SoloTake(s: State, t: Tid, n: Node, h: nat) returns (states: seq<State>)
    requires t in s.threads && s.threads[t] == Holding(n) && n in s.refs && n in s.next
    requires s.list != [] && s.head == Some(n) && s.refs[n] == Refs(2 + h, false)
    ensures Solo(states, t) && states[0] == s
    ensures states[|states| - 1] ==
              s.(head := s.next[n], list := s.list[1..], refs := s.refs[n := Refs(h, false)], owned := s.owned + {n},
                 threads := s.threads[t := Idle])
  {
    var s1 := s.(threads := s.threads[t := ReadNext(n, s.next[n])]);
    var s2 := s1.(head := s.next[n], list := s.list[1..], threads := s.threads[t := Taking(n)]);
    var s3 := s2.(refs := s.refs[n := Refs(h, false)], owned := s.owned + {n}, threads := s.threads[t := Idle]);
    assert StepOf(s, s1, t);
    assert StepOf(s1, s2, t);
    assert StepOf(s2, s3, t);
    Prepend3(s, s1, s2, [s3], t);
    states := [s, s1, s2] + [s3];
  }

  /** On an empty list it gets nothing, and changes nothing. */
  lemma SoloTryGetOfNone(s: State, t: Tid) returns (states: seq<State>)
    requires Inv(s) && t in s.threads && s.threads[t] == Reload && s.list == []
    ensures Solo(states, t) && states[0] == s
    ensures states[|states| - 1] == s.(threads := s.threads[t := Idle])
  {
    var s1 := s.(threads := s.threads[t := Looking(None)]);
    var s2 := s.(threads := s.threads[t := Idle]);
    assert StepOf(s, s1, t);
    assert StepOf(s1, s2, t);
    states := [s2];
    Prepend(s1, states, t);
    states := [s1] + states;
    Prepend(s, states, t);
    states := [s] + states;
  }

  /** The steps of add_knowing_refcount_is_zero, alone: the block gets to the head of the list. */
  lemma SoloLink(s: State, t: Tid, n: Node, after: Option<Option<Node>>) returns (states: seq<State>)
    requires t in s.threads && s.threads[t] == LoadHead(n, after) && n in s.refs && n in s.next
    ensures Solo(states, t) && states[0] == s
    ensures states[|states| - 1] ==
              s.(head := Some(n), next := s.next[n := s.head], refs := s.refs[n := Refs(1, false)],
                 list := [n] + s.list, threads := s.threads[t := Resume(after)])
  {
    var s1 := s.(threads := s.threads[t := SetNext(n, s.head, after)]);
    var s2 := s.(next := s.next[n := s.head], threads := s.threads[t := SetRefs(n, s.head, after)]);
    var s3 := s2.(refs := s.refs[n := Refs(1, false)], threads := s.threads[t := CasHead(n, s.head, after)]);
    var s4 := s3.(head := Some(n), list := [n] + s.list, threads := s.threads[t := Resume(after)]);
    assert StepOf(s, s1, t);
    assert StepOf(s1, s2, t);
    assert StepOf(s2, s3, t);
    assert StepOf(s3, s4, t);
    Prepend3(s1, s2, s3, [s4], t);
    states := [s1, s2, s3] + [s4];
    Prepend(s, states, t);
    states := [s] + states;
  }

  /**
   An add that runs alone puts the block at the head of the list if no thread holds a reference on it; otherwise it
   leaves it to the last of those, and is done.
   */
  lemma SoloAdd(s: State, t: Tid, n: Node) returns (states: seq<State>)
    requires Inv(s) && t in s.threads && s.threads[t] == Adding(n)
    ensures Solo(states, t) && states[0] == s
    ensures var s' := states[|states| - 1];
            && t in s'.threads && s'.threads[t] == Idle
            && s'.list == (if Holders(s, n) == {} then [n] + s.list else s.list)
            && (Holders(s, n) != {} ==> n in s.refs && s'.refs == s.refs[n := Refs(|Holders(s, n)|, true)])
  {
    assert NodeOk(s, n) && Claimant(s, t, n);
    var s1 := Advance(s, t);
    states := [s1];
    if Holders(s, n) == {} {
      states := SoloLink(s1, t, n, None);
    }
    Prepend(s, states, t);
    states := [s] + states;
  }

  /** The last thread that holds a reference on a block that was left to it puts it at the head of the list. */
  lemma SoloLastHolder(s: State, t: Tid, n: Node, head: Option<Node>) returns (states: seq<State>)
    requires Inv(s) && t in s.threads && s.threads[t] == Missed(n, head) && Deferred(s, n) && Holders(s, n) == {t}
    ensures Solo(states, t) && states[0] == s
    ensures var s' := states[|states| - 1];
            t in s'.threads && s'.threads[t] == Looking(head) && s'.list == [n] + s.list && s'.head == Some(n)
  {
    assert NodeOk(s, n);
    var s1 := Advance(s, t);
    states := SoloLink(s1, t, n, Some(head));
    Prepend(s, states, t);
    states := [s] + states;
  }
}
