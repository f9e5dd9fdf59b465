/**
 The reader's task stack, as what is still to be read: how the grammar goes on from the middle of a reply,
 and the tree that the aggregates read so far make up, with null pointers where elements are missing.
 */
module Stack {
  import opened Bytes
  import opened Options
  import opened Grammar

  /** An aggregate that is being read: the elements that are complete, and how many there will be. */
  datatype Frame = Frame(kind: Kind, done: seq<Reply>, total: nat) {
    predicate Ok() {
      kind.IsAggregate() && |done| < total
    }
  }

  ghost predicate FramesOk(frames: seq<Frame>) {
    forall i | 0 <= i < |frames| :: frames[i].Ok()
  }

  function Init(frames: seq<Frame>): seq<Frame>
    requires frames != []
  {
    frames[..|frames| - 1]
  }

  function Last(frames: seq<Frame>): Frame
    requires frames != []
  {
    frames[|frames| - 1]
  }

  function WithElement(f: Frame, v: Reply): Frame {
    f.(done := f.done + [v])
  }

  /** Where a reader stands: in an item whose type byte has or has not been read, or at the end of a reply. */
  datatype Standing = Reading(kind: Option<Kind>, frames: seq<Frame>) | Finished(reply: Reply)

  ghost predicate StandingOk(x: Standing) {
    x.Reading? ==> FramesOk(x.frames)
  }

  /** What follows in the enclosing aggregates, the innermost one last, when an item is complete. */
  ghost function Outer(frames: seq<Frame>, v: Reply, s: seq<Byte>, max: int): (r: Outcome<Reply>)
    requires FramesOk(frames)
    ensures r.Done? ==> r.used <= |s|
    decreases |frames|, 0
  {
    if frames == [] then Done(v, 0)
    else
      var f := Last(frames);
      Closed(Init(frames), f.kind, f.done + [v], Elements(f.total - |f.done| - 1, s, max), s, max)
  }

  /** An aggregate is closed by the elements that it still lacks, and what is around it follows. */
  ghost function Closed(frames: seq<Frame>, kind: Kind, done: seq<Reply>, others: Outcome<seq<Reply>>, s: seq<Byte>,
                        max: int): (r: Outcome<Reply>)
    requires FramesOk(frames) && (others.Done? ==> others.used <= |s|)
    ensures r.Done? ==> r.used <= |s|
    decreases |frames|, 1
  {
    match others
    case Need => Need
    case Fail(e) => Fail(e)
    case Done(es, used) => Later(Outer(frames, Aggregate(kind, done + es), s[used..], max), used)
  }

  /** The first of the elements that an aggregate lacks. */
  lemma ClosedByOneMore(frames: seq<Frame>, kind: Kind, done: seq<Reply>, n: nat, s: seq<Byte>, rest: seq<Byte>,
                        max: int)
    requires FramesOk(frames) && n > 0 && Item(s, max).Done? && rest == s[Item(s, max).used..]
    ensures Closed(frames, kind, done, Elements(n, s, max), s, max)
         == Later(Closed(frames, kind, done + [Item(s, max).value], Elements(n - 1, rest, max), rest, max),
                  Item(s, max).used)
  {
    ClosedJoined(frames, kind, done, Item(s, max).value, Item(s, max).used, Elements(n - 1, rest, max), s, rest, max);
  }

  lemma ClosedJoined(frames: seq<Frame>, kind: Kind, done: seq<Reply>, v: Reply, used: nat, others: Outcome<seq<Reply>>,
                     s: seq<Byte>, rest: seq<Byte>, max: int)
    requires FramesOk(frames) && used <= |s| && rest == s[used..] && (others.Done? ==> others.used <= |rest|)
    ensures Closed(frames, kind, done, Joined(v, others, used), s, max)
         == Later(Closed(frames, kind, done + [v], others, rest, max), used)
  {
    if others.Done? {
      assert done + ([v] + others.value) == done + [v] + others.value;
      assert s[used + others.used..] == rest[others.used..];
    }
  }

  /** An item of the innermost aggregate, and what follows it. */
  ghost function Leaving(frames: seq<Frame>, item: Outcome<Reply>, s: seq<Byte>, max: int): (r: Outcome<Reply>)
    requires FramesOk(frames) && (item.Done? ==> item.used <= |s|)
    ensures r.Done? ==> r.used <= |s|
  {
    match item
    case Need => Need
    case Fail(e) => Fail(e)
    case Done(v, used) => Later(Outer(frames, v, s[used..], max), used)
  }

  /** What the grammar makes of the bytes ahead, from where the reader stands. */
  ghost function Ahead(x: Standing, s: seq<Byte>, max: int): (r: Outcome<Reply>)
    requires StandingOk(x)
    ensures r.Done? ==> r.used <= |s|
  {
    match x
    case Finished(reply) => Done(reply, 0)
    case Reading(kind, frames) =>
      Leaving(frames, if kind.None? then Item(s, max) else Body(kind.value, s, max), s, max)
  }

  /** Before the first byte of a reply. */
  const IDLE := Reading(None, [])

  lemma IdleReadsAnItem(s: seq<Byte>, max: int)
    ensures Ahead(IDLE, s, max) == Item(s, max)
  {
  }

  /** Nothing comes from no bytes. */
  lemma NothingIsTooLittle(x: Standing, max: int)
    requires x.Reading? && StandingOk(x)
    ensures Ahead(x, [], max) == Need
  {
  }

  /** A reply takes at least one byte more, and is not the null pointer. */
  lemma RepliesAreSomething(x: Standing, s: seq<Byte>, max: int)
    requires x.Reading? && StandingOk(x) && Ahead(x, s, max).Done?
    ensures Ahead(x, s, max).used > 0 && !Ahead(x, s, max).value.Missing?
  {
    var first := if x.kind.None? then Item(s, max) else Body(x.kind.value, s, max);
    OuterIsSomething(x.frames, first.value, s[first.used..], max);
  }

  lemma {:induction false} OuterIsSomething(frames: seq<Frame>, v: Reply, s: seq<Byte>, max: int)
    requires FramesOk(frames) && Outer(frames, v, s, max).Done? && !v.Missing?
    ensures !Outer(frames, v, s, max).value.Missing?
    decreases |frames|
  {
    if frames != [] {
      var f := Last(frames);
      var others := Elements(f.total - |f.done| - 1, s, max);
      OuterIsSomething(Init(frames), Aggregate(f.kind, f.done + [v] + others.value), s[others.used..], max);
    }
  }

  // ------------------------------------------------------------------ more bytes change nothing

  lemma {:induction false} OuterStays(frames: seq<Frame>, v: Reply, s: seq<Byte>, t: seq<Byte>, max: int)
    requires FramesOk(frames) && Outer(frames, v, s, max) != Need
    ensures Outer(frames, v, s + t, max) == Outer(frames, v, s, max)
    decreases |frames|
  {
    if frames != [] {
      var f := Last(frames);
      var others := Elements(f.total - |f.done| - 1, s, max);
      ElementsStay(f.total - |f.done| - 1, s, s + t, max);
      if others.Done? {
        assert (s + t)[others.used..] == s[others.used..] + t;
        OuterStays(Init(frames), Aggregate(f.kind, f.done + [v] + others.value), s[others.used..], t, max);
      }
    }
  }

  lemma AheadStays(x: Standing, s: seq<Byte>, t: seq<Byte>, max: int)
    requires StandingOk(x) && Ahead(x, s, max) != Need
    ensures Ahead(x, s + t, max) == Ahead(x, s, max)
  {
    if x.Reading? {
      var first := if x.kind.None? then Item(s, max) else Body(x.kind.value, s, max);
      if x.kind.None? {
        ItemStays(s, s + t, max);
      } else {
        BodyStays(x.kind.value, s, s + t, max);
      }
      if first.Done? {
        assert (s + t)[first.used..] == s[first.used..] + t;
        OuterStays(x.frames, first.value, s[first.used..], t, max);
      }
    }
  }

  // --------------------------------------------------------------------------- steps of the reader

  /**
   Whatever bytes come after s, reading on from x at s gives what reading on from y gives, when y stands
   so many bytes further on.
   */
  ghost predicate Carries(x: Standing, s: seq<Byte>, y: Standing, s': seq<Byte>, max: int) {
    && StandingOk(x) && StandingOk(y) && |s'| <= |s| && s' == s[|s| - |s'|..]
    && forall t {:trigger Ahead(x, s + t, max)} :: Ahead(x, s + t, max) == Later(Ahead(y, s' + t, max), |s| - |s'|)
  }

  lemma CarriesNowhere(x: Standing, s: seq<Byte>, max: int)
    requires StandingOk(x)
    ensures Carries(x, s, x, s, max)
  {
  }

  lemma CarriesOn(x: Standing, s: seq<Byte>, y: Standing, s': seq<Byte>, z: Standing, s'': seq<Byte>, max: int)
    requires Carries(x, s, y, s', max) && Carries(y, s', z, s'', max)
    ensures Carries(x, s, z, s'', max)
  {
    forall t
      ensures Ahead(x, s + t, max) == Later(Ahead(z, s'' + t, max), |s| - |s''|)
    {
      assert Ahead(y, s' + t, max) == Later(Ahead(z, s'' + t, max), |s'| - |s''|);
    }
  }

  /** The type byte is read. */
  lemma TypeByteCarries(frames: seq<Frame>, s: seq<Byte>, max: int)
    requires FramesOk(frames) && s != [] && KindOf(s[0]).Some?
    ensures Carries(Reading(None, frames), s, Reading(KindOf(s[0]), frames), s[1..], max)
  {
    var kind := KindOf(s[0]).value;
    forall t
      ensures Ahead(Reading(None, frames), s + t, max) == Later(Ahead(Reading(Some(kind), frames), s[1..] + t, max), 1)
    {
      assert (s + t)[1..] == s[1..] + t;
      var body := Body(kind, s[1..] + t, max);
      if body.Done? {
        assert (s + t)[1 + body.used..] == (s[1..] + t)[body.used..];
      }
    }
  }

  /** Where the reader stands when an item is complete: aggregates that it completes are complete, too. */
  ghost function After(frames: seq<Frame>, v: Reply): (x: Standing)
    requires FramesOk(frames)
    ensures StandingOk(x)
    decreases |frames|
  {
    if frames == [] then Finished(v)
    else
      var f := Last(frames);
      if |f.done| + 1 == f.total then After(Init(frames), Aggregate(f.kind, f.done + [v]))
      else Reading(None, Init(frames) + [WithElement(f, v)])
  }

  lemma {:induction false} AfterIsOuter(frames: seq<Frame>, v: Reply, s: seq<Byte>, max: int)
    requires FramesOk(frames)
    ensures Outer(frames, v, s, max) == Ahead(After(frames, v), s, max)
    decreases |frames|
  {
    if frames != [] {
      var f := Last(frames);
      if |f.done| + 1 == f.total {
        assert f.done + [v] + [] == f.done + [v];
        AfterIsOuter(Init(frames), Aggregate(f.kind, f.done + [v]), s, max);
      } else {
        NextElement(Init(frames), WithElement(f, v), s, max);
      }
    }
  }

  /** To read an aggregate's next element is to read the elements that it lacks. */
  lemma NextElement(frames: seq<Frame>, f: Frame, s: seq<Byte>, max: int)
    requires FramesOk(frames) && f.Ok()
    ensures Ahead(Reading(None, frames + [f]), s, max)
         == Closed(frames, f.kind, f.done, Elements(f.total - |f.done|, s, max), s, max)
  {
    var first := Item(s, max);
    if first.Done? {
      var rest := s[first.used..];
      OuterIsClosed(frames, f, first.value, rest, max);
      ClosedByOneMore(frames, f.kind, f.done, f.total - |f.done|, s, rest, max);
    }
  }

  lemma OuterIsClosed(frames: seq<Frame>, f: Frame, v: Reply, s: seq<Byte>, max: int)
    requires FramesOk(frames) && f.Ok()
    ensures Outer(frames + [f], v, s, max)
         == Closed(frames, f.kind, f.done + [v], Elements(f.total - |f.done| - 1, s, max), s, max)
  {
    assert Init(frames + [f]) == frames && Last(frames + [f]) == f;
  }

  /** An item's bytes are read. */
  lemma ItemCarries(kind: Kind, frames: seq<Frame>, s: seq<Byte>, max: int)
    requires FramesOk(frames) && Body(kind, s, max).Done?
    ensures Carries(Reading(Some(kind), frames), s, After(frames, Body(kind, s, max).value),
                    s[Body(kind, s, max).used..], max)
  {
    var body := Body(kind, s, max);
    var x, y, s' := Reading(Some(kind), frames), After(frames, body.value), s[body.used..];
    forall t
      ensures Ahead(x, s + t, max) == Later(Ahead(y, s' + t, max), body.used)
    {
      BodyStays(kind, s, s + t, max);
      assert (s + t)[body.used..] == s' + t;
      ItemThenOuter(kind, frames, s + t, s' + t, max);
    }
  }

  lemma ItemThenOuter(kind: Kind, frames: seq<Frame>, s: seq<Byte>, rest: seq<Byte>, max: int)
    requires FramesOk(frames) && Body(kind, s, max).Done? && rest == s[Body(kind, s, max).used..]
    ensures Ahead(Reading(Some(kind), frames), s, max)
         == Later(Ahead(After(frames, Body(kind, s, max).value), rest, max), Body(kind, s, max).used)
  {
    AfterIsOuter(frames, Body(kind, s, max).value, rest, max);
  }

  /** An aggregate's header is read, and its first element is next. */
  lemma HeaderCarries(kind: Kind, frames: seq<Frame>, s: seq<Byte>, max: int)
    requires FramesOk(frames) && kind.IsAggregate()
    requires AggregateHeader(kind, s, max).Done? && AggregateHeader(kind, s, max).value > 0
    ensures Carries(Reading(Some(kind), frames), s,
                    Reading(None, frames + [Frame(kind, [], AggregateHeader(kind, s, max).value)]),
                    s[AggregateHeader(kind, s, max).used..], max)
  {
    var h := AggregateHeader(kind, s, max);
    forall t
      ensures Ahead(Reading(Some(kind), frames), s + t, max)
           == Later(Ahead(Reading(None, frames + [Frame(kind, [], h.value)]), s[h.used..] + t, max), h.used)
    {
      HeaderStays(s, s + t, BadMultiBulkLength);
      assert (s + t)[h.used..] == s[h.used..] + t;
      FirstElementNext(kind, frames, s + t, s[h.used..] + t, max);
    }
  }

  lemma FirstElementNext(kind: Kind, frames: seq<Frame>, s: seq<Byte>, rest: seq<Byte>, max: int)
    requires FramesOk(frames) && kind.IsAggregate()
    requires AggregateHeader(kind, s, max).Done? && AggregateHeader(kind, s, max).value > 0
    requires rest == s[AggregateHeader(kind, s, max).used..]
    ensures Ahead(Reading(Some(kind), frames), s, max)
         == Later(Ahead(Reading(None, frames + [Frame(kind, [], AggregateHeader(kind, s, max).value)]), rest, max),
                  AggregateHeader(kind, s, max).used)
  {
    NextElement(frames, Frame(kind, [], AggregateHeader(kind, s, max).value), rest, max);
    OpenedIsClosed(kind, frames, s, rest, max);
  }

  lemma OpenedIsClosed(kind: Kind, frames: seq<Frame>, s: seq<Byte>, rest: seq<Byte>, max: int)
    requires FramesOk(frames) && kind.IsAggregate()
    requires AggregateHeader(kind, s, max).Done? && AggregateHeader(kind, s, max).value > 0
    requires rest == s[AggregateHeader(kind, s, max).used..]
    ensures Ahead(Reading(Some(kind), frames), s, max)
         == Later(Closed(frames, kind, [], Elements(AggregateHeader(kind, s, max).value, rest, max), rest, max),
                  AggregateHeader(kind, s, max).used)
  {
    var h := AggregateHeader(kind, s, max);
    assert Body(kind, s, max) == Boxed(kind, Elements(h.value, rest, max), h.used);
    ClosedBoxed(kind, frames, Elements(h.value, rest, max), h.used, s, rest, max);
  }

  lemma ClosedBoxed(kind: Kind, frames: seq<Frame>, elements: Outcome<seq<Reply>>, used: nat, s: seq<Byte>,
                    rest: seq<Byte>, max: int)
    requires FramesOk(frames) && used <= |s| && rest == s[used..] && (elements.Done? ==> elements.used <= |rest|)
    ensures Later(Closed(frames, kind, [], elements, rest, max), used)
         == Leaving(frames, Boxed(kind, elements, used), s, max)
  {
    if elements.Done? {
      assert [] + elements.value == elements.value;
      assert s[used + elements.used..] == rest[elements.used..];
    }
  }

  // --------------------------------------------------------------------- the tree that is built

  function Missings(n: nat): (s: seq<Reply>)
    ensures |s| == n && forall i | 0 <= i < n :: s[i] == Missing
  {
    seq(n, _ => Missing)
  }

  /** An aggregate as it stands in memory: complete elements, one in the works, and null pointers. */
  function Node(f: Frame, v: Reply): (r: Reply)
    requires |f.done| < f.total
    ensures r.Aggregate? && |r.elements| == f.total
  {
    Aggregate(f.kind, f.done + [v] + Missings(f.total - |f.done| - 1))
  }

  /** The aggregates of the stack, outermost first, each in the one before; v is where the next item goes. */
  ghost function Tree(frames: seq<Frame>, v: Reply): Reply
    requires FramesOk(frames)
  {
    if frames == [] then v else Node(frames[0], Tree(frames[1..], v))
  }

  /** The indices that lead from the root to the item in the works. */
  ghost function Path(frames: seq<Frame>): seq<nat> {
    seq(|frames|, i requires 0 <= i < |frames| => |frames[i].done|)
  }

  predicate Reaches(r: Reply, path: seq<nat>)
    decreases |path|
  {
    path == [] || (r.Aggregate? && path[0] < |r.elements| && Reaches(r.elements[path[0]], path[1..]))
  }

  /** An object is put where a path leads to. */
  function PutAt(r: Reply, path: seq<nat>, v: Reply): Reply
    requires Reaches(r, path)
    decreases |path|
  {
    if path == [] then v
    else Aggregate(r.kind, r.elements[path[0] := PutAt(r.elements[path[0]], path[1..], v)])
  }

  /** The path of the stack leads to the item in the works. */
  lemma {:induction false} PutInTree(frames: seq<Frame>, u: Reply, v: Reply)
    requires FramesOk(frames)
    ensures Reaches(Tree(frames, u), Path(frames)) && PutAt(Tree(frames, u), Path(frames), v) == Tree(frames, v)
    decreases |frames|
  {
    if frames != [] {
      PutInTree(frames[1..], u, v);
      assert Path(frames)[1..] == Path(frames[1..]);
      var f, x, y := frames[0], Tree(frames[1..], u), Tree(frames[1..], v);
      assert Node(f, x).elements[|f.done|] == x;
      assert Node(f, x).elements[|f.done| := y] == Node(f, y).elements;
    }
  }

  /** The innermost aggregate is an item of the one around it. */
  lemma {:induction false} TreeOfInit(frames: seq<Frame>, v: Reply)
    requires FramesOk(frames) && frames != []
    ensures Tree(frames, v) == Tree(Init(frames), Node(Last(frames), v))
    decreases |frames|
  {
    if |frames| > 1 {
      TreeOfInit(frames[1..], v);
      assert Init(frames)[1..] == Init(frames[1..]);
    }
  }

  /** The last element completes an aggregate. */
  lemma TreeCompleted(frames: seq<Frame>, v: Reply)
    requires FramesOk(frames) && frames != [] && |Last(frames).done| + 1 == Last(frames).total
    ensures Tree(frames, v) == Tree(Init(frames), Aggregate(Last(frames).kind, Last(frames).done + [v]))
  {
    TreeOfInit(frames, v);
    var f := Last(frames);
    assert f.done + [v] + Missings(0) == f.done + [v];
  }

  /** After another element the next one is in the works. */
  lemma TreeExtended(frames: seq<Frame>, v: Reply)
    requires FramesOk(frames) && frames != [] && |Last(frames).done| + 1 < Last(frames).total
    ensures Tree(frames, v) == Tree(Init(frames) + [WithElement(Last(frames), v)], Missing)
  {
    var f := Last(frames);
    var frames' := Init(frames) + [WithElement(f, v)];
    TreeOfInit(frames, v);
    TreeOfInit(frames', Missing);
    assert Init(frames') == Init(frames) && Last(frames') == WithElement(f, v);
    var n := f.total - |f.done|;
    assert [v] + Missings(n - 1) == [v] + [Missing] + Missings(n - 2);
    assert f.done + [v] + Missings(n - 1) == f.done + [v] + [Missing] + Missings(n - 2);
  }

  /** A new aggregate's first element is in the works. */
  lemma TreeOpened(frames: seq<Frame>, kind: Kind, n: nat)
    requires FramesOk(frames) && kind.IsAggregate() && n > 0
    ensures Tree(frames, Aggregate(kind, Missings(n))) == Tree(frames + [Frame(kind, [], n)], Missing)
  {
    var frames' := frames + [Frame(kind, [], n)];
    assert Init(frames') == frames && Last(frames') == Frame(kind, [], n);
    TreeOfInit(frames', Missing);
    assert [] + [Missing] + Missings(n - 1) == Missings(n);
  }
}
