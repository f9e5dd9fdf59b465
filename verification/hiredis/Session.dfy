/**
 A client's session: bytes are fed to a reader as they come, and after each feed the reader is asked for
 replies until it has no more.  What the client gets depends on the bytes, and not on how they were cut.
 */
module Session {
  import opened Bytes
  import opened Options
  import opened Grammar
  import opened Stack
  import opened Reader

  /** The replies of a stream, and the error that ends it, if there is one. */
  datatype Replies = Replies(all: seq<Reply>, error: Option<ProtocolError>)

  function Prepended(rs: seq<Reply>, more: Replies): Replies {
    Replies(rs + more.all, more.error)
  }

  /** The meaning of a stream: replies up to the first that is wrong or not complete. */
  function AllReplies(s: seq<Byte>, max: int): Replies
    decreases |s|
  {
    match Item(s, max)
    case Need => Replies([], None)
    case Fail(e) => Replies([], Some(e))
    case Done(v, used) => Prepended([v], AllReplies(s[used..], max))
  }

  /** The meaning of the bytes ahead of a reader that may be within a reply. */
  ghost function RepliesFrom(x: Standing, s: seq<Byte>, max: int): Replies
    requires StandingOk(x)
  {
    match Ahead(x, s, max)
    case Need => Replies([], None)
    case Fail(e) => Replies([], Some(e))
    case Done(v, used) => Prepended([v], AllReplies(s[used..], max))
  }

  /**
   The client's account is right: whatever comes, the stream as a whole means the replies that the client
   has, and then what the reader has before it.
   */
  ghost predicate Accounted(fed: seq<Byte>, replies: seq<Reply>, x: Standing, s: seq<Byte>, max: int) {
    && StandingOk(x)
    && forall t {:trigger AllReplies(fed + t, max)} ::
         AllReplies(fed + t, max) == Prepended(replies, RepliesFrom(x, s + t, max))
  }

  /** The account is closed by an error. */
  ghost predicate Ended(fed: seq<Byte>, replies: seq<Reply>, e: ProtocolError, max: int) {
    forall t {:trigger AllReplies(fed + t, max)} :: AllReplies(fed + t, max) == Replies(replies, Some(e))
  }

  lemma FedMore(fed: seq<Byte>, replies: seq<Reply>, x: Standing, s: seq<Byte>, bytes: seq<Byte>, max: int)
    requires Accounted(fed, replies, x, s, max)
    ensures Accounted(fed + bytes, replies, x, s + bytes, max)
  {
    forall t
      ensures AllReplies(fed + bytes + t, max) == Prepended(replies, RepliesFrom(x, s + bytes + t, max))
    {
      assert fed + bytes + t == fed + (bytes + t) && s + bytes + t == s + (bytes + t);
    }
  }

  lemma FedAfterError(fed: seq<Byte>, replies: seq<Reply>, e: ProtocolError, bytes: seq<Byte>, max: int)
    requires Ended(fed, replies, e, max)
    ensures Ended(fed + bytes, replies, e, max)
  {
    forall t
      ensures AllReplies(fed + bytes + t, max) == Replies(replies, Some(e))
    {
      assert fed + bytes + t == fed + (bytes + t);
    }
  }

  lemma GotReply(fed: seq<Byte>, replies: seq<Reply>, x: Standing, s: seq<Byte>, v: Reply, used: nat, max: int)
    requires Accounted(fed, replies, x, s, max) && Ahead(x, s, max) == Done(v, used)
    ensures Accounted(fed, replies + [v], IDLE, s[used..], max)
  {
    forall t
      ensures AllReplies(fed + t, max) == Prepended(replies + [v], RepliesFrom(IDLE, s[used..] + t, max))
    {
      assert AllReplies(fed + t, max) == Prepended(replies, RepliesFrom(x, s + t, max));
      ReplyAndRest(x, s, t, v, used, max);
      PrependedTwice(replies, v, RepliesFrom(IDLE, s[used..] + t, max));
    }
  }

  lemma PrependedTwice(rs: seq<Reply>, v: Reply, more: Replies)
    ensures Prepended(rs, Prepended([v], more)) == Prepended(rs + [v], more)
  {
    assert rs + ([v] + more.all) == rs + [v] + more.all;
  }

  lemma ReplyAndRest(x: Standing, s: seq<Byte>, t: seq<Byte>, v: Reply, used: nat, max: int)
    requires StandingOk(x) && Ahead(x, s, max) == Done(v, used)
    ensures RepliesFrom(x, s + t, max) == Prepended([v], RepliesFrom(IDLE, s[used..] + t, max))
  {
    AheadStays(x, s, t, max);
    assert (s + t)[used..] == s[used..] + t;
    IdleReadsAnItem(s[used..] + t, max);
  }

  lemma GotError(fed: seq<Byte>, replies: seq<Reply>, x: Standing, s: seq<Byte>, e: ProtocolError, max: int)
    requires Accounted(fed, replies, x, s, max) && Ahead(x, s, max) == Fail(e)
    ensures Ended(fed, replies, e, max)
  {
    forall t
      ensures AllReplies(fed + t, max) == Replies(replies, Some(e))
    {
      AheadStays(x, s, t, max);
    }
  }

  lemma WentOn(fed: seq<Byte>, replies: seq<Reply>, x: Standing, s: seq<Byte>, y: Standing, s': seq<Byte>, max: int)
    requires Accounted(fed, replies, x, s, max) && Carries(x, s, y, s', max)
    ensures Accounted(fed, replies, y, s', max)
  {
    forall t
      ensures AllReplies(fed + t, max) == Prepended(replies, RepliesFrom(y, s' + t, max))
    {
      assert AllReplies(fed + t, max) == Prepended(replies, RepliesFrom(x, s + t, max));
      SameReplies(x, s, y, s', t, max);
    }
  }

  lemma SameReplies(x: Standing, s: seq<Byte>, y: Standing, s': seq<Byte>, t: seq<Byte>, max: int)
    requires Carries(x, s, y, s', max)
    ensures RepliesFrom(x, s + t, max) == RepliesFrom(y, s' + t, max)
  {
    var n := |s| - |s'|;
    assert Ahead(x, s + t, max) == Later(Ahead(y, s' + t, max), n);
    assert s' + t == (s + t)[n..];
    LaterReplies(x, s + t, y, s' + t, n, max);
  }

  lemma LaterReplies(x: Standing, s: seq<Byte>, y: Standing, s': seq<Byte>, n: nat, max: int)
    requires StandingOk(x) && StandingOk(y) && n <= |s| && s' == s[n..]
             && Ahead(x, s, max) == Later(Ahead(y, s', max), n)
    ensures RepliesFrom(x, s, max) == RepliesFrom(y, s', max)
  {
    if Ahead(y, s', max).Done? {
      assert s[Ahead(x, s, max).used..] == s'[Ahead(y, s', max).used..];
    }
  }

  /** All that a reader gives when it is asked until it has no more. */
  method Drain(reader: Reader, ghost fed: seq<Byte>, before: seq<Reply>) returns (replies: seq<Reply>)
    requires reader.Valid() && reader.err == None
    requires Accounted(fed, before, reader.Start(), reader.Unread(), reader.maxelements)
    modifies reader
    ensures reader.Valid()
    ensures match reader.err
            case Some(e) => Ended(fed, replies, e, reader.maxelements)
            case None =>
              && Accounted(fed, replies, reader.Start(), reader.Unread(), reader.maxelements)
              && Ahead(reader.Start(), reader.Unread(), reader.maxelements) == Need
  {
    replies := before;
    var more := true;
    while more
      invariant reader.Valid() && (reader.err.Some? ==> !more)
      invariant match reader.err
                case Some(e) => Ended(fed, replies, e, reader.maxelements)
                case None =>
                  && Accounted(fed, replies, reader.Start(), reader.Unread(), reader.maxelements)
                  && (!more ==> Ahead(reader.Start(), reader.Unread(), reader.maxelements) == Need)
      decreases more, |reader.Unread()|
    {
      ghost var x, s := reader.Start(), reader.Unread();
      var ok, r := reader.GetReply();
      match Ahead(x, s, reader.maxelements) {
        case Fail(e) => GotError(fed, replies, x, s, e, reader.maxelements);
        case Done(v, used) =>
          GotReply(fed, replies, x, s, v, used, reader.maxelements);
          RepliesAreSomething(x, s, reader.maxelements);
        case Need =>
          WentOn(fed, replies, x, s, reader.Start(), reader.Unread(), reader.maxelements);
          CarriesNow(x, s, reader.Start(), reader.Unread(), reader.maxelements);
      }
      if ok && r != Missing {
        replies := replies + [r];
      } else {
        more := false;
      }
    }
  }

  function Concat(chunks: seq<seq<Byte>>): seq<Byte> {
    if chunks == [] then [] else Concat(chunks[..|chunks| - 1]) + chunks[|chunks| - 1]
  }

  /**
   A session with a new reader: whichever way the stream comes in chunks, the client gets the replies that
   the grammar finds in the stream, and its error.
   */
  method Run(chunks: seq<seq<Byte>>, large: seq<bool>, maxelements: int) returns (r: Replies)
    requires |large| == |chunks|
    ensures r == AllReplies(Concat(chunks), maxelements)
  {
    var reader := new Reader(maxelements);
    var replies: seq<Reply> := [];
    ghost var fed: seq<Byte> := [];
    NewAccount(maxelements);
    for i := 0 to |chunks|
      invariant reader.Valid() && reader.maxelements == maxelements && fed == Concat(chunks[..i])
      invariant match reader.err
                case Some(e) => Ended(fed, replies, e, maxelements)
                case None =>
                  && Accounted(fed, replies, reader.Start(), reader.Unread(), maxelements)
                  && Ahead(reader.Start(), reader.Unread(), maxelements) == Need
    {
      assert chunks[..i + 1][..i] == chunks[..i];
      ghost var x, s, before := reader.Start(), reader.Unread(), fed;
      fed := fed + chunks[i];
      var ok := reader.Feed(chunks[i], large[i]);
      if ok {
        FedMore(before, replies, x, s, chunks[i], maxelements);
        replies := Drain(reader, fed, replies);
      } else {
        FedAfterError(before, replies, reader.err.value, chunks[i], maxelements);
      }
    }
    assert chunks[..|chunks|] == chunks;
    Closing(fed, replies, reader.err, reader.Start(), reader.Unread(), maxelements);
    return Replies(replies, reader.err);
  }

  lemma NewAccount(max: int)
    ensures Accounted([], [], IDLE, [], max) && Ahead(IDLE, [], max) == Need
  {
    NothingIsTooLittle(IDLE, max);
    forall t: seq<Byte>
      ensures AllReplies([] + t, max) == Prepended([], RepliesFrom(IDLE, [] + t, max))
    {
      IdleReadsAnItem([] + t, max);
      assert [] + AllReplies([] + t, max).all == AllReplies([] + t, max).all;
    }
  }

  lemma Closing(fed: seq<Byte>, replies: seq<Reply>, err: Option<ProtocolError>, x: Standing, s: seq<Byte>, max: int)
    requires match err
             case Some(e) => Ended(fed, replies, e, max)
             case None => Accounted(fed, replies, x, s, max) && Ahead(x, s, max) == Need
    ensures AllReplies(fed, max) == Replies(replies, err)
  {
    assert fed + [] == fed && s + [] == s;
    assert AllReplies(fed + [], max) == AllReplies(fed, max);
    if err == None {
      assert RepliesFrom(x, s + [], max) == Replies([], None);
      assert replies + [] == replies;
    }
  }

  /** Replies that are written one after another are read back one after another. */
  lemma {:induction false} SessionReadsBack(rs: seq<Reply>, max: int)
    requires AllSendable(rs, max)
    ensures AllReplies(AllWritten(rs), max) == Replies(rs, None)
    decreases rs
  {
    if rs != [] {
      var rest := AllWritten(rs[1..]);
      ReadsBack(rs[0], rest, max);
      assert AllWritten(rs)[|Written(rs[0])|..] == rest;
      SessionReadsBack(rs[1..], max);
      assert rs == [rs[0]] + rs[1..];
    }
  }
}
