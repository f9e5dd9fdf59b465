/**
 The incremental reader: a buffer, a cursor and a stack of tasks, moved on by one item at a time as far as
 the bytes go, and building the reply in place.  It reads what the grammar says, however the bytes come.
 */
module Reader {
  import opened Bytes
  import opened Options
  import opened Decimal
  import opened Grammar
  import opened Stack

  /** How much the task stack grows when it needs to. */
  const REDIS_READER_STACK_SIZE := 9

  /** So many bytes must have been read before they are discarded. */
  const DISCARD := 1024

  /** A redisReadTask; kind is the type, or None for -1. */
  datatype Task = Task(kind: Option<Kind>, elements: int, idx: int)

  // ------------------------------------------------------------------------------------- lines

  method MemChr(s: seq<Byte>, c: Byte, from: nat, n: nat) returns (r: Option<nat>)
    requires from + n <= |s|
    ensures r.Some? ==> from <= r.value < from + n && s[r.value] == c && forall i | from <= i < r.value :: s[i] != c
    ensures r.None? ==> forall i | from <= i < from + n :: s[i] != c
  {
    for i := from to from + n
      invariant forall k | from <= k < i :: s[k] != c
    {
      if s[i] == c {
        return Some(i);
      }
    }
    return None;
  }

  /** seekNewline, for the bytes from a position on. */
  method SeekNewline(s: seq<Byte>, from: nat) returns (r: Option<nat>)
    requires from <= |s|
    ensures r == Newline(s[from..])
  {
    var len: nat := |s| - from;
    if len < 2 {
      return None;
    }
    len := len - 1;
    var at: nat := from;
    var ret := MemChr(s, CR, at, len);
    while ret.Some?
      invariant from <= at && at + len == |s| - 1
      invariant forall i | from <= i < at :: !NewlineAt(s, i)
      invariant ret.Some? ==> at <= ret.value < at + len && s[ret.value] == CR
                                && forall i | at <= i < ret.value :: s[i] != CR
      invariant ret.None? ==> forall i | at <= i < at + len :: s[i] != CR
      decreases len
    {
      if s[ret.value + 1] == LF {
        assert forall i :: NewlineAt(s[from..], i) == (i >= 0 && NewlineAt(s, from + i));
        NewlineIs(s[from..], ret.value - from);
        return Some(ret.value - from);
      }
      var start := ret.value + 1;
      len := len - (start - at);
      at := start;
      ret := MemChr(s, CR, at, len);
    }
    assert forall i :: NewlineAt(s[from..], i) == (i >= 0 && NewlineAt(s, from + i));
    return None;
  }

  /** What processLineItem makes of a line. */
  method ReadLineItem(kind: Kind, line: seq<Byte>) returns (c: Content)
    requires kind.IsLine()
    ensures c == LineContent(kind, line)
  {
    if kind.Integer? {
      var v := String2ll(line);
      return if v.None? then Bad(BadInteger) else Good(IntegerReply(v.value));
    } else if kind.Double? {
      if |line| >= DOUBLE_BUF {
        return Bad(DoubleTooLarge);
      }
      var d := DoubleOf(line);
      return if d.None? then Bad(BadDouble) else Good(DoubleReply(d.value, line));
    } else if kind.Nil? {
      return if |line| != 0 then Bad(BadNil) else Good(NilReply);
    } else if kind.Bool? {
      if |line| != 1 || line[0] !in BOOLS {
        return Bad(BadBool);
      }
      return Good(BoolReply(line[0] in TRUES));
    } else if kind.Bignum? {
      for i := 0 to |line|
        invariant forall k: nat | k < i :: BignumDigit(line, k)
      {
        if i == 0 && line[0] == MINUS {
          continue;
        }
        if line[i] < ZERO || line[i] > NINE {
          assert !BignumDigit(line, i);
          return Bad(BadBignum);
        }
      }
    } else {
      for i := 0 to |line|
        invariant forall k | 0 <= k < i :: line[k] != CR && line[k] != LF
      {
        if line[i] == CR || line[i] == LF {
          return Bad(BadSimpleString);
        }
      }
    }
    return Good(Text(kind, line));
  }

  /** What processBulkItem finds at the cursor. */
  method ReadBulkItem(kind: Kind, buf: seq<Byte>, pos: nat) returns (r: Outcome<Reply>)
    requires kind.IsBulk() && pos <= |buf|
    ensures r == BulkItem(kind, buf[pos..])
  {
    var s := SeekNewline(buf, pos);
    if s.None? {
      return Need;
    }
    var bytelen: nat := s.value + 2;
    var len := String2ll(buf[pos..][..bytelen - 2]);
    if len.None? {
      return Fail(BadBulkLength);
    }
    if len.value < -1 {
      return Fail(BulkLengthOutOfRange);
    }
    if len.value == -1 {
      return Done(NilReply, bytelen);
    }
    bytelen := bytelen + len.value + 2;
    if pos + bytelen > |buf| {
      return Need;
    }
    if kind.Verb? && (len.value < 4 || buf[pos + s.value + 5] != COLON) {
      return Fail(BadVerbatim);
    }
    return Done(StringOf(kind, buf[pos..][s.value + 2..s.value + 2 + len.value]), bytelen);
  }

  /** What processAggregateItem finds at the cursor. */
  method ReadAggregateHeader(kind: Kind, buf: seq<Byte>, pos: nat, maxelements: int) returns (r: Outcome<int>)
    requires pos <= |buf|
    ensures r == AggregateHeader(kind, buf[pos..], maxelements)
  {
    var s := SeekNewline(buf, pos);
    if s.None? {
      return Need;
    }
    var n := String2ll(buf[pos..][..s.value]);
    if n.None? {
      return Fail(BadMultiBulkLength);
    }
    var elements := n.value;
    if elements < -1 || (maxelements > 0 && elements > maxelements) {
      return Fail(MultiBulkLengthOutOfRange);
    }
    if elements != -1 && kind.Map? {
      elements := elements * 2;
    }
    return Done(elements, s.value + 2);
  }

  // -------------------------------------------------------------------------------- the reader

  /** The tasks up to the current one say what the frames say. */
  ghost predicate StackOk(task: seq<Task>, ridx: int, frames: seq<Frame>) {
    && |frames| == ridx < |task| && FramesOk(frames)
    && forall i | 0 <= i < ridx :: TaskOk(task, frames, i)
  }

  ghost predicate TaskOk(task: seq<Task>, frames: seq<Frame>, i: nat)
    requires i < |frames| && i + 1 < |task|
  {
    task[i].kind == Some(frames[i].kind) && task[i].elements == frames[i].total && task[i + 1].idx == |frames[i].done|
  }

  /** What one step of the reader comes to. */
  ghost predicate Processed(x: Standing, s: seq<Byte>, y: Standing, s': seq<Byte>, ok: bool,
                            err: Option<ProtocolError>, max: int)
    requires StandingOk(x)
  {
    if err.Some? then !ok && Ahead(x, s, max) == Fail(err.value)
    else Carries(x, s, y, s', max) && (!ok ==> y.Reading? && Ahead(y, s', max) == Need)
  }

  lemma CarriesNow(x: Standing, s: seq<Byte>, y: Standing, s': seq<Byte>, max: int)
    requires Carries(x, s, y, s', max)
    ensures Ahead(x, s, max) == Later(Ahead(y, s', max), |s| - |s'|)
  {
    assert s + [] == s && s' + [] == s';
    assert Ahead(x, s + [], max) == Later(Ahead(y, s' + [], max), |s| - |s'|);
  }

  lemma ProcessedOn(x: Standing, s: seq<Byte>, y: Standing, s': seq<Byte>, z: Standing, s'': seq<Byte>,
                    ok: bool, err: Option<ProtocolError>, max: int)
    requires Carries(x, s, y, s', max) && Processed(y, s', z, s'', ok, err, max)
    ensures Processed(x, s, z, s'', ok, err, max)
  {
    if err.Some? {
      CarriesNow(x, s, y, s', max);
    } else {
      CarriesOn(x, s, y, s', z, s'', max);
    }
  }

  /** redisReader, with the reply functions that build redisReply objects. */
  class Reader {
    var err: Option<ProtocolError>
    var buf: seq<Byte>
    var pos: nat
    const maxelements: int
    var task: seq<Task>
    var ridx: int
    var reply: Reply
    ghost var frames: seq<Frame>

    /** Between two items. */
    ghost predicate Steady()
      reads this
    {
      && pos <= |buf| && -1 <= ridx < |task| && task != []
      && if ridx == -1 then frames == [] else StackOk(task, ridx, frames) && reply == Tree(frames, Missing)
    }

    /** Between two calls. */
    ghost predicate Valid()
      reads this
    {
      Steady() && (err.Some? ==> Stopped()) && (ridx == -1 ==> reply == Missing)
    }

    /** After an error. */
    ghost predicate Stopped()
      reads this
    {
      buf == [] && ridx == -1 && reply == Missing
    }

    function Unread(): seq<Byte>
      requires pos <= |buf|
      reads this
    {
      buf[pos..]
    }

    ghost function Where(): (x: Standing)
      requires Steady()
      reads this
      ensures StandingOk(x)
    {
      if ridx == -1 then Finished(reply) else Reading(task[ridx].kind, frames)
    }

    /** Where the next call starts. */
    ghost function Start(): (x: Standing)
      requires Steady()
      reads this
      ensures StandingOk(x)
    {
      if ridx == -1 then IDLE else Where()
    }

    constructor (maxelements: int)
      ensures Valid() && err == None && Start() == IDLE && Unread() == [] && this.maxelements == maxelements
    {
      err, buf, pos, ridx, reply := None, [], 0, -1, Missing;
      task := seq(REDIS_READER_STACK_SIZE, _ => Task(None, 0, 0));
      this.maxelements := maxelements;
      frames := [];
    }

    /** __redisReaderSetError. */
    method SetError(e: ProtocolError)
      requires Steady()
      modifies this
      ensures Steady() && Stopped() && err == Some(e)
    {
      reply := Missing;
      buf, pos := [], 0;
      ridx := -1;
      err := Some(e);
      frames := [];
    }

    /** An object goes to its element of the parent, or becomes the reply. */
    method Put(obj: Reply)
      requires ridx >= 0 && StackOk(task, ridx, frames) && reply == Tree(frames, Missing)
      modifies this`reply
      ensures reply == Tree(frames, obj)
    {
      if ridx == 0 {
        reply := obj;
      } else {
        PathIsPath(task, ridx, frames);
        PutInTree(frames, Missing, obj);
        reply := PutAt(reply, PathTo(task, ridx), obj);
      }
    }

    /** moveToNextTask, after the object v has been put in its place. */
    method MoveToNextTask(ghost v: Reply)
      requires pos <= |buf| && ridx >= 0 && StackOk(task, ridx, frames) && reply == Tree(frames, v)
      modifies this`task, this`ridx, this`frames
      ensures Steady() && Where() == After(old(frames), v)
    {
      ghost var u := v;
      while ridx >= 0
        invariant ridx >= 0 && StackOk(task, ridx, frames) && reply == Tree(frames, u)
        invariant After(frames, u) == After(old(frames), v)
        decreases ridx
      {
        if ridx == 0 {
          ridx := ridx - 1;
          return;
        }
        var cur, prv := task[ridx], task[ridx - 1];
        assert TaskOk(task, frames, ridx - 1) && prv.kind.value.IsAggregate();
        ghost var f, outer := Last(frames), Init(frames);
        if cur.idx == prv.elements - 1 {
          TreeCompleted(frames, u);
          StackPopped(task, ridx, frames);
          ridx := ridx - 1;
          frames, u := outer, Aggregate(f.kind, f.done + [u]);
        } else {
          assert cur.idx < prv.elements;
          TreeExtended(frames, u);
          StackMoved(task, ridx, frames, u);
          task := task[ridx := Task(None, -1, cur.idx + 1)];
          frames := outer + [WithElement(f, u)];
          return;
        }
      }
    }

    /** The object of an item whose bytes have been read is put in its place, and the next task begins. */
    method Complete(kind: Kind, obj: Reply, ghost s: seq<Byte>)
      requires Steady() && ridx >= 0 && task[ridx].kind == Some(kind) && |Unread()| <= |s|
      requires Unread() == s[|s| - |Unread()|..] && Body(kind, s, maxelements) == Done(obj, |s| - |Unread()|)
      modifies this`reply, this`task, this`ridx, this`frames
      ensures Steady() && Unread() == old(Unread()) && Carries(old(Where()), s, Where(), Unread(), maxelements)
    {
      ghost var x, y, s' := Where(), After(frames, obj), Unread();
      assert Carries(x, s, y, s', maxelements) by {
        ItemCarries(kind, frames, s, maxelements);
      }
      Put(obj);
      MoveToNextTask(obj);
      assert Where() == y && Unread() == s';
    }

    /** readLine. */
    method ReadLine() returns (line: Option<seq<Byte>>)
      requires pos <= |buf|
      modifies this`pos
      ensures pos <= |buf|
      ensures match Newline(old(Unread()))
              case None => line == None && pos == old(pos)
              case Some(k) => line == Some(old(Unread())[..k]) && pos == old(pos) + k + 2
    {
      var s := SeekNewline(buf, pos);
      if s.None? {
        return None;
      }
      line := Some(buf[pos..][..s.value]);
      pos := pos + s.value + 2;
    }

    /** processLineItem. */
    method ProcessLineItem(kind: Kind) returns (ok: bool)
      requires Steady() && ridx >= 0 && err == None && task[ridx].kind == Some(kind) && kind.IsLine()
      modifies this
      ensures Steady() && (err.Some? ==> Stopped()) && (ok ==> |Unread()| < |old(Unread())|)
      ensures Processed(old(Where()), old(Unread()), Where(), Unread(), ok, err, maxelements)
    {
      ghost var s := Unread();
      var line := ReadLine();
      if line.None? {
        CarriesNowhere(Where(), s, maxelements);
        return false;
      }
      var c := ReadLineItem(kind, line.value);
      if c.Bad? {
        SetError(c.error);
        return false;
      }
      Complete(kind, c.reply, s);
      return true;
    }

    /** processBulkItem. */
    method ProcessBulkItem(kind: Kind) returns (ok: bool)
      requires Steady() && ridx >= 0 && err == None && task[ridx].kind == Some(kind) && kind.IsBulk()
      modifies this
      ensures Steady() && (err.Some? ==> Stopped()) && (ok ==> |Unread()| < |old(Unread())|)
      ensures Processed(old(Where()), old(Unread()), Where(), Unread(), ok, err, maxelements)
    {
      ghost var s := Unread();
      var item := ReadBulkItem(kind, buf, pos);
      if item.Need? {
        CarriesNowhere(Where(), s, maxelements);
        return false;
      }
      if item.Fail? {
        SetError(item.error);
        return false;
      }
      pos := pos + item.used;
      assert |Unread()| < |s|;
      Complete(kind, item.value, s);
      return true;
    }

    /** redisReaderGrow. */
    method Grow()
      requires Steady()
      modifies this`task
      ensures Steady() && |task| == |old(task)| + REDIS_READER_STACK_SIZE && old(task) <= task
    {
      StackGrown(task, ridx, frames, seq(REDIS_READER_STACK_SIZE, _ => Task(None, 0, 0)));
      task := task + seq(REDIS_READER_STACK_SIZE, _ => Task(None, 0, 0));
    }

    /** The stack gets a task for the first element of the current one. */
    method Push(kind: Kind, elements: nat)
      requires pos <= |buf| && 0 <= ridx < |task| - 1 && StackOk(task, ridx, frames) && task[ridx].kind == Some(kind)
      requires kind.IsAggregate() && elements > 0 && reply == Tree(frames, Aggregate(kind, Missings(elements)))
      modifies this`task, this`ridx, this`frames
      ensures Steady() && Where() == Reading(None, old(frames) + [Frame(kind, [], elements)])
    {
      TreeOpened(frames, kind, elements);
      StackPushed(task, ridx, frames, kind, elements);
      task := task[ridx := task[ridx].(elements := elements)];
      ridx := ridx + 1;
      task := task[ridx := Task(None, -1, 0)];
      frames := frames + [Frame(kind, [], elements)];
    }

    /** processAggregateItem. */
    method ProcessAggregateItem(kind: Kind) returns (ok: bool)
      requires Steady() && ridx >= 0 && err == None && task[ridx].kind == Some(kind) && kind.IsAggregate()
      modifies this
      ensures Steady() && (err.Some? ==> Stopped()) && (ok ==> |Unread()| < |old(Unread())|)
      ensures Processed(old(Where()), old(Unread()), Where(), Unread(), ok, err, maxelements)
    {
      ghost var s := Unread();
      if ridx == |task| - 1 {
        Grow();
      }
      var header := ReadAggregateHeader(kind, buf, pos, maxelements);
      if header.Need? {
        CarriesNowhere(Where(), s, maxelements);
        return false;
      }
      if header.Fail? {
        SetError(header.error);
        return false;
      }
      pos := pos + header.used;
      assert |Unread()| < |s|;
      Enter(kind, header.value, s);
      return true;
    }

    /** An aggregate's header has been read: its object is made, and its elements are next if it has any. */
    method Enter(kind: Kind, elements: int, ghost s: seq<Byte>)
      requires Steady() && 0 <= ridx < |task| - 1 && task[ridx].kind == Some(kind) && kind.IsAggregate()
      requires |Unread()| <= |s| && Unread() == s[|s| - |Unread()|..]
      requires AggregateHeader(kind, s, maxelements) == Done(elements, |s| - |Unread()|)
      modifies this`reply, this`task, this`ridx, this`frames
      ensures Steady() && Unread() == old(Unread()) && Carries(old(Where()), s, Where(), Unread(), maxelements)
    {
      if elements == -1 {
        Complete(kind, NilReply, s);
        return;
      }
      if elements > 0 {
        Descend(kind, elements, s);
      } else {
        assert Missings(0) == [];
        Complete(kind, Aggregate(kind, Missings(elements)), s);
      }
    }

    /** The object with its elements missing is put in its place, and the first of them is next. */
    method Descend(kind: Kind, elements: nat, ghost s: seq<Byte>)
      requires Steady() && 0 <= ridx < |task| - 1 && task[ridx].kind == Some(kind) && kind.IsAggregate() && elements > 0
      requires |Unread()| <= |s| && Unread() == s[|s| - |Unread()|..]
      requires AggregateHeader(kind, s, maxelements) == Done(elements, |s| - |Unread()|)
      modifies this`reply, this`task, this`ridx, this`frames
      ensures Steady() && Unread() == old(Unread()) && Carries(old(Where()), s, Where(), Unread(), maxelements)
    {
      ghost var x, y, s' := Where(), Reading(None, frames + [Frame(kind, [], elements)]), Unread();
      assert Carries(x, s, y, s', maxelements) by {
        HeaderCarries(kind, frames, s, maxelements);
      }
      Put(Aggregate(kind, Missings(elements)));
      Push(kind, elements);
      assert Where() == y && Unread() == s';
    }

    /** processItem. */
    method ProcessItem() returns (ok: bool)
      requires Steady() && ridx >= 0 && err == None
      modifies this
      ensures Steady() && (err.Some? ==> Stopped()) && (ok ==> |Unread()| < |old(Unread())|)
      ensures Processed(old(Where()), old(Unread()), Where(), Unread(), ok, err, maxelements)
    {
      ghost var x, s := Where(), Unread();
      CarriesNowhere(x, s, maxelements);
      if task[ridx].kind.None? {
        if |buf| - pos < 1 {
          return false;
        }
        var kind := KindOf(buf[pos]);
        if kind.None? {
          SetError(BadReplyType(buf[pos]));
          return false;
        }
        TypeByteCarries(frames, s, maxelements);
        pos := pos + 1;
        StackTyped(task, ridx, frames, kind);
        task := task[ridx := task[ridx].(kind := kind)];
      }
      ghost var y, s' := Where(), Unread();
      var kind := task[ridx].kind.value;
      if kind.IsLine() {
        ok := ProcessLineItem(kind);
      } else if kind.IsBulk() {
        ok := ProcessBulkItem(kind);
      } else {
        ok := ProcessAggregateItem(kind);
      }
      ProcessedOn(x, s, y, s', Where(), Unread(), ok, err, maxelements);
    }

    /** redisReaderFeed; large says whether the empty buffer is given back. */
    method Feed(bytes: seq<Byte>, large: bool) returns (ok: bool)
      requires Valid()
      modifies this`buf, this`pos
      ensures Valid() && ok == err.None?
      ensures ok ==> Start() == old(Start()) && Unread() == old(Unread()) + bytes
      ensures !ok ==> buf == old(buf) && pos == old(pos)
    {
      if err.Some? {
        return false;
      }
      if |bytes| >= 1 {
        if |buf| == 0 && large {
          buf, pos := [], 0;
        }
        buf := buf + bytes;
      }
      return true;
    }

    /**
     redisReaderGetReply.  With enough bytes it gives the reply, or the error, that the grammar finds in
     them, and leaves the bytes behind the reply; otherwise it goes as far as it can and loses nothing.
     */
    method GetReply() returns (ok: bool, r: Reply)
      requires Valid()
      modifies this
      ensures Valid() && ok == err.None? && (!ok ==> r == Missing)
      ensures old(err).Some? ==> err == old(err)
      ensures old(err).None? ==>
        match old(Ahead(Start(), Unread(), maxelements))
        case Fail(e) => err == Some(e)
        case Done(v, used) => ok && r == v && Start() == IDLE && Unread() == old(Unread())[used..]
        case Need => ok && r == Missing && Carries(old(Start()), old(Unread()), Start(), Unread(), maxelements)
    {
      r := Missing;
      if err.Some? {
        return false, r;
      }
      ghost var x, s := Start(), Unread();
      CarriesNowhere(x, s, maxelements);
      if |buf| == 0 {
        NothingIsTooLittle(x, maxelements);
        return true, r;
      }
      if ridx == -1 {
        task := task[0 := Task(None, -1, -1)];
        ridx := 0;
      }
      ok := true;
      while ridx >= 0 && ok
        invariant Steady() && (err.Some? ==> Stopped())
        invariant Processed(x, s, Where(), Unread(), ok, err, maxelements)
        decreases ok, |buf| - pos
      {
        ghost var y, s' := Where(), Unread();
        ok := ProcessItem();
        ProcessedOn(x, s, y, s', Where(), Unread(), ok, err, maxelements);
      }
      if err.Some? {
        return false, r;
      }
      CarriesNow(x, s, Where(), Unread(), maxelements);
      if pos >= DISCARD {
        buf := buf[pos..];
        pos := 0;
      }
      ok := true;
      if ridx == -1 {
        r := reply;
        reply := Missing;
      }
    }
  }

  /** The indices in the tasks above the root's. */
  function PathTo(task: seq<Task>, ridx: nat): seq<nat>
    requires ridx < |task| && forall i | 0 < i <= ridx :: task[i].idx >= 0
  {
    seq(ridx, i requires 0 <= i < ridx => task[i + 1].idx)
  }

  lemma PathIsPath(task: seq<Task>, ridx: int, frames: seq<Frame>)
    requires ridx >= 0 && StackOk(task, ridx, frames)
    ensures forall i | 0 < i <= ridx :: task[i].idx >= 0
    ensures PathTo(task, ridx) == Path(frames)
  {
    forall i | 0 < i <= ridx
      ensures task[i].idx == |frames[i - 1].done|
    {
      assert TaskOk(task, frames, i - 1);
    }
  }

  // --------------------------------------------------------------------- changes of the stack

  lemma StackPopped(task: seq<Task>, ridx: int, frames: seq<Frame>)
    requires ridx > 0 && StackOk(task, ridx, frames)
    ensures StackOk(task, ridx - 1, Init(frames))
  {
    forall i | 0 <= i < ridx - 1
      ensures TaskOk(task, Init(frames), i)
    {
      assert TaskOk(task, frames, i);
    }
  }

  lemma StackMoved(task: seq<Task>, ridx: int, frames: seq<Frame>, v: Reply)
    requires ridx > 0 && StackOk(task, ridx, frames) && |Last(frames).done| + 1 < Last(frames).total
    ensures StackOk(task[ridx := Task(None, -1, task[ridx].idx + 1)], ridx,
                    Init(frames) + [WithElement(Last(frames), v)])
  {
    var task', frames' := task[ridx := Task(None, -1, task[ridx].idx + 1)],
      Init(frames) + [WithElement(Last(frames), v)];
    forall i | 0 <= i < ridx
      ensures TaskOk(task', frames', i)
    {
      assert TaskOk(task, frames, i);
    }
  }

  lemma StackPushed(task: seq<Task>, ridx: int, frames: seq<Frame>, kind: Kind, elements: nat)
    requires 0 <= ridx < |task| - 1 && StackOk(task, ridx, frames) && task[ridx].kind == Some(kind)
    requires kind.IsAggregate() && elements > 0
    ensures StackOk(task[ridx := task[ridx].(elements := elements)][ridx + 1 := Task(None, -1, 0)], ridx + 1,
                    frames + [Frame(kind, [], elements)])
  {
    var task' := task[ridx := task[ridx].(elements := elements)][ridx + 1 := Task(None, -1, 0)];
    var frames' := frames + [Frame(kind, [], elements)];
    forall i {:trigger TaskOk(task', frames', i)} | 0 <= i <= ridx
      ensures TaskOk(task', frames', i)
    {
      assert i < ridx ==> TaskOk(task, frames, i);
    }
  }

  lemma StackGrown(task: seq<Task>, ridx: int, frames: seq<Frame>, more: seq<Task>)
    ensures StackOk(task, ridx, frames) ==> StackOk(task + more, ridx, frames)
  {
    if StackOk(task, ridx, frames) {
      forall i | 0 <= i < ridx
        ensures TaskOk(task + more, frames, i)
      {
        assert TaskOk(task, frames, i);
      }
    }
  }

  lemma StackTyped(task: seq<Task>, ridx: int, frames: seq<Frame>, kind: Option<Kind>)
    requires ridx >= 0 && StackOk(task, ridx, frames)
    ensures StackOk(task[ridx := task[ridx].(kind := kind)], ridx, frames)
  {
    var task' := task[ridx := task[ridx].(kind := kind)];
    forall i | 0 <= i < ridx
      ensures TaskOk(task', frames, i)
    {
      assert TaskOk(task, frames, i);
    }
  }
}
