/**
 Commands as hiredis writes them: the length is computed first and met exactly, and what is written is an
 array of bulk strings that a reader takes for the same arguments.
 */
module Command {
  import opened Bytes
  import opened Decimal
  import opened Grammar

  const INT_MAX := 0x7FFF_FFFF

  /** An argument list, as a reader sees it. */
  function AsReplies(argv: seq<seq<Byte>>): (rs: seq<Reply>)
    ensures |rs| == |argv| && forall i | 0 <= i < |argv| :: rs[i] == Text(String, argv[i])
  {
    if argv == [] then [] else [Text(String, argv[0])] + AsReplies(argv[1..])
  }

  function AsReply(argv: seq<seq<Byte>>): Reply {
    Aggregate(Array, AsReplies(argv))
  }

  lemma {:induction false} WrittenInTurn(rs: seq<Reply>, r: Reply)
    ensures AllWritten(rs + [r]) == AllWritten(rs) + Written(r)
    decreases rs
  {
    if rs == [] {
      assert [] + [r] == [r];
      OneWritten(r);
    } else {
      WrittenInTurn(rs[1..], r);
      assert (rs + [r])[1..] == rs[1..] + [r] && (rs + [r])[0] == rs[0];
      Associates(Written(rs[0]), AllWritten(rs[1..]), Written(r));
    }
  }

  lemma OneWritten(r: Reply)
    ensures AllWritten([r]) == Written(r) && AllWritten([]) == []
  {
    assert [r][1..] == [];
    assert Written(r) + [] == Written(r);
  }

  lemma {:induction false} PrefixInTurn(argv: seq<seq<Byte>>, j: nat)
    requires j < |argv|
    ensures AllWritten(AsReplies(argv)[..j + 1]) == AllWritten(AsReplies(argv)[..j]) + Bulk(String, argv[j])
  {
    var rs := AsReplies(argv);
    assert rs[..j + 1] == rs[..j] + [rs[j]];
    WrittenInTurn(rs[..j], rs[j]);
  }

  /** A command's first j arguments. */
  ghost function Begun(argv: seq<seq<Byte>>, j: nat): seq<Byte>
    requires j <= |argv|
  {
    Line(Array, Digits(|argv|)) + AllWritten(AsReplies(argv)[..j])
  }

  lemma BegunIs(argv: seq<seq<Byte>>)
    ensures Begun(argv, 0) == Line(Array, Digits(|argv|))
    ensures Begun(argv, |argv|) == Written(AsReply(argv))
  {
    NothingBehind(Line(Array, Digits(|argv|)), AsReplies(argv)[..0]);
    WrittenCommand(argv, AsReplies(argv)[..|argv|]);
  }

  lemma WrittenCommand(argv: seq<seq<Byte>>, rs: seq<Reply>)
    requires rs == AsReplies(argv)
    ensures Written(AsReply(argv)) == Line(Array, Digits(|argv|)) + AllWritten(rs)
  {
    WrittenAggregate(Array, rs);
  }

  lemma WrittenAggregate(kind: Kind, rs: seq<Reply>)
    ensures Written(Aggregate(kind, rs)) == Line(kind, Digits(Count(kind, |rs|))) + AllWritten(rs)
  {
  }

  lemma NothingBehind(line: seq<Byte>, rs: seq<Reply>)
    requires rs == []
    ensures line + AllWritten(rs) == line
  {
  }

  lemma BegunNext(argv: seq<seq<Byte>>, j: nat)
    requires j < |argv|
    ensures Begun(argv, j + 1) == Begun(argv, j) + Bulk(String, argv[j])
  {
    PrefixInTurn(argv, j);
    Associates(Line(Array, Digits(|argv|)), AllWritten(AsReplies(argv)[..j]), Bulk(String, argv[j]));
  }

  lemma {:induction false} BegunGrows(argv: seq<seq<Byte>>, j: nat)
    requires j <= |argv|
    ensures |Begun(argv, j)| <= |Written(AsReply(argv))|
    decreases |argv| - j
  {
    if j < |argv| {
      BegunNext(argv, j);
      BegunGrows(argv, j + 1);
    } else {
      BegunIs(argv);
    }
  }

  /** bulklen: what a string of this length takes as a bulk string. */
  method BulkLen(len: nat) returns (n: nat)
    ensures forall text: seq<Byte> | |text| == len :: n == |Bulk(String, text)|
  {
    var digits := CountDigits(len);
    n := 1 + digits + 2 + len + 2;
  }

  /** The length of a command, computed in advance. */
  method TotalLength(argv: seq<seq<Byte>>) returns (totlen: nat)
    ensures totlen == |Written(AsReply(argv))|
  {
    BegunIs(argv);
    var digits := CountDigits(|argv|);
    totlen := 1 + digits + 2;
    for j := 0 to |argv|
      invariant totlen == |Begun(argv, j)|
    {
      var n := BulkLen(|argv[j]|);
      BegunNext(argv, j);
      totlen := totlen + n;
    }
  }

  /** memcpy to a position of the command. */
  method CopyTo(cmd: array<Byte>, pos: nat, text: seq<Byte>) returns (next: nat)
    requires pos + |text| <= cmd.Length
    modifies cmd
    ensures next == pos + |text| && cmd[..next] == old(cmd[..pos]) + text
  {
    forall i | 0 <= i < |text| {
      cmd[pos + i] := text[i];
    }
    next := pos + |text|;
  }

  /** sprintf of a type byte, a number and the line's end, with a terminator behind them. */
  method PrintHeader(cmd: array<Byte>, pos: nat, kind: Kind, number: nat) returns (next: nat)
    requires pos + |Line(kind, Digits(number))| < cmd.Length
    modifies cmd
    ensures next == pos + |Line(kind, Digits(number))| && cmd[..next] == old(cmd[..pos]) + Line(kind, Digits(number))
  {
    next := CopyTo(cmd, pos, Line(kind, Digits(number)));
    ghost var written := cmd[..next];
    cmd[next] := 0;
    assert cmd[..next] == written;
  }

  /**
   redisFormatCommandArgv: the buffer has just the length that was computed and one byte for the
   terminator, and no position but the last is left out or written past.
   */
  method FormatCommandArgv(argv: seq<seq<Byte>>) returns (cmd: array<Byte>, totlen: nat)
    requires |argv| <= INT_MAX
    ensures totlen == |Written(AsReply(argv))| && cmd.Length == totlen + 1
    ensures cmd[..totlen] == Written(AsReply(argv)) && cmd[totlen] == 0
  {
    totlen := TotalLength(argv);
    cmd := new Byte[totlen + 1];
    BegunIs(argv);
    BegunGrows(argv, 0);
    var pos := PrintHeader(cmd, 0, Array, |argv|);
    assert cmd[..pos] == Begun(argv, 0);
    for j := 0 to |argv|
      invariant pos == |Begun(argv, j)| <= totlen && cmd.Length == totlen + 1
      invariant cmd[..pos] == Begun(argv, j)
    {
      BegunGrows(argv, j + 1);
      BegunNext(argv, j);
      pos := AppendArgument(cmd, pos, argv[j]);
    }
    assert pos == totlen;
    cmd[pos] := 0;
    assert cmd[..totlen] == Begun(argv, |argv|);
  }

  /** One round of its loop. */
  method AppendArgument(cmd: array<Byte>, pos: nat, arg: seq<Byte>) returns (next: nat)
    requires pos + |Bulk(String, arg)| < cmd.Length
    modifies cmd
    ensures next == pos + |Bulk(String, arg)| && cmd[..next] == old(cmd[..pos]) + Bulk(String, arg)
  {
    next := PrintHeader(cmd, pos, String, |arg|);
    next := CopyTo(cmd, next, arg);
    ghost var before := cmd[..next];
    cmd[next] := CR;
    cmd[next + 1] := LF;
    next := next + 2;
    assert cmd[..next] == before + CRLF;
  }

  /** redisFormatSdsCommandArgv: the same with strings that grow, and with numbers printed by sds. */
  method FormatSdsCommandArgv(argv: seq<seq<Byte>>) returns (cmd: seq<Byte>, totlen: nat)
    requires |argv| <= INT_MAX && forall arg | arg in argv :: |arg| <= ULLONG_MAX
    ensures cmd == Written(AsReply(argv)) && totlen == |cmd|
  {
    totlen := TotalLength(argv);
    var number := new Byte[LLSTR_SIZE];
    var l := Sdsll2str(number, |argv|);
    cmd := [TypeByte(Array)] + number[..l] + CRLF;
    BegunIs(argv);
    for j := 0 to |argv|
      invariant cmd == Begun(argv, j)
    {
      assert argv[j] in argv;
      l := Sdsull2str(number, |argv[j]|);
      BegunNext(argv, j);
      SameBytes(cmd, String, argv[j]);
      cmd := cmd + ([TypeByte(String)] + number[..l] + CRLF);
      cmd := cmd + argv[j];
      cmd := cmd + CRLF;
    }
  }

  lemma SameBytes(cmd: seq<Byte>, kind: Kind, text: seq<Byte>)
    ensures cmd + Line(kind, Digits(|text|)) + text + CRLF == cmd + Bulk(kind, text)
  {
    Associates(cmd, Line(kind, Digits(|text|)), text);
    Associates(cmd, Line(kind, Digits(|text|)) + text, CRLF);
  }

  /** A reader takes a command, whatever follows it, for an array of its arguments. */
  lemma CommandReadsBack(argv: seq<seq<Byte>>, rest: seq<Byte>, max: int)
    requires |argv| <= INT_MAX && (max > 0 ==> |argv| <= max) && forall arg | arg in argv :: |arg| <= LLONG_MAX
    ensures Item(Written(AsReply(argv)) + rest, max) == Done(AsReply(argv), |Written(AsReply(argv))|)
  {
    ArgumentsAreSendable(argv, max);
    ReadsBack(AsReply(argv), rest, max);
  }

  lemma {:induction false} ArgumentsAreSendable(argv: seq<seq<Byte>>, max: int)
    requires forall arg | arg in argv :: |arg| <= LLONG_MAX
    ensures AllSendable(AsReplies(argv), max)
  {
    if argv != [] {
      assert argv[0] in argv;
      ArgumentsAreSendable(argv[1..], max);
      assert AsReplies(argv)[1..] == AsReplies(argv[1..]);
    }
  }
}
