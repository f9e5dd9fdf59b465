/**
 pb_Buffer: bytes that are appended to, with a length prefix inserted in front of what was already
 written.  The first bytes lie in the object itself; allocator and limits may refuse more room.
 */
module Buffer {
  import opened Bytes
  import opened Varint

  const PB_MAX_SIZET := 0xFFFF_FFFF - 100
  const PB_SSO_SIZE := 16

  /** The capacity pb_prepbuffsize tries for: grown by halves from n while below what is expected. */
  function NewCapacity(n: nat, expected: nat): (capacity: nat)
    requires n >= 2
    ensures n <= capacity
    decreases expected - n
  {
    if n < PB_MAX_SIZET / 2 && n < expected then NewCapacity(n + n / 2, expected) else n
  }

  /** It reaches what is expected and goes beyond it by no more than a half. */
  lemma {:induction false} NewCapacityBound(n: nat, expected: nat)
    requires n >= 2 && expected < PB_MAX_SIZET / 2
    ensures expected <= NewCapacity(n, expected)
    ensures NewCapacity(n, expected) <= n || NewCapacity(n, expected) <= expected + expected / 2
    decreases expected - n
  {
    if n < expected {
      NewCapacityBound(n + n / 2, expected);
    }
  }

  /** A number's low bytes, least significant first. */
  function LittleEndian(n: nat, k: nat): (s: seq<Byte>)
    ensures |s| == k
  {
    if k == 0 then [] else [n % 256] + LittleEndian(n / 256, k - 1)
  }

  /**
   The buffer.  maxAlloc is the largest array the allocator grants, below 2^31, where the size would
   not fit its field.  refused is a history variable: some call found no room.
   */
  class Buffer {
    const maxAlloc: nat
    var buff: array<Byte>
    var size: nat
    ghost var refused: bool

    ghost predicate Valid()
      reads this
    {
      size <= buff.Length < 0x8000_0000 && maxAlloc < 0x8000_0000
    }

    /** pb_result. */
    ghost function Bytes(): seq<Byte>
      reads this, buff
      requires Valid()
    {
      buff[..size]
    }

    /** There is room for len more bytes, or can be made. */
    ghost predicate Grants(len: nat)
      reads this
    {
      size + len <= buff.Length || size + len <= NewCapacity(PB_SSO_SIZE, size + len) <= maxAlloc
    }

    /** The allocator can serve a buffer that is never asked for more than this. */
    ghost predicate Ample(total: nat)
    {
      3 * total <= 2 * maxAlloc && PB_SSO_SIZE <= maxAlloc
    }

    lemma AmpleGrants(total: nat, len: nat)
      requires Valid() && size + len <= total && Ample(total)
      ensures Grants(len)
    {
      NewCapacityBound(PB_SSO_SIZE, size + len);
    }

    /** pb_initbuffer. */
    constructor (maxAlloc: nat)
      requires maxAlloc < 0x8000_0000
      ensures Valid() && Bytes() == [] && size == 0 && !refused && fresh(buff) && this.maxAlloc == maxAlloc
    {
      this.maxAlloc := maxAlloc;
      buff := new Byte[PB_SSO_SIZE];
      size, refused := 0, false;
    }

    /** pb_prepbuffsize. */
    method PrepBuffSize(len: nat) returns (ok: bool)
      requires Valid()
      modifies this
      ensures Valid() && size == old(size) && ok == old(Grants(len)) && refused == (old(refused) || !ok)
      ensures ok ==> size + len <= buff.Length
      ensures buff == old(buff) || (fresh(buff) && old(size + len > buff.Length))
      ensures Bytes() == old(Bytes())
    {
      if size + len > buff.Length {
        var expected := size + len;
        var newsize := PB_SSO_SIZE;
        while newsize < PB_MAX_SIZET / 2 && newsize < expected
          invariant newsize >= 2 && NewCapacity(newsize, expected) == NewCapacity(PB_SSO_SIZE, expected)
          decreases expected - newsize
        {
          newsize := newsize + newsize / 2;
        }
        if newsize < expected || newsize > maxAlloc {
          refused := true;
          return false;
        }
        var newp := new Byte[newsize];
        ghost var bytes := Bytes();
        var i := 0;
        while i < size
          invariant 0 <= i <= size <= newp.Length && newp[..i] == bytes[..i]
          modifies newp
        {
          newp[i] := buff[i];
          i := i + 1;
        }
        buff := newp;
        assert buff[..size] == bytes;
      }
      return true;
    }

    /** Bytes are put behind the others, where there is room. */
    method Append(s: seq<Byte>)
      requires Valid() && size + |s| <= buff.Length
      modifies this`size, buff
      ensures Valid() && Bytes() == old(Bytes()) + s && size == old(size) + |s|
    {
      ghost var bytes := Bytes();
      forall i | 0 <= i < |s| {
        buff[size + i] := s[i];
      }
      size := size + |s|;
      assert buff[..size] == bytes + s;
    }

    /** pb_addslice. */
    method AddSlice(s: seq<Byte>) returns (len: nat)
      requires Valid()
      modifies this, buff
      ensures old(size) <= size <= old(size) + |s|
      ensures Valid() && (buff == old(buff) || fresh(buff))
      ensures refused == (old(refused) || !old(Grants(|s|)))
      ensures if old(Grants(|s|)) then Bytes() == old(Bytes()) + s && len == |s|
              else Bytes() == old(Bytes()) && len == 0
    {
      var ok := PrepBuffSize(|s|);
      if !ok {
        return 0;
      }
      Append(s);
      return |s|;
    }

    /** pb_addvarint32. */
    method AddVarint32(n: nat) returns (len: nat)
      requires Valid() && n < TWO32
      modifies this, buff
      ensures old(size) <= size <= old(size) + 5
      ensures Valid() && (buff == old(buff) || (fresh(buff) && old(size + 5 > buff.Length)))
      ensures refused == (old(refused) || !old(Grants(5)))
      ensures if old(Grants(5)) then Bytes() == old(Bytes()) + Encode(n) && len == |Encode(n)|
              else Bytes() == old(Bytes()) && len == 0
    {
      var ok := PrepBuffSize(5);
      if !ok {
        return 0;
      }
      DecodeEncode(n, []);
      ghost var was := buff[..];
      len := Write32(buff, size, n);
      Appended(was, buff[..], size, Encode(n));
      size := size + len;
    }

    /** pb_addvarint64. */
    method AddVarint64(n: nat) returns (len: nat)
      requires Valid() && n < TWO64
      modifies this, buff
      ensures old(size) <= size <= old(size) + 10
      ensures Valid() && (buff == old(buff) || fresh(buff))
      ensures refused == (old(refused) || !old(Grants(10)))
      ensures if old(Grants(10)) then Bytes() == old(Bytes()) + Encode(n) && len == |Encode(n)|
              else Bytes() == old(Bytes()) && len == 0
    {
      var ok := PrepBuffSize(10);
      if !ok {
        return 0;
      }
      DecodeEncode(n, []);
      ghost var was := buff[..];
      len := Write64(buff, size, n);
      Appended(was, buff[..], size, Encode(n));
      size := size + len;
    }

    /** pb_addfixed32 and pb_addfixed64: k is 4 or 8. */
    method AddFixed(n: nat, k: nat) returns (len: nat)
      requires Valid() && k > 0
      modifies this, buff
      ensures old(size) <= size <= old(size) + k
      ensures Valid() && (buff == old(buff) || fresh(buff))
      ensures refused == (old(refused) || !old(Grants(k)))
      ensures if old(Grants(k)) then Bytes() == old(Bytes()) + LittleEndian(n, k) && len == k
              else Bytes() == old(Bytes()) && len == 0
    {
      var ok := PrepBuffSize(k);
      if !ok {
        return 0;
      }
      Append(LittleEndian(n, k));
      return k;
    }

    /** pb_addbytes: the length, then the bytes; room for both is made first. */
    method AddBytes(s: seq<Byte>) returns (len: nat)
      requires Valid()
      modifies this, buff
      ensures old(size) <= size <= old(size) + |s| + 5
      ensures Valid() && (buff == old(buff) || fresh(buff))
      ensures refused == (old(refused) || !old(Grants(|s| + 5)))
      ensures if old(Grants(|s| + 5)) then Bytes() == old(Bytes()) + (Encode(|s|) + s) && len == |Encode(|s|)| + |s|
              else Bytes() == old(Bytes()) && len == 0
    {
      var ok := PrepBuffSize(|s| + 5);
      if !ok {
        return 0;
      }
      ghost var bytes := Bytes();
      DecodeEncode(|s|, []);
      assert Grants(5);
      var l := AddVarint32(|s|);
      assert Grants(|s|);
      var m := AddSlice(s);
      assert bytes + Encode(|s|) + s == bytes + (Encode(|s|) + s);
      return l + m;
    }

    /** The encoder drops the bytes it wrote last. */
    method Drop(n: nat)
      requires Valid() && n <= size
      modifies this`size
      ensures Valid() && Bytes() == old(Bytes())[..old(size) - n]
    {
      size := size - n;
    }

    /** pb_addlength: the length of what follows position at is put in front of it. */
    method AddLength(at: nat) returns (len: nat)
      requires Valid()
      modifies this, buff
      ensures old(size) <= size <= old(size) + 10
      ensures Valid() && (buff == old(buff) || fresh(buff))
      ensures at > old(size) ==> len == 0 && Bytes() == old(Bytes()) && refused == old(refused)
      ensures at <= old(size) ==>
                var prefix := Encode(old(size) - at);
                && refused == (old(refused) || !old(Grants(|prefix|)))
                && if old(Grants(|prefix|)) then
                     len == |prefix| && Bytes() == old(Bytes())[..at] + prefix + old(Bytes())[at..]
                   else len == 0 && Bytes() == old(Bytes())
    {
      if size < at {
        return 0;
      }
      var tmp := new Byte[10];
      DecodeEncode(size - at, []);
      var ml := Write64(tmp, 0, size - at);
      var ok := PrepBuffSize(ml);
      if !ok {
        return 0;
      }
      assert tmp[..ml] == Encode(size - at);
      Insert(at, tmp[..ml]);
      return ml;
    }

    /** Bytes go in at a position, where there is room: memmove, then memcpy. */
    method Insert(at: nat, prefix: seq<Byte>)
      requires Valid() && at <= size && size + |prefix| <= buff.Length
      modifies this`size, buff
      ensures Valid() && Bytes() == old(Bytes())[..at] + prefix + old(Bytes())[at..]
    {
      ghost var bytes := Bytes();
      MoveUp(at, |prefix|);
      CopyIn(at, prefix);
      size := size + |prefix|;
      Inserted(buff[..], at, |prefix|, size - |prefix|, bytes, prefix);
    }

    /** memcpy. */
    method CopyIn(at: nat, s: seq<Byte>)
      requires at + |s| <= buff.Length
      modifies buff
      ensures buff[at..at + |s|] == s && buff[..at] == old(buff[..at]) && buff[at + |s|..] == old(buff[at + |s|..])
    {
      forall i | 0 <= i < |s| {
        buff[at + i] := s[i];
      }
    }

    /** memmove: the bytes from position at on move up by n. */
    method MoveUp(at: nat, n: nat)
      requires Valid() && at <= size && size + n <= buff.Length
      modifies buff
      ensures buff[..at] == old(buff[..at]) && buff[at + n..size + n] == old(buff[at..size])
    {
      ghost var was := buff[..];
      var i := size;
      while i > at
        invariant at <= i <= size && buff[..i] == was[..i] && buff[i + n..size + n] == was[i..size]
      {
        i := i - 1;
        ghost var moved := buff[i + 1 + n..size + n];
        buff[i + n] := buff[i];
        assert buff[i + n..size + n] == [was[i]] + moved;
        assert was[i..size] == [was[i]] + was[i + 1..size];
      }
    }
  }

  /** An array in which bytes were written at a position, and none in front of it. */
  lemma Appended(was: seq<Byte>, now: seq<Byte>, at: nat, s: seq<Byte>)
    requires at + |s| <= |now| == |was| && now[at..at + |s|] == s && forall i | 0 <= i < at :: now[i] == was[i]
    ensures now[..at + |s|] == was[..at] + s
  {
    assert now[..at + |s|] == now[..at] + now[at..at + |s|];
  }

  /** The parts of an array in which n bytes were inserted at a position. */
  lemma Inserted(now: seq<Byte>, at: nat, n: nat, size: nat, was: seq<Byte>, prefix: seq<Byte>)
    requires at <= size == |was| && size + n <= |now| && |prefix| == n
    requires now[..at] == was[..at] && now[at..at + n] == prefix && now[at + n..size + n] == was[at..]
    ensures now[..size + n] == was[..at] + prefix + was[at..]
  {
    assert now[..size + n] == now[..at] + now[at..at + n] + now[at + n..size + n];
  }
}
