/** The hash of a name: an unsigned word that some of the bytes, from the last one backwards, are mixed into. */
module NameHash {
  import opened Bytes

  /** 2 to the power PB_HASHLIMIT. */
  const STEPS := 32

  /** What a round does to the word. */
  function Mixed(h: bv32, b: Byte): bv32 {
    h ^ ((h << 5) + (h >> 2) + (b as bv32))
  }

  /** The rounds for the byte in front of position len and every step-th before it. */
  function HashFrom(h: bv32, s: seq<Byte>, len: nat, step: nat): bv32
    requires len <= |s| && step > 0
    decreases len
  {
    if len < step then h else HashFrom(Mixed(h, s[len - 1]), s, len - step, step)
  }

  /** A length as an unsigned word: what is above 32 bits is lost. */
  function Word(n: nat): bv32 {
    if n < TWO32 then n as bv32 else Word(n - TWO32)
  }

  function CalcHash(s: seq<Byte>): nat {
    HashFrom(Word(|s|), s, |s|, |s| / STEPS + 1) as nat
  }

  /** pbN_calchash. */
  method HashOf(s: seq<Byte>) returns (hash: nat)
    ensures hash == CalcHash(s)
  {
    var len: nat := |s|;
    var h := Word(len);
    ghost var start := h;
    var step := len / STEPS + 1;
    while len >= step
      invariant len <= |s| && HashFrom(h, s, len, step) == HashFrom(start, s, |s|, step)
      decreases len
    {
      h := Mixed(h, s[len - 1]);
      len := len - step;
    }
    hash := h as nat;
  }

  function Zeros(n: nat): (s: seq<Byte>)
    ensures |s| == n && forall i | 0 <= i < n :: s[i] == 0
  {
    seq(n, _ => 0)
  }

  function ZeroMixed(h: bv32): bv32 {
    h ^ ((h << 5) + (h >> 2))
  }

  /** So many rounds with zero bytes. */
  function ZeroRounds(h: bv32, k: nat): bv32
    decreases k
  {
    if k == 0 then h else ZeroRounds(ZeroMixed(h), k - 1)
  }

  lemma MixedZero(h: bv32)
    ensures Mixed(h, 0) == ZeroMixed(h)
  {
  }

  lemma {:induction false} HashOfZeros(h: bv32, s: seq<Byte>, len: nat, step: nat, k: nat)
    requires len <= |s| && step > 0 && k * step <= len < (k + 1) * step && forall i | 0 <= i < |s| :: s[i] == 0
    ensures HashFrom(h, s, len, step) == ZeroRounds(h, k)
    decreases k
  {
    if k > 0 {
      assert (k - 1) * step == k * step - step && k * step >= step;
      MixedZero(h);
      HashOfZeros(ZeroMixed(h), s, len - step, step, k - 1);
    }
  }

  lemma WordOfLength()
    ensures Word(65536) == 0x1_0000
  {
  }

  lemma ZeroRoundsAre()
    ensures ZeroRounds(0x1_0000, 31) == 0x6d40_7502
  {
    assert ZeroRounds(0xc67a_d70f, 7) == 0x6d40_7502;
    assert ZeroRounds(0xc3fc_5aa8, 15) == 0x6d40_7502;
    assert ZeroRounds(0xa5c1_8801, 23) == 0x6d40_7502;
  }

  /** 31 of the bytes are mixed in, every 2049th from the last one backwards. */
  lemma LongZerosHash()
    ensures CalcHash(Zeros(65536)) == 0x6d40_7502
  {
    var h: bv32 := 0x1_0000;
    WordOfLength();
    ZeroRoundsAre();
    HashOfZeros(h, Zeros(65536), 65536, 2049, 31);
  }

  /** So the hash of this name is not that of the empty string, which is 0. */
  lemma HashesDiffer()
    ensures CalcHash([]) == 0 != CalcHash(Zeros(65536))
  {
    LongZerosHash();
  }
}
