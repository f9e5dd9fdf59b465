/** How an element index splits into a block number and a position inside that block. */
module Blocks {
  import Arith

  type BlockSize = n: nat | n >= 2 witness 32

  /** Traits::BLOCK_SIZE: a power of two above one; 32 by default. */
  const BLOCK_SIZE: BlockSize

  /** The number of the block that index i falls into: i / BLOCK_SIZE. */
  function BlockOf(i: nat): nat {
    if i < BLOCK_SIZE then 0 else 1 + BlockOf(i - BLOCK_SIZE)
  }

  /** The position of index i in its block: i & (BLOCK_SIZE - 1). */
  function Offset(i: nat): (o: nat)
    ensures o < BLOCK_SIZE
  {
    if i < BLOCK_SIZE then i else Offset(i - BLOCK_SIZE)
  }

  /** The first index of block k. */
  function Base(k: nat): nat {
    if k == 0 then 0 else Base(k - 1) + BLOCK_SIZE
  }

  lemma {:induction false} Split(i: nat)
    ensures i == Base(BlockOf(i)) + Offset(i)
    ensures Base(BlockOf(i) + 1) == Base(BlockOf(i)) + BLOCK_SIZE
  {
    if i >= BLOCK_SIZE {
      Split(i - BLOCK_SIZE);
    }
  }

  lemma {:induction false} Join(k: nat, o: nat)
    requires o < BLOCK_SIZE
    ensures BlockOf(Base(k) + o) == k && Offset(Base(k) + o) == o
  {
    if k > 0 {
      Join(k - 1, o);
    }
  }

  lemma {:induction false} BaseGrows(k: nat, l: nat)
    requires k <= l
    ensures Base(k) <= Base(l)
    ensures k < l ==> Base(k) + BLOCK_SIZE <= Base(l)
  {
    if k < l {
      BaseGrows(k, l - 1);
    }
  }

  /** An index between the bases of blocks k and l lies in one of the blocks k .. l - 1. */
  lemma Between(i: nat, k: nat, l: nat)
    ensures Base(k) <= i <==> k <= BlockOf(i)
    ensures i < Base(l) <==> BlockOf(i) < l
  {
    Split(i);
    if k <= BlockOf(i) {
      BaseGrows(k, BlockOf(i));
    } else {
      BaseGrows(BlockOf(i) + 1, k);
    }
    if BlockOf(i) < l {
      BaseGrows(BlockOf(i) + 1, l);
    } else {
      BaseGrows(l, BlockOf(i));
    }
  }

  /** The recursive definitions are division and remainder. */
  lemma {:induction false} SplitIsDivMod(i: nat)
    ensures BlockOf(i) == i / BLOCK_SIZE && Offset(i) == i % BLOCK_SIZE
  {
    if i < BLOCK_SIZE {
      Arith.ModUnique(BLOCK_SIZE, i, i, 0);
    } else {
      SplitIsDivMod(i - BLOCK_SIZE);
      var q := (i - BLOCK_SIZE) / BLOCK_SIZE;
      Arith.ModUnique(BLOCK_SIZE, i, (i - BLOCK_SIZE) % BLOCK_SIZE, q + 1);
    }
  }

  /** Bases are whole blocks apart. */
  lemma {:induction false} BlocksApart(k: nat, l: nat)
    ensures (Base(k) - Base(l)) / BLOCK_SIZE == k - l
  {
    BaseIsProduct(k);
    BaseIsProduct(l);
    assert Base(k) - Base(l) == BLOCK_SIZE * (k - l);
    Arith.ModUnique(BLOCK_SIZE, Base(k) - Base(l), 0, k - l);
  }

  lemma {:induction false} BaseIsProduct(k: nat)
    ensures Base(k) == BLOCK_SIZE * k
  {
    if k > 0 {
      BaseIsProduct(k - 1);
      assert BLOCK_SIZE * k == BLOCK_SIZE * (k - 1) + BLOCK_SIZE;
    }
  }

  lemma BlockOfGrows(i: nat, j: nat)
    requires i <= j
    ensures BlockOf(i) <= BlockOf(j)
  {
    Split(i);
    Between(j, BlockOf(i), 0);
  }
}
