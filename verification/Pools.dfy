/** The pools that buckets and segments come from: one bit of a mask for each slot, set when the slot is in use. */
module Pools {
  import opened Arithmetic
  import opened WordBits

  const BITS_IN_MASK: int := 64

  function UINT64_MAX(): int { Pow2(64) - 1 }

  // ---------- One mask ----------

  /** The number of zero bits among the lowest `n`. */
  function Zeros(word: int, n: nat): nat
    decreases n
  {
    if n == 0 then 0 else Zeros(word / 2, n - 1) + (if word % 2 == 1 then 0 else 1)
  }

  lemma {:induction false} FullMask(word: int, n: nat)
    requires 0 <= word < Pow2(n)
    ensures Zeros(word, n) == 0 <==> word == Pow2(n) - 1
    ensures Zeros(word, n) <= n
    decreases n
  {
    if n > 0 { FullMask(word / 2, n - 1); }
  }

  lemma {:induction false} ZeroBit(word: int, n: nat)
    requires Zeros(word, n) > 0
    ensures exists k: nat :: k < n && !IsSet(word, k)
    decreases n
  {
    if word % 2 != 1 {
      assert !IsSet(word, 0);
    } else {
      ZeroBit(word / 2, n - 1);
      var k: nat :| k < n - 1 && !IsSet(word / 2, k);
      assert !IsSet(word, k + 1);
    }
  }

  lemma {:induction false} ZerosAfter(word: int, k: nat, n: nat)
    requires k < n
    ensures Zeros(SetBit(word, k), n) == Zeros(word, n) - (if IsSet(word, k) then 0 else 1)
    ensures Zeros(ClearBit(word, k), n) == Zeros(word, n) + (if IsSet(word, k) then 1 else 0)
    decreases k
  {
    if k > 0 {
      ZerosAfter(word / 2, k - 1, n - 1);
      assert SetBit(word, k) / 2 == SetBit(word / 2, k - 1) && SetBit(word, k) % 2 == word % 2;
      assert ClearBit(word, k) / 2 == ClearBit(word / 2, k - 1) && ClearBit(word, k) % 2 == word % 2;
    } else {
      assert SetBit(word, 0) / 2 == word / 2 == ClearBit(word, 0) / 2;
    }
  }

  /** The index of the lowest bit that is zero. */
  method GetFreeBit(mask: int) returns (index: nat)
    requires 0 <= mask < UINT64_MAX()
    ensures index < 64 && !IsSet(mask, index) && forall j: nat {:trigger IsSet(mask, j)} | j < index :: IsSet(mask, j)
  {
    hide Zeros, Pow2;
    FullMask(mask, 64);
    ZeroBit(mask, 64);
    hide IsSet;
    ghost var k: nat :| k < 64 && !IsSet(mask, k);
    index := 0;
    while IsSet(mask, index)
      invariant index <= k && forall j: nat {:trigger IsSet(mask, j)} | j < index :: IsSet(mask, j)
      decreases k - index
    {
      index := index + 1;
    }
  }

  // ---------- The masks of a pool ----------

  predicate AreMasks(words: seq<int>) {
    forall i {:trigger words[i]} | 0 <= i < |words| :: 0 <= words[i] < Pow2(64)
  }

  function FreeSlots(words: seq<int>): nat {
    if words == [] then 0 else FreeSlots(words[..|words| - 1]) + Zeros(words[|words| - 1], 64)
  }

  lemma {:induction false} FreeSlotsAfter(words: seq<int>, i: int, w: int)
    requires 0 <= i < |words|
    ensures FreeSlots(words[i := w]) == FreeSlots(words) - Zeros(words[i], 64) + Zeros(w, 64)
  {
    var n := |words| - 1;
    if i < n {
      assert words[i := w][..n] == words[..n][i := w];
      FreeSlotsAfter(words[..n], i, w);
    } else {
      assert words[i := w][..n] == words[..n];
    }
  }

  /** There are free slots exactly if some mask is not full. */
  lemma {:induction false} FreeSlotsExist(words: seq<int>)
    requires AreMasks(words)
    ensures FreeSlots(words) > 0 <==> exists i {:trigger words[i]} :: 0 <= i < |words| && words[i] < UINT64_MAX()
    ensures FreeSlots(words) <= 64 * |words|
  {
    hide Zeros, Pow2;
    if words != [] {
      var n := |words| - 1;
      assert AreMasks(words[..n]);
      FreeSlotsExist(words[..n]);
      FullMask(words[n], 64);
      assert forall i {:trigger words[i]} | 0 <= i < n :: words[..n][i] == words[i];
    }
  }

  lemma {:induction false} NoBits(n: nat)
    ensures Zeros(0, n) == n
  {
    if n > 0 { NoBits(n - 1); }
  }

  lemma {:induction false} AllFree(n: nat)
    ensures FreeSlots(seq(n, _ => 0)) == 64 * n && Zeros(0, 64) == 64
  {
    NoBits(64);
    hide Zeros;
    if n > 0 {
      assert seq(n, _ => 0)[..n - 1] == seq(n - 1, _ => 0);
      AllFree(n - 1);
    }
  }

  predicate InUse(words: seq<int>, index: int) {
    0 <= index < BITS_IN_MASK * |words| && IsSet(words[index / BITS_IN_MASK], index % BITS_IN_MASK)
  }

  function MarkUsed(words: seq<int>, index: int): seq<int>
    requires 0 <= index < BITS_IN_MASK * |words|
  {
    var i := index / BITS_IN_MASK;
    words[i := SetBit(words[i], index % BITS_IN_MASK)]
  }

  function MarkFree(words: seq<int>, index: int): seq<int>
    requires 0 <= index < BITS_IN_MASK * |words|
  {
    var i := index / BITS_IN_MASK;
    words[i := ClearBit(words[i], index % BITS_IN_MASK)]
  }

  /** Using or freeing a slot changes that slot and no other, and the number of free slots by one. */
  lemma MarkFacts(words: seq<int>, index: int)
    requires AreMasks(words) && 0 <= index < BITS_IN_MASK * |words|
    ensures AreMasks(MarkUsed(words, index)) && AreMasks(MarkFree(words, index))
    ensures forall j {:trigger InUse(MarkUsed(words, index), j)} ::
              InUse(MarkUsed(words, index), j) <==> j == index || InUse(words, j)
    ensures forall j {:trigger InUse(MarkFree(words, index), j)} ::
              InUse(MarkFree(words, index), j) <==> j != index && InUse(words, j)
    ensures !InUse(words, index) ==> FreeSlots(MarkUsed(words, index)) == FreeSlots(words) - 1
    ensures InUse(words, index) ==> FreeSlots(MarkFree(words, index)) == FreeSlots(words) + 1
  {
    hide Zeros, Pow2, IsSet, SetBit, ClearBit, FreeSlots;
    var i, k := index / BITS_IN_MASK, index % BITS_IN_MASK;
    SetBitInRange(words[i], k, 64);
    ZerosAfter(words[i], k, 64);
    FreeSlotsAfter(words, i, SetBit(words[i], k));
    FreeSlotsAfter(words, i, ClearBit(words[i], k));
    forall j {:trigger InUse(MarkUsed(words, index), j)}
      ensures InUse(MarkUsed(words, index), j) <==> j == index || InUse(words, j)
    {
      SetBitSets(words[i], k, j % BITS_IN_MASK);
    }
    forall j {:trigger InUse(MarkFree(words, index), j)}
      ensures InUse(MarkFree(words, index), j) <==> j != index && InUse(words, j)
    {
      ClearBitClears(words[i], k, j % BITS_IN_MASK);
    }
  }

  lemma NothingInUse(words: seq<int>)
    requires forall i {:trigger words[i]} | 0 <= i < |words| :: words[i] == 0
    ensures forall j {:trigger InUse(words, j)} :: !InUse(words, j)
  {
    forall j {:trigger InUse(words, j)} ensures !InUse(words, j) {
      if 0 <= j < BITS_IN_MASK * |words| { HighBitsClear(0, 0, j % BITS_IN_MASK); }
    }
  }

  lemma {:induction false} FullBits(word: int, n: nat, k: nat)
    requires word == Pow2(n) - 1 && k < n
    ensures IsSet(word, k)
    decreases k
  {
    if k > 0 { FullBits(word / 2, n - 1, k - 1); }
  }

  /** Every slot below the lowest zero bit of the first mask that is not full is in use. */
  lemma LowestFree(words: seq<int>, scale: int, bit: nat)
    requires 0 <= scale < |words| && bit < 64
    requires forall i {:trigger words[i]} | 0 <= i < scale :: words[i] == UINT64_MAX()
    requires forall j: nat {:trigger IsSet(words[scale], j)} | j < bit :: IsSet(words[scale], j)
    ensures forall j {:trigger InUse(words, j)} | 0 <= j < scale * BITS_IN_MASK + bit :: InUse(words, j)
  {
    forall j {:trigger InUse(words, j)} | 0 <= j < scale * BITS_IN_MASK + bit ensures InUse(words, j) {
      var i, k := j / BITS_IN_MASK, j % BITS_IN_MASK;
      if i < scale { FullBits(words[i], 64, k); }
    }
  }

  // ---------- Pools ----------

  class Pool {
    const bitmasks: array<int>
    var freeCount: int
    const next: Pool?

    ghost predicate Valid()
      reads this, bitmasks
    {
      bitmasks.Length > 0 && AreMasks(bitmasks[..]) && freeCount == FreeSlots(bitmasks[..])
    }

    /** A pool of which the first slot is in use; it is put in front of the others. */
    constructor (scale: int, next: Pool?)
      requires scale > 0
      ensures Valid() && fresh(bitmasks) && this.next == next && bitmasks.Length == scale
      ensures forall j {:trigger InUse(bitmasks[..], j)} :: InUse(bitmasks[..], j) <==> j == 0
    {
      hide Zeros, Pow2, IsSet, SetBit, FreeSlots;
      var masks := new int[scale](_ => 0);
      bitmasks := masks;
      this.next := next;
      freeCount := BITS_IN_MASK * scale;
      new;
      ghost var words := seq(scale, _ => 0);
      assert bitmasks[..] == words;
      AllFree(scale);
      Pow2Positive(64);
      NothingInUse(words);
      MarkFacts(words, 0);
      freeCount := freeCount - 1;
      bitmasks[0] := SetBit(bitmasks[0], 0);
      assert bitmasks[..] == MarkUsed(words, 0);
    }

    /** Takes the lowest free slot. */
    method Take() returns (index: int)
      requires Valid() && freeCount > 0
      modifies this`freeCount, bitmasks
      ensures Valid() && freeCount == old(freeCount) - 1
      ensures 0 <= index < BITS_IN_MASK * bitmasks.Length && !InUse(old(bitmasks[..]), index)
      ensures bitmasks[..] == MarkUsed(old(bitmasks[..]), index)
      ensures forall j {:trigger InUse(old(bitmasks[..]), j)} | 0 <= j < index :: InUse(old(bitmasks[..]), j)
    {
      hide FreeSlots, IsSet, SetBit, Pow2;
      ghost var words := bitmasks[..];
      FreeSlotsExist(words);
      var scale := 0;
      while bitmasks[scale] == UINT64_MAX()
        invariant 0 <= scale < bitmasks.Length
        invariant forall i {:trigger words[i]} | 0 <= i < scale :: words[i] == UINT64_MAX()
        decreases bitmasks.Length - scale
      {
        assert words[scale] == UINT64_MAX();
        scale := scale + 1;
      }
      assert 0 <= words[scale] < Pow2(64);
      var bit := GetFreeBit(bitmasks[scale]);
      index := scale * BITS_IN_MASK + bit;
      assert index / BITS_IN_MASK == scale && index % BITS_IN_MASK == bit;
      MarkFacts(words, index);
      LowestFree(words, scale, bit);
      bitmasks[scale] := SetBit(bitmasks[scale], bit);
      freeCount := freeCount - 1;
      assert bitmasks[..] == MarkUsed(words, index);
    }

    /** Gives a slot back. */
    method Give(index: int)
      requires Valid() && InUse(bitmasks[..], index)
      modifies this`freeCount, bitmasks
      ensures Valid() && freeCount == old(freeCount) + 1 && 0 < freeCount <= BITS_IN_MASK * bitmasks.Length
      ensures 0 <= index < BITS_IN_MASK * bitmasks.Length && bitmasks[..] == MarkFree(old(bitmasks[..]), index)
    {
      hide FreeSlots, IsSet, ClearBit, Pow2;
      ghost var words := bitmasks[..];
      MarkFacts(words, index);
      var i := index / BITS_IN_MASK;
      bitmasks[i] := ClearBit(bitmasks[i], index % BITS_IN_MASK);
      freeCount := freeCount + 1;
      assert bitmasks[..] == MarkFree(words, index);
      FreeSlotsExist(bitmasks[..]);
    }
  }

  // ---------- The chain of pools ----------

  /** A slot of a pool: what a bucket or segment pointer stands for. */
  datatype Slot = Slot(pool: Pool, index: int)

  /** The pools of one kind of record, the one created last in front. */
  class PoolChain {
    const scale: int
    var first: Pool?
    ghost var pools: seq<Pool>
    ghost var live: set<Slot>      // the slots that were handed out and not given back

    ghost predicate Linked()
      reads this
    {
      && first == (if pools == [] then null else pools[0])
      && (forall k {:trigger pools[k]} | 0 <= k < |pools| ::
          pools[k].next == (if k + 1 < |pools| then pools[k + 1] else null))
    }

    ghost predicate Valid()
      reads this, pools, set p <- pools :: p.bitmasks
    {
      && scale > 0 && Linked()
      && (forall p {:trigger p in pools} | p in pools :: p.Valid() && p.bitmasks.Length == scale && Agrees(p))
      && (forall s {:trigger s in live} | s in live :: s.pool in pools)
      && (forall p, q {:trigger p in pools, q in pools} | p in pools && q in pools && p != q ::
          p.bitmasks != q.bitmasks)
    }

    /** The slots in use in a pool are the live ones. */
    ghost predicate Agrees(p: Pool)
      reads this, p.bitmasks
    {
      forall i {:trigger Slot(p, i)} {:trigger InUse(p.bitmasks[..], i)} ::
          Slot(p, i) in live <==> InUse(p.bitmasks[..], i)
    }

    constructor (scale: int)
      requires scale > 0
      ensures Valid() && pools == [] && live == {} && this.scale == scale
    {
      this.scale := scale;
      first := null;
      pools, live := [], {};
    }

    /** The first pool that has a free slot. */
    method FindPool() returns (pool: Pool?)
      requires Valid()
      ensures pool != null ==> pool in pools && pool.freeCount > 0
      ensures pool == null ==> forall p {:trigger p in pools} | p in pools :: p.freeCount == 0
    {
      pool := first;
      ghost var k := 0;
      while pool != null && pool.freeCount == 0
        invariant 0 <= k <= |pools| && pool == (if k < |pools| then pools[k] else null)
        invariant forall i {:trigger pools[i]} | 0 <= i < k :: pools[i].freeCount == 0
        decreases |pools| - k
      {
        pool := pool.next;
        k := k + 1;
      }
    }

    /** Hands out a slot that is not live, from a new pool if every slot of the others is. */
    method Alloc() returns (s: Slot)
      requires Valid()
      modifies this, pools, set p <- pools :: p.bitmasks
      ensures Valid() && s !in old(live) && live == old(live) + {s}
      ensures pools == old(pools) || (fresh(s.pool) && fresh(s.pool.bitmasks) && pools == [s.pool] + old(pools))
      ensures pools != old(pools) ==> forall p {:trigger p in old(pools)} | p in old(pools) :: old(p.freeCount) == 0
    {
      var pool := FindPool();
      if pool != null {
        s := TakeFrom(pool);
      } else {
        s := AddPool();
      }
    }

    method TakeFrom(pool: Pool) returns (s: Slot)
      requires Valid() && pool in pools && pool.freeCount > 0
      modifies this`live, pool`freeCount, pool.bitmasks
      ensures Valid() && s !in old(live) && live == old(live) + {s} && s.pool == pool
    {
      hide InUse, AreMasks, FreeSlots, MarkUsed;
      ghost var words := pool.bitmasks[..];
      var index := pool.Take();
      s := Slot(pool, index);
      MarkFacts(words, index);
      live := live + {s};
      assert Agrees(pool);
    }

    method AddPool() returns (s: Slot)
      requires Valid()
      modifies this
      ensures Valid() && s !in old(live) && live == old(live) + {s}
      ensures fresh(s.pool) && fresh(s.pool.bitmasks) && pools == [s.pool] + old(pools)
    {
      hide InUse, AreMasks, FreeSlots;
      var pool := new Pool(scale, first);
      first := pool;
      pools := [pool] + pools;
      s := Slot(pool, 0);
      live := live + {s};
      assert Agrees(pool);
    }

    /** Takes back a live slot. */
    method Free(s: Slot)
      requires Valid() && s in live
      modifies this`live, s.pool`freeCount, s.pool.bitmasks
      ensures Valid() && live == old(live) - {s}
    {
      hide InUse, AreMasks, FreeSlots, MarkFree;
      ghost var words := s.pool.bitmasks[..];
      assert Agrees(s.pool);
      s.pool.Give(s.index);
      MarkFacts(words, s.index);
      live := live - {s};
      assert Agrees(s.pool);
    }
  }
}
