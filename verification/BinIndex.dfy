/** Normalisation of request sizes, and which list a chunk of a given size belongs to. */
module BinIndex {
  import opened Arithmetic
  import opened Layout

  const SIZE_LIMIT: int := 0x1_0000_0000_0000_0000   // size_t wraps here
  const NBINS: int := 128
  const NFASTBINS: int := 10

  // ---------- Request sizes ----------

  /** The sum of two size_t values. */
  function AddSize(x: int, y: int): int { (x + y) % SIZE_LIMIT }

  predicate RequestOutOfRange(req: int) { req >= SIZE_LIMIT - 2 * 32 }

  /** The size of the chunk that serves a request, computed with wrapping size_t additions. */
  function RequestToSize(req: int): int {
    var padded := AddSize(req, 15);
    if padded < 32 then 32 else padded - padded % 16
  }

  /** A request in range is padded without wrapping to the least aligned size that can hold it. */
  lemma RequestToSizeIsLeast(req: int, n: int)
    requires 0 <= req && !RequestOutOfRange(req)
    ensures var nb := RequestToSize(req);
      && Aligned(nb) && 32 <= nb && req <= nb < SIZE_LIMIT
      && (Aligned(n) && n >= 32 && n >= req ==> nb <= n)
  {
    assert AddSize(req, 15) == req + 15;
  }

  /** The size that realloc asks malloc for is normalised back to what realloc wants. */
  lemma RequestToSizeOfPadded(nb: int)
    requires Aligned(nb) && 32 <= nb < SIZE_LIMIT
    ensures RequestToSize(nb - 15) == nb
  {
  }

  /** What memalign asks malloc for, in size_t arithmetic. */
  function PaddedRequest(nb: int, alignment: int): int {
    AddSize(AddSize(nb, alignment), MINSIZE)
  }

  function DoubledUpTo(a: int, alignment: int): (r: int)
    requires a > 0
    ensures r >= a
    decreases alignment - a
  {
    if a >= alignment then a else DoubledUpTo(2 * a, alignment)
  }

  /** The least power of two from MINSIZE on that is at least `alignment`. */
  function RoundedAlignment(alignment: int): (a: int)
    ensures a >= MINSIZE
  {
    DoubledUpTo(MINSIZE, alignment)
  }

  lemma AlignedTwice(a: int)
    requires Aligned(a)
    ensures Aligned(2 * a)
  {
  }

  lemma {:induction false} DoubledFacts(a: int, alignment: int, p: int)
    requires a > 0 && Aligned(a) && IsPowerOfTwo(a)
    ensures var r := DoubledUpTo(a, alignment);
      && a <= r && alignment <= r && (r < 2 * alignment || r == a) && Aligned(r) && IsPowerOfTwo(r)
      && (IsPowerOfTwo(p) && a <= p && alignment <= p ==> r <= p)
    decreases alignment - a
  {
    hide Aligned;
    if a < alignment {
      AlignedTwice(a);
      DoubledFacts(2 * a, alignment, p);
      if IsPowerOfTwo(p) && a < p { DoublingFits(a, p); }
    }
  }

  lemma RoundedAlignmentFacts(alignment: int, p: int)
    ensures var a := RoundedAlignment(alignment);
      && MINSIZE <= a && alignment <= a && (a < 2 * alignment || a == MINSIZE) && Aligned(a) && IsPowerOfTwo(a)
      && (IsPowerOfTwo(p) && MINSIZE <= p && alignment <= p ==> a <= p)
  {
    assert IsPowerOfTwo(MINSIZE) by { assert IsPowerOfTwo(8) && IsPowerOfTwo(2); }
    DoubledFacts(MINSIZE, alignment, p);
  }

  const LARGEST_ALIGNMENT: int := 0x8000_0000_0000_0000

  lemma LargestIsPower()
    ensures IsPowerOfTwo(LARGEST_ALIGNMENT)
  {
    Halves(63);
    LargePowers();
  }

  /** No larger alignment than the largest power of two is rounded to more than that. */
  lemma RoundedAlignmentFits(alignment: int)
    requires alignment <= LARGEST_ALIGNMENT
    ensures MINSIZE <= RoundedAlignment(alignment) <= LARGEST_ALIGNMENT && Aligned(RoundedAlignment(alignment))
  {
    RoundedAlignmentFacts(alignment, LARGEST_ALIGNMENT);
    LargestIsPower();
  }

  /** The guard of memalign, which comes before the alignment is rounded. */
  predicate MemalignGuard(alignment: int, bytes: int) {
    var a := if alignment < MINSIZE then MINSIZE else alignment;
    a <= LARGEST_ALIGNMENT && bytes <= SIZE_LIMIT - 1 - a - MINSIZE
  }

  lemma NextAligned(x: int, y: int)
    requires Aligned(x) && Aligned(y) && x > y
    ensures x >= y + 16
  {
  }

  /** A sum of two sizes that wraps at most once. */
  lemma SumWraps(x: int, y: int)
    requires 0 <= x < SIZE_LIMIT && 0 <= y < SIZE_LIMIT
    ensures AddSize(x, y) == if x + y < SIZE_LIMIT then x + y else x + y - SIZE_LIMIT
  {
  }

  lemma PaddedFacts(nb: int, alignment: int)
    requires 0 <= nb < SIZE_LIMIT && 0 <= alignment <= LARGEST_ALIGNMENT && Aligned(nb) && Aligned(alignment)
    ensures var sum, padded := nb + alignment + MINSIZE, PaddedRequest(nb, alignment);
      padded == (if sum < SIZE_LIMIT then sum else sum - SIZE_LIMIT) && Aligned(padded)
  {
    SumWraps(nb, alignment);
    SumWraps(AddSize(nb, alignment), MINSIZE);
  }

  /**
   The padded request is as large as it should be exactly if the request is that far below the limit. Otherwise it
   wraps to a request for what is beyond the limit, and no chunk that serves that has room for what was asked for.
   */
  lemma PaddedRequestFits(alignment: int, bytes: int)
    requires 0 <= bytes && !RequestOutOfRange(bytes)
    requires MINSIZE <= alignment <= LARGEST_ALIGNMENT && Aligned(alignment)
    ensures var nb, padded := RequestToSize(bytes), PaddedRequest(RequestToSize(bytes), alignment);
      && (padded == nb + alignment + MINSIZE <==> bytes <= SIZE_LIMIT - 16 - alignment - MINSIZE)
      && (padded != nb + alignment + MINSIZE ==>
            padded == nb + alignment + MINSIZE - SIZE_LIMIT && RequestToSize(padded) + MINSIZE <= nb)
  {
    hide RequestToSize;
    var nb, padded, limit := RequestToSize(bytes), PaddedRequest(RequestToSize(bytes), alignment),
                             SIZE_LIMIT - 16 - alignment - MINSIZE;
    RequestToSizeIsLeast(bytes, limit);
    hide AddSize, PaddedRequest;
    PaddedFacts(nb, alignment);
    if bytes > limit {
      assert nb + alignment + MINSIZE >= SIZE_LIMIT by { NextAligned(nb, limit); }
      RequestToSizeIsLeast(padded, padded + MINSIZE);
    }
  }

  /** Memalign passes its guard on to a request that wraps. */
  predicate MemalignWraps(alignment: int, bytes: int) {
    && MemalignGuard(alignment, bytes) && !RequestOutOfRange(bytes)
    && bytes > SIZE_LIMIT - 16 - RoundedAlignment(alignment) - MINSIZE
  }

  /** Which requests wrap, by the alignment that the caller gives. */
  lemma MemalignWrapsMeans(alignment: int, bytes: int)
    requires 0 <= bytes && !RequestOutOfRange(bytes) && MemalignGuard(alignment, bytes)
    ensures var nb, a := RequestToSize(bytes), RoundedAlignment(alignment);
      && (PaddedRequest(nb, a) == nb + a + MINSIZE <==> !MemalignWraps(alignment, bytes))
      && (MemalignWraps(alignment, bytes) ==> RequestToSize(PaddedRequest(nb, a)) + MINSIZE <= nb)
  {
    RoundedAlignmentFits(alignment);
    PaddedRequestFits(RoundedAlignment(alignment), bytes);
  }

  /** Requests that the guard lets through and that wrap, also when the alignment is a power of two. */
  lemma PaddedRequestCanWrap()
    ensures RoundedAlignment(64) == 64 && MemalignWraps(64, SIZE_LIMIT - 1 - 64 - 32)
    ensures PaddedRequest(RequestToSize(SIZE_LIMIT - 1 - 64 - 32), 64) == 0
    ensures RoundedAlignment(48) == 64 && MemalignWraps(48, SIZE_LIMIT - 81)
    ensures PaddedRequest(RequestToSize(SIZE_LIMIT - 81), 64) == 16
    ensures RoundedAlignment(0x10_0010) == 0x20_0000 && MemalignWraps(0x10_0010, SIZE_LIMIT - 1 - 0x10_0010 - 32)
    ensures PaddedRequest(RequestToSize(SIZE_LIMIT - 1 - 0x10_0010 - 32), 0x20_0000) == 0x10_0000 - 16
  {
    assert DoubledUpTo(0x400, 0x10_0010) == DoubledUpTo(0x4000, 0x10_0010) == DoubledUpTo(0x4_0000, 0x10_0010);
  }

  // ---------- Bin indices ----------

  predicate InSmallbinRange(sz: int) { sz + 16 < 1024 }

  function SmallbinIndex(sz: int): int { (sz + 16) / 16 }

  function LargebinIndex(sz: int): int {
    var s := sz + 16;
    if s / 64 <= 48 then 48 + s / 64
    else if s / 512 <= 20 then 91 + s / 512
    else if s / 4096 <= 10 then 110 + s / 4096
    else if s / 32768 <= 4 then 119 + s / 32768
    else if s / 262144 <= 2 then 124 + s / 262144
    else 126
  }

  function BinOf(sz: int): int {
    if InSmallbinRange(sz) then SmallbinIndex(sz) else LargebinIndex(sz)
  }

  function FastbinIndex(sz: int): int { (sz + 16) / 16 - 2 }

  lemma BinOfInRange(sz: int)
    requires 32 <= sz
    ensures 3 <= BinOf(sz) <= 126 && (InSmallbinRange(sz) <==> BinOf(sz) < 64)
  {
  }

  /** The least size in bin `b`, plus 16. */
  function LeastIn(b: int): int {
    if b < 64 then 16 * b
    else if b < 97 then 64 * (b - 48)
    else if b == 97 then 3136
    else if b < 112 then 512 * (b - 91)
    else if b == 112 then 10752
    else if b < 121 then 4096 * (b - 110)
    else if b < 124 then 32768 * (b - 119)
    else if b == 124 then 163840
    else 262144 * (b - 124)
  }

  lemma LargeBinHasSizes(sz: int, b: int)
    requires 1008 <= sz < 10736 && 3 <= b <= 126
    ensures BinOf(sz) == b <==> LeastIn(b) <= sz + 16 && (b < 126 ==> sz + 16 < LeastIn(b + 1))
  {
  }

  /**
   Which sizes a bin has: 16 bytes wide below 1024, then 64, 512, 4096, 32768 and 262144 bytes wide, except for what
   the coarser division leaves out where it takes over; the last bin has all that are larger.
   */
  lemma BinHasSizes(sz: int, b: int)
    requires 32 <= sz && 3 <= b <= 126
    ensures BinOf(sz) == b <==> LeastIn(b) <= sz + 16 && (b < 126 ==> sz + 16 < LeastIn(b + 1))
  {
    if InSmallbinRange(sz) {
      hide LargebinIndex;
    } else if sz + 16 < 10752 {
      LargeBinHasSizes(sz, b);
    }
  }

  lemma LargebinIndexMonotone(x: int, y: int)
    requires 32 <= x <= y
    ensures LargebinIndex(x) <= LargebinIndex(y)
  {
    var s, t := x + 16, y + 16;
    assert s / 64 <= t / 64 && s / 512 <= t / 512 && s / 4096 <= t / 4096;
    assert s / 32768 <= t / 32768 && s / 262144 <= t / 262144;
  }

  lemma BinOfMonotone(x: int, y: int)
    requires 32 <= x <= y
    ensures BinOf(x) <= BinOf(y)
  {
    if !InSmallbinRange(x) {
      LargebinIndexMonotone(x, y);
    } else if !InSmallbinRange(y) {
      BinOfInRange(x);
      BinOfInRange(y);
    }
  }

  /** Small bins hold one size each, and any chunk of a higher bin is large enough. */
  lemma BinSearchFits(nb: int, size: int)
    requires MINSIZE <= nb && MINSIZE <= size && Aligned(nb) && Aligned(size)
    ensures BinOf(size) > BinOf(nb) ==> size > nb
    ensures InSmallbinRange(nb) && BinOf(size) == BinOf(nb) ==> size == nb
  {
    if size <= nb {
      BinOfMonotone(size, nb);
    }
    BinOfInRange(nb);
    BinOfInRange(size);
  }

  /** Every size up to the fastbin limit has a fastbin of its own. */
  lemma FastbinExact(x: int, y: int)
    requires 32 <= x <= 160 && 32 <= y && Aligned(x) && Aligned(y)
    ensures 1 <= FastbinIndex(x) < NFASTBINS && (FastbinIndex(x) == FastbinIndex(y) ==> x == y)
    ensures 16 * (FastbinIndex(x) + 1) == x
  {
  }
}
