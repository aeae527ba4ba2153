/** The bitmap that records which bins may be non-empty, and the search that uses it. */
module BinMap {
  import opened Arithmetic
  import opened WordBits

  const BITSPERMAP: int := 32
  const BINMAPSIZE: int := 4

  /** A word of the map as a number below 2 to the 32. */
  type Words = seq<int>

  lemma {:induction false} Pow2Grows(j: nat, k: nat)
    requires j <= k
    ensures 0 < Pow2(j) <= Pow2(k)
  {
    if j < k { Pow2Grows(j, k - 1); } else if j > 0 { Pow2Grows(j - 1, j - 1); }
  }

  /** Doubling a bit modulo the word size gives the next bit, and zero after the last one. */
  lemma {:induction false} NextBit(k: nat)
    requires k < BITSPERMAP
    ensures 0 < Pow2(k) < 0x1_0000_0000
    ensures (2 * Pow2(k)) % 0x1_0000_0000 == if k == BITSPERMAP - 1 then 0 else Pow2(k + 1)
    ensures Pow2(0) == 1 && (k == BITSPERMAP - 1 ==> Pow2(k + 1) == 0x1_0000_0000)
  {
    LargePowers();
    if k < BITSPERMAP - 1 { Pow2Grows(k + 1, BITSPERMAP - 1); }
  }

  predicate IsMap(w: Words) {
    |w| == BINMAPSIZE && forall b {:trigger w[b]} | 0 <= b < BINMAPSIZE :: 0 <= w[b] < 0x1_0000_0000
  }

  predicate Marked(w: Words, i: int)
    requires |w| == BINMAPSIZE && 0 <= i < BINMAPSIZE * BITSPERMAP
  {
    IsSet(w[i / BITSPERMAP], i % BITSPERMAP)
  }

  /** Records that bin `i` may be non-empty. */
  function MarkBin(w: Words, i: nat): (w': Words)
    requires IsMap(w) && i < BINMAPSIZE * BITSPERMAP
  {
    w[i / BITSPERMAP := SetBit(w[i / BITSPERMAP], i % BITSPERMAP)]
  }

  lemma MarkBinMarks(w: Words, i: nat, j: nat)
    requires IsMap(w) && i < BINMAPSIZE * BITSPERMAP && j < BINMAPSIZE * BITSPERMAP
    ensures IsMap(MarkBin(w, i)) && (Marked(MarkBin(w, i), j) <==> j == i || Marked(w, j))
  {
    hide SetBit, IsSet;
    NextBit(31);
    SetBitInRange(w[i / BITSPERMAP], i % BITSPERMAP, 32);
    SetBitSets(w[i / BITSPERMAP], i % BITSPERMAP, j % BITSPERMAP);
  }

  /** Every non-empty bin from 2 on is marked; marks of empty bins may be out of date. */
  ghost predicate Covers<T>(w: Words, bins: seq<seq<T>>) {
    && IsMap(w) && |bins| == BINMAPSIZE * BITSPERMAP
    && forall i {:trigger bins[i]} | 2 <= i < |bins| && bins[i] != [] :: Marked(w, i)
  }

  lemma MarkKeepsCovers<T>(w: Words, bins: seq<seq<T>>, b: nat, s: seq<T>)
    requires Covers(w, bins) && b < |bins|
    ensures Covers(if b >= 2 then MarkBin(w, b) else w, bins[b := s])
  {
    hide Marked, MarkBin;
    MarkBinMarks(w, b, b);
    forall i {:trigger bins[i]} | 2 <= i < |bins| && bins[i] != [] ensures Marked(MarkBin(w, b), i) {
      MarkBinMarks(w, b, i);
    }
  }

  lemma ClearKeepsCovers<T>(w: Words, bins: seq<seq<T>>, block: nat, k: nat)
    requires Covers(w, bins) && block < BINMAPSIZE && k < BITSPERMAP && bins[block * BITSPERMAP + k] == []
    ensures Covers(w[block := ClearBit(w[block], k)], bins)
  {
    hide IsSet, ClearBit;
    NextBit(31);
    SetBitInRange(w[block], k, 32);
    var w' := w[block := ClearBit(w[block], k)];
    forall i {:trigger bins[i]} | 2 <= i < |bins| && bins[i] != [] ensures Marked(w', i) {
      ClearBitClears(w[block], k, i % BITSPERMAP);
    }
  }

  /** The bins of a block whose word has no bit from position `k` on are empty from there on. */
  lemma RestIsEmpty<T>(w: Words, bins: seq<seq<T>>, block: nat, k: nat, idx: nat)
    requires Covers(w, bins) && block < BINMAPSIZE && k <= BITSPERMAP && 2 <= idx <= block * BITSPERMAP + k
    requires w[block] < Pow2(k)
    requires forall i {:trigger bins[i]} | idx <= i < block * BITSPERMAP + k :: bins[i] == []
    ensures forall i {:trigger bins[i]} | idx <= i < (block + 1) * BITSPERMAP :: bins[i] == []
  {
    hide IsSet;
    forall i {:trigger bins[i]} | block * BITSPERMAP + k <= i < (block + 1) * BITSPERMAP ensures bins[i] == [] {
      HighBitsClear(w[block], k, i - block * BITSPERMAP);
      assert !Marked(w, i);
    }
  }

  /**
   Finds the lowest non-empty bin from `idx` on by walking the set bits of the bitmap, clearing the bits
   of bins that turn out to be empty.  The answer 128 means that there is none.
   */
  method FindBin<T>(w: Words, bins: seq<seq<T>>, idx: nat) returns (w': Words, bin: nat)
    requires Covers(w, bins) && 2 <= idx < |bins|
    ensures Covers(w', bins)
    ensures idx <= bin <= |bins| && (bin < |bins| ==> bins[bin] != [])
    ensures forall i {:trigger bins[i]} | idx <= i < bin :: bins[i] == []
  {
    hide IsSet, ClearBit, Pow2;
    w' := w;
    bin := idx;
    var block := idx / BITSPERMAP;
    var word := w'[block];
    var k := idx % BITSPERMAP;   // the position of `bit`
    var bit := Pow2(k);
    while true
      invariant Covers(w', bins)
      invariant 0 <= block < BINMAPSIZE && 0 <= k <= BITSPERMAP && bin == block * BITSPERMAP + k
      invariant idx <= bin && bit == (if k == BITSPERMAP then 0 else Pow2(k)) && word == w'[block]
      invariant forall i {:trigger bins[i]} | idx <= i < bin :: bins[i] == []
      decreases BINMAPSIZE * BITSPERMAP - bin
    {
      if bit > word || bit == 0 {
        // Skip the rest of this block: it has no more set bits.
        if k < BITSPERMAP { NextBit(k); RestIsEmpty(w', bins, block, k, idx); }
        block := block + 1;
        while block < BINMAPSIZE && w'[block] == 0
          invariant 0 <= block <= BINMAPSIZE && idx <= block * BITSPERMAP
          invariant forall i {:trigger bins[i]} | idx <= i < block * BITSPERMAP :: bins[i] == []
        {
          NextBit(0);
          RestIsEmpty(w', bins, block, 0, idx);
          block := block + 1;
        }
        if block >= BINMAPSIZE {
          return w', |bins|;
        }
        word := w'[block];
        bin, k := block * BITSPERMAP, 0;
        bit := Pow2(0);
        NextBit(0);
      }
      // Advance to a set bit: there is one.
      while !IsSet(word, k)
        invariant 0 <= k < BITSPERMAP && bin == block * BITSPERMAP + k && idx <= bin
        invariant bit == Pow2(k) <= word
        invariant forall i {:trigger bins[i]} | idx <= i < bin :: bins[i] == []
        decreases BITSPERMAP - k
      {
        assert !Marked(w', bin);
        HigherBitSet(word, k);
        NextBit(k);
        bin := bin + 1;
        bit := (2 * bit) % 0x1_0000_0000;
        k := k + 1;
      }
      if bins[bin] != [] {
        return;
      }
      // A false alarm: clear the bit.
      ClearKeepsCovers(w', bins, block, k);
      NextBit(k);
      word := ClearBit(word, k);
      w' := w'[block := word];
      bin := bin + 1;
      bit := (2 * bit) % 0x1_0000_0000;
      k := k + 1;
    }
  }
}
