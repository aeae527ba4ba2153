/** The bits of machine words, which are numbers below a power of two. */
module WordBits {
  import opened Arithmetic

  /** The bitwise operations on a word and a single bit, by recursion on the position of the bit. */
  predicate IsSet(word: int, k: nat)
    decreases k
  {
    if k == 0 then word % 2 == 1 else IsSet(word / 2, k - 1)
  }

  function SetBit(word: int, k: nat): int
    decreases k
  {
    if k == 0 then word - word % 2 + 1 else 2 * SetBit(word / 2, k - 1) + word % 2
  }

  function ClearBit(word: int, k: nat): int
    decreases k
  {
    if k == 0 then word - word % 2 else 2 * ClearBit(word / 2, k - 1) + word % 2
  }

  lemma {:induction false} SetBitSets(word: int, k: nat, j: nat)
    ensures IsSet(SetBit(word, k), j) <==> j == k || IsSet(word, j)
    decreases k
  {
    if k > 0 && j > 0 { SetBitSets(word / 2, k - 1, j - 1); }
  }

  lemma {:induction false} ClearBitClears(word: int, k: nat, j: nat)
    ensures IsSet(ClearBit(word, k), j) <==> j != k && IsSet(word, j)
    decreases k
  {
    if k > 0 && j > 0 {
      ClearBitClears(word / 2, k - 1, j - 1);
      assert ClearBit(word, k) / 2 == ClearBit(word / 2, k - 1);
    } else if k == 0 && j > 0 {
      assert ClearBit(word, k) / 2 == word / 2;
    } else if j == 0 {
      assert k > 0 ==> ClearBit(word, k) % 2 == word % 2;
    }
  }

  /** The exclusive or of the lowest `n` bits of two words. */
  function Xor(x: int, y: int, n: nat): int
    decreases n
  {
    if n == 0 then 0 else 2 * Xor(x / 2, y / 2, n - 1) + (if x % 2 != y % 2 then 1 else 0)
  }

  lemma {:induction false} XorBits(x: int, y: int, n: nat, k: nat)
    ensures IsSet(Xor(x, y, n), k) <==> k < n && IsSet(x, k) != IsSet(y, k)
    decreases n, k
  {
    if n == 0 {
      if k > 0 { XorBits(x, y, 0, k - 1); }
    } else if k > 0 {
      assert Xor(x, y, n) / 2 == Xor(x / 2, y / 2, n - 1);
      XorBits(x / 2, y / 2, n - 1, k - 1);
    }
  }

  lemma {:induction false} XorInRange(x: int, y: int, n: nat)
    ensures 0 <= Xor(x, y, n) < Pow2(n)
    decreases n
  {
    if n > 0 { XorInRange(x / 2, y / 2, n - 1); }
  }

  /** Two words with the same bits are the same. */
  lemma {:induction false} SameBits(x: int, y: int, n: nat)
    requires 0 <= x < Pow2(n) && 0 <= y < Pow2(n)
    requires forall k: nat {:trigger IsSet(x, k)} {:trigger IsSet(y, k)} | k < n :: IsSet(x, k) == IsSet(y, k)
    ensures x == y
    decreases n
  {
    if n > 0 {
      forall k: nat {:trigger IsSet(x / 2, k)} {:trigger IsSet(y / 2, k)} | k < n - 1
        ensures IsSet(x / 2, k) == IsSet(y / 2, k)
      {
        assert IsSet(x, k + 1) == IsSet(y, k + 1);
      }
      SameBits(x / 2, y / 2, n - 1);
      assert IsSet(x, 0) == IsSet(y, 0);
    }
  }

  /** Setting a bit adds its value unless it is there, and clearing it takes the value away. */
  lemma {:induction false} BitsAddUp(word: int, k: nat)
    ensures SetBit(word, k) == if IsSet(word, k) then word else word + Pow2(k)
    ensures ClearBit(word, k) == if IsSet(word, k) then word - Pow2(k) else word
    decreases k
  {
    if k > 0 { BitsAddUp(word / 2, k - 1); }
  }

  lemma {:induction false} SetBitInRange(word: int, k: nat, n: nat)
    requires 0 <= word < Pow2(n) && k < n
    ensures 0 <= SetBit(word, k) < Pow2(n) && 0 <= ClearBit(word, k) < Pow2(n)
    decreases k
  {
    if k > 0 {
      assert Pow2(n) == 2 * Pow2(n - 1);
      SetBitInRange(word / 2, k - 1, n - 1);
    }
  }

  /** A word below bit `k` has no bit set at position `k` or above. */
  lemma {:induction false} HighBitsClear(word: int, k: nat, j: nat)
    requires 0 <= word < Pow2(k) && k <= j
    ensures !IsSet(word, j)
    decreases j
  {
    if k > 0 {
      HighBitsClear(word / 2, k - 1, j - 1);
    } else if j > 0 {
      HighBitsClear(word / 2, 0, j - 1);
    }
  }

  /** A word that reaches up to bit `k` without having it set has a higher bit set. */
  lemma {:induction false} HigherBitSet(word: int, k: nat)
    requires word >= Pow2(k) && !IsSet(word, k)
    ensures word >= Pow2(k + 1)
    decreases k
  {
    if k > 0 { HigherBitSet(word / 2, k - 1); }
  }
}
