/** Which bin a key belongs to while a linear hash table grows and shrinks, and what that does to its records. */
module Binning {
  import opened Arithmetic
  import opened Sequences
  import opened Chains

  const BINCOUNT_MAX: int := 0xFFFF_FFFF
  const FIRST_BINS: int := 256

  type Hash = int -> nat

  /** The bin of a hash value, when the first `p` of `maxp` bins have been split. */
  function Bindex(h: nat, maxp: int, p: int): int
    requires maxp > 0
  {
    var l := h % maxp;
    if l < p && 2 * maxp < BINCOUNT_MAX then h % (2 * maxp) else l
  }

  /** The reachable values of the counters. */
  predicate Dims(maxp: int, p: int, L: int, bincount: int) {
    && L >= 0 && maxp == FIRST_BINS * Pow2(L) && 0 <= p < maxp && bincount == maxp + p && bincount <= BINCOUNT_MAX
  }

  // ---------- Counters ----------

  /** The next bin to be split, after bin `p` was. */
  function GrownMaxp(maxp: int, p: int): int { if p + 1 == maxp then 2 * maxp else maxp }
  function GrownP(maxp: int, p: int): int { if p + 1 == maxp then 0 else p + 1 }

  /** The bin that was split last. */
  function ShrunkMaxp(maxp: int, p: int): int { if p == 0 then maxp / 2 else maxp }
  function ShrunkP(maxp: int, p: int): int { if p == 0 then maxp / 2 - 1 else p - 1 }

  lemma GrowKeepsDims(maxp: int, p: int, L: int, bincount: int)
    requires Dims(maxp, p, L, bincount) && bincount < BINCOUNT_MAX
    ensures Dims(GrownMaxp(maxp, p), GrownP(maxp, p), if p + 1 == maxp then L + 1 else L, bincount + 1)
    ensures ShrunkMaxp(GrownMaxp(maxp, p), GrownP(maxp, p)) == maxp && ShrunkP(GrownMaxp(maxp, p), GrownP(maxp, p)) == p
    ensures maxp + p == bincount && p < bincount
  {
    Pow2Positive(L);
  }

  /** Contraction takes the counters back to what they were before the expansion that led to them. */
  lemma ShrinkKeepsDims(maxp: int, p: int, L: int, bincount: int)
    requires Dims(maxp, p, L, bincount) && L > 0
    ensures Dims(ShrunkMaxp(maxp, p), ShrunkP(maxp, p), if p == 0 then L - 1 else L, bincount - 1)
    ensures GrownMaxp(ShrunkMaxp(maxp, p), ShrunkP(maxp, p)) == maxp
    ensures GrownP(ShrunkMaxp(maxp, p), ShrunkP(maxp, p)) == p
    ensures ShrunkMaxp(maxp, p) + ShrunkP(maxp, p) == bincount - 1 && 0 <= ShrunkP(maxp, p) < bincount - 1
    ensures bincount > FIRST_BINS
  {
    Pow2Positive(L - 1);
  }

  lemma BindexInRange(h: nat, maxp: int, p: int)
    requires 0 <= p < maxp
    ensures 0 <= Bindex(h, maxp, p) < maxp + p
  {
    RestOfDouble(h, maxp);
  }

  /** Splitting bin `p` moves keys from it to the new bin at the end, and moves no other key. */
  lemma SplitBindex(h: nat, maxp: int, p: int)
    requires 0 <= p < maxp && maxp + p < BINCOUNT_MAX
    ensures var i, i' := Bindex(h, maxp, p), Bindex(h, GrownMaxp(maxp, p), GrownP(maxp, p));
            0 <= i < maxp + p && (i' == i || (i == p && i' == maxp + p))
  {
    RestOfDouble(h, maxp);
    BindexInRange(h, maxp, p);
    if p + 1 == maxp {
      assert 2 * maxp != BINCOUNT_MAX;
    }
  }

  // ---------- Records by key ----------

  /** The key of each record. */
  type Keys = map<Ref, int>

  function KeyOf(keys: Keys, x: Ref): int { if x in keys then keys[x] else 0 }

  /** The records of a chain that have key `k`, in order: the first is the top of a stack. */
  function StackIn(keys: Keys, s: seq<Ref>, k: int): seq<Ref> {
    if s == [] then []
    else StackIn(keys, s[..|s| - 1], k) + (if KeyOf(keys, s[|s| - 1]) == k then [s[|s| - 1]] else [])
  }

  /** The records of a chain that belong in bin `i`, in order. */
  function Pick(hash: Hash, keys: Keys, s: seq<Ref>, maxp: int, p: int, i: int): seq<Ref>
    requires maxp > 0
  {
    if s == [] then []
    else
      var x := s[|s| - 1];
      Pick(hash, keys, s[..|s| - 1], maxp, p, i) + (if Bindex(hash(KeyOf(keys, x)), maxp, p) == i then [x] else [])
  }

  lemma {:induction false} StackOfPick(hash: Hash, keys: Keys, s: seq<Ref>, maxp: int, p: int, i: int, k: int)
    requires maxp > 0
    ensures StackIn(keys, Pick(hash, keys, s, maxp, p, i), k)
        == if Bindex(hash(k), maxp, p) == i then StackIn(keys, s, k) else []
  {
    if s != [] {
      var n := |s| - 1;
      var t := Pick(hash, keys, s[..n], maxp, p, i);
      StackOfPick(hash, keys, s[..n], maxp, p, i, k);
      if Bindex(hash(KeyOf(keys, s[n])), maxp, p) == i {
        assert (t + [s[n]])[..|t|] == t;
      } else {
        assert t + [] == t;
      }
    }
  }

  lemma {:induction false} StackOfSum(keys: Keys, a: seq<Ref>, b: seq<Ref>, k: int)
    ensures StackIn(keys, a + b, k) == StackIn(keys, a, k) + StackIn(keys, b, k)
  {
    if b == [] {
      assert a + b == a;
    } else {
      assert (a + b)[..|a + b| - 1] == a + b[..|b| - 1];
      StackOfSum(keys, a, b[..|b| - 1], k);
    }
  }

  lemma {:induction false} NoStack(keys: Keys, s: seq<Ref>, k: int)
    requires forall x {:trigger x in s} | x in s :: KeyOf(keys, x) != k
    ensures StackIn(keys, s, k) == []
  {
    if s != [] {
      assert s[|s| - 1] in s;
      var t := s[..|s| - 1];
      forall x {:trigger x in t} | x in t ensures KeyOf(keys, x) != k {
        assert x in s;
      }
      NoStack(keys, t, k);
    }
  }

  lemma {:induction false} StackMembers(keys: Keys, s: seq<Ref>, k: int, x: Ref)
    requires x in StackIn(keys, s, k)
    ensures x in s && KeyOf(keys, x) == k
  {
    if s != [] && x in StackIn(keys, s[..|s| - 1], k) {
      StackMembers(keys, s[..|s| - 1], k, x);
    }
  }

  lemma {:induction false} PickMembers(hash: Hash, keys: Keys, s: seq<Ref>, maxp: int, p: int, i: int)
    requires maxp > 0
    ensures forall x {:trigger x in Pick(hash, keys, s, maxp, p, i)} ::
              x in Pick(hash, keys, s, maxp, p, i) <==> x in s && Bindex(hash(KeyOf(keys, x)), maxp, p) == i
  {
    if s != [] {
      PickMembers(hash, keys, s[..|s| - 1], maxp, p, i);
      assert s == s[..|s| - 1] + [s[|s| - 1]];
    }
  }

  // ---------- All the bins ----------

  ghost predicate PlacedIn(hash: Hash, keys: Keys, maxp: int, p: int, s: seq<Ref>, i: int)
    requires maxp > 0
  {
    forall x {:trigger x in s} | x in s :: x in keys && Bindex(hash(KeyOf(keys, x)), maxp, p) == i
  }

  /** Every record is in the bin of its key, once. */
  ghost predicate Placed(hash: Hash, keys: Keys, maxp: int, p: int, chains: seq<seq<Ref>>)
    requires maxp > 0
  {
    forall i {:trigger chains[i]} | 0 <= i < |chains| ::
        PlacedIn(hash, keys, maxp, p, chains[i], i) && Distinct(chains[i])
  }

  /** All the records with key `k`, the one added last in front. */
  function Stack(hash: Hash, keys: Keys, maxp: int, p: int, chains: seq<seq<Ref>>, k: int): seq<Ref>
    requires maxp > 0
  {
    var i := Bindex(hash(k), maxp, p);
    if 0 <= i < |chains| then StackIn(keys, chains[i], k) else []
  }

  /** What splitting bin `p` does to the chains. */
  function Split(hash: Hash, keys: Keys, maxp: int, p: int, chains: seq<seq<Ref>>): (r: seq<seq<Ref>>)
    requires 0 <= p < maxp && |chains| == maxp + p
    ensures |r| == |chains| + 1
  {
    var maxp', p' := GrownMaxp(maxp, p), GrownP(maxp, p);
    chains[p := Pick(hash, keys, chains[p], maxp', p', p)] + [Pick(hash, keys, chains[p], maxp', p', maxp + p)]
  }

  lemma SplitAt(hash: Hash, keys: Keys, maxp: int, p: int, chains: seq<seq<Ref>>)
    requires 0 <= p < maxp && |chains| == maxp + p
    ensures forall i {:trigger Split(hash, keys, maxp, p, chains)[i]} | 0 <= i <= maxp + p ::
              Split(hash, keys, maxp, p, chains)[i]
              == if i == p || i == maxp + p then Pick(hash, keys, chains[p], GrownMaxp(maxp, p), GrownP(maxp, p), i)
                  else chains[i]
  {
    hide Pick;
  }

  /** Splitting a bin changes no stack. */
  lemma SplitKeepsStacks(hash: Hash, keys: Keys, maxp: int, p: int, chains: seq<seq<Ref>>, k: int)
    requires 0 <= p < maxp && maxp + p == |chains| < BINCOUNT_MAX && Placed(hash, keys, maxp, p, chains)
    ensures Stack(hash, keys, GrownMaxp(maxp, p), GrownP(maxp, p), Split(hash, keys, maxp, p, chains), k)
            == Stack(hash, keys, maxp, p, chains, k)
  {
    hide Bindex, StackIn, Pick, Placed;
    var maxp', p' := GrownMaxp(maxp, p), GrownP(maxp, p);
    SplitBindex(hash(k), maxp, p);
    StackOfPick(hash, keys, chains[p], maxp', p', p, k);
    StackOfPick(hash, keys, chains[p], maxp', p', maxp + p, k);
    SplitAt(hash, keys, maxp, p, chains);
    hide Split, GrownMaxp, GrownP;
  }

  /** What merging the last bin into the one that it was split from does to the chains. */
  function Merge(maxp: int, p: int, chains: seq<seq<Ref>>): (r: seq<seq<Ref>>)
    requires 0 <= ShrunkP(maxp, p) < |chains| - 1
    ensures |r| == |chains| - 1
  {
    var src := |chains| - 1;
    chains[..src][ShrunkP(maxp, p) := chains[ShrunkP(maxp, p)] + chains[src]]
  }

  lemma MergeAt(maxp: int, p: int, chains: seq<seq<Ref>>)
    requires 0 <= ShrunkP(maxp, p) < |chains| - 1
    ensures forall i {:trigger Merge(maxp, p, chains)[i]} | 0 <= i < |chains| - 1 ::
              Merge(maxp, p, chains)[i] == if i == ShrunkP(maxp, p) then chains[i] + chains[|chains| - 1] else chains[i]
  {
  }

  lemma NotHere(hash: Hash, keys: Keys, maxp: int, p: int, chains: seq<seq<Ref>>, i: int, k: int)
    requires maxp > 0 && Placed(hash, keys, maxp, p, chains) && 0 <= i < |chains| && Bindex(hash(k), maxp, p) != i
    ensures StackIn(keys, chains[i], k) == []
  {
    assert PlacedIn(hash, keys, maxp, p, chains[i], i);
    NoStack(keys, chains[i], k);
  }

  /** Merging two bins changes no stack, because no key has records in both. */
  lemma MergeKeepsStacks(hash: Hash, keys: Keys, maxp: int, p: int, L: int, chains: seq<seq<Ref>>, k: int)
    requires Dims(maxp, p, L, |chains|) && L > 0 && Placed(hash, keys, maxp, p, chains)
    requires 0 <= ShrunkP(maxp, p) < |chains| - 1 && ShrunkMaxp(maxp, p) > 0
    ensures Stack(hash, keys, ShrunkMaxp(maxp, p), ShrunkP(maxp, p), Merge(maxp, p, chains), k)
            == Stack(hash, keys, maxp, p, chains, k)
  {
    hide Bindex, StackIn;
    ShrinkKeepsDims(maxp, p, L, |chains|);
    var src, tgt, i := |chains| - 1, ShrunkP(maxp, p), Bindex(hash(k), maxp, p);
    SplitBindex(hash(k), ShrunkMaxp(maxp, p), tgt);
    StackOfSum(keys, chains[tgt], chains[src], k);
    MergeAt(maxp, p, chains);
    hide Dims, ShrunkP, ShrunkMaxp, Merge;
    if i != tgt { NotHere(hash, keys, maxp, p, chains, tgt, k); }
    if i != src { NotHere(hash, keys, maxp, p, chains, src, k); }
    assert [] + StackIn(keys, chains[src], k) == StackIn(keys, chains[src], k);
    assert StackIn(keys, chains[tgt], k) + [] == StackIn(keys, chains[tgt], k);
  }

  // ---------- What splitting and merging keep ----------

  lemma {:induction false} PickIsDistinct(hash: Hash, keys: Keys, s: seq<Ref>, maxp: int, p: int, i: int)
    requires maxp > 0 && Distinct(s)
    ensures Distinct(Pick(hash, keys, s, maxp, p, i))
  {
    if s != [] {
      var n := |s| - 1;
      assert s == s[..n] + [s[n]];
      Parts(s[..n], [s[n]]);
      PickIsDistinct(hash, keys, s[..n], maxp, p, i);
      PickMembers(hash, keys, s[..n], maxp, p, i);
      assert s[n] in [s[n]];
      DistinctSum(Pick(hash, keys, s[..n], maxp, p, i),
                  if Bindex(hash(KeyOf(keys, s[n])), maxp, p) == i then [s[n]] else []);
    }
  }

  lemma SplitKeepsPlaced(hash: Hash, keys: Keys, maxp: int, p: int, chains: seq<seq<Ref>>)
    requires 0 <= p < maxp && maxp + p == |chains| < BINCOUNT_MAX && Placed(hash, keys, maxp, p, chains)
    ensures Placed(hash, keys, GrownMaxp(maxp, p), GrownP(maxp, p), Split(hash, keys, maxp, p, chains))
  {
    var maxp', p', chains' := GrownMaxp(maxp, p), GrownP(maxp, p), Split(hash, keys, maxp, p, chains);
    hide Bindex, GrownMaxp, GrownP;
    assert PlacedIn(hash, keys, maxp, p, chains[p], p);
    forall i {:trigger chains'[i]} | 0 <= i < |chains'|
      ensures PlacedIn(hash, keys, maxp', p', chains'[i], i) && Distinct(chains'[i])
    {
      if i == p || i == maxp + p {
        PickMembers(hash, keys, chains[p], maxp', p', i);
        PickIsDistinct(hash, keys, chains[p], maxp', p', i);
      } else {
        assert PlacedIn(hash, keys, maxp, p, chains[i], i);
        forall x {:trigger x in chains[i]} | x in chains[i] ensures Bindex(hash(KeyOf(keys, x)), maxp', p') == i {
          SplitBindex(hash(KeyOf(keys, x)), maxp, p);
        }
      }
    }
  }

  lemma MergeKeepsPlaced(hash: Hash, keys: Keys, maxp: int, p: int, L: int, chains: seq<seq<Ref>>)
    requires Dims(maxp, p, L, |chains|) && L > 0 && Placed(hash, keys, maxp, p, chains)
    requires 0 <= ShrunkP(maxp, p) < |chains| - 1 && ShrunkMaxp(maxp, p) > 0
    ensures Placed(hash, keys, ShrunkMaxp(maxp, p), ShrunkP(maxp, p), Merge(maxp, p, chains))
    ensures Distinct(chains[ShrunkP(maxp, p)] + chains[|chains| - 1])
  {
    ShrinkKeepsDims(maxp, p, L, |chains|);
    var src, tgt, maxp', p', chains' :=
        |chains| - 1, ShrunkP(maxp, p), ShrunkMaxp(maxp, p), ShrunkP(maxp, p), Merge(maxp, p, chains);
    hide Bindex, ShrunkMaxp, ShrunkP;
    assert PlacedIn(hash, keys, maxp, p, chains[src], src) && PlacedIn(hash, keys, maxp, p, chains[tgt], tgt);
    forall x {:trigger x in chains[tgt]} | x in chains[tgt] ensures x !in chains[src] {
    }
    DistinctSum(chains[tgt], chains[src]);
    forall i {:trigger chains'[i]} | 0 <= i < |chains'|
      ensures PlacedIn(hash, keys, maxp', p', chains'[i], i) && Distinct(chains'[i])
    {
      assert PlacedIn(hash, keys, maxp, p, chains[i], i);
      forall x {:trigger x in chains'[i]} | x in chains'[i]
        ensures x in keys && Bindex(hash(KeyOf(keys, x)), maxp', p') == i
      {
        SplitBindex(hash(KeyOf(keys, x)), maxp', p');
      }
    }
  }

  lemma {:induction false} PickCounts(hash: Hash, keys: Keys, s: seq<Ref>, maxp: int, p: int, i: int, j: int)
    requires maxp > 0 && i != j
    requires forall x {:trigger x in s} | x in s ::
               var b := Bindex(hash(KeyOf(keys, x)), maxp, p); b == i || b == j
    ensures |Pick(hash, keys, s, maxp, p, i)| + |Pick(hash, keys, s, maxp, p, j)| == |s|
  {
    if s != [] {
      var t := s[..|s| - 1];
      assert s[|s| - 1] in s;
      assert forall x {:trigger x in t} | x in t :: x in s;
      PickCounts(hash, keys, t, maxp, p, i, j);
    }
  }

  /** The two halves of a split chain have all its records. */
  lemma HalvesAddUp(hash: Hash, keys: Keys, maxp: int, p: int, c: seq<Ref>)
    requires 0 <= p < maxp && maxp + p < BINCOUNT_MAX && PlacedIn(hash, keys, maxp, p, c, p)
    ensures var maxp', p' := GrownMaxp(maxp, p), GrownP(maxp, p);
            |Pick(hash, keys, c, maxp', p', p)| + |Pick(hash, keys, c, maxp', p', maxp + p)| == |c|
  {
    var maxp', p' := GrownMaxp(maxp, p), GrownP(maxp, p);
    forall x {:trigger x in c} | x in c
      ensures var b := Bindex(hash(KeyOf(keys, x)), maxp', p'); b == p || b == maxp + p
    {
      SplitBindex(hash(KeyOf(keys, x)), maxp, p);
    }
    hide Bindex, Pick, GrownMaxp, GrownP;
    PickCounts(hash, keys, c, maxp', p', p, maxp + p);
  }

  lemma SplitKeepsTotal(hash: Hash, keys: Keys, maxp: int, p: int, chains: seq<seq<Ref>>)
    requires 0 <= p < maxp && maxp + p == |chains| < BINCOUNT_MAX && Placed(hash, keys, maxp, p, chains)
    ensures TotalLength(Split(hash, keys, maxp, p, chains)) == TotalLength(chains)
  {
    assert PlacedIn(hash, keys, maxp, p, chains[p], p);
    HalvesAddUp(hash, keys, maxp, p, chains[p]);
    hide Bindex, Pick, GrownMaxp, GrownP, TotalLength, Placed;
    var maxp', p' := GrownMaxp(maxp, p), GrownP(maxp, p);
    var A, B := Pick(hash, keys, chains[p], maxp', p', p), Pick(hash, keys, chains[p], maxp', p', maxp + p);
    TotalLengthAfter(chains, p, A);
    TotalLengthOfOneMore(chains[p := A], B);
  }

  lemma MergeKeepsTotal(maxp: int, p: int, chains: seq<seq<Ref>>)
    requires 0 <= ShrunkP(maxp, p) < |chains| - 1
    ensures TotalLength(Merge(maxp, p, chains)) == TotalLength(chains)
  {
    var src, tgt := |chains| - 1, ShrunkP(maxp, p);
    TotalLengthAfter(chains[..src], tgt, chains[tgt] + chains[src]);
  }

  /** Merging the two halves of a split bin gives back its records, though not their order. */
  lemma MergeUndoesSplit(hash: Hash, keys: Keys, maxp: int, p: int, L: int, chains: seq<seq<Ref>>)
    requires Dims(maxp, p, L, |chains|) && |chains| < BINCOUNT_MAX && Placed(hash, keys, maxp, p, chains)
    ensures var maxp', p', split := GrownMaxp(maxp, p), GrownP(maxp, p), Split(hash, keys, maxp, p, chains);
      && ShrunkMaxp(maxp', p') == maxp && ShrunkP(maxp', p') == p
      && Merge(maxp', p', split)
         == chains[p := Pick(hash, keys, chains[p], maxp', p', p) + Pick(hash, keys, chains[p], maxp', p', maxp + p)]
      && forall x {:trigger x in Merge(maxp', p', split)[p]} {:trigger x in chains[p]} ::
           x in Merge(maxp', p', split)[p] <==> x in chains[p]
  {
    GrowKeepsDims(maxp, p, L, |chains|);
    var maxp', p', split := GrownMaxp(maxp, p), GrownP(maxp, p), Split(hash, keys, maxp, p, chains);
    PickMembers(hash, keys, chains[p], maxp', p', p);
    PickMembers(hash, keys, chains[p], maxp', p', maxp + p);
    assert PlacedIn(hash, keys, maxp, p, chains[p], p);
    forall x {:trigger x in chains[p]} | x in chains[p]
      ensures var b := Bindex(hash(KeyOf(keys, x)), maxp', p'); b == p || b == maxp + p
    {
      SplitBindex(hash(KeyOf(keys, x)), maxp, p);
    }
    hide Bindex;
  }
}
