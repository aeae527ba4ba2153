/** How many refusals of memory the calls of a single thread can bear: none. */
module LfhtRefusals {
  import opened Arithmetic
  import opened ProbeTable
  import opened LfhtThreads
  import opened LfhtCalls
  import opened LfhtAlone
  import opened LfhtRefused
  import opened LfhtStretches
  import L = Lfht

  /** How many moves are not granted memory. */
  function Refusals(moves: seq<Move>): nat {
    if moves == [] then 0 else Refusals(moves[..|moves| - 1]) + (if moves[|moves| - 1].granted then 0 else 1)
  }

  lemma {:induction false} NoRefusal(moves: seq<Move>)
    ensures Refusals(moves) == 0 <==> AllGranted(moves)
  {
    if moves != [] { NoRefusal(moves[..|moves| - 1]); }
  }

  lemma {:induction false} OneRefusal(moves: seq<Move>, k: int)
    requires OneRefused(moves, k)
    ensures Refusals(moves) == 1
  {
    var n := |moves| - 1;
    if k == n {
      NoRefusal(moves[..n]);
    } else {
      assert moves[..n][..k] == moves[..k] && moves[..n][k + 1..] == moves[k + 1..][..n - k - 1];
      assert moves[n] == moves[k + 1..][n - k - 1];
      OneRefusal(moves[..n], k);
    }
  }

  ghost predicate OrderedRun(hash: Hash, max: nat, moves: seq<Move>, keys: set<int>) {
    0 < max <= L.MAX_TABLE_SIZE && IsPowerOfTwo(max) && Legal(1, moves) && |keys| <= L.MAX_TABLE_SIZE
    && AddsOnly(History(hash, Start(hash, 1, max), moves), keys) ==>
      Linearizable(1, History(hash, Start(hash, 1, max), moves))
  }

  /** With up to `r` refusals the calls of all runs of a single thread have an order. */
  ghost predicate OrderlyWith(r: nat) {
    forall hash: Hash, max: nat, moves: seq<Move>, keys: set<int> {:trigger OrderedRun(hash, max, moves, keys)} ::
      Refusals(moves) <= r ==> OrderedRun(hash, max, moves, keys)
  }

  /** That is so exactly if there is none. */
  lemma OrderlyWithoutRefusals(r: nat)
    ensures OrderlyWith(r) <==> r == 0
  {
    hide Linearizable, AddsOnly, Legal, Inv, Keys, AllGranted, IsPowerOfTwo;
    if r == 0 {
      forall hash: Hash, max: nat, moves: seq<Move>, keys: set<int> {:trigger OrderedRun(hash, max, moves, keys)}
        | Refusals(moves) <= r
        ensures OrderedRun(hash, max, moves, keys)
      {
        NoRefusal(moves);
        if 0 < max <= L.MAX_TABLE_SIZE && IsPowerOfTwo(max) && Legal(1, moves) && |keys| <= L.MAX_TABLE_SIZE
          && AddsOnly(History(hash, Start(hash, 1, max), moves), keys) {
          AloneHasAnOrder(hash, max, moves, keys);
        }
      }
    } else {
      var moves, k := RefusalCanLoseAKey();
      OneRefusal(moves, k);
      CountKeys(5);
      assert !OrderedRun(L.Spread, 4, moves, Keys(5));
    }
  }
}
