/** A single thread that is granted memory whenever a table is to grow finds what it would find in a map. */
module LfhtAlone {
  import opened Arithmetic
  import opened ProbeTable
  import opened LfhtThreads
  import opened LfhtCalls
  import opened LfhtOrderly
  import opened LfhtSingle
  import opened LfhtStretches
  import opened Wrappers
  import L = Lfht

  /**
   * Whatever a single thread calls, however many keys it adds, and however often the table grows on the way: its
   * calls answer one by one what they would with a map. An add fails only if there are more keys than slots.
   */
  lemma AloneIsLikeAMap(hash: Hash, max: nat, moves: seq<Move>)
    requires 0 < max <= L.MAX_TABLE_SIZE && IsPowerOfTwo(max) && Legal(1, moves) && AllGranted(moves)
    ensures LikeAMap(NOTHING, History(hash, Start(hash, 1, max), moves))
  {
    hide Inv, Agrees;
    StartAgrees(hash, max);
    RunAgrees(hash, Start(hash, 1, max), moves, NOTHING);
  }

  // ---------- The order of the calls ----------

  /** Each call takes effect just before it returns. */
  function WithEffects(h: seq<Event>): seq<Event>
    decreases |h|
  {
    if h == [] then []
    else (if h[0].Returns? then [Acts(h[0].thread, h[0].answer)] else []) + [h[0]] + WithEffects(h[1..])
  }

  /** The map, and the call that has not returned. */
  function SpecOf(acc: Account): Spec {
    Spec(acc.model, [if acc.asked.None? then Status.Ready else Status.Pending(acc.asked.value)])
  }

  /** An event, after the effect of the call if that returns with it. */
  lemma OneIsAccepted(acc: Account, e: Event, rest: seq<Event>)
    requires Happens(acc, e) && |acc.keys| <= L.MAX_TABLE_SIZE
    requires Accepted(SpecOf(Later(acc, e)), rest)
    ensures var es := (if e.Returns? then [Acts(e.thread, e.answer)] else []) + [e];
      Accepted(SpecOf(acc), es + rest) && Visible(es + rest) == [e] + Visible(rest)
  {
    var sp := SpecOf(acc);
    assert ([e] + rest)[1..] == rest;
    if e.Returns? {
      var f := Acts(e.thread, e.answer);
      assert ([f] + [e] + rest)[1..] == [e] + rest;
      var mid := Next(sp, f);
      assert Next(mid, e).calls == SpecOf(Later(acc, e)).calls;
    } else {
      assert [] + [e] + rest == [e] + rest;
      assert Next(sp, e).calls == SpecOf(Later(acc, e)).calls;
    }
  }

  lemma Fewer(a: set<int>, b: set<int>)
    requires a <= b
    ensures |a| <= |b|
  {
    assert b == a + (b - a);
  }

  lemma {:induction false} EffectsAreAccepted(acc: Account, h: seq<Event>, keys: set<int>)
    requires LikeAMap(acc, h) && acc.keys <= keys && AddsOnly(h, keys) && |keys| <= L.MAX_TABLE_SIZE
    ensures Accepted(SpecOf(acc), WithEffects(h)) && Visible(WithEffects(h)) == h
    decreases |h|
  {
    if h != [] {
      var e, rest := h[0], h[1..];
      assert e in h && forall f {:trigger f in rest} :: f in rest ==> f in h;
      EffectsAreAccepted(Later(acc, e), rest, keys);
      Fewer(acc.keys, keys);
      OneIsAccepted(acc, e, WithEffects(rest));
    }
  }

  lemma AloneHasAnOrder(hash: Hash, max: nat, moves: seq<Move>, keys: set<int>)
    requires 0 < max <= L.MAX_TABLE_SIZE && IsPowerOfTwo(max) && Legal(1, moves) && AllGranted(moves)
    requires |keys| <= L.MAX_TABLE_SIZE && AddsOnly(History(hash, Start(hash, 1, max), moves), keys)
    ensures Linearizable(1, History(hash, Start(hash, 1, max), moves))
  {
    hide LikeAMap, AddsOnly, Accepted, Inv;
    var h := History(hash, Start(hash, 1, max), moves);
    AloneIsLikeAMap(hash, max, moves);
    EffectsAreAccepted(NOTHING, h, keys);
    assert SpecOf(NOTHING) == NoCalls(1);
    assert Visible(WithEffects(h)) == h;
  }

  // ---------- How many keys ----------

  ghost predicate OrderedAlone(hash: Hash, max: nat, moves: seq<Move>, keys: set<int>) {
    0 < max <= L.MAX_TABLE_SIZE && IsPowerOfTwo(max) && Legal(1, moves) && AllGranted(moves)
    && AddsOnly(History(hash, Start(hash, 1, max), moves), keys) ==>
      Linearizable(1, History(hash, Start(hash, 1, max), moves))
  }

  /** The calls of all runs of a single thread that add at most `k` keys have an order in which every add succeeds. */
  ghost predicate OrderlyAlone(k: nat) {
    forall hash: Hash, max: nat, moves: seq<Move>, keys: set<int> {:trigger OrderedAlone(hash, max, moves, keys)} ::
      |keys| <= k ==> OrderedAlone(hash, max, moves, keys)
  }

  /** That is so exactly for as many keys as the largest table has slots. */
  lemma OrderlyAloneExactly(k: nat)
    ensures OrderlyAlone(k) <==> k <= L.MAX_TABLE_SIZE
  {
    hide Linearizable, AddsOnly, Legal, Inv, Keys, AllGranted, IsPowerOfTwo;
    if k <= L.MAX_TABLE_SIZE {
      forall hash: Hash, max: nat, moves: seq<Move>, keys: set<int> {:trigger OrderedAlone(hash, max, moves, keys)}
        | |keys| <= k
        ensures OrderedAlone(hash, max, moves, keys)
      {
        if 0 < max <= L.MAX_TABLE_SIZE && IsPowerOfTwo(max) && Legal(1, moves) && AllGranted(moves)
          && AddsOnly(History(hash, Start(hash, 1, max), moves), keys) {
          AloneHasAnOrder(hash, max, moves, keys);
        }
      }
    } else {
      var moves := AddReturnsFalse(1);
      CountKeys(L.MAX_TABLE_SIZE + 1);
      assert !OrderedAlone(L.Spread, L.MAX_TABLE_SIZE, moves, Keys(L.MAX_TABLE_SIZE + 1));
    }
  }
}
