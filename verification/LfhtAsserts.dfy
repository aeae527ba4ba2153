/** Exactly how many keys can be added before the assertions about growing tables can fail. */
module LfhtAsserts {
  import opened Arithmetic
  import opened ProbeTable
  import opened LfhtThreads
  import opened LfhtCalls
  import opened LfhtGrowth
  import opened LfhtStretches
  import L = Lfht

  /** With no more keys than that no assertion fails, whatever the schedule. */
  lemma AssertionsHold(hash: Hash, threads: nat, max: nat, moves: seq<Move>, keys: set<int>)
    requires 0 < max <= L.MAX_TABLE_SIZE && IsPowerOfTwo(max) && Legal(threads, moves)
    requires TwoTablesDo(max, |keys|) && AddsOnly(History(hash, Start(hash, threads, max), moves), keys)
    ensures AssertionsHoldIn(Run(hash, Start(hash, threads, max), moves))
  {
    StartGrowsOnce(hash, threads, max, keys);
    RunGrowsOnce(hash, Start(hash, threads, max), moves, keys, max);
    hide Inv;
  }

  lemma AnnouncesAbove(base: seq<Tab>, max: nat, x: Turn, j: Job)
    requires 0 < max && j.back.External?
    ensures var k, t := L.Threshold(max), |base|;
      Alone(InFront(base + [Filled(k + 1, max, k + 1)], Filled(0, 2 * max, 0), L.Initial), CheckExpanded(j, t), x, 2) ==
      Result(InFront(base + [Filled(k + 1, max, k + 1)], Filled(0, 2 * max, 0), L.Expanding), CheckNext(j, t), [])
  {
    hide Alone;
    var k, t := L.Threshold(max), |base|;
    var m := InFront(base + [Filled(k + 1, max, k + 1)], Filled(0, 2 * max, 0), L.Initial);
    var m' := m.(state := L.Expanding);
    Goes(m, CheckExpanded(j, t), x, 2, m, Announce(j, t));
    Goes(m, Announce(j, t), x, 1, m', CheckNext(j, t));
    Stops(m', CheckNext(j, t), x);
  }

  /** The add of the key that is too much for a table in front of others, up to the moment when it is announced. */
  lemma AddsTooMuchAbove(base: seq<Tab>, max: nat, x: Turn)
    requires 0 < max < L.MAX_TABLE_SIZE && x.job == AddOf(L.Threshold(max))
    ensures var k, t := L.Threshold(max), |base|;
      var j := x.job.(got := DONE);
      Alone(InFront(base, Filled(k, max, k), L.Initial), Idle, x, 11) ==
      Result(InFront(base + [Filled(k + 1, max, k + 1)], Filled(0, 2 * max, 0), L.Expanding), CheckNext(j, t),
             [Begins(x.thread, x.job)])
  {
    hide Alone, Home;
    var k, t, tab := L.Threshold(max), |base|, Filled(L.Threshold(max), max, L.Threshold(max));
    var j, n := x.job.(got := DONE), 11;
    FilledFacts(k, max, k);
    Fills(base, tab, L.Initial, x, k, 11);
    assert tab.(slots := tab.slots[k := Entry(KeyAt(k), 1)]) == Filled(k + 1, max, k);
    Grows(base, max, L.Initial, x, j, 5);
    AnnouncesAbove(base, max, x, j);
  }

  lemma KeysOfAll(h: seq<Event>, h': seq<Event>, k: nat, n: nat)
    requires OnlyAdds(h, 0, k) && OnlyAdds(h', 1, n) && k <= n
    ensures AddsOnly(h + [Begins(0, AddOf(k))] + [] + h' + [Begins(1, AddOf(n))], Keys(n + 1))
  {
    var b, c := Begins(0, AddOf(k)), Begins(1, AddOf(n));
    var g := h + [b] + [] + h' + [c];
    forall e {:trigger e in g} | e in g && e.Begins? ensures e.job.key in Keys(n + 1) {
      assert e in h || e == b || e in h' || e == c;
      assert e in h ==> AddEvent(e, k) && e.job.key == KeyAt(e.job.key / 16 - 1);
      assert e in h' ==> AddEvent(e, n) && e.job.key == KeyAt(e.job.key / 16 - 1);
    }
  }

  lemma NotFlagged(i: int, max: nat, count: int)
    ensures !Filled(i, max, count).assimilated
  {
  }

  /** Where two of the assertions fail. */
  lemma TwoFail(s: System, m: Memory, j: Job, j': Job, tab: Tab, tab': Tab, top: Tab)
    requires s == System(InFront([tab] + [tab'], top, L.Expanding), [CheckExpanded(j, 0), CheckNext(j', 1)])
    requires |top.slots| > 0 && !tab.assimilated && j.back.External? && j'.back.External?
    ensures |s.threads| == 2 && Fits(s.m, s.threads[0]) && !AssertionHolds(s.m, s.threads[0])
    ensures Fits(s.m, s.threads[1]) && !AssertionHolds(s.m, s.threads[1])
  {
  }

  /** A thread puts the second table in front, and has not looked at the state yet. */
  lemma FirstIsSlow(max: nat) returns (moves: seq<Move>, h: seq<Event>)
    requires 0 < 2 * max < L.MAX_TABLE_SIZE && IsPowerOfTwo(max)
    ensures var k := L.Threshold(max);
      && OnlyAdds(h, 0, k)
      && Leads(2, max, moves, System(InFront([Filled(k + 1, max, k + 1)], Filled(0, 2 * max, 0), L.Initial),
                                     [CheckExpanded(AddOf(k).(got := DONE), 0), Idle]),
               h + [Begins(0, AddOf(k))] + [])
  {
    hide Leads, InFront, Filled, Alone, OnlyAdds;
    var k := L.Threshold(max);
    var j, x := AddOf(k).(got := DONE), Turn(0, AddOf(k));
    var m0, m1 := InFront([], Filled(k, max, k), L.Initial), InFront([], Filled(k + 1, max, k), L.Initial);
    var m2 := InFront([Filled(k + 1, max, k + 1)], Filled(0, 2 * max, 0), L.Initial);
    moves, h := FillsUp(2, max, k);
    assert seq(2, _ => Idle) == [Idle, Idle];
    AddsTooMuch(max, x);
    LeadsOn(2, max, moves, System(m0, [Idle, Idle]), h, x, 6, Result(m1, Bump(j, 0), [Begins(0, x.job)]));
    moves := moves + Turns(x, 6);
    assert [Idle, Idle][0 := Bump(j, 0)] == [Bump(j, 0), Idle];
    var g := h + [Begins(0, x.job)];
    LeadsOn(2, max, moves, System(m1, [Bump(j, 0), Idle]), g, x, 3, Result(m2, CheckExpanded(j, 0), []));
    moves := moves + Turns(x, 3);
    assert [Bump(j, 0), Idle][0 := CheckExpanded(j, 0)] == [CheckExpanded(j, 0), Idle];
  }

  /**
   A thread puts the second table in front and is slow to announce it. Another one does not pay a tax yet, fills that
   table and puts a third one in front, and announces it, before the first one looks at the state.
   */
  lemma AssertionsFail(max: nat) returns (moves: seq<Move>)
    requires 0 < 2 * max < L.MAX_TABLE_SIZE && IsPowerOfTwo(max)
    ensures Legal(2, moves) && AddsOnly(History(L.Spread, Start(L.Spread, 2, max), moves),
                                        Keys(L.Threshold(2 * max) + 1))
    ensures var s := Run(L.Spread, Start(L.Spread, 2, max), moves);
      && |s.threads| == 2 && Fits(s.m, s.threads[0]) && Fits(s.m, s.threads[1])
      && s.threads[0].CheckExpanded? && !AssertionHolds(s.m, s.threads[0])
      && s.threads[1].CheckNext? && !AssertionHolds(s.m, s.threads[1])
  {
    hide Leads, InFront, Filled, Alone, AddsOnly, Inv, OnlyAdds, Keys, Fits, AssertionHolds;
    var k, n := L.Threshold(max), L.Threshold(2 * max);
    var j, j', y := AddOf(k).(got := DONE), AddOf(n).(got := DONE), Turn(1, AddOf(n));
    var base := [Filled(k + 1, max, k + 1)];
    var m2, m3 := InFront(base, Filled(0, 2 * max, 0), L.Initial), InFront(base, Filled(n, 2 * max, n), L.Initial);
    var m4 := InFront(base + [Filled(n + 1, 2 * max, n + 1)], Filled(0, 2 * (2 * max), 0), L.Expanding);
    var h, h';
    moves, h := FirstIsSlow(max);
    var threads := [CheckExpanded(j, 0), Idle];
    var g := h + [Begins(0, AddOf(k))] + [];
    moves, h' := AddsMany(2, max, moves, System(m2, threads), g, 1, base, 2 * max, L.Initial, n);
    AddsTooMuchAbove(base, 2 * max, y);
    LeadsOn(2, max, moves, System(m3, threads), g + h', y, 11, Result(m4, CheckNext(j', 1), [Begins(1, y.job)]));
    moves := moves + Turns(y, 11);
    var s := System(m4, [CheckExpanded(j, 0), CheckNext(j', 1)]);
    assert threads[1 := CheckNext(j', 1)] == s.threads;
    LedTo(2, max, moves, s, g + h' + [Begins(1, y.job)]);
    KeysOfAll(h, h', k, n);
    FilledSize(2 * max, n);
    NotFlagged(k + 1, max, k + 1);
    TwoFail(s, m4, j, j', base[0], Filled(n + 1, 2 * max, n + 1), Filled(0, 2 * (2 * max), 0));
  }

  ghost predicate AssertedRun(hash: Hash, threads: nat, max: nat, moves: seq<Move>, keys: set<int>)
    requires 0 < max <= L.MAX_TABLE_SIZE && IsPowerOfTwo(max)
  {
    Legal(threads, moves) && AddsOnly(History(hash, Start(hash, threads, max), moves), keys) ==>
      AssertionsHoldIn(Run(hash, Start(hash, threads, max), moves))
  }

  /** No assertion fails in a run that adds at most `k` keys. */
  ghost predicate Asserted(max: nat, k: nat)
    requires 0 < max <= L.MAX_TABLE_SIZE && IsPowerOfTwo(max)
  {
    forall hash: Hash, threads: nat, moves: seq<Move>, keys: set<int>
      {:trigger AssertedRun(hash, threads, max, moves, keys)} ::
      |keys| <= k ==> AssertedRun(hash, threads, max, moves, keys)
  }

  /** That is so exactly for as many keys as the second table has room for, or if there can be no third one. */
  lemma AssertedExactly(max: nat, k: nat)
    requires 0 < max <= L.MAX_TABLE_SIZE && IsPowerOfTwo(max)
    ensures Asserted(max, k) <==> TwoTablesDo(max, k)
  {
    hide AddsOnly, Legal, Inv, Keys, AssertionHolds, Fits;
    if TwoTablesDo(max, k) {
      forall hash: Hash, threads: nat, moves: seq<Move>, keys: set<int>
        {:trigger AssertedRun(hash, threads, max, moves, keys)} | |keys| <= k
        ensures AssertedRun(hash, threads, max, moves, keys)
      {
        if Legal(threads, moves) && AddsOnly(History(hash, Start(hash, threads, max), moves), keys) {
          AssertionsHold(hash, threads, max, moves, keys);
        }
      }
    } else {
      var moves := AssertionsFail(max);
      CountKeys(L.Threshold(2 * max) + 1);
      assert !AssertedRun(L.Spread, 2, max, moves, Keys(L.Threshold(2 * max) + 1));
    }
  }
}
