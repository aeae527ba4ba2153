/** Exactly how many keys can be added before calls need not have an order any more. */
module LfhtOrderly {
  import opened Arithmetic
  import opened ProbeTable
  import opened LfhtThreads
  import opened LfhtCalls
  import opened LfhtOrders
  import opened LfhtStretches
  import L = Lfht

  /** What the other thread sees while the key that is too much is added. */
  lemma SeesAndMisses(max: nat, y: Turn)
    requires 0 < max < L.MAX_TABLE_SIZE && y.job == FindOf(KeyAt(L.Threshold(max)))
    ensures var k := L.Threshold(max);
      && Alone(InFront([], Filled(k + 1, max, k), L.Initial), Idle, y, 6) ==
         Result(InFront([], Filled(k + 1, max, k), L.Initial), Idle,
                [Begins(y.thread, y.job), Returns(y.thread, Answer(true, 1))])
      && Alone(InFront([Filled(k + 1, max, k + 1)], Filled(0, 2 * max, 0), L.Initial), Idle, y, 5) ==
         Result(InFront([Filled(k + 1, max, k + 1)], Filled(0, 2 * max, 0), L.Initial), Idle,
                [Begins(y.thread, y.job), Returns(y.thread, NO_ANSWER)])
  {
    hide Alone, Filled, Home, InFront;
    var k := L.Threshold(max);
    FilledHome(max, k, k);
    FilledSize(max, k);
    MeetsKey([], Filled(k + 1, max, k), L.Initial, y, k);
    MeetsUnused([Filled(k + 1, max, k + 1)], Filled(0, 2 * max, 0), L.Initial, y, k);
  }

  lemma NoOrderInTheEnd(h: seq<Event>, k: nat, f: Job)
    requires OnlyAdds(h, 0, k) && f == FindOf(KeyAt(k))
    ensures var g := h + [Begins(0, AddOf(k))] + [Begins(1, f), Returns(1, Answer(true, 1))] + []
              + [Begins(1, f), Returns(1, NO_ANSWER)];
      !Linearizable(2, g) && AddsOnly(g, Keys(k + 1))
  {
    var b0, b1 := Begins(0, AddOf(k)), Begins(1, f);
    var a, b := h + [b0, b1], [b1, Returns(1, NO_ANSWER)];
    var g := h + [Begins(0, AddOf(k))] + [Begins(1, f), Returns(1, Answer(true, 1))] + [] + b;
    assert g == a + [Returns(1, Answer(true, 1))] + b;
    forall e {:trigger e in a} | e in a && e.Begins? ensures Finder(1, KeyAt(k), e.thread, e.job) {
      assert e in h || e == b0 || e == b1;
      assert e in h ==> AddEvent(e, k) && e.thread == 0;
    }
    assert b[1] in b;
    NoOrderForFinds(2, 1, KeyAt(k), a, Answer(true, 1), b, NO_ANSWER);
    OnlyAddsOf(h, 0, k);
    forall e {:trigger e in g} | e in g && e.Begins? && e.job.op == Adding ensures e.job.key in Keys(k + 1) {
      assert e in h || e == b0 || e in b || e == b1;
    }
  }

  /**
   A thread adds as many keys as the first table has room for, and begins to add one more. Another one finds that,
   and does not find it any more when the new table is in front.
   */
  lemma FindsGoBack(max: nat) returns (moves: seq<Move>)
    requires 0 < max < L.MAX_TABLE_SIZE && IsPowerOfTwo(max)
    ensures Legal(2, moves) && !Linearizable(2, History(L.Spread, Start(L.Spread, 2, max), moves))
    ensures AddsOnly(History(L.Spread, Start(L.Spread, 2, max), moves), Keys(Capacity(max) + 1))
  {
    hide Leads, InFront, Filled, Alone, Linearizable, AddsOnly, Inv;
    var k := L.Threshold(max);
    var j, x, y := AddOf(k).(got := DONE), Turn(0, AddOf(k)), Turn(1, FindOf(KeyAt(k)));
    var m0, m1 := InFront([], Filled(k, max, k), L.Initial), InFront([], Filled(k + 1, max, k), L.Initial);
    var m2 := InFront([Filled(k + 1, max, k + 1)], Filled(0, 2 * max, 0), L.Initial);
    var bump, grown := Bump(j, 0), CheckExpanded(j, 0);
    var h;
    moves, h := FillsUp(2, max, k);
    assert seq(2, _ => Idle) == [Idle, Idle];
    AddsTooMuch(max, x);
    SeesAndMisses(max, y);
    var e0, e1 := [Begins(0, x.job)], [Begins(1, y.job), Returns(1, Answer(true, 1))];
    var e3 := [Begins(1, y.job), Returns(1, NO_ANSWER)];
    LeadsOn(2, max, moves, System(m0, [Idle, Idle]), h, x, 6, Result(m1, bump, e0));
    assert [Idle, Idle][0 := bump] == [bump, Idle];
    moves := moves + Turns(x, 6);
    LeadsOn(2, max, moves, System(m1, [bump, Idle]), h + e0, y, 6, Result(m1, Idle, e1));
    assert [bump, Idle][1 := Idle] == [bump, Idle];
    moves := moves + Turns(y, 6);
    LeadsOn(2, max, moves, System(m1, [bump, Idle]), h + e0 + e1, x, 3, Result(m2, grown, []));
    assert [bump, Idle][0 := grown] == [grown, Idle];
    moves := moves + Turns(x, 3);
    LeadsOn(2, max, moves, System(m2, [grown, Idle]), h + e0 + e1 + [], y, 5, Result(m2, Idle, e3));
    moves := moves + Turns(y, 5);
    NoOrderInTheEnd(h, k, y.job);
    LedTo(2, max, moves, System(m2, [grown, Idle][1 := Idle]), h + e0 + e1 + [] + e3);
  }

  // ---------- One key too many for the largest table ----------

  lemma LastHome(max: nat)
    requires max > 0
    ensures Home(L.Spread, KeyAt(max), max) == 0
  {
    assert L.Spread(KeyAt(max)) == max;
  }

  /** A search for one more key meets all the others. */
  lemma {:induction false} ProbesAll(m: Memory, max: nat, j: Job, x: Turn, i: nat, n: nat)
    requires m == InFront([], Filled(max, max, max), L.Initial) && j == AddOf(max) && i < max && n >= max - i
    ensures Alone(m, Probe(j, 0, i), x, n) == Alone(m, Leave(j, 0), x, n - (max - i))
    decreases max - i
  {
    hide Alone, Home;
    LastHome(max);
    assert m.tables[0].slots[i].key == KeyAt(i) && KeyAt(i) != 0 && KeyAt(i) != j.key;
    if i + 1 == max {
      Goes(m, Probe(j, 0, i), x, n, m, Leave(j, 0));
    } else {
      Goes(m, Probe(j, 0, i), x, n, m, Probe(j, 0, i + 1));
      ProbesAll(m, max, j, x, i + 1, n - 1);
    }
  }

  lemma AddFails(max: nat, x: Turn)
    requires max > 0 && x.job == AddOf(max)
    ensures var m := InFront([], Filled(max, max, max), L.Initial);
      Alone(m, Idle, x, max + 4) == Result(m, Idle, [Begins(x.thread, x.job), Returns(x.thread, NO_ANSWER)])
  {
    hide Alone, Home;
    var m, j := InFront([], Filled(max, max, max), L.Initial), x.job;
    LastHome(max);
    Calls(m, x, max + 4);
    Goes(m, CheckState(j), x, max + 3, m, Enter(j));
    Goes(m, Enter(j), x, max + 2, m, Probe(j, 0, 0));
    ProbesAll(m, max, j, x, 0, max + 1);
    Ends(m, j, 0, x);
  }

  lemma NoOrderAfterFailure(threads: nat, h: seq<Event>, k: nat)
    requires OnlyAdds(h, 0, k)
    ensures var g := h + [Begins(0, AddOf(k)), Returns(0, NO_ANSWER)];
      !Linearizable(threads, g) && AddsOnly(g, Keys(k + 1))
  {
    var b, r := Begins(0, AddOf(k)), Returns(0, NO_ANSWER);
    var g := h + [b, r];
    OnlyAddsOf(h, 0, k);
    forall e {:trigger e in g} | e in g && e.Begins? ensures e.job.op == Adding && e.job.key in Keys(k + 1) {
      assert e in h || e == b || e == r;
      assert e in h ==> AddEvent(e, k);
    }
    assert g[|h| + 1] == r;
    NoOrderForAdds(threads, g, 0, NO_ANSWER);
  }

  /** The largest table is filled, and then an add returns false. */
  lemma AddReturnsFalse(threads: nat) returns (moves: seq<Move>)
    requires threads > 0
    ensures IsPowerOfTwo(L.MAX_TABLE_SIZE) && Legal(threads, moves) && AllGranted(moves)
    ensures var max := L.MAX_TABLE_SIZE; var g := History(L.Spread, Start(L.Spread, threads, max), moves);
      && AddsOnly(g, Keys(max + 1)) && !Linearizable(threads, g)
      && g != [] && g[|g| - 1] == Returns(0, NO_ANSWER)
  {
    hide Leads, InFront, Filled, Alone, Linearizable, AddsOnly, Inv;
    L.LargestSize();
    var max := L.MAX_TABLE_SIZE;
    var x, m := Turn(0, AddOf(max)), InFront([], Filled(max, max, max), L.Initial);
    var h;
    moves, h := FillsUp(threads, max, max);
    var idle := seq(threads, _ => Idle);
    AddFails(max, x);
    var e := [Begins(0, x.job), Returns(0, NO_ANSWER)];
    LeadsOn(threads, max, moves, System(m, idle), h, x, max + 4, Result(m, Idle, e));
    GrantedOn(moves, x, max + 4);
    moves := moves + Turns(x, max + 4);
    LedTo(threads, max, moves, System(m, idle[0 := Idle]), h + e);
    NoOrderAfterFailure(threads, h, max);
  }

  ghost predicate OrderedRun(hash: Hash, threads: nat, max: nat, moves: seq<Move>, keys: set<int>)
    requires 0 < max <= L.MAX_TABLE_SIZE && IsPowerOfTwo(max)
  {
    Legal(threads, moves) && AddsOnly(History(hash, Start(hash, threads, max), moves), keys) ==>
      Linearizable(threads, History(hash, Start(hash, threads, max), moves))
  }

  /** With no more keys than that the calls of any number of threads, however scheduled, have an order. */
  lemma CallsHaveAnOrder(hash: Hash, threads: nat, max: nat, moves: seq<Move>, keys: set<int>)
    requires 0 < max <= L.MAX_TABLE_SIZE && IsPowerOfTwo(max) && Legal(threads, moves)
    requires |keys| <= Capacity(max) && AddsOnly(History(hash, Start(hash, threads, max), moves), keys)
    ensures Linearizable(threads, History(hash, Start(hash, threads, max), moves))
  {
    StartFollows(hash, threads, max, keys);
    var events := RunFollows(hash, Start(hash, threads, max), moves, keys, NoCalls(threads));
  }

  // ---------- How many keys calls can add and have an order ----------

  /** The calls of all runs that add at most `k` keys have an order. */
  ghost predicate Orderly(max: nat, k: nat)
    requires 0 < max <= L.MAX_TABLE_SIZE && IsPowerOfTwo(max)
  {
    forall hash: Hash, threads: nat, moves: seq<Move>, keys: set<int>
      {:trigger OrderedRun(hash, threads, max, moves, keys)} ::
      |keys| <= k ==> OrderedRun(hash, threads, max, moves, keys)
  }

  lemma OneTooMany(max: nat, k: nat)
    requires 0 < max <= L.MAX_TABLE_SIZE && IsPowerOfTwo(max) && k > Capacity(max)
    ensures !Orderly(max, k)
  {
    hide Linearizable, AddsOnly, Legal, Inv, Keys, IsPowerOfTwo;
    var moves;
    if max == L.MAX_TABLE_SIZE { moves := AddReturnsFalse(2); } else { moves := FindsGoBack(max); }
    CountKeys(Capacity(max) + 1);
    assert !OrderedRun(L.Spread, 2, max, moves, Keys(Capacity(max) + 1));
  }

  /** That is so exactly for as many keys as the first table has room for. */
  lemma OrderlyExactly(max: nat, k: nat)
    requires 0 < max <= L.MAX_TABLE_SIZE && IsPowerOfTwo(max)
    ensures Orderly(max, k) <==> k <= Capacity(max)
  {
    hide Linearizable, AddsOnly, Legal, Inv, Keys;
    if k <= Capacity(max) {
      forall hash: Hash, threads: nat, moves: seq<Move>, keys: set<int>
        {:trigger OrderedRun(hash, threads, max, moves, keys)} | |keys| <= k
        ensures OrderedRun(hash, threads, max, moves, keys)
      {
        if Legal(threads, moves) && AddsOnly(History(hash, Start(hash, threads, max), moves), keys) {
          CallsHaveAnOrder(hash, threads, max, moves, keys);
        }
      }
    } else {
      OneTooMany(max, k);
    }
  }
}
