/** Runs that are made of stretches in which one thread goes on alone, and what can be seen of them. */
module LfhtStretches {
  import opened Arithmetic
  import opened ProbeTable
  import opened LfhtThreads
  import opened LfhtCalls
  import L = Lfht

  // ---------- One thread, several times in a row ----------

  /** A thread, and the call that it makes when it is idle. */
  datatype Turn = Turn(thread: nat, job: Job)

  function MoveOf(x: Turn): Move { Move(x.thread, x.job, true) }

  function Turns(x: Turn, n: nat): seq<Move> { seq(n, _ => MoveOf(x)) }

  /** What becomes of memory and thread then, and what can be seen. */
  datatype Result = Result(m: Memory, pc: Pc, events: seq<Event>)

  function With(events: seq<Event>, r: Result): Result { r.(events := events + r.events) }

  ghost function Alone(m: Memory, pc: Pc, x: Turn, n: nat): Result
    decreases n
  {
    if n == 0 || !Fits(m, pc) then Result(m, pc, [])
    else
      var (m', pc') := Act(L.Spread, m, pc, x.job, true);
      With(Seen(m, pc, MoveOf(x)), Alone(m', pc', x, n - 1))
  }

  lemma {:induction false} AloneRuns(s: System, x: Turn, n: nat)
    requires Inv(L.Spread, s) && x.thread < |s.threads| && JobOk(x.job)
    ensures Legal(|s.threads|, Turns(x, n))
    ensures var r := Alone(s.m, s.threads[x.thread], x, n);
      && Run(L.Spread, s, Turns(x, n)) == System(r.m, s.threads[x.thread := r.pc])
      && History(L.Spread, s, Turns(x, n)) == r.events
    decreases n
  {
    var moves := Turns(x, n);
    if n > 0 {
      assert moves[0] == MoveOf(x) && moves[1..] == Turns(x, n - 1);
      StepInv(L.Spread, s, moves[0]);
      AloneRuns(Step(L.Spread, s, moves[0]), x, n - 1);
    }
  }

  /** One of these steps, of which nothing can be seen. */
  lemma Goes(m: Memory, pc: Pc, x: Turn, n: nat, m': Memory, pc': Pc)
    requires n > 0 && Fits(m, pc) && Act(L.Spread, m, pc, x.job, true) == (m', pc') && Seen(m, pc, MoveOf(x)) == []
    ensures Alone(m, pc, x, n) == Alone(m', pc', x, n - 1)
  {
    hide Fits, Act;
  }

  lemma Calls(m: Memory, x: Turn, n: nat)
    requires n > 0 && Fits(m, Idle)
    ensures Alone(m, Idle, x, n) ==
            With([Begins(x.thread, Called(x.job))], Alone(m, CheckState(Called(x.job)), x, n - 1))
  {
    hide Fits;
  }

  lemma Ends(m: Memory, j: Job, t: nat, x: Turn)
    requires Fits(m, Leave(j, t)) && j.back.External? && !m.tables[t].assimilated
    ensures Alone(m, Leave(j, t), x, 1) == Result(m, Idle, [Returns(x.thread, j.got)])
  {
    assert Alone(m, Idle, x, 0) == Result(m, Idle, []);
    hide Fits;
  }

  lemma Stops(m: Memory, pc: Pc, x: Turn)
    ensures Alone(m, pc, x, 0) == Result(m, pc, [])
  {
  }

  // ---------- Stretches of a run ----------

  lemma {:induction false} RunOn(hash: Hash, s: System, a: seq<Move>, b: seq<Move>)
    requires Inv(hash, s) && Legal(|s.threads|, a) && Legal(|s.threads|, b)
    ensures Legal(|s.threads|, a + b) && Run(hash, s, a + b) == Run(hash, Run(hash, s, a), b)
    ensures History(hash, s, a + b) == History(hash, s, a) + History(hash, Run(hash, s, a), b)
    decreases |a|
  {
    if a == [] {
      assert a + b == b;
    } else {
      assert (a + b)[0] == a[0] && (a + b)[1..] == a[1..] + b;
      StepInv(hash, s, a[0]);
      RunOn(hash, Step(hash, s, a[0]), a[1..], b);
    }
  }

  /** A run from the first state to a given one, with a given history. */
  ghost predicate Leads(threads: nat, max: nat, moves: seq<Move>, s: System, h: seq<Event>)
    requires 0 < max <= L.MAX_TABLE_SIZE && IsPowerOfTwo(max)
  {
    && Legal(threads, moves)
    && Run(L.Spread, Start(L.Spread, threads, max), moves) == s && |s.threads| == threads
    && History(L.Spread, Start(L.Spread, threads, max), moves) == h
  }

  lemma LeadsFromStart(threads: nat, max: nat)
    requires 0 < max <= L.MAX_TABLE_SIZE && IsPowerOfTwo(max)
    ensures Leads(threads, max, [], AllIdle(threads, max), [])
  {
  }

  /** One thread goes on from there. */
  lemma LeadsOn(threads: nat, max: nat, moves: seq<Move>, s: System, h: seq<Event>, x: Turn, n: nat, r: Result)
    requires 0 < max <= L.MAX_TABLE_SIZE && IsPowerOfTwo(max) && Leads(threads, max, moves, s, h)
    requires x.thread < threads && JobOk(x.job) && Alone(s.m, s.threads[x.thread], x, n) == r
    ensures Leads(threads, max, moves + Turns(x, n), System(r.m, s.threads[x.thread := r.pc]), h + r.events)
  {
    hide Inv, Alone;
    AloneRuns(s, x, n);
    RunOn(L.Spread, Start(L.Spread, threads, max), moves, Turns(x, n));
  }

  lemma GrantedOn(moves: seq<Move>, x: Turn, n: nat)
    requires AllGranted(moves)
    ensures AllGranted(moves + Turns(x, n))
  {
  }

  /** One thread makes one step, of which nothing can be seen. */
  lemma LeadsOneOn(threads: nat, max: nat, moves: seq<Move>, s: System, h: seq<Event>, move: Move, m': Memory, pc': Pc)
    requires 0 < max <= L.MAX_TABLE_SIZE && IsPowerOfTwo(max) && Leads(threads, max, moves, s, h)
    requires move.thread < threads && JobOk(move.job) && Fits(s.m, s.threads[move.thread])
    requires Act(L.Spread, s.m, s.threads[move.thread], move.job, move.granted) == (m', pc')
    requires Seen(s.m, s.threads[move.thread], move) == []
    ensures Leads(threads, max, moves + [move], System(m', s.threads[move.thread := pc']), h)
  {
    var start := Start(L.Spread, threads, max);
    RunOn(L.Spread, start, moves, [move]);
    StepInv(L.Spread, s, move);
    assert [move][1..] == [];
    assert History(L.Spread, s, [move]) == [] + History(L.Spread, Step(L.Spread, s, move), []);
    assert h + [] == h;
    hide Inv, Act, Fits;
  }

  // ---------- Adding one key after another ----------

  const FREE: Entry := Entry(0, 0)

  function KeyAt(i: int): int { 16 * (i + 1) }

  function AddOf(i: int): Job { Job(Adding, KeyAt(i), 1, External, NO_ANSWER) }

  /** A table of which the first `i` slots hold a key each. */
  function Filled(i: int, max: nat, count: int): Tab {
    Tab(seq(max, x => if x < i then Entry(KeyAt(x), 1) else FREE), count, false)
  }

  /** That table in front of others. */
  function InFront(base: seq<Tab>, tab: Tab, state: L.LfhtState): Memory { Memory(base + [tab], state) }

  lemma WriteOne(m: Memory, t: nat, i: int, e: Entry, m': Memory)
    requires AtSlot(m, t, i) && |m'.tables| == |m.tables| && m'.state == m.state
    requires m'.tables[t] == m.tables[t].(slots := m'.tables[t].slots)
    requires m'.tables[t].slots == m.tables[t].slots[i := e]
    requires forall k {:trigger m'.tables[k]} | 0 <= k < |m.tables| && k != t :: m'.tables[k] == m.tables[k]
    ensures WriteSlot(m, t, i, e) == m'
  {
    assert m.tables[t := m'.tables[t]] == m'.tables;
  }

  lemma WriteTop(base: seq<Tab>, tab: Tab, state: L.LfhtState, i: int, e: Entry)
    requires 0 <= i < |tab.slots|
    ensures WriteSlot(InFront(base, tab, state), |base|, i, e) ==
            InFront(base, tab.(slots := tab.slots[i := e]), state)
  {
    var m, m' := InFront(base, tab, state), InFront(base, tab.(slots := tab.slots[i := e]), state);
    assert m.tables[|base| := m'.tables[|base|]] == m'.tables;
  }

  lemma FilledFacts(i: int, max: nat, count: int)
    requires 0 <= i < max
    ensures Home(L.Spread, KeyAt(i), max) == i && Filled(i, max, count).slots[i] == FREE
    ensures Filled(i, max, count).slots[i := Entry(KeyAt(i), 1)] == Filled(i + 1, max, count).slots
  {
    L.SpreadFacts(max, i + 1);
    hide Home, L.Spread;
  }

  /** The search for a key finds an unused slot at its home, claims and fills it. */
  lemma Lands(base: seq<Tab>, tab: Tab, state: L.LfhtState, x: Turn, j: Job, i: int, n: nat)
    requires 0 <= i < |tab.slots| && tab.slots[i] == FREE && n >= 4 && j.op == Adding
    requires i == Home(L.Spread, j.key, |tab.slots|)
    requires FitsJob(InFront(base, tab, state), j)
    ensures Alone(InFront(base, tab, state), Enter(j), x, n) ==
            Alone(InFront(base, tab.(slots := tab.slots[i := Entry(j.key, j.val)]), state),
                  Bump(j.(got := DONE), |base|), x, n - 4)
  {
    hide Alone, Home;
    var m, t := InFront(base, tab, state), |base|;
    var e, e' := Entry(j.key, 0), Entry(j.key, j.val);
    var tab', tab'' := tab.(slots := tab.slots[i := e]), tab.(slots := tab.slots[i := e']);
    var m', m'' := InFront(base, tab', state), InFront(base, tab'', state);
    Goes(m, Enter(j), x, n, m, Probe(j, t, i));
    Goes(m, Probe(j, t, i), x, n - 1, m, Claim(j, t, i));
    WriteTop(base, tab, state, i, e);
    Goes(m, Claim(j, t, i), x, n - 2, m', Fill(j, t, i));
    WriteTop(base, tab', state, i, e');
    assert tab'.slots[i := e'] == tab''.slots;
    Goes(m', Fill(j, t, i), x, n - 3, m'', Bump(j.(got := DONE), t));
  }

  /** A thread finds an unused slot at the home of its key, claims and fills it. */
  lemma Fills(base: seq<Tab>, tab: Tab, state: L.LfhtState, x: Turn, i: int, n: nat)
    requires state != L.Expanding && 0 <= i < |tab.slots| && tab.slots[i] == FREE && n >= 6
    requires x.job == Called(x.job) && x.job.op == Adding && i == Home(L.Spread, x.job.key, |tab.slots|)
    ensures Alone(InFront(base, tab, state), Idle, x, n) ==
            With([Begins(x.thread, x.job)],
                 Alone(InFront(base, tab.(slots := tab.slots[i := Entry(x.job.key, x.job.val)]), state),
                       Bump(x.job.(got := DONE), |base|), x, n - 6))
  {
    hide Alone, Home;
    var m, j := InFront(base, tab, state), x.job;
    Calls(m, x, n);
    Goes(m, CheckState(j), x, n - 1, m, Enter(j));
    Lands(base, tab, state, x, j, i, n - 2);
  }

  /** Counting the slot, when that is no reason to grow. */
  lemma Counts(base: seq<Tab>, tab: Tab, state: L.LfhtState, x: Turn, j: Job)
    requires |tab.slots| > 0 && j.back.External? && !tab.assimilated
    requires tab.count + 1 <= Capacity(|tab.slots|)
    ensures Alone(InFront(base, tab, state), Bump(j, |base|), x,
                  if tab.count + 1 <= L.Threshold(|tab.slots|) then 2 else 3) ==
            Result(InFront(base, tab.(count := tab.count + 1), state), Idle, [Returns(x.thread, j.got)])
  {
    hide Alone;
    var m, m', t := InFront(base, tab, state), InFront(base, tab.(count := tab.count + 1), state), |base|;
    assert m.tables[t := m'.tables[t]] == m'.tables;
    if tab.count + 1 <= L.Threshold(|tab.slots|) {
      Goes(m, Bump(j, t), x, 2, m', Leave(j, t));
    } else {
      Goes(m, Bump(j, t), x, 3, m', CheckSize(j, t));
      Goes(m', CheckSize(j, t), x, 2, m', Leave(j, t));
    }
    Ends(m', j, t, x);
  }

  /** How many steps it takes to add a key to a table with `i` keys. */
  function StepsFor(i: int, max: int): nat { if i + 1 <= L.Threshold(max) then 8 else 9 }

  /** A thread adds the next key. */
  lemma AddsOne(base: seq<Tab>, i: int, max: nat, state: L.LfhtState, x: Turn)
    requires 0 <= i < Capacity(max) && state != L.Expanding && x.job == AddOf(i)
    ensures Alone(InFront(base, Filled(i, max, i), state), Idle, x, StepsFor(i, max)) ==
            Result(InFront(base, Filled(i + 1, max, i + 1), state), Idle,
                   [Begins(x.thread, AddOf(i)), Returns(x.thread, DONE)])
  {
    hide Alone;
    var tab := Filled(i, max, i);
    FilledFacts(i, max, i);
    Fills(base, tab, state, x, i, StepsFor(i, max));
    var tab' := Filled(i + 1, max, i);
    assert tab.(slots := tab.slots[i := Entry(KeyAt(i), 1)]) == tab';
    Counts(base, tab', state, x, AddOf(i).(got := DONE));
    assert tab'.(count := i + 1) == Filled(i + 1, max, i + 1);
  }

  predicate AddEvent(e: Event, k: int) {
    match e
    case Begins(_, job) => 0 <= job.key / 16 - 1 < k && job == AddOf(job.key / 16 - 1)
    case Returns(_, answer) => answer == DONE
    case Acts(_, _) => false
  }

  /** Only adds of the first `k` keys, by one thread, and they return true. */
  ghost predicate OnlyAdds(h: seq<Event>, thread: nat, k: int) {
    forall e {:trigger e in h} | e in h :: e.thread == thread && AddEvent(e, k)
  }

  lemma OneMoreAdd(h: seq<Event>, thread: nat, i: nat)
    requires OnlyAdds(h, thread, i)
    ensures OnlyAdds(h + [Begins(thread, AddOf(i)), Returns(thread, DONE)], thread, i + 1)
  {
    var two := [Begins(thread, AddOf(i)), Returns(thread, DONE)];
    forall e {:trigger e in h + two} | e in h + two ensures e.thread == thread && AddEvent(e, i + 1) {
      assert e in h || e == two[0] || e == two[1];
    }
  }

  lemma AddsNext(threads: nat, max0: nat, moves: seq<Move>, s: System, h: seq<Event>,
                 thread: nat, base: seq<Tab>, max: nat, state: L.LfhtState, i: nat)
    requires 0 < max0 <= L.MAX_TABLE_SIZE && IsPowerOfTwo(max0) && Leads(threads, max0, moves, s, h)
    requires thread < threads == |s.threads| && s.threads[thread] == Idle && state != L.Expanding && i < Capacity(max)
    requires s.m == InFront(base, Filled(i, max, i), state)
    ensures Leads(threads, max0, moves + Turns(Turn(thread, AddOf(i)), StepsFor(i, max)),
                  System(InFront(base, Filled(i + 1, max, i + 1), state), s.threads),
                  h + [Begins(thread, AddOf(i)), Returns(thread, DONE)])
  {
    hide Leads, InFront, Filled;
    var x := Turn(thread, AddOf(i));
    AddsOne(base, i, max, state, x);
    var r := Result(InFront(base, Filled(i + 1, max, i + 1), state), Idle,
                    [Begins(thread, AddOf(i)), Returns(thread, DONE)]);
    LeadsOn(threads, max0, moves, s, h, x, StepsFor(i, max), r);
    assert s.threads[thread := Idle] == s.threads;
  }

  lemma {:induction false} AddsMany(threads: nat, max0: nat, moves: seq<Move>, s: System, h: seq<Event>,
                                    thread: nat, base: seq<Tab>, max: nat, state: L.LfhtState, k: nat)
    returns (moves': seq<Move>, h': seq<Event>)
    requires 0 < max0 <= L.MAX_TABLE_SIZE && IsPowerOfTwo(max0) && Leads(threads, max0, moves, s, h)
    requires thread < threads == |s.threads| && s.threads[thread] == Idle && state != L.Expanding && k <= Capacity(max)
    requires s.m == InFront(base, Filled(0, max, 0), state)
    ensures Leads(threads, max0, moves', System(InFront(base, Filled(k, max, k), state), s.threads), h + h')
    ensures OnlyAdds(h', thread, k) && (AllGranted(moves) ==> AllGranted(moves'))
    decreases k
  {
    hide Leads, InFront, Filled, Capacity;
    moves', h' := moves, [];
    assert h + [] == h;
    if k > 0 {
      var i := k - 1;
      moves', h' := AddsMany(threads, max0, moves, s, h, thread, base, max, state, i);
      var s' := System(InFront(base, Filled(i, max, i), state), s.threads);
      AddsNext(threads, max0, moves', s', h + h', thread, base, max, state, i);
      var two := [Begins(thread, AddOf(i)), Returns(thread, DONE)];
      assert (h + h') + two == h + (h' + two);
      OneMoreAdd(h', thread, i);
      if AllGranted(moves) { GrantedOn(moves', Turn(thread, AddOf(i)), StepsFor(i, max)); }
      moves', h' := moves' + Turns(Turn(thread, AddOf(i)), StepsFor(i, max)), h' + two;
    } else {
      assert s == System(s.m, s.threads);
    }
  }

  // ---------- Looking for a key ----------

  function FindOf(key: int): Job { Job(Finding, key, 1, External, NO_ANSWER) }

  /** A find meets its key at its home. */
  lemma MeetsKey(base: seq<Tab>, tab: Tab, state: L.LfhtState, x: Turn, i: int)
    requires state != L.Expanding && 0 <= i < |tab.slots| && x.job == FindOf(x.job.key) && !tab.assimilated
    requires i == Home(L.Spread, x.job.key, |tab.slots|) && tab.slots[i].key == x.job.key != 0
    ensures Alone(InFront(base, tab, state), Idle, x, 6) ==
            Result(InFront(base, tab, state), Idle,
                   [Begins(x.thread, x.job), Returns(x.thread, Answer(true, tab.slots[i].val))])
  {
    hide Alone, Home;
    var m, j, t := InFront(base, tab, state), x.job, |base|;
    var j' := j.(got := Answer(true, tab.slots[i].val));
    Calls(m, x, 6);
    Goes(m, CheckState(j), x, 5, m, Enter(j));
    Goes(m, Enter(j), x, 4, m, Probe(j, t, i));
    Goes(m, Probe(j, t, i), x, 3, m, ReadVal(j, t, i));
    Goes(m, ReadVal(j, t, i), x, 2, m, Leave(j', t));
    Ends(m, j', t, x);
  }

  /** A find meets an unused slot at the home of its key. */
  lemma MeetsUnused(base: seq<Tab>, tab: Tab, state: L.LfhtState, x: Turn, i: int)
    requires state != L.Expanding && 0 <= i < |tab.slots| && x.job == FindOf(x.job.key) && !tab.assimilated
    requires i == Home(L.Spread, x.job.key, |tab.slots|) && tab.slots[i].key == 0
    ensures Alone(InFront(base, tab, state), Idle, x, 5) ==
            Result(InFront(base, tab, state), Idle, [Begins(x.thread, x.job), Returns(x.thread, NO_ANSWER)])
  {
    hide Alone, Home;
    var m, j, t := InFront(base, tab, state), x.job, |base|;
    Calls(m, x, 5);
    Goes(m, CheckState(j), x, 4, m, Enter(j));
    Goes(m, Enter(j), x, 3, m, Probe(j, t, i));
    Goes(m, Probe(j, t, i), x, 2, m, Leave(j, t));
    Ends(m, j, t, x);
  }

  // ---------- One key too many for a table that can grow ----------

  /** A thread has filled one slot more than the table has room for, and puts a new table in front. */
  lemma Grows(base: seq<Tab>, max: nat, state: L.LfhtState, x: Turn, j: Job, n: nat)
    requires 0 < max < L.MAX_TABLE_SIZE && n >= 3 && j.back.External?
    ensures var k := L.Threshold(max);
      Alone(InFront(base, Filled(k + 1, max, k), state), Bump(j, |base|), x, n) ==
      Alone(InFront(base + [Filled(k + 1, max, k + 1)], Filled(0, 2 * max, 0), state), CheckExpanded(j, |base|), x,
            n - 3)
  {
    hide Alone;
    var k, t := L.Threshold(max), |base|;
    var m, m' := InFront(base, Filled(k + 1, max, k), state), InFront(base, Filled(k + 1, max, k + 1), state);
    var m'' := InFront(base + [Filled(k + 1, max, k + 1)], Filled(0, 2 * max, 0), state);
    assert m.tables[t := m'.tables[t]] == m'.tables;
    Goes(m, Bump(j, t), x, n, m', CheckSize(j, t));
    Goes(m', CheckSize(j, t), x, n - 1, m', Chain(j, t));
    assert Blank(2 * max).slots == Filled(0, 2 * max, 0).slots;
    assert m'.tables + [Blank(2 * max)] == m''.tables;
    Goes(m', Chain(j, t), x, n - 2, m'', CheckExpanded(j, t));
  }

  /** The first `k` keys. */
  function Keys(k: nat): set<int> { set i | 0 <= i < k :: KeyAt(i) }

  lemma {:induction false} CountKeys(k: nat)
    ensures |Keys(k)| == k
  {
    if k > 0 {
      CountKeys(k - 1);
      assert Keys(k) == Keys(k - 1) + {KeyAt(k - 1)};
    }
  }

  lemma OnlyAddsOf(h: seq<Event>, thread: nat, k: nat)
    requires OnlyAdds(h, thread, k)
    ensures AddsOnly(h, Keys(k + 1)) && AddsOnly(h, Keys(k))
  {
    forall e {:trigger e in h} | e in h && e.Begins? ensures e.job.key in Keys(k + 1) && e.job.key in Keys(k) {
      assert AddEvent(e, k) && e.job.key == KeyAt(e.job.key / 16 - 1);
    }
  }

  lemma FilledHome(max: nat, k: int, count: int)
    requires 0 <= k < max
    ensures Filled(k + 1, max, count).slots[k] == Entry(KeyAt(k), 1) && Home(L.Spread, KeyAt(k), max) == k
    ensures Filled(0, 2 * max, 0).slots[k] == FREE && Home(L.Spread, KeyAt(k), 2 * max) == k
  {
    L.SpreadFacts(max, k + 1);
    L.SpreadFacts(2 * max, k + 1);
    hide Home, L.Spread;
  }

  lemma FilledSize(max: nat, k: int)
    ensures |Filled(k + 1, max, k).slots| == max && |Filled(0, 2 * max, 0).slots| == 2 * max
    ensures !Filled(k + 1, max, k).assimilated && !Filled(0, 2 * max, 0).assimilated
  {
  }

  /** The add of the key that is too much, up to the moment when the new table is in front. */
  lemma AddsTooMuch(max: nat, x: Turn)
    requires 0 < max < L.MAX_TABLE_SIZE && x.job == AddOf(L.Threshold(max))
    ensures var k := L.Threshold(max);
      var j := x.job.(got := DONE);
      && Alone(InFront([], Filled(k, max, k), L.Initial), Idle, x, 6) ==
         Result(InFront([], Filled(k + 1, max, k), L.Initial), Bump(j, 0), [Begins(x.thread, x.job)])
      && Alone(InFront([], Filled(k + 1, max, k), L.Initial), Bump(j, 0), x, 3) ==
         Result(InFront([Filled(k + 1, max, k + 1)], Filled(0, 2 * max, 0), L.Initial), CheckExpanded(j, 0), [])
  {
    hide Alone, InFront;
    var k := L.Threshold(max);
    var j := x.job.(got := DONE);
    FilledFacts(k, max, k);
    Fills([], Filled(k, max, k), L.Initial, x, k, 6);
    assert Filled(k, max, k).(slots := Filled(k, max, k).slots[k := Entry(KeyAt(k), 1)]) == Filled(k + 1, max, k);
    Stops(InFront([], Filled(k + 1, max, k), L.Initial), Bump(j, 0), x);
    Grows([], max, L.Initial, x, j, 3);
    assert [] + [Filled(k + 1, max, k + 1)] == [Filled(k + 1, max, k + 1)];
    Stops(InFront([Filled(k + 1, max, k + 1)], Filled(0, 2 * max, 0), L.Initial), CheckExpanded(j, 0), x);
  }

  lemma StartIsFilled(threads: nat, max: nat)
    requires 0 < max
    ensures AllIdle(threads, max).m == InFront([], Filled(0, max, 0), L.Initial)
  {
    assert Blank(max).slots == Filled(0, max, 0).slots;
    assert [Blank(max)] == [] + [Filled(0, max, 0)];
  }

  /** All but the last key are in the table. */
  lemma FillsUp(threads: nat, max: nat, k: nat) returns (moves: seq<Move>, h: seq<Event>)
    requires 0 < max <= L.MAX_TABLE_SIZE && IsPowerOfTwo(max) && k <= Capacity(max) && threads > 0
    ensures OnlyAdds(h, 0, k) && AllGranted(moves)
    ensures Leads(threads, max, moves, System(InFront([], Filled(k, max, k), L.Initial), seq(threads, _ => Idle)), h)
  {
    hide Leads, InFront, Filled, Capacity;
    LeadsFromStart(threads, max);
    StartIsFilled(threads, max);
    moves, h := AddsMany(threads, max, [], AllIdle(threads, max), [], 0, [], max, L.Initial, k);
    assert [] + h == h;
  }

  lemma LedTo(threads: nat, max: nat, moves: seq<Move>, s: System, h: seq<Event>)
    requires 0 < max <= L.MAX_TABLE_SIZE && IsPowerOfTwo(max) && Leads(threads, max, moves, s, h)
    ensures Legal(threads, moves) && History(L.Spread, Start(L.Spread, threads, max), moves) == h
    ensures Run(L.Spread, Start(L.Spread, threads, max), moves) == s
  {
  }
}
