/**
 * What a refusal of memory can lead to, even with a single thread: a table that could not grow in time grows later with
 * more entries than are moved before the next growth, and a find no longer meets the key that was added last.
 */
module LfhtRefused {
  import opened Arithmetic
  import opened ProbeTable
  import opened LfhtThreads
  import opened LfhtCalls
  import opened LfhtOrders
  import opened LfhtRaces
  import opened LfhtStretches
  import L = Lfht

  // ---------- The tables ----------

  /** The first table, full, after `n` of its entries have been moved. */
  function Old(n: int, done: bool): Tab {
    Tab(seq(4, x => if x < n then Entry(KeyAt(x) + 1, 1) else Entry(KeyAt(x), 1)), 4, done)
  }

  /** The second one, with the first `n` keys, and the fifth. */
  function Mid(n: int, last: bool, count: int): Tab {
    Tab(seq(8, x => if x < n || (last && x == 4) then Entry(KeyAt(x), 1) else FREE), count, false)
  }

  function Both(n: int, done: bool, mid: Tab, state: L.LfhtState): Memory { Memory([Old(n, done), mid], state) }

  function All(done: bool, state: L.LfhtState): Memory {
    Memory([Old(4, done), Mid(4, true, 5), Blank(16)], state)
  }

  const FIFTH: int := KeyAt(4)

  function Paid(job: Job, i: int, retval: int): Tax { Tax(job.op, job.key, job.val, 0, i, false, retval) }

  function MoveJob(i: int, tax: Tax): Job { Job(Adding, KeyAt(i), 1, Internal(tax), NO_ANSWER) }

  // ---------- One entry is moved ----------

  lemma OldFacts(n: int, i: int)
    requires 0 <= n <= 4 && 0 <= i < 4
    ensures Old(n, false).slots[i].key == if i < n then KeyAt(i) + 1 else KeyAt(i)
    ensures i == n ==> Old(n, false).slots[i := Entry(KeyAt(i) + 1, 1)] == Old(n + 1, false).slots
    ensures SetAssimilated(KeyAt(i)) == KeyAt(i) + 1 && IsAssimilated(KeyAt(i) + 1) && !IsAssimilated(KeyAt(i))
    ensures Home(L.Spread, FIFTH, 4) == 0 && Home(L.Spread, KeyAt(i), 8) == i && SetAssimilated(FIFTH) == FIFTH + 1
  {
    assert L.Spread(FIFTH) == 4 && L.Spread(KeyAt(i)) == i;
  }

  /** The entry of slot `i` is read and marked. */
  lemma Takes(x: Turn, job: Job, i: int, retval: int, mid: Tab, n: nat)
    requires 0 <= i < 4 && job.key == FIFTH && 0 <= retval < 3 && |mid.slots| > 0 && n >= 3
    ensures var tax := Paid(job, i, retval);
      Alone(Both(i, false, mid, L.Expanding), Scan(tax), x, n) ==
      Alone(Both(i + 1, false, mid, L.Expanding), Enter(MoveJob(i, tax)), x, n - 3)
  {
    hide Alone, SetAssimilated, IsAssimilated, Home;
    var m, m', tax := Both(i, false, mid, L.Expanding), Both(i + 1, false, mid, L.Expanding), Paid(job, i, retval);
    OldFacts(i, i);
    var e := Entry(KeyAt(i), 1);
    assert m.tables[0].slots[i] == e;
    Goes(m, Scan(tax), x, n, m, ReadOld(tax, e.key));
    Goes(m, ReadOld(tax, e.key), x, n - 1, m, Mark(tax, e));
    WriteOne(m, 0, i, Entry(KeyAt(i) + 1, 1), m');
    Goes(m, Mark(tax, e), x, n - 2, m', Enter(MoveJob(i, tax)));
  }

  lemma MidFacts(n: int, last: bool, count: int, i: int)
    requires 0 <= n <= 4 && 0 <= i < 8 && Mid(n, last, count).slots[i] == FREE && (i == n < 4 || i == 4)
    ensures Mid(n, last, count).slots[i := Entry(KeyAt(i), 1)] ==
            Mid(if i == 4 then n else n + 1, last || i == 4, count).slots
    ensures Home(L.Spread, KeyAt(i), 8) == i
  {
    assert L.Spread(KeyAt(i)) == i;
  }

  /** The value of slot `i` is added to the second table. */
  lemma Arrives(x: Turn, i: int, tax: Tax, last: bool, count: int, n: nat)
    requires 0 <= i < 4 && tax.from == 0 && 0 <= tax.i < 4 && n >= 4
    ensures var j := MoveJob(i, tax).(got := DONE);
      Alone(Both(i + 1, false, Mid(i, last, count), L.Expanding), Enter(MoveJob(i, tax)), x, n) ==
      Alone(Both(i + 1, false, Mid(i + 1, last, count), L.Expanding), Bump(j, 1), x, n - 4)
  {
    hide Alone, Home;
    var mid, mid' := Mid(i, last, count), Mid(i + 1, last, count);
    MidFacts(i, last, count, i);
    var base := [Old(i + 1, false)];
    assert base + [mid] == Both(i + 1, false, mid, L.Expanding).tables;
    assert base + [mid'] == Both(i + 1, false, mid', L.Expanding).tables;
    assert mid.(slots := mid.slots[i := Entry(KeyAt(i), 1)]) == mid';
    Lands(base, mid, L.Expanding, x, MoveJob(i, tax), i, n);
  }

  lemma CountMid(i: int, n: int, last: bool, count: int)
    ensures var m, m' := Both(n, false, Mid(i, last, count), L.Expanding),
                         Both(n, false, Mid(i, last, count + 1), L.Expanding);
      m.(tables := m.tables[1 := m.tables[1].(count := count + 1)]) == m'
  {
  }

  /** One of the first three entries is moved. */
  lemma MovesOne(x: Turn, job: Job, i: int, n: nat)
    requires 0 <= i < 3 && job.key == FIFTH && n >= 9
    ensures Alone(Both(i, false, Mid(i, false, i), L.Expanding), Scan(Paid(job, i, i)), x, n) ==
            Alone(Both(i + 1, false, Mid(i + 1, false, i + 1), L.Expanding), Scan(Paid(job, i + 1, i + 1)), x, n - 9)
  {
    hide Alone, Home;
    var tax := Paid(job, i, i);
    Takes(x, job, i, i, Mid(i, false, i), n);
    Arrives(x, i, tax, false, i, n - 3);
    var j := MoveJob(i, tax).(got := DONE);
    var m, m' := Both(i + 1, false, Mid(i + 1, false, i), L.Expanding),
                 Both(i + 1, false, Mid(i + 1, false, i + 1), L.Expanding);
    CountMid(i + 1, i + 1, false, i);
    OldFacts(0, 0);
    Goes(m, Bump(j, 1), x, n - 7, m', Leave(j, 1));
    Goes(m', Leave(j, 1), x, n - 8, m', Scan(Paid(job, i + 1, i + 1)));
  }

  /** A call begins to scan the full table. */
  lemma Begins4(x: Turn, m: Memory, n: nat)
    requires m.state == L.Expanding && |m.tables| == 2 && |m.tables[0].slots| == 4 && |m.tables[1].slots| > 0
    requires !m.tables[0].assimilated && x.job.key == FIFTH && x.job == Called(x.job) && n >= 4
    ensures Alone(m, Idle, x, n) == With([Begins(x.thread, x.job)], Alone(m, Scan(Paid(x.job, 0, 0)), x, n - 4))
  {
    hide Alone, Home;
    OldFacts(0, 0);
    Calls(m, x, n);
    Goes(m, CheckState(x.job), x, n - 1, m, FindOld(x.job));
    Goes(m, FindOld(x.job), x, n - 2, m, CheckDone(Paid(x.job, 0, 0)));
    Goes(m, CheckDone(Paid(x.job, 0, 0)), x, n - 3, m, Scan(Paid(x.job, 0, 0)));
  }

  /** After three moves the fifth key is added itself. */
  lemma FifthLands(x: Turn, job: Job)
    requires job == AddOf(4)
    ensures Alone(Both(3, false, Mid(3, false, 3), L.Expanding), Scan(Paid(job, 3, 3)), x, 7) ==
            Alone(Both(3, false, Mid(3, true, 3), L.Expanding), Bump(job.(got := DONE), 1), x, 2)
  {
    hide Alone, Home;
    var m, m' := Both(3, false, Mid(3, false, 3), L.Expanding), Both(3, false, Mid(3, true, 3), L.Expanding);
    OldFacts(3, 3);
    Goes(m, Scan(Paid(job, 3, 3)), x, 7, m, Enter(job));
    MidFacts(3, false, 3, 4);
    var base := [Old(3, false)];
    assert base + [Mid(3, false, 3)] == m.tables && base + [Mid(3, true, 3)] == m'.tables;
    assert Mid(3, false, 3).(slots := Mid(3, false, 3).slots[4 := Entry(FIFTH, 1)]) == Mid(3, true, 3);
    Lands(base, Mid(3, false, 3), L.Expanding, x, job, 4, 6);
  }

  lemma FifthReturns(x: Turn, j: Job)
    requires j.back.External?
    ensures Alone(Both(3, false, Mid(3, true, 3), L.Expanding), Bump(j, 1), x, 2) ==
            Result(Both(3, false, Mid(3, true, 4), L.Expanding), Idle, [Returns(x.thread, j.got)])
  {
    hide Alone;
    var m', m'' := Both(3, false, Mid(3, true, 3), L.Expanding), Both(3, false, Mid(3, true, 4), L.Expanding);
    CountMid(3, 3, true, 3);
    Goes(m', Bump(j, 1), x, 2, m'', Leave(j, 1));
    Ends(m'', j, 1, x);
  }

  /** Adding the fifth key moves three entries, and leaves one. */
  lemma FifthIsAdded(x: Turn)
    requires x.job == AddOf(4)
    ensures Alone(Both(0, false, Mid(0, false, 0), L.Expanding), Idle, x, 38) ==
            Result(Both(3, false, Mid(3, true, 4), L.Expanding), Idle,
                   [Begins(x.thread, x.job), Returns(x.thread, DONE)])
  {
    hide Alone, Home;
    var job := x.job;
    Begins4(x, Both(0, false, Mid(0, false, 0), L.Expanding), 38);
    MovesOne(x, job, 0, 34);
    MovesOne(x, job, 1, 25);
    MovesOne(x, job, 2, 16);
    FifthLands(x, job);
    FifthReturns(x, job.(got := DONE));
  }

  /** A find passes over the entries that have been moved, and moves the last one. */
  lemma FindMoves(x: Turn, job: Job, n: nat)
    requires job == FindOf(FIFTH) && n >= 10
    ensures var j := MoveJob(3, Paid(job, 3, 0)).(got := DONE);
      Alone(Both(3, false, Mid(3, true, 4), L.Expanding), Scan(Paid(job, 0, 0)), x, n) ==
      Alone(Both(4, false, Mid(4, true, 4), L.Expanding), Bump(j, 1), x, n - 10)
  {
    hide Alone, Home, IsAssimilated, SetAssimilated;
    var m := Both(3, false, Mid(3, true, 4), L.Expanding);
    OldFacts(3, 0);
    OldFacts(3, 1);
    OldFacts(3, 2);
    Goes(m, Scan(Paid(job, 0, 0)), x, n, m, Scan(Paid(job, 1, 0)));
    Goes(m, Scan(Paid(job, 1, 0)), x, n - 1, m, Scan(Paid(job, 2, 0)));
    Goes(m, Scan(Paid(job, 2, 0)), x, n - 2, m, Scan(Paid(job, 3, 0)));
    Takes(x, job, 3, 0, Mid(3, true, 4), n - 3);
    Arrives(x, 3, Paid(job, 3, 0), true, 4, n - 6);
  }

  /** That makes the second table grow, before the first one is flagged. */
  lemma MoveGrows(x: Turn, tax: Tax, n: nat)
    requires tax.from == 0 && tax.i == 3 && n >= 3
    ensures var j := MoveJob(3, tax).(got := DONE);
      Alone(Both(4, false, Mid(4, true, 4), L.Expanding), Bump(j, 1), x, n) ==
      Alone(All(false, L.Expanding), CheckExpanded(j, 1), x, n - 3)
  {
    hide Alone, Home;
    var j := MoveJob(3, tax).(got := DONE);
    var m, m', m'' := Both(4, false, Mid(4, true, 4), L.Expanding), Both(4, false, Mid(4, true, 5), L.Expanding),
                      All(false, L.Expanding);
    CountMid(4, 4, true, 4);
    assert |m.tables[1].slots| == |m'.tables[1].slots| == 8 && |m.tables[0].slots| == |m'.tables[0].slots| == 4;
    assert m'.tables + [Blank(16)] == m''.tables;
    hide Old, Mid, Blank;
    Goes(m, Bump(j, 1), x, n, m', CheckSize(j, 1));
    Goes(m', CheckSize(j, 1), x, n - 1, m', Chain(j, 1));
    Goes(m', Chain(j, 1), x, n - 2, m'', CheckExpanded(j, 1));
  }

  lemma GrowthIsAnnounced(x: Turn, tax: Tax, n: nat)
    requires tax.from == 0 && tax.i == 3 && n >= 4
    ensures var j := MoveJob(3, tax).(got := DONE);
      Alone(All(false, L.Expanding), CheckExpanded(j, 1), x, n) == Alone(All(false, L.Expanding), Leave(j, 1), x, n - 4)
  {
    hide Alone, Home, Mid;
    var j, m := MoveJob(3, tax).(got := DONE), All(false, L.Expanding);
    Goes(m, CheckExpanded(j, 1), x, n, m, Announce(j, 1));
    Goes(m, Announce(j, 1), x, n - 1, m, CheckNext(j, 1));
    Goes(m, CheckNext(j, 1), x, n - 2, m, CheckTop(j, 1));
    Goes(m, CheckTop(j, 1), x, n - 3, m, Leave(j, 1));
  }

  /** The find goes on in the third table, which is empty. */
  lemma FindMisses(x: Turn, job: Job)
    requires job == FindOf(FIFTH)
    ensures var j := MoveJob(3, Paid(job, 3, 0)).(got := DONE);
      Alone(All(false, L.Expanding), Leave(j, 1), x, 6) ==
      Result(All(true, L.Expanding), Idle, [Returns(x.thread, NO_ANSWER)])
  {
    hide Alone, Home;
    var tax := Paid(job, 3, 1);
    var j, m, m' := MoveJob(3, Paid(job, 3, 0)).(got := DONE), All(false, L.Expanding), All(true, L.Expanding);
    OldFacts(0, 0);
    Goes(m, Leave(j, 1), x, 6, m, Finish(tax));
    assert m.tables[0 := m.tables[0].(assimilated := true)] == m'.tables;
    Goes(m, Finish(tax), x, 5, m', CheckHead(tax));
    Goes(m', CheckHead(tax), x, 4, m', Enter(job));
    assert Home(L.Spread, FIFTH, 16) == 4 by { L.SpreadFacts(16, 5); }
    Goes(m', Enter(job), x, 3, m', Probe(job, 2, 4));
    assert m'.tables[2].slots[4].key == 0;
    Goes(m', Probe(job, 2, 4), x, 2, m', Leave(job, 2));
    Ends(m', job, 2, x);
  }

  /** A find of the fifth key does not find it. */
  lemma FifthIsLost(x: Turn)
    requires x.job == FindOf(FIFTH)
    ensures Alone(Both(3, false, Mid(3, true, 4), L.Expanding), Idle, x, 27) ==
            Result(All(true, L.Expanding), Idle, [Begins(x.thread, x.job), Returns(x.thread, NO_ANSWER)])
  {
    hide Alone;
    Begins4(x, Both(3, false, Mid(3, true, 4), L.Expanding), 27);
    FindMoves(x, x.job, 23);
    MoveGrows(x, Paid(x.job, 3, 0), 13);
    GrowthIsAnnounced(x, Paid(x.job, 3, 0), 10);
    FindMisses(x, x.job);
  }

  // ---------- How the first table gets full ----------

  /** The third add asks for memory. */
  lemma ThirdAsks(x: Turn)
    requires x.job == AddOf(2)
    ensures Alone(InFront([], Filled(2, 4, 2), L.Initial), Idle, x, 7) ==
            Result(InFront([], Filled(3, 4, 3), L.Initial), CheckSize(x.job.(got := DONE), 0),
                   [Begins(x.thread, x.job)])
  {
    hide Alone, Home;
    var m, m', j := InFront([], Filled(3, 4, 2), L.Initial), InFront([], Filled(3, 4, 3), L.Initial),
                    x.job.(got := DONE);
    FilledFacts(2, 4, 2);
    Fills([], Filled(2, 4, 2), L.Initial, x, 2, 7);
    assert Filled(2, 4, 2).(slots := Filled(2, 4, 2).slots[2 := Entry(KeyAt(2), 1)]) == Filled(3, 4, 2);
    assert m.tables[0 := m.tables[0].(count := 3)] == m'.tables;
    Goes(m, Bump(j, 0), x, 1, m', CheckSize(j, 0));
    Stops(m', CheckSize(j, 0), x);
  }

  /** The full table grows. */
  lemma FullGrows(x: Turn, j: Job)
    requires j.back.External?
    ensures Alone(InFront([], Filled(4, 4, 3), L.Initial), Bump(j, 0), x, 8) ==
            Result(Both(0, false, Mid(0, false, 0), L.Expanding), Idle, [Returns(x.thread, j.got)])
  {
    hide Alone;
    var m, m', m'' := InFront([], Filled(4, 4, 3), L.Initial), InFront([], Filled(4, 4, 4), L.Initial),
                      Both(0, false, Mid(0, false, 0), L.Initial);
    assert m.tables[0 := m.tables[0].(count := 4)] == m'.tables;
    Goes(m, Bump(j, 0), x, 8, m', CheckSize(j, 0));
    Goes(m', CheckSize(j, 0), x, 7, m', Chain(j, 0));
    assert Filled(4, 4, 4).slots == Old(0, false).slots && Blank(8).slots == Mid(0, false, 0).slots;
    assert m'.tables + [Blank(8)] == m''.tables;
    Goes(m', Chain(j, 0), x, 6, m'', CheckExpanded(j, 0));
    Announces(x, j, m'', Both(0, false, Mid(0, false, 0), L.Expanding));
  }

  /** The fourth add fills the table, and makes it grow. */
  lemma FourthGrows(x: Turn)
    requires x.job == AddOf(3)
    ensures Alone(InFront([], Filled(3, 4, 3), L.Initial), Idle, x, 14) ==
            Result(Both(0, false, Mid(0, false, 0), L.Expanding), Idle,
                   [Begins(x.thread, x.job), Returns(x.thread, DONE)])
  {
    hide Alone, Home, InFront;
    FilledFacts(3, 4, 3);
    Fills([], Filled(3, 4, 3), L.Initial, x, 3, 14);
    assert Filled(3, 4, 3).(slots := Filled(3, 4, 3).slots[3 := Entry(KeyAt(3), 1)]) == Filled(4, 4, 3);
    FullGrows(x, x.job.(got := DONE));
  }

  /** All memory but what move `k` asks for is granted. */
  predicate OneRefused(moves: seq<Move>, k: int) {
    0 <= k < |moves| && !moves[k].granted && AllGranted(moves[..k]) && AllGranted(moves[k + 1..])
  }

  lemma StillOne(moves: seq<Move>, k: int, x: Turn, n: nat)
    requires OneRefused(moves, k)
    ensures OneRefused(moves + Turns(x, n), k)
  {
    assert (moves + Turns(x, n))[..k] == moves[..k];
    assert (moves + Turns(x, n))[k + 1..] == moves[k + 1..] + Turns(x, n);
  }

  function Of(m: Memory, pc: Pc): System { System(m, [pc]) }

  /** The only thread goes on. */
  lemma GoesOn(moves: seq<Move>, m: Memory, pc: Pc, h: seq<Event>, x: Turn, n: nat, r: Result)
    requires IsPowerOfTwo(4) && Leads(1, 4, moves, Of(m, pc), h)
    requires x.thread == 0 && JobOk(x.job) && Alone(m, pc, x, n) == r
    ensures Leads(1, 4, moves + Turns(x, n), Of(r.m, r.pc), h + r.events)
  {
    hide Leads, Alone, IsPowerOfTwo;
    LeadsOn(1, 4, moves, Of(m, pc), h, x, n, r);
    assert [pc][0 := r.pc] == [r.pc];
  }

  lemma Refused(m: Memory, j: Job, move: Move)
    requires m == InFront([], Filled(3, 4, 3), L.Initial) && j.back.External? && !move.granted
    ensures Fits(m, CheckSize(j, 0)) && Act(L.Spread, m, CheckSize(j, 0), move.job, move.granted) == (m, Leave(j, 0))
    ensures Seen(m, CheckSize(j, 0), move) == []
  {
  }

  lemma LeavesThen(m: Memory, j: Job, x: Turn)
    requires m == InFront([], Filled(3, 4, 3), L.Initial) && j.back.External?
    ensures Alone(m, Leave(j, 0), x, 1) == Result(m, Idle, [Returns(x.thread, j.got)])
  {
    hide Alone;
    Ends(m, j, 0, x);
  }

  /** The third add asks in vain. */
  lemma ThirdIsRefused() returns (moves: seq<Move>, h: seq<Event>, k: int)
    ensures IsPowerOfTwo(4) && OneRefused(moves, k)
    ensures Leads(1, 4, moves, Of(InFront([], Filled(3, 4, 3), L.Initial), Idle), h)
    ensures OnlyAdds(h, 0, 3)
  {
    hide Leads, InFront, Filled, Alone, Inv;
    assert IsPowerOfTwo(2);
    moves, h := FillsUp(1, 4, 2);
    var x, m := Turn(0, AddOf(2)), InFront([], Filled(3, 4, 3), L.Initial);
    var j := x.job.(got := DONE);
    assert seq(1, _ => Idle) == [Idle];
    ThirdAsks(x);
    GoesOn(moves, InFront([], Filled(2, 4, 2), L.Initial), Idle, h, x, 7,
            Result(m, CheckSize(j, 0), [Begins(0, x.job)]));
    GrantedOn(moves, x, 7);
    moves := moves + Turns(x, 7);
    var h' := h + [Begins(0, x.job)];
    var move := Move(0, x.job, false);
    Refused(m, j, move);
    LeadsOneOn(1, 4, moves, Of(m, CheckSize(j, 0)), h', move, m, Leave(j, 0));
    assert [CheckSize(j, 0)][0 := Leave(j, 0)] == [Leave(j, 0)];
    k := |moves|;
    moves := moves + [move];
    LeavesThen(m, j, x);
    GoesOn(moves, m, Leave(j, 0), h', x, 1, Result(m, Idle, [Returns(0, DONE)]));
    assert moves[..k] + [move] == moves && moves[k + 1..] == [];
    StillOne(moves, k, x, 1);
    moves := moves + Turns(x, 1);
    OneMoreAdd(h, 0, 2);
    assert h' + [Returns(0, DONE)] == h + [Begins(0, AddOf(2)), Returns(0, DONE)];
    h := h' + [Returns(0, DONE)];
  }

  // ---------- The whole run ----------

  lemma ThenNoOrder(h: seq<Event>)
    requires OnlyAdds(h, 0, 4)
    ensures var g := h + [Begins(0, AddOf(4)), Returns(0, DONE)] + [Begins(0, FindOf(FIFTH)), Returns(0, NO_ANSWER)];
      !Linearizable(1, g) && AddsOnly(g, Keys(5))
  {
    hide Linearizable;
    var b, r, f, e := Begins(0, AddOf(4)), Returns(0, DONE), Begins(0, FindOf(FIFTH)), Returns(0, NO_ANSWER);
    OneMoreAdd(h, 0, 4);
    OnlyAddsOf(h + [b, r], 0, 5);
    assert forall x {:trigger x in h} | x in h && x.Begins? :: AddEvent(x, 4) && x.thread == 0;
    NoOrderForUpdates(1, 0, AddOf(4), h, [], DONE, [f, e], NO_ANSWER);
    assert h + [b, r] + [f, e] == h + [b] + ([] + [r] + [f, e]);
    assert forall x {:trigger x in h + [b, r] + [f, e]} | x in h + [b, r] + [f, e] && x.Begins? && x.job.op == Adding ::
        x in h + [b, r];
  }

  /** A single thread adds five keys, is once refused memory, and does not find the last key any more. */
  lemma RefusalCanLoseAKey() returns (moves: seq<Move>, k: int)
    ensures IsPowerOfTwo(4) && Legal(1, moves) && OneRefused(moves, k)
    ensures var h := History(L.Spread, Start(L.Spread, 1, 4), moves);
      !Linearizable(1, h) && AddsOnly(h, Keys(5)) && h != [] && h[|h| - 1] == Returns(0, NO_ANSWER)
  {
    hide Leads, InFront, Filled, Alone, Inv, Linearizable, AddsOnly;
    var h;
    moves, h, k := ThirdIsRefused();
    var m1, m2, m3 := Both(0, false, Mid(0, false, 0), L.Expanding), Both(3, false, Mid(3, true, 4), L.Expanding),
                      All(true, L.Expanding);
    var x, y, z := Turn(0, AddOf(3)), Turn(0, AddOf(4)), Turn(0, FindOf(FIFTH));
    FourthGrows(x);
    GoesOn(moves, InFront([], Filled(3, 4, 3), L.Initial), Idle, h, x, 14,
            Result(m1, Idle, [Begins(0, x.job), Returns(0, DONE)]));
    StillOne(moves, k, x, 14);
    OneMoreAdd(h, 0, 3);
    moves, h := moves + Turns(x, 14), h + [Begins(0, x.job), Returns(0, DONE)];
    FifthIsAdded(y);
    GoesOn(moves, m1, Idle, h, y, 38, Result(m2, Idle, [Begins(0, y.job), Returns(0, DONE)]));
    StillOne(moves, k, y, 38);
    moves := moves + Turns(y, 38);
    FifthIsLost(z);
    GoesOn(moves, m2, Idle, h + [Begins(0, y.job), Returns(0, DONE)], z, 27,
            Result(m3, Idle, [Begins(0, z.job), Returns(0, NO_ANSWER)]));
    StillOne(moves, k, z, 27);
    moves := moves + Turns(z, 27);
    ThenNoOrder(h);
    LedTo(1, 4, moves, Of(m3, Idle),
          h + [Begins(0, y.job), Returns(0, DONE)] + [Begins(0, z.job), Returns(0, NO_ANSWER)]);
  }
}
