/** A run of two threads in which an update is lost. */
module LfhtRaces {
  import opened Arithmetic
  import opened ProbeTable
  import opened LfhtThreads
  import opened LfhtCalls
  import opened LfhtOrders
  import opened LfhtStretches
  import L = Lfht

  /** The memory with slots `a` and `b` in the old table, and `c` and `d` in the new one. */
  function Two(a: Entry, b: Entry, done: bool, c: Entry, d: Entry, count: int, state: L.LfhtState): Memory {
    Memory([Tab([a, b], 2, done), Tab([c, d, FREE, FREE], count, false)], state)
  }

  const UPDATE: Job := Job(Adding, 16, 2, External, NO_ANSWER)

  const FIND: Job := FindOf(16)

  /** The update of the key has found its slot and read the value that it wants to replace. */
  lemma UpdateBegins(x: Turn, m: Memory)
    requires x.job == UPDATE && m == InFront([], Filled(1, 2, 1), L.Initial)
    ensures Alone(m, Idle, x, 5) == Result(m, Swap(UPDATE, 0, 0, 1), [Begins(x.thread, UPDATE)])
  {
    hide Alone;
    assert m.tables[0].slots == [Entry(16, 1), FREE];
    Calls(m, x, 5);
    Goes(m, CheckState(UPDATE), x, 4, m, Enter(UPDATE));
    Goes(m, Enter(UPDATE), x, 3, m, Probe(UPDATE, 0, 0));
    Goes(m, Probe(UPDATE, 0, 0), x, 2, m, ReadVal(UPDATE, 0, 0));
    Goes(m, ReadVal(UPDATE, 0, 0), x, 1, m, Swap(UPDATE, 0, 0, 1));
    Stops(m, Swap(UPDATE, 0, 0, 1), x);
  }

  lemma Reports(x: Turn, j: Job, m: Memory)
    requires |m.tables| == 2 && |m.tables[1].slots| > 0 && !m.tables[0].assimilated && j.back.External?
    ensures Alone(m, CheckNext(j, 0), x, 3) == Result(m, Idle, [Returns(x.thread, j.got)])
  {
    hide Alone;
    Goes(m, CheckNext(j, 0), x, 3, m, CheckTop(j, 0));
    Goes(m, CheckTop(j, 0), x, 2, m, Leave(j, 0));
    Ends(m, j, 0, x);
  }

  /** A new table has been put in front; the add that did it announces that and returns. */
  lemma Announces(x: Turn, j: Job, m: Memory, m': Memory)
    requires |m.tables| == 2 && |m.tables[1].slots| > 0 && !m.tables[0].assimilated && j.back.External?
    requires m' == m.(state := L.Expanding)
    ensures Alone(m, CheckExpanded(j, 0), x, 5) == Result(m', Idle, [Returns(x.thread, j.got)])
  {
    hide Alone;
    Goes(m, CheckExpanded(j, 0), x, 5, m, Announce(j, 0));
    Goes(m, Announce(j, 0), x, 4, m', CheckNext(j, 0));
    Reports(x, j, m');
  }

  /** Another add fills the table, so that it grows. */
  lemma OtherAdds(x: Turn, m: Memory, m': Memory)
    requires x.job == AddOf(1) && m == InFront([], Filled(1, 2, 1), L.Initial)
    requires m' == Two(Entry(16, 1), Entry(32, 1), false, FREE, FREE, 0, L.Expanding)
    ensures Alone(m, Idle, x, 14) == Result(m', Idle, [Begins(x.thread, x.job), Returns(x.thread, DONE)])
  {
    hide Alone;
    var tab, j := Filled(1, 2, 1), x.job.(got := DONE);
    var m0, m1 := InFront([], Filled(2, 2, 1), L.Initial), InFront([] + [Filled(2, 2, 2)], Filled(0, 4, 0), L.Initial);
    FilledFacts(1, 2, 1);
    Fills([], tab, L.Initial, x, 1, 14);
    assert tab.(slots := tab.slots[1 := Entry(32, 1)]) == Filled(2, 2, 1);
    Grows([], 2, L.Initial, x, j, 8);
    assert m1.(state := L.Expanding) == m' by {
      assert Filled(2, 2, 2).slots == [Entry(16, 1), Entry(32, 1)] && Filled(0, 4, 0).slots == [FREE, FREE, FREE, FREE];
      assert m1.tables == m'.tables;
    }
    Announces(x, j, m1, m');
  }

  /** The locals of a find that takes the old value out of the old table, and its add to the new one. */
  const TAKING: Tax := Tax(Finding, 16, 1, 0, 0, true, 0)

  const TAKEN: Job := Job(Adding, 16, 1, Internal(TAKING), NO_ANSWER)

  /** A find begins to move the key, with the old value. */
  lemma FindTakes(x: Turn, m: Memory, m': Memory)
    requires x.job == FIND && m == Two(Entry(16, 1), Entry(32, 1), false, FREE, FREE, 0, L.Expanding)
    requires m' == Two(Entry(17, 1), Entry(32, 1), false, FREE, FREE, 0, L.Expanding)
    ensures Alone(m, Idle, x, 7) == Result(m', Enter(TAKEN), [Begins(x.thread, FIND)])
  {
    hide Alone;
    var tax := TAKING.(success := false);
    Calls(m, x, 7);
    Goes(m, CheckState(FIND), x, 6, m, FindOld(FIND));
    Goes(m, FindOld(FIND), x, 5, m, CheckDone(tax));
    Goes(m, CheckDone(tax), x, 4, m, Scan(tax));
    Goes(m, Scan(tax), x, 3, m, ReadOld(TAKING, 16));
    Goes(m, ReadOld(TAKING, 16), x, 2, m, Mark(TAKING, Entry(16, 1)));
    WriteOne(m, 0, 0, Entry(17, 1), m');
    Goes(m, Mark(TAKING, Entry(16, 1)), x, 1, m', Enter(TAKEN));
    Stops(m', Enter(TAKEN), x);
  }

  /** The update stores its value in a slot that has been given up, and returns. */
  lemma UpdateEnds(x: Turn, m: Memory, m': Memory)
    requires m == Two(Entry(17, 1), Entry(32, 1), false, FREE, FREE, 0, L.Expanding)
    requires m' == Two(Entry(17, 2), Entry(32, 1), false, FREE, FREE, 0, L.Expanding)
    ensures Alone(m, Swap(UPDATE, 0, 0, 1), x, 2) == Result(m', Idle, [Returns(x.thread, DONE)])
  {
    hide Alone;
    WriteOne(m, 0, 0, Entry(17, 2), m');
    Goes(m, Swap(UPDATE, 0, 0, 1), x, 2, m', Leave(UPDATE.(got := DONE), 0));
    Ends(m', UPDATE.(got := DONE), 0, x);
  }

  /** A key is entered into the new table, on behalf of a find that pays the tax. */
  lemma Gives(x: Turn, m: Memory, j: Job, i: nat, m': Memory, n: nat)
    requires |m.tables| == 2 && |m.tables[1].slots| == 4 && i < 4 && m.tables[1].slots[i] == FREE
    requires FitsJob(m, j) && j.op == Adding && i == Home(L.Spread, j.key, 4) && n >= 4
    requires m' == WriteSlot(m, 1, i, Entry(j.key, j.val))
    ensures Alone(m, Enter(j), x, n) == Alone(m', Bump(j.(got := DONE), 1), x, n - 4)
  {
    hide Alone, Home;
    var e := Entry(j.key, 0);
    var m'' := WriteSlot(m, 1, i, e);
    Goes(m, Enter(j), x, n, m, Probe(j, 1, i));
    Goes(m, Probe(j, 1, i), x, n - 1, m, Claim(j, 1, i));
    Goes(m, Claim(j, 1, i), x, n - 2, m'', Fill(j, 1, i));
    assert m.tables[1].slots[i := e][i := Entry(j.key, j.val)] == m.tables[1].slots[i := Entry(j.key, j.val)];
    WriteOne(m'', 1, i, Entry(j.key, j.val), m');
    Goes(m'', Fill(j, 1, i), x, n - 3, m', Bump(j.(got := DONE), 1));
  }

  /** The find puts the old value into the new table. */
  lemma FindGives(x: Turn, m: Memory, m': Memory)
    requires m == Two(Entry(17, 2), Entry(32, 1), false, FREE, FREE, 0, L.Expanding)
    requires m' == Two(Entry(17, 2), Entry(32, 1), false, Entry(16, 1), FREE, 0, L.Expanding)
    ensures Alone(m, Enter(TAKEN), x, 4) == Result(m', Bump(TAKEN.(got := DONE), 1), [])
  {
    hide Alone;
    WriteOne(m, 1, 0, Entry(16, 1), m');
    Gives(x, m, TAKEN, 0, m', 4);
    Stops(m', Bump(TAKEN.(got := DONE), 1), x);
  }

  /** The locals of a find that moves the other key, and its add to the new table. */
  const MOVING: Tax := Tax(Finding, 16, 1, 0, 1, true, 0)

  const MOVED: Job := Job(Adding, 32, 1, Internal(MOVING), NO_ANSWER)

  lemma FindMovesOther(x: Turn, m: Memory, m': Memory, n: nat)
    requires x.job == FIND && n >= 8
    requires m == Two(Entry(17, 2), Entry(32, 1), false, Entry(16, 1), FREE, 0, L.Expanding)
    requires m' == Two(Entry(17, 2), Entry(33, 1), false, Entry(16, 1), FREE, 0, L.Expanding)
    ensures Alone(m, Idle, x, n) == With([Begins(x.thread, FIND)], Alone(m', Enter(MOVED), x, n - 8))
  {
    hide Alone;
    var tax := MOVING.(i := 0, success := false);
    Calls(m, x, n);
    Goes(m, CheckState(FIND), x, n - 1, m, FindOld(FIND));
    Goes(m, FindOld(FIND), x, n - 2, m, CheckDone(tax));
    Goes(m, CheckDone(tax), x, n - 3, m, Scan(tax));
    Goes(m, Scan(tax), x, n - 4, m, Scan(MOVING));
    Goes(m, Scan(MOVING), x, n - 5, m, ReadOld(MOVING, 32));
    Goes(m, ReadOld(MOVING, 32), x, n - 6, m, Mark(MOVING, Entry(32, 1)));
    WriteOne(m, 0, 1, Entry(33, 1), m');
    Goes(m, Mark(MOVING, Entry(32, 1)), x, n - 7, m', Enter(MOVED));
  }

  lemma FindGivesOther(x: Turn, m: Memory, m': Memory, n: nat)
    requires m == Two(Entry(17, 2), Entry(33, 1), false, Entry(16, 1), FREE, 0, L.Expanding) && n >= 6
    requires m' == Two(Entry(17, 2), Entry(33, 1), false, Entry(16, 1), Entry(32, 1), 1, L.Expanding)
    ensures Alone(m, Enter(MOVED), x, n) == Alone(m', Finish(MOVING.(retval := 1)), x, n - 6)
  {
    hide Alone;
    var m'', j := Two(Entry(17, 2), Entry(33, 1), false, Entry(16, 1), Entry(32, 1), 0, L.Expanding),
        MOVED.(got := DONE);
    WriteOne(m, 1, 1, Entry(32, 1), m'');
    Gives(x, m, MOVED, 1, m'', n);
    assert m''.tables[1 := m''.tables[1].(count := 1)] == m'.tables;
    Goes(m'', Bump(j, 1), x, n - 4, m', Leave(j, 1));
    Goes(m', Leave(j, 1), x, n - 5, m', Finish(MOVING.(retval := 1)));
  }

  /** The old table is flagged, and the find goes on. */
  lemma FindFinishes(x: Turn, m: Memory, m': Memory, n: nat)
    requires m == Two(Entry(17, 2), Entry(33, 1), false, Entry(16, 1), Entry(32, 1), 1, L.Expanding) && n >= 3
    requires m' == Two(Entry(17, 2), Entry(33, 1), true, Entry(16, 1), Entry(32, 1), 1, L.Expanded)
    ensures Alone(m, Finish(MOVING.(retval := 1)), x, n) == Alone(m', Enter(FIND), x, n - 3)
  {
    hide Alone;
    var tax, flagged := MOVING.(retval := 1), m'.(state := L.Expanding);
    assert m.tables[0 := m.tables[0].(assimilated := true)] == flagged.tables;
    Goes(m, Finish(tax), x, n, flagged, CheckHead(tax));
    Goes(flagged, CheckHead(tax), x, n - 1, flagged, Settle(tax));
    Goes(flagged, Settle(tax), x, n - 2, m', Enter(FIND));
  }

  lemma FindReads(x: Turn, m: Memory)
    requires m == Two(Entry(17, 2), Entry(33, 1), true, Entry(16, 1), Entry(32, 1), 1, L.Expanded)
    ensures Alone(m, Enter(FIND), x, 4) == Result(m, Idle, [Returns(x.thread, Answer(true, 1))])
  {
    hide Alone;
    var j := FIND.(got := Answer(true, 1));
    Goes(m, Enter(FIND), x, 4, m, Probe(FIND, 1, 0));
    Goes(m, Probe(FIND, 1, 0), x, 3, m, ReadVal(FIND, 1, 0));
    Goes(m, ReadVal(FIND, 1, 0), x, 2, m, Leave(j, 1));
    Ends(m, j, 1, x);
  }

  /** A find that begins now moves the other key, flags the old table, and sees the old value. */
  lemma FindSees(x: Turn, m: Memory, m': Memory)
    requires x.job == FIND && m == Two(Entry(17, 2), Entry(32, 1), false, Entry(16, 1), FREE, 0, L.Expanding)
    requires m' == Two(Entry(17, 2), Entry(33, 1), true, Entry(16, 1), Entry(32, 1), 1, L.Expanded)
    ensures Alone(m, Idle, x, 21) ==
            Result(m', Idle, [Begins(x.thread, FIND), Returns(x.thread, Answer(true, 1))])
  {
    hide Alone;
    var m1 := Two(Entry(17, 2), Entry(33, 1), false, Entry(16, 1), FREE, 0, L.Expanding);
    var m2 := Two(Entry(17, 2), Entry(33, 1), false, Entry(16, 1), Entry(32, 1), 1, L.Expanding);
    FindMovesOther(x, m, m1, 21);
    FindGivesOther(x, m1, m2, 13);
    FindFinishes(x, m2, m', 7);
    FindReads(x, m');
  }

  /** What can be seen of a lost update: the last find should see 2. */
  function LostUpdate(h: seq<Event>): seq<Event> {
    h + [Begins(0, UPDATE)] + [Begins(1, AddOf(1)), Returns(1, DONE)] + [Begins(1, FIND)] + [Returns(0, DONE)] + []
    + [Begins(0, FIND), Returns(0, Answer(true, 1))]
  }

  lemma NoOrderAfterLoss(h: seq<Event>)
    requires OnlyAdds(h, 0, 1)
    ensures !Linearizable(2, LostUpdate(h))
  {
    var h', h'' := [Begins(1, AddOf(1)), Returns(1, DONE), Begins(1, FIND)],
        [Begins(0, FIND), Returns(0, Answer(true, 1))];
    assert LostUpdate(h) == h + [Begins(0, UPDATE)] + (h' + [Returns(0, DONE)] + h'');
    forall e {:trigger e in h} | e in h && e.Begins? ensures Owner(0, 16, e.thread, e.job) {
      assert AddEvent(e, 1);
    }
    assert h''[1] in h'';
    NoOrderForUpdates(2, 0, UPDATE, h, h', DONE, h'', Answer(true, 1));
  }

  lemma Advance(moves: seq<Move>, m: Memory, threads: seq<Pc>, h: seq<Event>, x: Turn, n: nat, r: Result,
                threads': seq<Pc>)
    requires IsPowerOfTwo(2) && Leads(2, 2, moves, System(m, threads), h) && x.thread < |threads| == 2
    requires JobOk(x.job) && Alone(m, threads[x.thread], x, n) == r && threads' == threads[x.thread := r.pc]
    ensures Leads(2, 2, moves + Turns(x, n), System(r.m, threads'), h + r.events)
  {
    hide Leads, Alone;
    LeadsOn(2, 2, moves, System(m, threads), h, x, n, r);
  }

  /**
   A thread adds a value for a key that it has added before. Another one makes the table grow, reads the old value
   and marks the slot before the new value is stored there. When the update has returned, its thread sees the old one.
   */
  lemma UpdateCanBeLost() returns (moves: seq<Move>, h: seq<Event>)
    ensures IsPowerOfTwo(2) && Legal(2, moves) && OnlyAdds(h, 0, 1)
    ensures History(L.Spread, Start(L.Spread, 2, 2), moves) == LostUpdate(h) && !Linearizable(2, LostUpdate(h))
  {
    hide Leads, InFront, Filled, Alone, Linearizable, Inv, Two, OnlyAdds;
    var x, y, u, z := Turn(1, AddOf(1)), Turn(1, FIND), Turn(0, UPDATE), Turn(0, FIND);
    var swap, take, bump := Swap(UPDATE, 0, 0, 1), Enter(TAKEN), Bump(TAKEN.(got := DONE), 1);
    var m1, m2 := InFront([], Filled(1, 2, 1), L.Initial),
                  Two(Entry(16, 1), Entry(32, 1), false, FREE, FREE, 0, L.Expanding);
    var m3, m4 := Two(Entry(17, 1), Entry(32, 1), false, FREE, FREE, 0, L.Expanding),
                  Two(Entry(17, 2), Entry(32, 1), false, FREE, FREE, 0, L.Expanding);
    var m5, m6 := Two(Entry(17, 2), Entry(32, 1), false, Entry(16, 1), FREE, 0, L.Expanding),
                  Two(Entry(17, 2), Entry(33, 1), true, Entry(16, 1), Entry(32, 1), 1, L.Expanded);
    assert IsPowerOfTwo(2) && seq(2, _ => Idle) == [Idle, Idle];
    moves, h := FillsUp(2, 2, 1);
    UpdateBegins(u, m1);
    Advance(moves, m1, [Idle, Idle], h, u, 5, Result(m1, swap, [Begins(0, UPDATE)]), [swap, Idle]);
    moves := moves + Turns(u, 5);
    OtherAdds(x, m1, m2);
    var g := h + [Begins(0, UPDATE)];
    Advance(moves, m1, [swap, Idle], g, x, 14, Result(m2, Idle, [Begins(1, AddOf(1)), Returns(1, DONE)]), [swap, Idle]);
    moves, g := moves + Turns(x, 14), g + [Begins(1, AddOf(1)), Returns(1, DONE)];
    FindTakes(y, m2, m3);
    Advance(moves, m2, [swap, Idle], g, y, 7, Result(m3, take, [Begins(1, FIND)]), [swap, take]);
    moves, g := moves + Turns(y, 7), g + [Begins(1, FIND)];
    UpdateEnds(u, m3, m4);
    Advance(moves, m3, [swap, take], g, u, 2, Result(m4, Idle, [Returns(0, DONE)]), [Idle, take]);
    moves, g := moves + Turns(u, 2), g + [Returns(0, DONE)];
    FindGives(y, m4, m5);
    Advance(moves, m4, [Idle, take], g, y, 4, Result(m5, bump, []), [Idle, bump]);
    moves, g := moves + Turns(y, 4), g + [];
    FindSees(z, m5, m6);
    Advance(moves, m5, [Idle, bump], g, z, 21,
            Result(m6, Idle, [Begins(0, FIND), Returns(0, Answer(true, 1))]), [Idle, bump]);
    moves, g := moves + Turns(z, 21), g + [Begins(0, FIND), Returns(0, Answer(true, 1))];
    NoOrderAfterLoss(h);
    LedTo(2, 2, moves, System(m6, [Idle, bump]), g);
  }
}
