/** What holds after every schedule of any number of threads. */
module LfhtSafety {
  import opened Arithmetic
  import opened ProbeTable
  import opened LfhtThreads
  import opened LfhtCalls
  import L = Lfht

  /** What a schedule of any length, of any number of threads, can lead to. */
  lemma EveryRunIsSafe(hash: Hash, threads: nat, max: nat, moves: seq<Move>)
    requires 0 < max <= L.MAX_TABLE_SIZE && IsPowerOfTwo(max) && Legal(threads, moves)
    ensures var s := Run(hash, Start(hash, threads, max), moves);
      && Sized(s.m)
      && (forall n {:trigger s.threads[n]} | 0 <= n < |s.threads| :: Fits(s.m, s.threads[n]))
      && (forall t {:trigger s.m.tables[t]} | 0 <= t < |s.m.tables| ::
            && Unbroken(hash, s.m.tables[t].slots) && OneEach(s.m.tables[t].slots)
            && Used(s.m.tables[t].slots) == s.m.tables[t].count + Inserters(s.threads, t)
            && s.m.tables[t].count <= |s.m.tables[t].slots|)
  {
    var s := Run(hash, Start(hash, threads, max), moves);
    forall t {:trigger s.m.tables[t]} | 0 <= t < |s.m.tables|
      ensures Used(s.m.tables[t].slots) == s.m.tables[t].count + Inserters(s.threads, t)
      ensures s.m.tables[t].count <= |s.m.tables[t].slots|
    {
      assert Uncounted(s.m, t) == Inserters(s.threads, t);
      CountBounds(s.m.tables[t].slots);
      InsertersNatural(s.threads, t);
    }
    forall t {:trigger s.m.tables[t]} | 0 <= t < |s.m.tables|
      ensures Unbroken(hash, s.m.tables[t].slots) && OneEach(s.m.tables[t].slots)
    {
      assert TabOk(hash, s.m.tables[t].slots);
    }
  }

  /** The two ends of any stretch of a run: keys only go from 0 to a key to its mark, and no table is lost. */
  lemma SlotHistory(hash: Hash, s: System, moves: seq<Move>, t: nat, i: int)
    requires Inv(hash, s) && Legal(|s.threads|, moves) && AtSlot(s.m, t, i)
    ensures var r := Run(hash, s, moves);
      && AtSlot(r.m, t, i) && |r.m.tables[t].slots| == |s.m.tables[t].slots|
      && KeyGrows(s.m.tables[t].slots[i].key, r.m.tables[t].slots[i].key)
  {
    var r := Run(hash, s, moves);
    assert TabGrows(s.m.tables[t], r.m.tables[t]);
  }

  // ---------- Calls begin and return in turn ----------

  /** A thread has begun a call that has not returned. */
  predicate IsOpen(h: seq<Event>, n: nat) {
    if h == [] then false
    else if h[|h| - 1].thread == n && !h[|h| - 1].Acts? then h[|h| - 1].Begins?
    else IsOpen(h[..|h| - 1], n)
  }

  /** In `later`, which follows `before`, threads begin calls only when they have none, and return from those. */
  ghost predicate InTurn(before: seq<Event>, later: seq<Event>) {
    forall x {:trigger later[x]} | 0 <= x < |later| ::
      IsOpen(before + later[..x], later[x].thread) <==> later[x].Returns?
  }

  /** The threads that are not idle have an open call. */
  ghost predicate OpenAre(h: seq<Event>, threads: seq<Pc>) {
    forall n {:trigger threads[n]} | 0 <= n < |threads| :: IsOpen(h, n) <==> !threads[n].Idle?
  }

  lemma StepInTurn(m: Memory, pc: Pc, hash: Hash, move: Move, h: seq<Event>)
    requires Fits(m, pc) && (IsOpen(h, move.thread) <==> !pc.Idle?)
    ensures var (m', pc') := Act(hash, m, pc, move.job, move.granted);
      var seen := Seen(m, pc, move);
      && |seen| <= 1 && InTurn(h, seen) && (IsOpen(h + seen, move.thread) <==> !pc'.Idle?)
    ensures forall n: nat {:trigger IsOpen(h, n)} | n != move.thread ::
              IsOpen(h + Seen(m, pc, move), n) == IsOpen(h, n)
  {
    var seen := Seen(m, pc, move);
    if seen != [] {
      assert h + seen[..0] == h && (h + seen)[..|h + seen| - 1] == h;
    } else {
      assert h + seen == h;
    }
  }

  lemma InTurnOn(before: seq<Event>, a: seq<Event>, b: seq<Event>)
    requires InTurn(before, a) && InTurn(before + a, b)
    ensures InTurn(before, a + b)
  {
    hide IsOpen;
    forall x {:trigger (a + b)[x]} | 0 <= x < |a + b|
      ensures IsOpen(before + (a + b)[..x], (a + b)[x].thread) <==> (a + b)[x].Returns?
    {
      if x < |a| {
        assert (a + b)[..x] == a[..x];
      } else {
        assert before + (a + b)[..x] == before + a + b[..x - |a|];
      }
    }
  }

  lemma NothingInTurn(before: seq<Event>)
    ensures InTurn(before, [])
  {
  }

  lemma {:induction false} RunInTurn(hash: Hash, s: System, moves: seq<Move>, before: seq<Event>)
    requires Inv(hash, s) && Legal(|s.threads|, moves) && OpenAre(before, s.threads)
    ensures var h := History(hash, s, moves); InTurn(before, h) && OpenAre(before + h, Run(hash, s, moves).threads)
    decreases |moves|
  {
    hide Act, IsOpen, Seen, InTurn, MemoryOk, Uncounted, Evolves, Fits;
    if moves == [] {
      assert before + [] == before;
      NothingInTurn(before);
    } else {
      var move := moves[0];
      StepInv(hash, s, move);
      StepInTurn(s.m, s.threads[move.thread], hash, move, before);
      var s', a := Step(hash, s, move), Seen(s.m, s.threads[move.thread], move);
      var h := History(hash, s', moves[1..]);
      RunInTurn(hash, s', moves[1..], before + a);
      assert before + (a + h) == before + a + h;
      InTurnOn(before, a, h);
    }
  }

  lemma NothingIsOpen()
    ensures forall n: nat {:trigger IsOpen([], n)} :: !IsOpen([], n)
  {
  }

  /**
   * Whatever the schedule, each thread begins a call only when it has none, and returns from the one that it has: none
   * is lost, and none returns twice.
   */
  lemma CallsTakeTurns(hash: Hash, threads: nat, max: nat, moves: seq<Move>)
    requires 0 < max <= L.MAX_TABLE_SIZE && IsPowerOfTwo(max) && Legal(threads, moves)
    ensures var s, h := Run(hash, Start(hash, threads, max), moves), History(hash, Start(hash, threads, max), moves);
      && (forall x {:trigger h[x]} | 0 <= x < |h| :: IsOpen(h[..x], h[x].thread) <==> h[x].Returns?)
      && (forall n {:trigger s.threads[n]} | 0 <= n < |s.threads| :: IsOpen(h, n) <==> !s.threads[n].Idle?)
  {
    hide Inv, IsOpen;
    var h := History(hash, Start(hash, threads, max), moves);
    NothingIsOpen();
    RunInTurn(hash, Start(hash, threads, max), moves, []);
    assert [] + h == h;
    forall x {:trigger h[x]} | 0 <= x < |h| ensures IsOpen(h[..x], h[x].thread) <==> h[x].Returns? {
      assert [] + h[..x] == h[..x];
    }
  }

  // ---------- A flagged table is left ----------

  /** A thread is moving entries out of table `t`. */
  predicate Empties(pc: Pc, t: nat) {
    match pc
    case Idle => false
    case CheckDone(_) => false
    case Scan(tax) => tax.from == t
    case ReadOld(tax, _) => tax.from == t
    case Mark(tax, _) => tax.from == t
    case Finish(_) => false
    case CheckHead(_) => false
    case Settle(_) => false
    case _ => pc.job.back.Internal? && pc.job.back.tax.from == t
  }

  lemma StepLeaves(hash: Hash, m: Memory, pc: Pc, move: Move, t: nat)
    requires Fits(m, pc) && PcOk(hash, m, pc) && t < |m.tables| && m.tables[t].assimilated
    ensures Empties(Act(hash, m, pc, move.job, move.granted).1, t) ==> Empties(pc, t)
  {
  }

  /** Once a table is flagged, no other threads begin to move entries out of it, whatever comes. */
  lemma {:induction false} NobodyJoins(hash: Hash, s: System, moves: seq<Move>, t: nat, n: nat)
    requires Inv(hash, s) && Legal(|s.threads|, moves) && n < |s.threads|
    requires t < |s.m.tables| && s.m.tables[t].assimilated
    ensures Empties(Run(hash, s, moves).threads[n], t) ==> Empties(s.threads[n], t)
    decreases |moves|
  {
    hide Act, Empties, MemoryOk, Uncounted;
    if moves != [] {
      var move := moves[0];
      StepInv(hash, s, move);
      StepLeaves(hash, s.m, s.threads[move.thread], move, t);
      var s' := Step(hash, s, move);
      assert TabGrows(s.m.tables[t], s'.m.tables[t]);
      NobodyJoins(hash, s', moves[1..], t, n);
    }
  }
}
