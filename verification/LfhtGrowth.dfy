/**
 * When the assertions hold that the code makes after it has put a new table in front: always as long as there is only
 * one such table, and that is so for as many keys as the second table has room for.
 */
module LfhtGrowth {
  import opened Arithmetic
  import opened ProbeTable
  import opened LfhtThreads
  import opened LfhtCalls
  import L = Lfht

  /** How many keys do not need a third table. */
  predicate TwoTablesDo(max: int, k: int) { k <= L.Threshold(2 * max) || 2 * max >= L.MAX_TABLE_SIZE }

  /** A tax is only paid after a table has been announced. */
  predicate TaxAmong(m: Memory, keys: set<int>, tax: Tax) {
    m.state != L.Initial && (tax.op == Adding ==> tax.key in keys)
  }

  predicate JobAmong(m: Memory, keys: set<int>, job: Job) {
    && (job.op == Adding ==> job.key in keys)
    && (job.back.Internal? ==> TaxAmong(m, keys, job.back.tax))
  }

  /** All keys are among those that are added, and only the first table makes way for another. */
  predicate PcAmong(m: Memory, keys: set<int>, max: int, pc: Pc) {
    match pc
    case Idle => true
    case FindOld(j) => m.state != L.Initial && JobAmong(m, keys, j)
    case CheckDone(tax) => TaxAmong(m, keys, tax)
    case Scan(tax) => TaxAmong(m, keys, tax)
    case ReadOld(tax, k) => TaxAmong(m, keys, tax) && k in keys
    case Mark(tax, e) => TaxAmong(m, keys, tax) && e.key in keys
    case Finish(tax) => TaxAmong(m, keys, tax)
    case CheckHead(tax) => TaxAmong(m, keys, tax)
    case Settle(tax) => TaxAmong(m, keys, tax)
    case CheckSize(j, t) => JobAmong(m, keys, j) && (t == 0 || 2 * max >= L.MAX_TABLE_SIZE)
    case Chain(j, t) => JobAmong(m, keys, j) && t == 0
    case _ => JobAmong(m, keys, pc.job)
  }

  ghost predicate BasesAmong(e: seq<Entry>, keys: set<int>) {
    forall i {:trigger e[i]} | 0 <= i < |e| && e[i].key != 0 :: Base(e[i].key) in keys
  }

  /** There are at most two tables; nothing is moved out of the current one. */
  ghost predicate MemoryAmong(m: Memory, keys: set<int>, max: int) {
    && 1 <= |m.tables| <= 2 && |m.tables[0].slots| == max && (|m.tables| == 2 ==> |m.tables[1].slots| == 2 * max)
    && (forall t {:trigger m.tables[t]} | 0 <= t < |m.tables| :: BasesAmong(m.tables[t].slots, keys))
    && L.NoMarks(m.tables[|m.tables| - 1].slots) && (|m.tables| == 1 ==> m.state == L.Initial)
    && TwoTablesDo(max, |keys|)
  }

  /** A thread that has put a table in front and not announced it. */
  predicate Chained(pc: Pc) { pc.CheckExpanded? || pc.Announce? }

  ghost predicate GrowsOnce(hash: Hash, s: System, keys: set<int>, max: int) {
    && Inv(hash, s) && MemoryAmong(s.m, keys, max)
    && (forall n {:trigger s.threads[n]} | 0 <= n < |s.threads| ::
          PcAmong(s.m, keys, max, s.threads[n]) && (Chained(s.threads[n]) ==> s.m.state == L.Initial))
    && (forall n, k {:trigger s.threads[n], s.threads[k]} | 0 <= n < k < |s.threads| ::
          !(Chained(s.threads[n]) && Chained(s.threads[k])))
  }

  /** What a step does, apart from where it goes. */
  ghost predicate StepAmong(m: Memory, pc: Pc, m': Memory, pc': Pc, keys: set<int>, max: int) {
    && MemoryAmong(m', keys, max) && PcAmong(m', keys, max, pc')
    && (m.state != L.Initial ==> m'.state != L.Initial)
    && (m'.state != m.state ==> pc.Announce? || m.state != L.Initial)
    && (Chained(pc') ==> m'.state == L.Initial && (Chained(pc) || |m.tables| == 1))
  }

  ghost predicate AmongAt(hash: Hash, m: Memory, pc: Pc, keys: set<int>, max: int) {
    && MemoryOk(hash, m) && Fits(m, pc) && MemoryAmong(m, keys, max) && PcAmong(m, keys, max, pc) && PcOk(hash, m, pc)
    && (Chained(pc) ==> m.state == L.Initial)
  }

  /** Steps that only read. */
  lemma ReadAmong(hash: Hash, m: Memory, pc: Pc, move: Move, keys: set<int>, max: int)
    requires AmongAt(hash, m, pc, keys, max) && !Writes(pc) && !pc.Scan?
    requires pc.Idle? && move.job.op == Adding ==> move.job.key in keys
    requires pc.CheckSize? ==> (pc.t == 0 || |m.tables[pc.t].slots| >= L.MAX_TABLE_SIZE)
    ensures var (m', pc') := Act(hash, m, pc, move.job, move.granted); StepAmong(m, pc, m', pc', keys, max)
  {
    hide MemoryAmong, MemoryOk, PcOk;
  }

  /** The state of the table changes. */
  lemma StateAmong(hash: Hash, m: Memory, pc: Pc, move: Move, keys: set<int>, max: int)
    requires AmongAt(hash, m, pc, keys, max) && (pc.Settle? || pc.Announce?)
    ensures var (m', pc') := Act(hash, m, pc, move.job, move.granted); StepAmong(m, pc, m', pc', keys, max)
  {
    hide BasesAmong, L.NoMarks, MemoryOk, PcOk;
  }

  lemma ScanAmong(hash: Hash, m: Memory, pc: Pc, move: Move, keys: set<int>, max: int)
    requires AmongAt(hash, m, pc, keys, max) && (pc.Scan? || pc.Finish?)
    ensures var (m', pc') := Act(hash, m, pc, move.job, move.granted); StepAmong(m, pc, m', pc', keys, max)
  {
    if pc.Scan? {
      var k := m.tables[pc.tax.from].slots[pc.tax.i].key;
      assert L.ProperKeys(m.tables[pc.tax.from].slots);
      assert k != 0 && !IsAssimilated(k) ==> Base(k) == k && k in keys;
    }
    hide L.NoMarks, MemoryOk, PcOk;
  }

  /** A slot gets another value, the mark of its key, or a key. */
  lemma WriteAmong(m: Memory, t: nat, i: int, x: Entry, keys: set<int>, max: int)
    requires MemoryAmong(m, keys, max) && AtSlot(m, t, i) && (x.key != 0 ==> Base(x.key) in keys)
    requires t == |m.tables| - 1 ==> !IsAssimilated(x.key)
    ensures MemoryAmong(WriteSlot(m, t, i, x), keys, max)
  {
  }

  lemma MarkAmong(hash: Hash, m: Memory, pc: Pc, move: Move, keys: set<int>, max: int)
    requires AmongAt(hash, m, pc, keys, max) && pc.Mark?
    ensures var (m', pc') := Act(hash, m, pc, move.job, move.granted); StepAmong(m, pc, m', pc', keys, max)
  {
    var t, i, e := pc.tax.from, pc.tax.i, pc.e;
    var slots := m.tables[t].slots;
    MarkFacts(e.key);
    WriteAmong(m, t, i, if slots[i].key
        == e.key then Entry(SetAssimilated(e.key), slots[i].val) else slots[i], keys, max);
    hide MemoryAmong, MemoryOk, IsKey, SetAssimilated, Base;
  }

  lemma SlotAmong(m: Memory, t: nat, i: int, keys: set<int>, max: int)
    requires MemoryAmong(m, keys, max) && AtSlot(m, t, i)
    ensures m.tables[t].slots[i].key != 0 ==> Base(m.tables[t].slots[i].key) in keys
    ensures t == |m.tables| - 1 ==> !IsAssimilated(m.tables[t].slots[i].key)
  {
  }

  lemma ClaimAmong(hash: Hash, m: Memory, pc: Pc, move: Move, keys: set<int>, max: int)
    requires AmongAt(hash, m, pc, keys, max) && pc.Claim?
    ensures var (m', pc') := Act(hash, m, pc, move.job, move.granted); StepAmong(m, pc, m', pc', keys, max)
  {
    hide MemoryAmong, MemoryOk, Base, Passed;
    var t, i, slots := pc.t, pc.i, m.tables[pc.t].slots;
    MarkFacts(pc.job.key);
    if slots[i].key == 0 { WriteAmong(m, t, i, Entry(pc.job.key, slots[i].val), keys, max); }
  }

  lemma FillAmong(hash: Hash, m: Memory, pc: Pc, move: Move, keys: set<int>, max: int)
    requires AmongAt(hash, m, pc, keys, max) && pc.Fill?
    ensures var (m', pc') := Act(hash, m, pc, move.job, move.granted); StepAmong(m, pc, m', pc', keys, max)
  {
    hide MemoryAmong, MemoryOk, IsKey, Base, IsAssimilated;
    SlotAmong(m, pc.t, pc.i, keys, max);
    WriteAmong(m, pc.t, pc.i, Entry(m.tables[pc.t].slots[pc.i].key, pc.job.val), keys, max);
  }

  lemma SwapAmong(hash: Hash, m: Memory, pc: Pc, move: Move, keys: set<int>, max: int)
    requires AmongAt(hash, m, pc, keys, max) && pc.Swap?
    ensures var (m', pc') := Act(hash, m, pc, move.job, move.granted); StepAmong(m, pc, m', pc', keys, max)
  {
    hide MemoryAmong, MemoryOk, IsKey, Base, IsAssimilated, Passed;
    var v := if pc.job.op == Adding then pc.job.val else TOMBSTONE;
    SlotAmong(m, pc.t, pc.i, keys, max);
    WriteAmong(m, pc.t, pc.i, Entry(m.tables[pc.t].slots[pc.i].key, v), keys, max);
  }

  /** Unmarked keys of a table are different, and among those that are added. */
  lemma UsedAmong(hash: Hash, e: seq<Entry>, keys: set<int>)
    requires TabOk(hash, e) && L.NoMarks(e) && BasesAmong(e, keys)
    ensures Used(e) <= |keys|
  {
    UsedAtMost(e, keys);
  }

  lemma CountAmong(m: Memory, t: nat, count: int, keys: set<int>, max: int)
    requires MemoryAmong(m, keys, max) && t < |m.tables|
    ensures MemoryAmong(m.(tables := m.tables[t := m.tables[t].(count := count)]), keys, max)
  {
    hide BasesAmong, L.NoMarks;
  }

  lemma SecondTable(hash: Hash, m: Memory, keys: set<int>, max: int)
    requires MemoryOk(hash, m) && MemoryAmong(m, keys, max) && |m.tables| == 2
    ensures |m.tables[1].slots| == 2 * max && TwoTablesDo(max, Used(m.tables[1].slots))
  {
    UsedAmong(hash, m.tables[1].slots, keys);
  }

  lemma AtMostTwo(m: Memory, keys: set<int>, max: int)
    requires MemoryAmong(m, keys, max)
    ensures |m.tables| <= 2 && (|m.tables| == 2 ==> |m.tables[1].slots| == 2 * max)
  {
  }

  /** A slot is counted; only in the first table that can lead to another one. */
  lemma BumpAmong(hash: Hash, m: Memory, pc: Pc, move: Move, keys: set<int>, max: int)
    requires AmongAt(hash, m, pc, keys, max) && pc.Bump? && m.tables[pc.t].count < Used(m.tables[pc.t].slots)
    ensures var (m', pc') := Act(hash, m, pc, move.job, move.granted); StepAmong(m, pc, m', pc', keys, max)
  {
    hide MemoryAmong, MemoryOk, PcOk;
    AtMostTwo(m, keys, max);
    CountAmong(m, pc.t, m.tables[pc.t].count + 1, keys, max);
    if pc.t == 1 { SecondTable(hash, m, keys, max); }
  }

  /** The second table is put in front. */
  lemma ChainAmong(hash: Hash, m: Memory, pc: Pc, move: Move, keys: set<int>, max: int)
    requires AmongAt(hash, m, pc, keys, max) && pc.Chain?
    ensures var (m', pc') := Act(hash, m, pc, move.job, move.granted); StepAmong(m, pc, m', pc', keys, max)
  {
    hide MemoryOk;
  }

  lemma ActAmong(hash: Hash, m: Memory, pc: Pc, move: Move, keys: set<int>, max: int)
    requires AmongAt(hash, m, pc, keys, max) && (pc.Idle? && move.job.op == Adding ==> move.job.key in keys)
    requires pc.Bump? ==> m.tables[pc.t].count < Used(m.tables[pc.t].slots)
    ensures var (m', pc') := Act(hash, m, pc, move.job, move.granted); StepAmong(m, pc, m', pc', keys, max)
  {
    hide Act, StepAmong, MemoryAmong, MemoryOk, PcOk;
    AtMostTwo(m, keys, max);
    if pc.Mark? { MarkAmong(hash, m, pc, move, keys, max); }
    else if pc.Claim? { ClaimAmong(hash, m, pc, move, keys, max); }
    else if pc.Fill? { FillAmong(hash, m, pc, move, keys, max); }
    else if pc.Swap? { SwapAmong(hash, m, pc, move, keys, max); }
    else if pc.Bump? { BumpAmong(hash, m, pc, move, keys, max); }
    else if pc.Chain? { ChainAmong(hash, m, pc, move, keys, max); }
    else if pc.Scan? || pc.Finish? { ScanAmong(hash, m, pc, move, keys, max); }
    else if pc.Settle? || pc.Announce? { StateAmong(hash, m, pc, move, keys, max); }
    else { ReadAmong(hash, m, pc, move, keys, max); }
  }

  // ---------- Every run ----------

  lemma CountIsBehind(hash: Hash, s: System, n: nat)
    requires Inv(hash, s) && n < |s.threads| && s.threads[n].Bump?
    ensures var t := s.threads[n].t; t < |s.m.tables| && s.m.tables[t].count < Used(s.m.tables[t].slots)
  {
    var t := s.threads[n].t;
    assert PcOk(hash, s.m, s.threads[n]);
    InsertersAfter(s.threads, n, Idle, t);
    InsertersNatural(s.threads[n := Idle], t);
    assert Uncounted(s.m, t) == Inserters(s.threads, t);
  }

  /** The others stay where they are when the state only leaves its initial value. */
  lemma PcStaysAmong(m: Memory, m': Memory, keys: set<int>, max: int, pc: Pc)
    requires PcAmong(m, keys, max, pc) && (m.state != L.Initial ==> m'.state != L.Initial)
    ensures PcAmong(m', keys, max, pc)
  {
  }

  /** What a step does is all that has to be known of it. */
  lemma OthersAmong(s: System, n: nat, m': Memory, pc': Pc, keys: set<int>, max: int)
    requires n < |s.threads| && StepAmong(s.m, s.threads[n], m', pc', keys, max)
    requires forall k {:trigger s.threads[k]} | 0 <= k < |s.threads| ::
               && PcAmong(s.m, keys, max, s.threads[k]) && (Chained(s.threads[k]) ==> s.m.state == L.Initial)
               && (Chained(s.threads[k]) ==> |s.m.tables| >= 2)
    requires forall i, k {:trigger s.threads[i], s.threads[k]} | 0 <= i < k < |s.threads| ::
               !(Chained(s.threads[i]) && Chained(s.threads[k]))
    ensures var s' := System(m', s.threads[n := pc']);
      && (forall k {:trigger s'.threads[k]} | 0 <= k < |s'.threads| ::
            PcAmong(s'.m, keys, max, s'.threads[k]) && (Chained(s'.threads[k]) ==> s'.m.state == L.Initial))
      && (forall i, k {:trigger s'.threads[i], s'.threads[k]} | 0 <= i < k < |s'.threads| ::
            !(Chained(s'.threads[i]) && Chained(s'.threads[k])))
  {
    hide PcAmong, MemoryAmong;
    var s' := System(m', s.threads[n := pc']);
    forall k {:trigger s'.threads[k]} | 0 <= k < |s'.threads|
      ensures PcAmong(s'.m, keys, max, s'.threads[k]) && (Chained(s'.threads[k]) ==> s'.m.state == L.Initial)
    {
      assert k != n ==> s'.threads[k] == s.threads[k];
      if k != n { PcStaysAmong(s.m, s'.m, keys, max, s.threads[k]); }
    }
  }

  lemma StepGrowsOnce(hash: Hash, s: System, move: Move, keys: set<int>, max: int)
    requires GrowsOnce(hash, s, keys, max) && move.thread < |s.threads| && JobOk(move.job)
    requires Fits(s.m, s.threads[move.thread]) && AddsOnly(Seen(s.m, s.threads[move.thread], move), keys)
    ensures GrowsOnce(hash, Step(hash, s, move), keys, max)
  {
    hide Act, MemoryAmong, PcAmong, MemoryOk;
    var n, s' := move.thread, Step(hash, s, move);
    var pc, pc' := s.threads[n], s'.threads[n];
    if pc.Idle? { assert Begins(n, Called(move.job)) in Seen(s.m, pc, move); }
    if pc.Bump? { CountIsBehind(hash, s, n); }
    StepInv(hash, s, move);
    assert PcOk(hash, s.m, pc);
    ActAmong(hash, s.m, pc, move, keys, max);
    forall k {:trigger s.threads[k]} | 0 <= k < |s.threads| ensures Chained(s.threads[k]) ==> |s.m.tables| >= 2 {
      assert PcOk(hash, s.m, s.threads[k]);
    }
    OthersAmong(s, n, s'.m, pc', keys, max);
  }

  lemma {:induction false} RunGrowsOnce(hash: Hash, s: System, moves: seq<Move>, keys: set<int>, max: int)
    requires GrowsOnce(hash, s, keys, max) && Legal(|s.threads|, moves) && AddsOnly(History(hash, s, moves), keys)
    ensures GrowsOnce(hash, Run(hash, s, moves), keys, max)
    decreases |moves|
  {
    if moves != [] {
      var move := moves[0];
      StepInv(hash, s, move);
      var s' := Step(hash, s, move);
      var a, h := Seen(s.m, s.threads[move.thread], move), History(hash, s', moves[1..]);
      assert History(hash, s, moves) == a + h;
      assert AddsOnly(a, keys) && AddsOnly(h, keys) by {
        assert forall e {:trigger e in a} {:trigger e in h} :: e in a || e in h ==> e in a + h;
      }
      StepGrowsOnce(hash, s, move, keys, max);
      hide Inv, GrowsOnce, History;
      RunGrowsOnce(hash, s', moves[1..], keys, max);
    }
  }

  lemma StartGrowsOnce(hash: Hash, threads: nat, max: nat, keys: set<int>)
    requires 0 < max <= L.MAX_TABLE_SIZE && IsPowerOfTwo(max) && TwoTablesDo(max, |keys|)
    ensures GrowsOnce(hash, Start(hash, threads, max), keys, max)
  {
    hide Inv, IsPowerOfTwo;
    var s := AllIdle(threads, max);
    assert Start(hash, threads, max) == s && s.m.tables[0] == Blank(max) && |s.m.tables| == 1;
    forall i {:trigger s.m.tables[0].slots[i]} | 0 <= i < max ensures s.m.tables[0].slots[i] == Entry(0, 0) {
    }
    assert MemoryAmong(s.m, keys, max);
    forall n {:trigger s.threads[n]} | 0 <= n < threads ensures s.threads[n] == Idle {
    }
  }

  ghost predicate AssertionsHoldIn(s: System) {
    forall n {:trigger s.threads[n]} | 0 <= n < |s.threads| && Fits(s.m, s.threads[n]) ::
      AssertionHolds(s.m, s.threads[n])
  }
}
