/**
 * Where the values come from that are stored, moved and answered. In every run, of any number of threads and through
 * any number of growths, a value that is found for a key is one that an earlier call has begun to add for that key.
 */
module LfhtValues {
  import opened Arithmetic
  import opened ProbeTable
  import opened LfhtThreads
  import opened LfhtCalls
  import L = Lfht

  /** Keys, and values that calls have begun to add for them. */
  type Pairs = set<(int, int)>

  /** The last call that each thread has begun, and what has been added by then. */
  datatype Past = Past(calls: seq<Job>, added: Pairs)

  const NO_CALL: Job := Job(Finding, 0, TOMBSTONE, External, NO_ANSWER)

  function NothingYet(threads: nat): Past { Past(seq(threads, _ => NO_CALL), {}) }

  /** A value for a key, or for the mark of one, is no value or was added for that key. */
  predicate Known(added: Pairs, key: int, val: int) { val == TOMBSTONE || (Base(key), val) in added }

  function With(added: Pairs, job: Job): Pairs {
    if job.op == Adding then added + {(job.key, job.val)} else added
  }

  predicate Happens(past: Past, e: Event) {
    e.thread < |past.calls| && (e.Returns? ==> Known(past.added, past.calls[e.thread].key, e.answer.val))
  }

  function Since(past: Past, e: Event): Past
    requires e.thread < |past.calls|
  {
    if e.Begins? then Past(past.calls[e.thread := e.job], With(past.added, e.job)) else past
  }

  /** Whenever a call returns with a value, that was added before for the key of the call. */
  predicate Sourced(past: Past, events: seq<Event>)
    decreases |events|
  {
    events == [] || (Happens(past, events[0]) && Sourced(Since(past, events[0]), events[1..]))
  }

  function PastAfter(past: Past, events: seq<Event>): Past
    requires Sourced(past, events)
    decreases |events|
  {
    if events == [] then past else PastAfter(Since(past, events[0]), events[1..])
  }

  // ---------- What memory and the threads have ----------

  predicate EntryFrom(added: Pairs, e: Entry) {
    if e.key == 0 then e.val == TOMBSTONE else Known(added, e.key, e.val)
  }

  ghost predicate SlotsFrom(added: Pairs, e: seq<Entry>) {
    forall i {:trigger e[i]} | 0 <= i < |e| :: EntryFrom(added, e[i])
  }

  /** Every value in a slot was added for the key of the slot. */
  ghost predicate MemoryFrom(added: Pairs, m: Memory) {
    forall t {:trigger m.tables[t]} | 0 <= t < |m.tables| :: SlotsFrom(added, m.tables[t].slots)
  }

  predicate CallFrom(added: Pairs, call: Job) { call.op == Adding ==> IsKey(call.key) && (call.key, call.val) in added }

  /** The tax is paid for the call of the thread. */
  predicate TaxFrom(call: Job, tax: Tax) { tax.op == call.op && tax.key == call.key && tax.val == call.val }

  /** A job is the call of its thread, with an answer that was added, or the move of a value that was. */
  predicate JobFrom(added: Pairs, call: Job, job: Job) {
    match job.back
    case External =>
      job.op == call.op && job.key == call.key && job.val == call.val && Known(added, job.key, job.got.val)
    case Internal(tax) => TaxFrom(call, tax) && job.op == Adding && Known(added, job.key, job.val)
  }

  /** A slot was claimed for a key. */
  predicate SlotOf(m: Memory, t: nat, i: int, key: int) {
    AtSlot(m, t, i) && m.tables[t].slots[i].key != 0 && Base(m.tables[t].slots[i].key) == Base(key)
  }

  /** Every value that a thread has at hand was added for the key that it has it for. */
  predicate PcFrom(added: Pairs, m: Memory, call: Job, pc: Pc) {
    match pc
    case Idle => true
    case CheckDone(tax) => TaxFrom(call, tax)
    case Scan(tax) => TaxFrom(call, tax)
    case ReadOld(tax, k) => TaxFrom(call, tax) && SlotOf(m, tax.from, tax.i, k)
    case Mark(tax, e) => TaxFrom(call, tax) && Known(added, e.key, e.val)
    case Finish(tax) => TaxFrom(call, tax)
    case CheckHead(tax) => TaxFrom(call, tax)
    case Settle(tax) => TaxFrom(call, tax)
    case Fill(j, t, i) => JobFrom(added, call, j) && SlotOf(m, t, i, j.key) && j.op == Adding
    case ReadVal(j, t, i) => JobFrom(added, call, j) && SlotOf(m, t, i, j.key)
    case Swap(j, t, i, _) => JobFrom(added, call, j) && SlotOf(m, t, i, j.key)
    case _ => JobFrom(added, call, pc.job)
  }

  ghost predicate From(hash: Hash, s: System, past: Past) {
    && Inv(hash, s) && MemoryFrom(past.added, s.m) && |past.calls| == |s.threads|
    && (forall n {:trigger past.calls[n]} | 0 <= n < |past.calls| :: CallFrom(past.added, past.calls[n]))
    && (forall n {:trigger s.threads[n]} | 0 <= n < |s.threads| ::
          PcFrom(past.added, s.m, past.calls[n], s.threads[n]))
  }

  // ---------- One step ----------

  ghost predicate FromAt(hash: Hash, added: Pairs, m: Memory, call: Job, pc: Pc) {
    && MemoryOk(hash, m) && PcOk(hash, m, pc) && MemoryFrom(added, m) && CallFrom(added, call)
    && PcFrom(added, m, call, pc)
  }

  lemma SlotTells(added: Pairs, m: Memory, t: nat, i: int)
    requires MemoryFrom(added, m) && AtSlot(m, t, i)
    ensures EntryFrom(added, m.tables[t].slots[i])
  {
  }

  /** Steps that read the key of a slot. */
  lemma LookFrom(hash: Hash, added: Pairs, m: Memory, call: Job, pc: Pc, move: Move)
    requires FromAt(hash, added, m, call, pc) && (pc.Scan? || pc.Probe?)
    ensures var (m', pc') := Act(hash, m, pc, move.job, move.granted);
      m'.tables == m.tables && PcFrom(added, m', call, pc')
  {
    hide MemoryOk, MemoryFrom, Base, IsKey, IsAssimilated, SetAssimilated, Passed;
  }

  /** Steps that read its value. */
  lemma ValueFrom(hash: Hash, added: Pairs, m: Memory, call: Job, pc: Pc, move: Move)
    requires FromAt(hash, added, m, call, pc) && (pc.ReadOld? || pc.ReadVal?)
    ensures var (m', pc') := Act(hash, m, pc, move.job, move.granted);
      m'.tables == m.tables && PcFrom(added, m', call, pc')
  {
    if pc.ReadOld? { SlotTells(added, m, pc.tax.from, pc.tax.i); }
    if pc.ReadVal? { SlotTells(added, m, pc.t, pc.i); }
    hide MemoryOk, MemoryFrom, Base, IsKey, IsAssimilated, SetAssimilated, Passed;
  }

  /** Steps that read something else. */
  lemma ReadFrom(hash: Hash, added: Pairs, m: Memory, call: Job, pc: Pc, move: Move)
    requires FromAt(hash, added, m, call, pc) && !Writes(pc) && !pc.Idle?
    requires !pc.Scan? && !pc.ReadOld? && !pc.Probe? && !pc.ReadVal?
    ensures var (m', pc') := Act(hash, m, pc, move.job, move.granted);
      m'.tables == m.tables && PcFrom(added, m', call, pc')
  {
    hide MemoryOk, MemoryFrom, Base, IsKey, IsAssimilated, SetAssimilated, Passed;
  }

  lemma WriteFrom(added: Pairs, m: Memory, t: nat, i: int, x: Entry)
    requires MemoryFrom(added, m) && AtSlot(m, t, i) && EntryFrom(added, x)
    ensures MemoryFrom(added, WriteSlot(m, t, i, x))
  {
  }

  /** A step that writes an entry to a slot. */
  lemma WritesFrom(added: Pairs, m: Memory, t: nat, i: int, m': Memory)
    requires MemoryFrom(added, m) && AtSlot(m, t, i)
    requires m' == m || (AtSlot(m', t, i) && m' == WriteSlot(m, t, i, m'.tables[t].slots[i]))
    requires AtSlot(m', t, i) && EntryFrom(added, m'.tables[t].slots[i])
    ensures MemoryFrom(added, m')
  {
    hide MemoryFrom, EntryFrom;
    if m' != m { WriteFrom(added, m, t, i, m'.tables[t].slots[i]); }
  }

  lemma MarkFrom(hash: Hash, added: Pairs, m: Memory, call: Job, pc: Pc, move: Move)
    requires FromAt(hash, added, m, call, pc) && pc.Mark?
    ensures var (m', pc') := Act(hash, m, pc, move.job, move.granted);
      MemoryFrom(added, m') && PcFrom(added, m', call, pc')
  {
    var (m', pc') := Act(hash, m, pc, move.job, move.granted);
    SlotTells(added, m, pc.tax.from, pc.tax.i);
    MarkFacts(pc.e.key);
    hide MemoryOk, MemoryFrom, Base, IsKey, IsAssimilated, SetAssimilated, Passed;
    WritesFrom(added, m, pc.tax.from, pc.tax.i, m');
  }

  lemma ClaimFrom(hash: Hash, added: Pairs, m: Memory, call: Job, pc: Pc, move: Move)
    requires FromAt(hash, added, m, call, pc) && pc.Claim?
    ensures var (m', pc') := Act(hash, m, pc, move.job, move.granted);
      MemoryFrom(added, m') && PcFrom(added, m', call, pc')
  {
    var (m', pc') := Act(hash, m, pc, move.job, move.granted);
    SlotTells(added, m, pc.t, pc.i);
    MarkFacts(pc.job.key);
    hide MemoryOk, MemoryFrom, Base, IsKey, IsAssimilated, SetAssimilated, Passed;
    WritesFrom(added, m, pc.t, pc.i, m');
  }

  /** Steps that write a value. */
  lemma StoreFrom(hash: Hash, added: Pairs, m: Memory, call: Job, pc: Pc, move: Move)
    requires FromAt(hash, added, m, call, pc) && (pc.Fill? || pc.Swap?)
    ensures var (m', pc') := Act(hash, m, pc, move.job, move.granted);
      MemoryFrom(added, m') && PcFrom(added, m', call, pc')
  {
    var (m', pc') := Act(hash, m, pc, move.job, move.granted);
    SlotTells(added, m, pc.t, pc.i);
    hide MemoryOk, MemoryFrom, Base, IsKey, IsAssimilated, SetAssimilated, Passed;
    WritesFrom(added, m, pc.t, pc.i, m');
  }

  /** Steps that change a count, a flag or the state, or put a table in front. */
  lemma OtherFrom(hash: Hash, added: Pairs, m: Memory, call: Job, pc: Pc, move: Move)
    requires FromAt(hash, added, m, call, pc)
    requires pc.Finish? || pc.Settle? || pc.Bump? || pc.Chain? || pc.Announce?
    ensures var (m', pc') := Act(hash, m, pc, move.job, move.granted);
      MemoryFrom(added, m') && PcFrom(added, m', call, pc')
  {
    hide MemoryOk, Base, IsKey;
  }

  lemma ActFrom(hash: Hash, added: Pairs, m: Memory, call: Job, pc: Pc, move: Move)
    requires FromAt(hash, added, m, call, pc) && !pc.Idle?
    ensures var (m', pc') := Act(hash, m, pc, move.job, move.granted);
      MemoryFrom(added, m') && PcFrom(added, m', call, pc')
  {
    if pc.Mark? { MarkFrom(hash, added, m, call, pc, move); }
    else if pc.Claim? { ClaimFrom(hash, added, m, call, pc, move); }
    else if pc.Fill? || pc.Swap? { StoreFrom(hash, added, m, call, pc, move); }
    else if pc.Finish? || pc.Settle? || pc.Bump? || pc.Chain? || pc.Announce? {
      OtherFrom(hash, added, m, call, pc, move);
    } else if pc.Scan? || pc.Probe? {
      LookFrom(hash, added, m, call, pc, move);
    } else if pc.ReadOld? || pc.ReadVal? {
      ValueFrom(hash, added, m, call, pc, move);
    } else {
      ReadFrom(hash, added, m, call, pc, move);
    }
    hide Act, PcFrom, PcOk, MemoryOk, Fits;
  }

  lemma SlotStaysOf(m: Memory, m': Memory, t: nat, i: int, key: int)
    requires SlotOf(m, t, i, key) && Evolves(m, m')
    ensures SlotOf(m', t, i, key)
  {
    assert TabGrows(m.tables[t], m'.tables[t]);
    var a, b := m.tables[t].slots[i].key, m'.tables[t].slots[i].key;
    assert KeyGrows(a, b);
    if IsKey(a) { MarkFacts(a); }
  }

  // ---------- Every run ----------

  /** What was added stays added, and a slot stays that of its key. */
  lemma PcStaysFrom(added: Pairs, added': Pairs, m: Memory, m': Memory, call: Job, pc: Pc)
    requires PcFrom(added, m, call, pc) && added <= added' && Evolves(m, m')
    ensures PcFrom(added', m', call, pc)
  {
    if pc.ReadOld? { SlotStaysOf(m, m', pc.tax.from, pc.tax.i, pc.oldKey); }
    if pc.Fill? || pc.ReadVal? || pc.Swap? { SlotStaysOf(m, m', pc.t, pc.i, pc.job.key); }
    hide Evolves, SlotOf, Base;
  }

  lemma MoreIsKnown(added: Pairs, added': Pairs, m: Memory)
    requires MemoryFrom(added, m) && added <= added'
    ensures MemoryFrom(added', m)
  {
    forall t {:trigger m.tables[t]} | 0 <= t < |m.tables| ensures SlotsFrom(added', m.tables[t].slots) {
      var e := m.tables[t].slots;
      forall i {:trigger e[i]} | 0 <= i < |e| ensures EntryFrom(added', e[i]) {
        assert EntryFrom(added, e[i]);
      }
    }
  }

  /** The events of one step happen, and all that is known after it was added. */
  lemma StepFrom(hash: Hash, s: System, move: Move, past: Past)
    requires From(hash, s, past) && move.thread < |s.threads| && JobOk(move.job) && Fits(s.m, s.threads[move.thread])
    ensures var events := Seen(s.m, s.threads[move.thread], move);
      Sourced(past, events) && From(hash, Step(hash, s, move), PastAfter(past, events))
  {
    var n, s' := move.thread, Step(hash, s, move);
    var pc, pc', events := s.threads[n], s'.threads[n], Seen(s.m, s.threads[n], move);
    StepInv(hash, s, move);
    var past' := if pc.Idle? then Since(past, events[0]) else past;
    assert CallFrom(past.added, past.calls[n]) && PcOk(hash, s.m, pc) && PcFrom(past.added, s.m, past.calls[n], pc);
    if !pc.Idle? { ActFrom(hash, past.added, s.m, past.calls[n], pc, move); }
    assert events == [] || events[1..] == [];
    MoreIsKnown(past.added, past'.added, s'.m);
    hide MemoryOk, Act, Evolves, MemoryFrom, PcOk, Fits, PcFrom;
    forall k {:trigger s'.threads[k]} | 0 <= k < |s'.threads|
      ensures PcFrom(past'.added, s'.m, past'.calls[k], s'.threads[k])
    {
      if k != n { PcStaysFrom(past.added, past'.added, s.m, s'.m, past.calls[k], s.threads[k]); }
    }
  }

  lemma {:induction false} SourcedOn(past: Past, a: seq<Event>, b: seq<Event>)
    requires Sourced(past, a) && Sourced(PastAfter(past, a), b)
    ensures Sourced(past, a + b) && PastAfter(past, a + b) == PastAfter(PastAfter(past, a), b)
    decreases |a|
  {
    if a == [] {
      assert a + b == b;
    } else {
      assert (a + b)[1..] == a[1..] + b;
      SourcedOn(Since(past, a[0]), a[1..], b);
    }
  }

  lemma {:induction false} RunFrom(hash: Hash, s: System, moves: seq<Move>, past: Past)
    requires From(hash, s, past) && Legal(|s.threads|, moves)
    ensures var h := History(hash, s, moves);
      Sourced(past, h) && From(hash, Run(hash, s, moves), PastAfter(past, h))
    decreases |moves|
  {
    if moves != [] {
      var move := moves[0];
      StepInv(hash, s, move);
      var s' := Step(hash, s, move);
      var a, h := Seen(s.m, s.threads[move.thread], move), History(hash, s', moves[1..]);
      assert History(hash, s, moves) == a + h;
      StepFrom(hash, s, move, past);
      hide Inv, From, History, Sourced, PastAfter;
      RunFrom(hash, s', moves[1..], PastAfter(past, a));
      SourcedOn(past, a, h);
    }
  }

  lemma StartFrom(hash: Hash, threads: nat, max: nat)
    requires 0 < max <= L.MAX_TABLE_SIZE && IsPowerOfTwo(max)
    ensures From(hash, Start(hash, threads, max), NothingYet(threads))
  {
    hide IsPowerOfTwo, MemoryOk;
    var s := AllIdle(threads, max);
    assert Start(hash, threads, max) == s && Inv(hash, s);
  }
}
