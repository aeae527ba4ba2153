/**
 * The expanding hash table, run by any number of threads. Each step of a thread is one access to shared
 * memory: a read, a store, a compare-and-swap or a fetch-and-add.
 */
module LfhtThreads {
  import opened Arithmetic
  import opened ProbeTable
  import L = Lfht

  // ---------- Shared memory ----------

  datatype Tab = Tab(slots: seq<Entry>, count: int, assimilated: bool)

  /** The tables in the order of their creation: each is the `next` of the one after it, the last is current. */
  datatype Memory = Memory(tables: seq<Tab>, state: L.LfhtState)

  function WriteSlot(m: Memory, t: nat, i: int, e: Entry): Memory
    requires t < |m.tables| && 0 <= i < |m.tables[t].slots|
  {
    m.(tables := m.tables[t := m.tables[t].(slots := m.tables[t].slots[i := e])])
  }

  function Blank(n: nat): Tab { Tab(seq(n, _ => Entry(0, 0)), 0, false) }

  // ---------- Threads ----------

  datatype Op = Adding | Removing | Finding

  /** The locals of a scan of table `from`, made on behalf of a call. */
  datatype Tax = Tax(op: Op, key: int, val: int, from: nat, i: int, success: bool, retval: int)

  datatype Back = External | Internal(tax: Tax)

  /** What a call returns, and the value that a find has seen. */
  datatype Answer = Answer(ok: bool, val: int)

  const NO_ANSWER: Answer := Answer(false, TOMBSTONE)
  const DONE: Answer := Answer(true, TOMBSTONE)

  /**
   One call of add, remove or find, and what it would return by now; `Internal` ones are made while paying the
   migration tax of another.
   */
  datatype Job = Job(op: Op, key: int, val: int, back: Back, got: Answer)

  function Called(job: Job): Job { job.(back := External, got := NO_ANSWER) }

  /** What a thread does next, with its locals. */
  datatype Pc =
    | Idle
    | CheckState(job: Job)                   // read the state of the table
    | FindOld(job: Job)                      // read which table is current
    | CheckDone(tax: Tax)                    // read the flag of the old table
    | Scan(tax: Tax)                         // read the key of a slot of the old table
    | ReadOld(tax: Tax, oldKey: int)         // read its value
    | Mark(tax: Tax, e: Entry)               // CAS its key to its mark
    | Finish(tax: Tax)                       // flag the old table as assimilated
    | CheckHead(tax: Tax)                    // read which table is current
    | Settle(tax: Tax)                       // store the state EXPANDED
    | Enter(job: Job)                        // read which table is current
    | Probe(job: Job, t: nat, i: int)        // read the key of a slot
    | Claim(job: Job, t: nat, i: int)        // CAS the key from zero
    | Fill(job: Job, t: nat, i: int)         // store the value
    | Bump(job: Job, t: nat)                 // fetch and increment the count
    | CheckSize(job: Job, t: nat)            // read which table is current
    | Chain(job: Job, t: nat)                // CAS the current table to a new one
    | CheckExpanded(job: Job, t: nat)        // read the state, for an assertion
    | Announce(job: Job, t: nat)             // store the state EXPANDING
    | CheckNext(job: Job, t: nat)            // read the flag of the table before, for an assertion
    | CheckTop(job: Job, t: nat)             // read which table is current, for an assertion
    | ReadVal(job: Job, t: nat, i: int)      // read the value of a slot
    | Swap(job: Job, t: nat, i: int, v: int) // CAS the value
    | Leave(job: Job, t: nat)                // read the flag of the table that was used

  function Outer(tax: Tax): Job { Job(tax.op, tax.key, tax.val, External, NO_ANSWER) }

  function AfterScan(tax: Tax): Pc {
    if tax.retval < L.MIGRATIONS_PER_ACCESS then Finish(tax) else Enter(Outer(tax))
  }

  /** The scan of a table of `n` slots moves to the next slot, unless it has been all around. */
  function Advance(hash: Hash, n: int, tax: Tax): Pc
    requires n > 0
  {
    var next := NextSlot(tax.i, n);
    if next == Home(hash, tax.key, n) then AfterScan(tax) else Scan(tax.(i := next))
  }

  /** What a scan does after it has read the key of its slot. */
  function Scanned(hash: Hash, n: int, tax: Tax, k: int): Pc
    requires n > 0
  {
    var settled := k == 0 || k == SetAssimilated(tax.key);
    var moveit := !settled && k == tax.key;
    var tax' := tax.(success := tax.success || settled || moveit);
    if moveit || tax.retval < L.MIGRATIONS_PER_ACCESS then
      if k != 0 && !IsAssimilated(k) then ReadOld(tax', k) else Advance(hash, n, tax')
    else if tax'.success then AfterScan(tax')
    else Advance(hash, n, tax')
  }

  /** What a call does after it has read the key of its slot. */
  function Probed(hash: Hash, n: int, job: Job, t: nat, i: int, k: int): Pc
    requires n > 0
  {
    if k == 0 then if job.op == Adding then Claim(job, t, i) else Leave(job, t)
    else if k == job.key then ReadVal(job, t, i)
    else if NextSlot(i, n) == Home(hash, job.key, n) then Leave(job, t)
    else Probe(job, t, NextSlot(i, n))
  }

  predicate AtSlot(m: Memory, t: nat, i: int) { t < |m.tables| && 0 <= i < |m.tables[t].slots| }

  predicate FitsTax(m: Memory, tax: Tax) { tax.from < |m.tables| - 1 && AtSlot(m, tax.from, tax.i) }

  predicate FitsJob(m: Memory, job: Job) { job.back.Internal? ==> FitsTax(m, job.back.tax) }

  /** The locals of a thread are within bounds: no step dereferences a missing table or leaves its array. */
  predicate Fits(m: Memory, pc: Pc) {
    |m.tables| > 0 && |m.tables[|m.tables| - 1].slots| > 0 &&
    match pc
    case Idle => true
    case CheckState(j) => FitsJob(m, j)
    case FindOld(j) => FitsJob(m, j) && |m.tables| >= 2 && |m.tables[|m.tables| - 2].slots| > 0
    case CheckDone(tax) => FitsTax(m, tax)
    case Scan(tax) => FitsTax(m, tax)
    case ReadOld(tax, _) => FitsTax(m, tax)
    case Mark(tax, _) => FitsTax(m, tax)
    case Finish(tax) => FitsTax(m, tax)
    case CheckHead(tax) => FitsTax(m, tax)
    case Settle(tax) => FitsTax(m, tax)
    case Enter(j) => FitsJob(m, j)
    case Probe(j, t, i) => FitsJob(m, j) && AtSlot(m, t, i)
    case Claim(j, t, i) => FitsJob(m, j) && AtSlot(m, t, i)
    case Fill(j, t, i) => FitsJob(m, j) && AtSlot(m, t, i)
    case Bump(j, t) => FitsJob(m, j) && t < |m.tables|
    case CheckSize(j, t) => FitsJob(m, j) && t < |m.tables|
    case Chain(j, t) => FitsJob(m, j) && t < |m.tables| && |m.tables[t].slots| < L.MAX_TABLE_SIZE
    case CheckExpanded(j, t) => FitsJob(m, j) && t < |m.tables| - 1
    case Announce(j, t) => FitsJob(m, j) && t < |m.tables| - 1
    case CheckNext(j, t) => FitsJob(m, j) && t < |m.tables| - 1
    case CheckTop(j, t) => FitsJob(m, j) && t < |m.tables| - 1
    case ReadVal(j, t, i) => FitsJob(m, j) && AtSlot(m, t, i)
    case Swap(j, t, i, _) => FitsJob(m, j) && AtSlot(m, t, i)
    case Leave(j, t) => FitsJob(m, j) && t < |m.tables|
  }

  /** One step of a thread. An idle thread takes up `job`; `granted` says whether memory can be mapped. */
  function Act(hash: Hash, m: Memory, pc: Pc, job: Job, granted: bool): (Memory, Pc)
    requires Fits(m, pc)
  {
    var top := |m.tables| - 1;
    match pc
    case Idle => (m, CheckState(Called(job)))
    case CheckState(j) => (m, if m.state == L.Expanding then FindOld(j) else Enter(j))
    case FindOld(j) =>
      (m, CheckDone(Tax(j.op, j.key, j.val, top - 1, Home(hash, j.key, |m.tables[top - 1].slots|), false, 0)))
    case CheckDone(tax) => (m, if m.tables[tax.from].assimilated then Finish(tax) else Scan(tax))
    case Scan(tax) => (m, Scanned(hash, |m.tables[tax.from].slots|, tax, m.tables[tax.from].slots[tax.i].key))
    case ReadOld(tax, k) => (m, Mark(tax, Entry(k, m.tables[tax.from].slots[tax.i].val)))
    case Mark(tax, e) =>
      var slots := m.tables[tax.from].slots;
      if slots[tax.i].key != e.key then (m, Advance(hash, |slots|, tax))
      else (WriteSlot(m, tax.from, tax.i, Entry(SetAssimilated(e.key), slots[tax.i].val)),
            if e.val == TOMBSTONE then Advance(hash, |slots|, tax)
            else Enter(Job(Adding, e.key, e.val, Internal(tax), NO_ANSWER)))
    case Finish(tax) => (m.(tables := m.tables[tax.from := m.tables[tax.from].(assimilated := true)]), CheckHead(tax))
    case CheckHead(tax) => (m, if tax.from + 1 == top then Settle(tax) else Enter(Outer(tax)))
    case Settle(tax) => (m.(state := L.Expanded), Enter(Outer(tax)))
    case Enter(j) => (m, Probe(j, top, Home(hash, j.key, |m.tables[top].slots|)))
    case Probe(j, t, i) => (m, Probed(hash, |m.tables[t].slots|, j, t, i, m.tables[t].slots[i].key))
    case Claim(j, t, i) =>
      if m.tables[t].slots[i].key != 0 then (m, Probe(j, t, i))
      else (WriteSlot(m, t, i, Entry(j.key, m.tables[t].slots[i].val)), Fill(j, t, i))
    case Fill(j, t, i) => (WriteSlot(m, t, i, Entry(m.tables[t].slots[i].key, j.val)), Bump(j.(got := DONE), t))
    case Bump(j, t) =>
      var count := m.tables[t].count + 1;
      (m.(tables := m.tables[t := m.tables[t].(count := count)]),
       if count > L.Threshold(|m.tables[t].slots|) then CheckSize(j, t) else Leave(j, t))
    case CheckSize(j, t) =>
      (m, if t == top && |m.tables[t].slots| < L.MAX_TABLE_SIZE && granted then Chain(j, t) else Leave(j, t))
    case Chain(j, t) =>
      if t != top then (m, Leave(j, t))
      else (m.(tables := m.tables + [Blank(2 * |m.tables[t].slots|)]), CheckExpanded(j, t))
    case CheckExpanded(j, t) => (m, Announce(j, t))
    case Announce(j, t) => (m.(state := L.Expanding), CheckNext(j, t))
    case CheckNext(j, t) => (m, CheckTop(j, t))
    case CheckTop(j, t) => (m, Leave(j, t))
    case ReadVal(j, t, i) =>
      var v := m.tables[t].slots[i].val;
      (m, if j.op == Finding then Leave(j.(got := Answer(true, v)), t) else Swap(j, t, i, v))
    case Swap(j, t, i, v) =>
      if m.tables[t].slots[i].val != v then (m, Probe(j, t, i))
      else (WriteSlot(m, t, i, Entry(m.tables[t].slots[i].key, if j.op == Adding then j.val else TOMBSTONE)),
            Leave(j.(got := DONE), t))
    case Leave(j, t) =>
      (m, match j.back
          case Internal(tax) => Advance(hash, |m.tables[tax.from].slots|, tax.(retval := tax.retval + 1))
          case External => if m.tables[t].assimilated then Enter(j) else Idle)
  }

  /** What the code asserts when a new table has been put in front. */
  predicate AssertionHolds(m: Memory, pc: Pc)
    requires Fits(m, pc)
  {
    match pc
    case CheckExpanded(_, _) => m.state != L.Expanding
    case CheckNext(_, t) => t == 0 || m.tables[t - 1].assimilated
    case CheckTop(_, t) => t + 1 == |m.tables| - 1
    case _ => true
  }

  ghost predicate Doubles(m: Memory, t: int)
    requires 0 <= t < |m.tables| - 1
  {
    |m.tables[t + 1].slots| == 2 * |m.tables[t].slots|
  }

  // ---------- What every step keeps ----------

  /** The tables double in size and never exceed the largest one. */
  ghost predicate Sized(m: Memory) {
    && |m.tables| > 0
    && (forall t {:trigger m.tables[t]} | 0 <= t < |m.tables| ::
          0 < |m.tables[t].slots| <= L.MAX_TABLE_SIZE && IsPowerOfTwo(|m.tables[t].slots|))
    && (forall t {:trigger Doubles(m, t)} | 0 <= t < |m.tables| - 1 :: Doubles(m, t))
    && (m.state != L.Initial ==> |m.tables| >= 2)
  }

  /** At most one slot holds a key that is not marked as moved. */
  ghost predicate OneEach(e: seq<Entry>) {
    forall i, k {:trigger e[i], e[k]} | 0 <= i < |e| && 0 <= k < |e| && i != k && IsKey(e[i].key) ::
        e[k].key != e[i].key
  }

  /** Every key can be reached from its home slot. */
  ghost predicate Unbroken(hash: Hash, e: seq<Entry>)
  {
    forall i {:trigger Reachable(hash, e, i)} | 0 <= i < |e| && e[i].key != 0 :: Reachable(hash, e, i)
  }

  ghost predicate TabOk(hash: Hash, e: seq<Entry>) {
    |e| > 0 && L.ProperKeys(e) && OneEach(e) && Unbroken(hash, e)
  }

  ghost predicate MemoryOk(hash: Hash, m: Memory) {
    Sized(m) && forall t {:trigger m.tables[t]} | 0 <= t < |m.tables| :: TabOk(hash, m.tables[t].slots)
  }

  /** The probe sequence of `key` has found every slot before `i` to be in use, and not by `key`. */
  ghost predicate Passed(hash: Hash, e: seq<Entry>, key: int, i: int)
    requires |e| > 0
  {
    forall x {:trigger e[x]} | Before(Home(hash, key, |e|), x, i, |e|) :: e[x].key != 0 && e[x].key != key
  }

  predicate TaxOk(tax: Tax) { tax.key > 0 && (tax.op == Adding ==> IsKey(tax.key) && tax.val != TOMBSTONE) }

  predicate JobOk(job: Job) {
    && job.key > 0 && (job.op == Adding ==> IsKey(job.key) && job.val != TOMBSTONE)
    && (job.back.Internal? ==> job.op == Adding && TaxOk(job.back.tax))
  }

  ghost predicate Searching(hash: Hash, m: Memory, job: Job, t: nat, i: int)
    requires AtSlot(m, t, i)
  {
    JobOk(job) && (job.op == Adding ==> Passed(hash, m.tables[t].slots, job.key, i))
  }

  /** What a thread knows at each point. */
  ghost predicate PcOk(hash: Hash, m: Memory, pc: Pc) {
    Fits(m, pc) &&
    match pc
    case Idle => true
    case CheckState(j) => JobOk(j) && j.back.External?
    case FindOld(j) => JobOk(j) && j.back.External?
    case CheckDone(tax) => TaxOk(tax)
    case Scan(tax) => TaxOk(tax)
    case ReadOld(tax, k) => TaxOk(tax) && IsKey(k)
    case Mark(tax, e) => TaxOk(tax) && IsKey(e.key)
    case Finish(tax) => TaxOk(tax)
    case CheckHead(tax) => TaxOk(tax)
    case Settle(tax) => TaxOk(tax)
    case Enter(j) => JobOk(j)
    case Probe(j, t, i) => Searching(hash, m, j, t, i)
    case Claim(j, t, i) => Searching(hash, m, j, t, i) && j.op == Adding
    case Fill(j, t, i) => JobOk(j) && j.op == Adding && m.tables[t].slots[i].key != 0
    case Bump(j, t) => JobOk(j)
    case CheckSize(j, t) => JobOk(j)
    case Chain(j, t) => JobOk(j)
    case CheckExpanded(j, t) => JobOk(j)
    case Announce(j, t) => JobOk(j)
    case CheckNext(j, t) => JobOk(j)
    case CheckTop(j, t) => JobOk(j)
    case ReadVal(j, t, i) => Searching(hash, m, j, t, i) && m.tables[t].slots[i].key != 0
    case Swap(j, t, i, _) => Searching(hash, m, j, t, i) && m.tables[t].slots[i].key != 0
    case Leave(j, t) => JobOk(j)
  }

  // ---------- How slots change ----------

  /** A slot's key only goes from 0 to an aligned key, and from there to the mark of that key. */
  predicate KeyGrows(a: int, b: int) {
    || a == b
    || (a == 0 && IsKey(Base(b)) && (b == Base(b) || b == SetAssimilated(Base(b))))
    || (IsKey(a) && b == SetAssimilated(a))
  }

  ghost predicate SlotsGrow(e: seq<Entry>, e': seq<Entry>) {
    |e'| == |e| && forall i {:trigger e'[i]} {:trigger e[i]} | 0 <= i < |e| :: KeyGrows(e[i].key, e'[i].key)
  }

  ghost predicate TabGrows(a: Tab, b: Tab) {
    SlotsGrow(a.slots, b.slots) && a.count <= b.count && (a.assimilated ==> b.assimilated)
  }

  /** Tables are only added; their keys only grow, and so do their counts and flags. */
  ghost predicate Evolves(m: Memory, m': Memory) {
    && |m.tables| <= |m'.tables|
    && forall t {:trigger m'.tables[t]} {:trigger m.tables[t]} | 0 <= t < |m.tables| ::
        TabGrows(m.tables[t], m'.tables[t])
  }

  lemma KeyGrowsOn(a: int, b: int, c: int)
    requires KeyGrows(a, b) && KeyGrows(b, c)
    ensures KeyGrows(a, c)
  {
    if IsKey(a) { MarkFacts(a); }
    if IsKey(b) { MarkFacts(b); }
    if IsKey(Base(b)) { MarkFacts(Base(b)); }
  }

  lemma EvolvesOn(a: Memory, b: Memory, c: Memory)
    requires Evolves(a, b) && Evolves(b, c)
    ensures Evolves(a, c)
  {
    hide KeyGrows;
    forall t {:trigger a.tables[t]} | 0 <= t < |a.tables| ensures TabGrows(a.tables[t], c.tables[t]) {
      assert TabGrows(a.tables[t], b.tables[t]) && TabGrows(b.tables[t], c.tables[t]);
      var e, e' := a.tables[t].slots, c.tables[t].slots;
      forall i {:trigger e[i]} | 0 <= i < |e| ensures KeyGrows(e[i].key, e'[i].key) {
        KeyGrowsOn(e[i].key, b.tables[t].slots[i].key, e'[i].key);
      }
    }
  }

  /** Growing keys take nothing away from what a search has seen. */
  lemma PassedStays(hash: Hash, e: seq<Entry>, e': seq<Entry>, key: int, i: int)
    requires |e| > 0 && SlotsGrow(e, e') && Passed(hash, e, key, i) && IsKey(key)
    ensures Passed(hash, e', key, i)
  {
    forall x {:trigger e'[x]} | Before(Home(hash, key, |e'|), x, i, |e'|) ensures e'[x].key != 0 && e'[x].key != key {
      assert e[x].key != 0 && e[x].key != key && KeyGrows(e[x].key, e'[x].key);
      if IsKey(e[x].key) { MarkFacts(e[x].key); }
    }
  }

  lemma FitsStays(m: Memory, m': Memory, pc: Pc)
    requires Evolves(m, m') && Fits(m, pc)
    requires forall t {:trigger m'.tables[t]} | 0 <= t < |m'.tables| :: |m'.tables[t].slots| > 0
    ensures Fits(m', pc)
  {
    hide KeyGrows;
  }

  lemma NonZeroStays(a: int, b: int)
    requires KeyGrows(a, b) && a != 0
    ensures b != 0
  {
    if IsKey(a) { MarkFacts(a); }
  }

  /** What a thread knows about the slot that it is at. */
  lemma SlotStays(hash: Hash, m: Memory, m': Memory, job: Job, t: nat, i: int)
    requires Evolves(m, m') && AtSlot(m, t, i) && JobOk(job)
    ensures AtSlot(m', t, i) && (m.tables[t].slots[i].key != 0 ==> m'.tables[t].slots[i].key != 0)
    ensures Searching(hash, m, job, t, i) ==> Searching(hash, m', job, t, i)
  {
    hide Passed, KeyGrows;
    assert TabGrows(m.tables[t], m'.tables[t]);
    var a, b := m.tables[t].slots[i].key, m'.tables[t].slots[i].key;
    assert KeyGrows(a, b);
    if a != 0 { NonZeroStays(a, b); }
    if job.op == Adding && Passed(hash, m.tables[t].slots, job.key, i) {
      PassedStays(hash, m.tables[t].slots, m'.tables[t].slots, job.key, i);
    }
  }

  /** What a thread knows stays true whatever the other threads do. */
  lemma PcStays(hash: Hash, m: Memory, m': Memory, pc: Pc)
    requires Evolves(m, m') && PcOk(hash, m, pc)
    requires forall t {:trigger m'.tables[t]} | 0 <= t < |m'.tables| :: |m'.tables[t].slots| > 0
    ensures PcOk(hash, m', pc)
  {
    FitsStays(m, m', pc);
    if pc.Probe? || pc.Claim? || pc.ReadVal? || pc.Swap? || pc.Fill? {
      SlotStays(hash, m, m', pc.job, pc.t, pc.i);
    }
    hide Evolves, Passed, JobOk, TaxOk, FitsTax, FitsJob;
  }

  // ---------- The steps that write ----------

  lemma StoreKeepsUnbroken(hash: Hash, e: seq<Entry>, i: int, x: Entry)
    requires Unbroken(hash, e) && 0 <= i < |e| && x.key != 0 && Reachable(hash, e[i := x], i)
    ensures Unbroken(hash, e[i := x])
  {
    var e' := e[i := x];
    forall k {:trigger Reachable(hash, e', k)} | 0 <= k < |e'| && e'[k].key != 0 ensures Reachable(hash, e', k) {
      if k != i {
        assert Reachable(hash, e, k);
        ReachableAfter(hash, e, i, x, k);
      }
    }
  }

  /** A store of a value, or of the mark of a key. */
  lemma StoreOk(hash: Hash, e: seq<Entry>, i: int, x: Entry)
    requires TabOk(hash, e) && 0 <= i < |e| && e[i].key != 0
    requires x.key == e[i].key || (IsKey(e[i].key) && x.key == SetAssimilated(e[i].key))
    ensures TabOk(hash, e[i := x]) && SlotsGrow(e, e[i := x])
  {
    if IsKey(e[i].key) { MarkFacts(e[i].key); }
    assert Base(x.key) == Base(e[i].key) && x.key != 0 && (x.key == e[i].key || !IsKey(x.key));
    assert Reachable(hash, e, i);
    hide Base, IsAssimilated, SetAssimilated;
    assert Reachable(hash, e[i := x], i);
    StoreKeepsUnbroken(hash, e, i, x);
  }

  /** The winner of a CAS from zero has seen every slot before, so its key has no other live slot. */
  lemma ClaimOk(hash: Hash, e: seq<Entry>, i: int, x: Entry)
    requires TabOk(hash, e) && 0 <= i < |e| && e[i].key == 0 && IsKey(x.key) && Passed(hash, e, x.key, i)
    ensures TabOk(hash, e[i := x]) && SlotsGrow(e, e[i := x])
  {
    MarkFacts(x.key);
    var e' := e[i := x];
    assert Reachable(hash, e', i);
    StoreKeepsUnbroken(hash, e, i, x);
    forall k {:trigger e[k]} | 0 <= k < |e| ensures e[k].key != x.key {
      assert e[k].key == x.key ==> Reachable(hash, e, k);
    }
    assert OneEach(e');
  }

  lemma SlotsStay(e: seq<Entry>)
    ensures SlotsGrow(e, e)
  {
  }

  lemma Unchanged(m: Memory)
    ensures Evolves(m, m)
  {
    forall u {:trigger m.tables[u]} | 0 <= u < |m.tables| ensures TabGrows(m.tables[u], m.tables[u]) {
      SlotsStay(m.tables[u].slots);
    }
  }

  lemma WriteOk(hash: Hash, m: Memory, t: nat, i: int, x: Entry)
    requires MemoryOk(hash, m) && AtSlot(m, t, i)
    requires var e := m.tables[t].slots; TabOk(hash, e[i := x]) && SlotsGrow(e, e[i := x])
    ensures MemoryOk(hash, WriteSlot(m, t, i, x)) && Evolves(m, WriteSlot(m, t, i, x))
  {
    hide TabOk;
    var m' := WriteSlot(m, t, i, x);
    Unchanged(m);
    forall u {:trigger Doubles(m', u)} | 0 <= u < |m'.tables| - 1 ensures Doubles(m', u) {
      assert Doubles(m, u);
    }
    forall u {:trigger m.tables[u]} | 0 <= u < |m.tables| ensures TabGrows(m.tables[u], m'.tables[u]) {
      SlotsStay(m.tables[u].slots);
    }
  }

  /** The count or the flag of a table changes. */
  lemma HeaderOk(hash: Hash, m: Memory, t: nat, tab: Tab)
    requires MemoryOk(hash, m) && t < |m.tables| && tab.slots == m.tables[t].slots
    requires m.tables[t].count <= tab.count && (m.tables[t].assimilated ==> tab.assimilated)
    ensures var m' := m.(tables := m.tables[t := tab]); MemoryOk(hash, m') && Evolves(m, m')
  {
    hide TabOk;
    var m' := m.(tables := m.tables[t := tab]);
    forall u {:trigger Doubles(m', u)} | 0 <= u < |m'.tables| - 1 ensures Doubles(m', u) {
      assert Doubles(m, u);
    }
    forall u {:trigger m.tables[u]} | 0 <= u < |m.tables| ensures TabGrows(m.tables[u], m'.tables[u]) {
      SlotsStay(m.tables[u].slots);
    }
  }

  /** A new table is put in front. */
  lemma ChainOk(hash: Hash, m: Memory)
    requires MemoryOk(hash, m) && |m.tables[|m.tables| - 1].slots| < L.MAX_TABLE_SIZE
    ensures var m' := m.(tables := m.tables + [Blank(2 * |m.tables[|m.tables| - 1].slots|)]);
      MemoryOk(hash, m') && Evolves(m, m')
  {
    var top := |m.tables| - 1;
    L.LargestSize();
    DoublingFits(|m.tables[top].slots|, L.MAX_TABLE_SIZE);
    hide IsPowerOfTwo;
    var m' := m.(tables := m.tables + [Blank(2 * |m.tables[top].slots|)]);
    forall u {:trigger Doubles(m', u)} | 0 <= u < |m'.tables| - 1 ensures Doubles(m', u) {
      if u < top { assert Doubles(m, u); }
    }
    assert TabOk(hash, m'.tables[top + 1].slots);
    hide TabOk;
    forall u {:trigger m.tables[u]} | 0 <= u < |m.tables| ensures TabGrows(m.tables[u], m'.tables[u]) {
      SlotsStay(m.tables[u].slots);
    }
  }

  // ---------- Every step ----------

  /** A thread between its claim of a slot of table `t` and its increment of that table's count. */
  function Owes(pc: Pc, t: int): int { if (pc.Fill? || pc.Bump?) && pc.t == t then 1 else 0 }

  /** The slots in use in table `t` that its count does not account for. */
  function Uncounted(m: Memory, t: int): int {
    if 0 <= t < |m.tables| then Used(m.tables[t].slots) - m.tables[t].count else 0
  }

  ghost predicate Balanced(m: Memory, pc: Pc, m': Memory, pc': Pc) {
    forall t {:trigger Uncounted(m', t)} :: Uncounted(m', t) - Owes(pc', t) == Uncounted(m, t) - Owes(pc, t)
  }

  ghost predicate Kept(hash: Hash, m: Memory, pc: Pc, m': Memory, pc': Pc) {
    MemoryOk(hash, m') && Evolves(m, m') && PcOk(hash, m', pc') && Balanced(m, pc, m', pc')
  }

  predicate Writes(pc: Pc) {
    pc.Mark? || pc.Finish? || pc.Settle? || pc.Claim? || pc.Fill? || pc.Bump? || pc.Chain? || pc.Announce? || pc.Swap?
  }

  lemma NothingOwed(m: Memory, pc: Pc, m': Memory, pc': Pc)
    requires !pc.Fill? && !pc.Bump? && !pc'.Fill? && !pc'.Bump?
    requires forall t {:trigger Uncounted(m', t)} :: Uncounted(m', t) == Uncounted(m, t)
    ensures Balanced(m, pc, m', pc')
  {
  }

  lemma ReadKept(hash: Hash, m: Memory, pc: Pc, job: Job, granted: bool)
    requires MemoryOk(hash, m) && PcOk(hash, m, pc) && JobOk(job) && !Writes(pc) && !pc.Probe? && !pc.Scan?
    ensures var (m', pc') := Act(hash, m, pc, job, granted); Kept(hash, m, pc, m', pc')
  {
    hide TabOk, IsKey, IsAssimilated, SetAssimilated;
    Unchanged(m);
    var (m', pc') := Act(hash, m, pc, job, granted);
    NothingOwed(m, pc, m', pc');
  }

  lemma ProbeKept(hash: Hash, m: Memory, pc: Pc, job: Job, granted: bool)
    requires MemoryOk(hash, m) && PcOk(hash, m, pc) && pc.Probe?
    ensures var (m', pc') := Act(hash, m, pc, job, granted); Kept(hash, m, pc, m', pc')
  {
    hide TabOk, IsKey, IsAssimilated, SetAssimilated;
    Unchanged(m);
    var (m', pc') := Act(hash, m, pc, job, granted);
    NothingOwed(m, pc, m', pc');
  }

  lemma ScanKept(hash: Hash, m: Memory, pc: Pc, job: Job, granted: bool)
    requires MemoryOk(hash, m) && PcOk(hash, m, pc) && pc.Scan?
    ensures var (m', pc') := Act(hash, m, pc, job, granted); Kept(hash, m, pc, m', pc')
  {
    var k := m.tables[pc.tax.from].slots[pc.tax.i].key;
    assert L.ProperKeys(m.tables[pc.tax.from].slots);
    assert k != 0 && !IsAssimilated(k) ==> IsKey(Base(k)) && Base(k) == k;
    hide TabOk, IsKey, IsAssimilated, SetAssimilated, Base;
    Unchanged(m);
    var (m', pc') := Act(hash, m, pc, job, granted);
    NothingOwed(m, pc, m', pc');
  }

  lemma ClaimKept(hash: Hash, m: Memory, pc: Pc, job: Job, granted: bool)
    requires MemoryOk(hash, m) && PcOk(hash, m, pc) && pc.Claim?
    ensures var (m', pc') := Act(hash, m, pc, job, granted); Kept(hash, m, pc, m', pc')
  {
    Unchanged(m);
    var (m', pc') := Act(hash, m, pc, job, granted);
    var e := m.tables[pc.t].slots;
    if e[pc.i].key != 0 {
      NothingOwed(m, pc, m', pc');
    } else {
      var x := Entry(pc.job.key, e[pc.i].val);
      ClaimOk(hash, e, pc.i, x);
      CountsAfterUpdate(e, pc.i, x);
      assert x.key != 0;
      hide TabOk, SlotsGrow, IsKey, Passed;
      WriteOk(hash, m, pc.t, pc.i, x);
      forall t {:trigger Uncounted(m', t)} ensures Uncounted(m', t) - Owes(pc', t) == Uncounted(m, t) - Owes(pc, t) {
      }
    }
  }

  /** Storing something in a slot that stays in use. */
  lemma StoreKept(hash: Hash, m: Memory, pc: Pc, t: nat, i: int, x: Entry, pc': Pc)
    requires MemoryOk(hash, m) && AtSlot(m, t, i) && m.tables[t].slots[i].key != 0
    requires x.key == m.tables[t].slots[i].key ||
             (IsKey(m.tables[t].slots[i].key) && x.key == SetAssimilated(m.tables[t].slots[i].key))
    requires forall u {:trigger Owes(pc', u)} :: Owes(pc', u) == Owes(pc, u)
    ensures var m' := WriteSlot(m, t, i, x);
      MemoryOk(hash, m') && Evolves(m, m') && Balanced(m, pc, m', pc') && AtSlot(m', t, i)
        && m'.tables[t].slots[i].key != 0
  {
    var e := m.tables[t].slots;
    StoreOk(hash, e, i, x);
    CountsAfterUpdate(e, i, x);
    if IsKey(e[i].key) { MarkFacts(e[i].key); }
    hide TabOk, SlotsGrow, IsKey, SetAssimilated, Owes;
    WriteOk(hash, m, t, i, x);
    var m' := WriteSlot(m, t, i, x);
    forall u {:trigger Uncounted(m', u)} ensures Uncounted(m', u) - Owes(pc', u) == Uncounted(m, u) - Owes(pc, u) {
      assert Owes(pc', u) == Owes(pc, u);
    }
  }

  lemma FillKept(hash: Hash, m: Memory, pc: Pc, job: Job, granted: bool)
    requires MemoryOk(hash, m) && PcOk(hash, m, pc) && pc.Fill?
    ensures var (m', pc') := Act(hash, m, pc, job, granted); Kept(hash, m, pc, m', pc')
  {
    var (m', pc') := Act(hash, m, pc, job, granted);
    hide MemoryOk, Evolves;
    StoreKept(hash, m, pc, pc.t, pc.i, Entry(m.tables[pc.t].slots[pc.i].key, pc.job.val), pc');
  }

  lemma SwapKept(hash: Hash, m: Memory, pc: Pc, job: Job, granted: bool)
    requires MemoryOk(hash, m) && PcOk(hash, m, pc) && pc.Swap?
    ensures var (m', pc') := Act(hash, m, pc, job, granted); Kept(hash, m, pc, m', pc')
  {
    Unchanged(m);
    var (m', pc') := Act(hash, m, pc, job, granted);
    if m.tables[pc.t].slots[pc.i].val != pc.v {
      NothingOwed(m, pc, m', pc');
    } else {
      hide MemoryOk, Evolves;
      StoreKept(hash, m, pc, pc.t, pc.i, m'.tables[pc.t].slots[pc.i], pc');
    }
  }

  lemma MarkKept(hash: Hash, m: Memory, pc: Pc, job: Job, granted: bool)
    requires MemoryOk(hash, m) && PcOk(hash, m, pc) && pc.Mark?
    ensures var (m', pc') := Act(hash, m, pc, job, granted); Kept(hash, m, pc, m', pc')
  {
    Unchanged(m);
    var (m', pc') := Act(hash, m, pc, job, granted);
    if m.tables[pc.tax.from].slots[pc.tax.i].key != pc.e.key {
      NothingOwed(m, pc, m', pc');
    } else {
      hide MemoryOk, Evolves, SetAssimilated;
      StoreKept(hash, m, pc, pc.tax.from, pc.tax.i, m'.tables[pc.tax.from].slots[pc.tax.i], pc');
    }
  }

  /** The flag of a table is set. */
  lemma FinishKept(hash: Hash, m: Memory, pc: Pc, job: Job, granted: bool)
    requires MemoryOk(hash, m) && PcOk(hash, m, pc) && pc.Finish?
    ensures var (m', pc') := Act(hash, m, pc, job, granted); Kept(hash, m, pc, m', pc')
  {
    hide TabOk, Sized;
    var (m', pc') := Act(hash, m, pc, job, granted);
    HeaderOk(hash, m, pc.tax.from, m'.tables[pc.tax.from]);
    NothingOwed(m, pc, m', pc');
  }

  /** The count of a table is incremented. */
  lemma BumpKept(hash: Hash, m: Memory, pc: Pc, job: Job, granted: bool)
    requires MemoryOk(hash, m) && PcOk(hash, m, pc) && pc.Bump?
    ensures var (m', pc') := Act(hash, m, pc, job, granted); Kept(hash, m, pc, m', pc')
  {
    hide TabOk, Sized;
    var (m', pc') := Act(hash, m, pc, job, granted);
    HeaderOk(hash, m, pc.t, m'.tables[pc.t]);
    forall u {:trigger Uncounted(m', u)} ensures Uncounted(m', u) - Owes(pc', u) == Uncounted(m, u) - Owes(pc, u) {
    }
  }

  lemma ChainKept(hash: Hash, m: Memory, pc: Pc, job: Job, granted: bool)
    requires MemoryOk(hash, m) && PcOk(hash, m, pc) && pc.Chain?
    ensures var (m', pc') := Act(hash, m, pc, job, granted); Kept(hash, m, pc, m', pc')
  {
    Unchanged(m);
    var (m', pc') := Act(hash, m, pc, job, granted);
    if pc.t == |m.tables| - 1 {
      ChainOk(hash, m);
      EmptyTable(Blank(2 * |m.tables[pc.t].slots|).slots);
    }
    hide MemoryOk, Evolves;
    assert forall t {:trigger Uncounted(m', t)} :: Uncounted(m', t) == Uncounted(m, t);
    NothingOwed(m, pc, m', pc');
  }

  lemma StateKept(hash: Hash, m: Memory, pc: Pc, job: Job, granted: bool)
    requires MemoryOk(hash, m) && PcOk(hash, m, pc) && (pc.Settle? || pc.Announce?)
    ensures var (m', pc') := Act(hash, m, pc, job, granted); Kept(hash, m, pc, m', pc')
  {
    hide TabOk, TabGrows;
    var (m', pc') := Act(hash, m, pc, job, granted);
    Unchanged(m);
    assert forall t {:trigger Doubles(m', t)} | 0 <= t < |m'.tables| - 1 :: Doubles(m, t) ==> Doubles(m', t);
    NothingOwed(m, pc, m', pc');
  }

  lemma StepKept(hash: Hash, m: Memory, pc: Pc, job: Job, granted: bool)
    requires MemoryOk(hash, m) && PcOk(hash, m, pc) && JobOk(job)
    ensures var (m', pc') := Act(hash, m, pc, job, granted); Kept(hash, m, pc, m', pc')
  {
    hide Act, MemoryOk, PcOk, Kept;
    if pc.Mark? { MarkKept(hash, m, pc, job, granted); }
    else if pc.Claim? { ClaimKept(hash, m, pc, job, granted); }
    else if pc.Fill? { FillKept(hash, m, pc, job, granted); }
    else if pc.Swap? { SwapKept(hash, m, pc, job, granted); }
    else if pc.Chain? { ChainKept(hash, m, pc, job, granted); }
    else if pc.Probe? { ProbeKept(hash, m, pc, job, granted); }
    else if pc.Scan? { ScanKept(hash, m, pc, job, granted); }
    else if pc.Finish? { FinishKept(hash, m, pc, job, granted); }
    else if pc.Bump? { BumpKept(hash, m, pc, job, granted); }
    else if pc.Settle? || pc.Announce? { StateKept(hash, m, pc, job, granted); }
    else { ReadKept(hash, m, pc, job, granted); }
  }

  // ---------- Any number of threads, and any schedule ----------

  datatype System = System(m: Memory, threads: seq<Pc>)

  /** The scheduler picks a thread; an idle one makes the call of `job`, and `granted` is the answer of mmap. */
  datatype Move = Move(thread: nat, job: Job, granted: bool)

  function Step(hash: Hash, s: System, move: Move): System
    requires move.thread < |s.threads| && Fits(s.m, s.threads[move.thread])
  {
    var (m', pc') := Act(hash, s.m, s.threads[move.thread], move.job, move.granted);
    System(m', s.threads[move.thread := pc'])
  }

  /** The threads that have claimed a slot of table `t` and not yet counted it. */
  function Inserters(threads: seq<Pc>, t: int): int {
    if threads == [] then 0 else Inserters(threads[..|threads| - 1], t) + Owes(threads[|threads| - 1], t)
  }

  lemma {:induction false} InsertersAfter(threads: seq<Pc>, n: int, pc: Pc, t: int)
    requires 0 <= n < |threads|
    ensures Inserters(threads[n := pc], t) == Inserters(threads, t) - Owes(threads[n], t) + Owes(pc, t)
  {
    var last := |threads| - 1;
    if n == last {
      assert threads[n := pc][..last] == threads[..last];
    } else {
      assert threads[n := pc][..last] == threads[..last][n := pc];
      InsertersAfter(threads[..last], n, pc, t);
    }
  }

  ghost predicate Inv(hash: Hash, s: System) {
    && MemoryOk(hash, s.m)
    && (forall n {:trigger s.threads[n]} | 0 <= n < |s.threads| :: PcOk(hash, s.m, s.threads[n]))
    && (forall t {:trigger Uncounted(s.m, t)} :: Uncounted(s.m, t) == Inserters(s.threads, t))
  }

  predicate Legal(threads: nat, moves: seq<Move>) {
    forall k {:trigger moves[k]} | 0 <= k < |moves| :: moves[k].thread < threads && JobOk(moves[k].job)
  }

  lemma StepInv(hash: Hash, s: System, move: Move)
    requires Inv(hash, s) && move.thread < |s.threads| && JobOk(move.job) && Fits(s.m, s.threads[move.thread])
    ensures Inv(hash, Step(hash, s, move)) && Evolves(s.m, Step(hash, s, move).m)
  {
    var pc, s' := s.threads[move.thread], Step(hash, s, move);
    var pc' := s'.threads[move.thread];
    StepKept(hash, s.m, pc, move.job, move.granted);
    hide Act, PcOk, Evolves, Fits, TabOk, Uncounted;
    assert forall t {:trigger s'.m.tables[t]} | 0 <= t < |s'.m.tables| :: |s'.m.tables[t].slots| > 0;
    forall n {:trigger s'.threads[n]} | 0 <= n < |s'.threads| ensures PcOk(hash, s'.m, s'.threads[n]) {
      if n != move.thread { PcStays(hash, s.m, s'.m, s.threads[n]); }
    }
    forall t {:trigger Uncounted(s'.m, t)} ensures Uncounted(s'.m, t) == Inserters(s'.threads, t) {
      InsertersAfter(s.threads, move.thread, pc', t);
      assert Uncounted(s.m, t) == Inserters(s.threads, t);
    }
  }

  /** A table of `max` slots, and threads that have not begun. */
  function AllIdle(threads: nat, max: nat): System {
    System(Memory([Blank(max)], L.Initial), seq(threads, _ => Idle))
  }

  lemma {:induction false} NoInserters(n: nat, t: int)
    ensures Inserters(seq(n, _ => Idle), t) == 0
  {
    if n > 0 {
      assert seq(n, _ => Idle)[..n - 1] == seq(n - 1, _ => Idle);
      NoInserters(n - 1, t);
    }
  }

  lemma StartInv(hash: Hash, threads: nat, max: nat)
    requires 0 < max <= L.MAX_TABLE_SIZE && IsPowerOfTwo(max)
    ensures Inv(hash, AllIdle(threads, max))
  {
    var s := AllIdle(threads, max);
    EmptyTable(s.m.tables[0].slots);
    forall t {:trigger Uncounted(s.m, t)} ensures Uncounted(s.m, t) == Inserters(s.threads, t) {
      NoInserters(threads, t);
    }
  }

  ghost function Start(hash: Hash, threads: nat, max: nat): (s: System)
    requires 0 < max <= L.MAX_TABLE_SIZE && IsPowerOfTwo(max)
    ensures Inv(hash, s) && |s.threads| == threads
  {
    StartInv(hash, threads, max);
    AllIdle(threads, max)
  }

  /** Runs a schedule; whatever it is, the invariant holds and memory only evolves. */
  ghost function {:induction false} Run(hash: Hash, s: System, moves: seq<Move>): (r: System)
    requires Inv(hash, s) && Legal(|s.threads|, moves)
    ensures Inv(hash, r) && |r.threads| == |s.threads| && Evolves(s.m, r.m)
    decreases |moves|
  {
    if moves == [] then
      Unchanged(s.m);
      s
    else
      StepInv(hash, s, moves[0]);
      var s' := Step(hash, s, moves[0]);
      var r := Run(hash, s', moves[1..]);
      EvolvesOn(s.m, s'.m, r.m);
      r
  }

  lemma {:induction false} InsertersNatural(threads: seq<Pc>, t: int)
    ensures Inserters(threads, t) >= 0
  {
    if threads != [] { InsertersNatural(threads[..|threads| - 1], t); }
  }
}
