/**
 * What the calls of a single thread answer, step by step and through any number of growths: those of a map, as long as
 * memory is granted whenever a table is to grow.
 */
module LfhtSingle {
  import opened Arithmetic
  import opened ProbeTable
  import opened LfhtThreads
  import opened LfhtCalls
  import opened Wrappers
  import L = Lfht

  // ---------- What a map would answer ----------

  /** What the calls so far have made of a map, the keys that they were to add, and the call that has not returned. */
  datatype Account = Account(model: map<int, int>, keys: set<int>, asked: Option<Job>)

  const NOTHING: Account := Account(map[], {}, None)

  /**
   * Finds see the value of the key, if it has one; removals of keys in the map succeed, and those of keys that were
   * never added do not; and adds succeed as long as there are no more keys than a table can have slots.
   */
  predicate IsRight(acc: Account, job: Job, answer: Answer) {
    match job.op
    case Adding => answer.ok || |acc.keys| > L.MAX_TABLE_SIZE
    case Removing => (job.key in acc.model ==> answer.ok) && (answer.ok ==> job.key in acc.keys)
    case Finding => (if answer.ok then answer.val else TOMBSTONE) == L.Lookup(acc.model, job.key)
  }

  /** Adds bind the key, unless they fail, and removals unbind it. */
  function Made(model: map<int, int>, job: Job, answer: Answer): map<int, int> {
    if job.op == Adding && !answer.ok then model else Effect(model, job)
  }

  predicate Happens(acc: Account, e: Event) {
    e.thread == 0 &&
    match e
    case Begins(_, _) => acc.asked.None?
    case Returns(_, answer) => acc.asked.Some? && IsRight(acc, acc.asked.value, answer)
    case Acts(_, _) => false
  }

  function Later(acc: Account, e: Event): Account
    requires Happens(acc, e)
  {
    match e
    case Begins(_, job) => acc.(keys := if job.op == Adding then acc.keys + {job.key} else acc.keys, asked := Some(job))
    case Returns(_, answer) => Account(Made(acc.model, acc.asked.value, answer), acc.keys, None)
  }

  /** One call after the other answers what it would with a map. */
  predicate LikeAMap(acc: Account, h: seq<Event>)
    decreases |h|
  {
    h == [] || (Happens(acc, h[0]) && LikeAMap(Later(acc, h[0]), h[1..]))
  }

  // ---------- What the tables stand for ----------

  /** The thread has put a table in front, and not announced it. */
  predicate Chained(pc: Pc) { pc.CheckExpanded? || pc.Announce? }

  predicate Migrating(m: Memory, pc: Pc) { (m.state == L.Expanding || Chained(pc)) && |m.tables| >= 2 }

  function Cur(m: Memory): seq<Entry>
    requires |m.tables| > 0
  {
    m.tables[|m.tables| - 1].slots
  }

  /** The slots of the table that is being emptied. */
  function Prev(m: Memory, pc: Pc): seq<Entry> {
    if Migrating(m, pc) then m.tables[|m.tables| - 2].slots else []
  }

  predicate HasJob(pc: Pc) {
    !(pc.Idle? || pc.CheckDone? || pc.Scan? || pc.ReadOld? || pc.Mark? || pc.Finish? || pc.CheckHead? || pc.Settle?)
  }

  /** A value is being moved, and in neither table. */
  predicate InFlight(pc: Pc) {
    HasJob(pc) && pc.job.back.Internal? && (pc.Enter? || pc.Probe? || pc.Claim? || pc.Fill?)
  }

  /** The call has taken effect. */
  predicate Acted(pc: Pc) {
    HasJob(pc) && pc.job.back.External?
    && !(pc.CheckState? || pc.FindOld? || pc.Enter? || pc.Probe? || pc.Claim? || pc.Fill? || pc.ReadVal? || pc.Swap?)
  }

  /** What the tables stand for by now. */
  function ModelAt(acc: Account, pc: Pc): map<int, int> {
    if InFlight(pc) then acc.model - {pc.job.key}
    else if Acted(pc) then Made(acc.model, pc.job, pc.job.got)
    else acc.model
  }

  ghost predicate BasesAmong(e: seq<Entry>, keys: set<int>) {
    forall i {:trigger e[i]} | 0 <= i < |e| && e[i].key != 0 :: Base(e[i].key) in keys
  }

  ghost predicate Stands(hash: Hash, cur: seq<Entry>, prev: seq<Entry>, keys: set<int>, model: map<int, int>) {
    L.Sound(hash, cur, prev, model) && Clean(cur) && BasesAmong(cur, keys) && BasesAmong(prev, keys)
  }

  // ---------- Room ----------

  /** The moves of an access that the new table has not been charged with, in thirds of a slot. */
  function Dues(pc: Pc): int {
    match pc
    case Scan(tax) => tax.retval
    case ReadOld(tax, _) => tax.retval
    case Mark(tax, _) => tax.retval
    case Enter(j) => if j.back.Internal? then j.back.tax.retval + 4 else 3
    case Probe(j, _, _) => if j.back.Internal? then j.back.tax.retval + 4 else 3
    case Claim(j, _, _) => if j.back.Internal? then j.back.tax.retval + 4 else 3
    case Fill(j, _, _) => if j.back.Internal? then j.back.tax.retval + 1 else 0
    case Bump(j, _) => if j.back.Internal? then j.back.tax.retval + 1 else 0
    case Leave(j, _) => if j.back.Internal? then j.back.tax.retval + 1 else 0
    case _ => 0
  }

  /** The table is about to grow. */
  predicate Growing(pc: Pc) { pc.Fill? || pc.Bump? || pc.CheckSize? || pc.Chain? }

  /** While a table is emptied, the new one has no more slots in use than the moves account for. */
  ghost predicate HasRoom(cur: seq<Entry>, prev: seq<Entry>, migrating: bool, pc: Pc) {
    if migrating then
      && prev != [] && |cur| == 2 * |prev| && Used(prev) <= L.Threshold(|prev|) + 1
      && 3 * Used(cur) + Dues(pc) <= 4 * Moved(prev)
    else
      |cur| < L.MAX_TABLE_SIZE ==> Used(cur) <= L.Threshold(|cur|) + (if Growing(pc) then 1 else 0)
  }

  // ---------- Where the thread is ----------

  /** The tax is paid for the call, out of the table before the current one. */
  predicate Paying(acc: Account, m: Memory, tax: Tax) {
    m.state == L.Expanding && |m.tables| >= 2 && tax.from == |m.tables| - 2 && acc.asked == Some(Outer(tax))
    && 0 <= tax.i < |m.tables[tax.from].slots| && tax.retval >= 0 && (tax.op == Adding ==> tax.key in acc.keys)
  }

  /** What the scan of table `e` has seen before slot `i`. */
  ghost predicate ScannedUpTo(hash: Hash, e: seq<Entry>, tax: Tax)
    requires |e| > 0
  {
    var j := Home(hash, tax.key, |e|);
    && (tax.retval < L.MIGRATIONS_PER_ACCESS ==> L.SpentUpTo(e, j, tax.i))
    && (IsKey(tax.key) ==> if tax.success then !HasKey(e, tax.key) else L.MissUpTo(e, j, tax.i, tax.key))
  }

  /** What it has seen when it has dealt with slot `i`, too. */
  ghost predicate DoneWith(hash: Hash, e: seq<Entry>, tax: Tax)
    requires |e| > 0
  {
    var j := Home(hash, tax.key, |e|);
    && (tax.retval < L.MIGRATIONS_PER_ACCESS ==>
          if NextSlot(tax.i, |e|) == j then L.AllSpent(e) else L.SpentUpTo(e, j, NextSlot(tax.i, |e|)))
    && (IsKey(tax.key) ==> if tax.success then !HasKey(e, tax.key) else L.Missed(e, j, tax.i, tax.key))
  }

  /** The slot that is to be moved. */
  ghost predicate Moving(hash: Hash, e: seq<Entry>, tax: Tax, k: int) {
    0 <= tax.i < |e| && e[tax.i].key == k && IsKey(k) && DoneWith(hash, L.Retired(e, tax.i), tax)
  }

  /** A call that has not taken effect, or a move that is under way. */
  ghost predicate Pending(hash: Hash, acc: Account, m: Memory, job: Job) {
    (job.op == Adding ==> job.key in acc.keys) &&
    match job.back
    case External => acc.asked == Some(job) && job == Called(job) && JobOk(job)
    case Internal(tax) =>
      && Paying(acc, m, tax) && TaxOk(tax) && !m.tables[tax.from].assimilated
      && DoneWith(hash, m.tables[tax.from].slots, tax) && job.op == Adding && IsKey(job.key) && job.val != TOMBSTONE
  }

  /** The key of a job is not in the table that is being emptied. */
  ghost predicate Ready(hash: Hash, acc: Account, m: Memory, prev: seq<Entry>, job: Job) {
    && Pending(hash, acc, m, job) && (IsKey(job.key) ==> !HasKey(prev, job.key))
    && (job.back.Internal? ==> job.key in acc.model && acc.model[job.key] == job.val)
  }

  /** The key of a value that is being moved is not in the current table, either. */
  ghost predicate Absent(cur: seq<Entry>, job: Job) { job.back.Internal? ==> !HasKey(cur, job.key) }

  ghost predicate At(hash: Hash, cur: seq<Entry>, job: Job, i: int) {
    0 <= i < |cur| && Passed(hash, cur, job.key, i) && Absent(cur, job)
  }

  predicate Over(acc: Account, job: Job) {
    job.back.External? && acc.asked == Some(Called(job)) && IsRight(acc, Called(job), job.got)
  }

  ghost predicate Follows(hash: Hash, acc: Account, m: Memory, pc: Pc)
    requires |m.tables| > 0
  {
    var top, cur, prev := |m.tables| - 1, Cur(m), Prev(m, pc);
    match pc
    case Idle => acc.asked.None?
    case CheckState(j) => Pending(hash, acc, m, j) && j.back.External?
    case FindOld(j) => Pending(hash, acc, m, j) && j.back.External? && m.state == L.Expanding
    case CheckDone(tax) =>
      && Paying(acc, m, tax) && prev != [] && tax.i == Home(hash, tax.key, |prev|) && !tax.success && tax.retval == 0
      && TaxOk(tax)
    case Scan(tax) => Paying(acc, m, tax) && TaxOk(tax) && prev != [] && ScannedUpTo(hash, prev, tax)
    case ReadOld(tax, k) => Paying(acc, m, tax) && TaxOk(tax) && Moving(hash, prev, tax, k)
    case Mark(tax, e) => Paying(acc, m, tax) && TaxOk(tax) && Moving(hash, prev, tax, e.key) && prev[tax.i] == e
    case Finish(tax) => Paying(acc, m, tax) && TaxOk(tax) && L.AllSpent(prev)
    case CheckHead(tax) => Paying(acc, m, tax) && TaxOk(tax) && L.AllSpent(prev)
    case Settle(tax) => Paying(acc, m, tax) && TaxOk(tax) && L.AllSpent(prev)
    case Enter(j) => Ready(hash, acc, m, prev, j) && Absent(cur, j)
    case Probe(j, t, i) => Ready(hash, acc, m, prev, j) && t == top && At(hash, cur, j, i)
    case Claim(j, t, i) => Ready(hash, acc, m, prev, j) && t == top && At(hash, cur, j, i) && j.op == Adding
    case Fill(j, t, i) =>
      Ready(hash, acc, m, prev, j) && t == top && 0 <= i < |cur| && cur[i].key == j.key && j.op == Adding
    case ReadVal(j, t, i) =>
      Ready(hash, acc, m, prev, j) && j.back.External? && t == top && 0 <= i < |cur| && cur[i].key == j.key
    case Swap(j, t, i, v) =>
      && Ready(hash, acc, m, prev, j) && j.back.External? && t == top && 0 <= i < |cur|
      && cur[i] == Entry(j.key, v) && j.op != Finding
    case Bump(j, t) => t == top && if j.back.External? then Over(acc, j) else Pending(hash, acc, m, j)
    case CheckSize(j, t) => Over(acc, j) && t == top && !Migrating(m, pc)
    case Chain(j, t) => Over(acc, j) && t == top && !Migrating(m, pc) && |cur| < L.MAX_TABLE_SIZE
    case CheckExpanded(j, t) => Over(acc, j) && t == top - 1
    case Announce(j, t) => Over(acc, j) && t == top - 1
    case CheckNext(j, t) => Over(acc, j) && t == top - 1 && m.state == L.Expanding
    case CheckTop(j, t) => Over(acc, j) && t == top - 1 && m.state == L.Expanding
    case Leave(j, t) =>
      if j.back.Internal? then Pending(hash, acc, m, j)
      else Over(acc, j) && t < |m.tables| && !m.tables[t].assimilated
  }

  predicate Flags(m: Memory, pc: Pc)
    requires |m.tables| > 0
  {
    && !m.tables[|m.tables| - 1].assimilated
    && (Migrating(m, pc) && !pc.CheckHead? && !pc.Settle? ==> !m.tables[|m.tables| - 2].assimilated)
    && (m.state == L.Expanding ==> |m.tables| >= 2)
  }

  /** The tables stand for the map, have room, and the thread is where its call is. */
  ghost predicate Agrees(hash: Hash, acc: Account, m: Memory, pc: Pc) {
    && |m.tables| > 0 && Flags(m, pc) && Stands(hash, Cur(m), Prev(m, pc), acc.keys, ModelAt(acc, pc))
    && HasRoom(Cur(m), Prev(m, pc), Migrating(m, pc), pc) && Follows(hash, acc, m, pc)
  }

  // ---------- Steps that leave the slots alone ----------

  ghost predicate AgreesAt(hash: Hash, acc: Account, m: Memory, pc: Pc) {
    && Agrees(hash, acc, m, pc) && MemoryOk(hash, m) && PcOk(hash, m, pc)
    && forall t {:trigger Uncounted(m, t)} :: Uncounted(m, t) == Owes(pc, t)
  }

  /** The call begins. */
  lemma BeginAgrees(hash: Hash, acc: Account, m: Memory, move: Move)
    requires AgreesAt(hash, acc, m, Idle) && JobOk(move.job) && move.thread == 0
    ensures var (m', pc') := Act(hash, m, Idle, move.job, move.granted);
      Agrees(hash, Later(acc, Begins(move.thread, Called(move.job))), m', pc')
  {
    hide Sized, TabOk, L.Sound, Clean;
  }

  /** It returns. */
  lemma ReturnAgrees(hash: Hash, acc: Account, m: Memory, pc: Pc, move: Move)
    requires AgreesAt(hash, acc, m, pc) && pc.Leave? && pc.job.back.External? && move.thread == 0
    ensures var (m', pc') := Act(hash, m, pc, move.job, move.granted);
      && Seen(m, pc, move) == [Returns(move.thread, pc.job.got)]
      && Happens(acc, Returns(move.thread, pc.job.got))
      && Agrees(hash, Later(acc, Returns(move.thread, pc.job.got)), m', pc')
  {
    hide MemoryOk, Stands, IsRight;
  }

  /** Steps on the way to and from the search. */
  lemma CalmAgrees(hash: Hash, acc: Account, m: Memory, pc: Pc, move: Move)
    requires AgreesAt(hash, acc, m, pc)
    requires pc.CheckState? || pc.FindOld? || pc.CheckHead? || pc.Enter?
    ensures var (m', pc') := Act(hash, m, pc, move.job, move.granted); Agrees(hash, acc, m', pc')
  {
    hide MemoryOk, Stands;
  }

  /** The scan of the old table begins. */
  lemma ScanBegins(hash: Hash, acc: Account, m: Memory, pc: Pc, move: Move)
    requires AgreesAt(hash, acc, m, pc) && pc.CheckDone?
    ensures var (m', pc') := Act(hash, m, pc, move.job, move.granted); Agrees(hash, acc, m', pc')
  {
    L.NothingVisited(Prev(m, pc), pc.tax.i, pc.tax.key);
    hide MemoryOk, Stands, L.SpentUpTo, L.MissUpTo, HasKey, IsKey;
  }

  /** The old table has been emptied, and is flagged. */
  lemma FinishAgrees(hash: Hash, acc: Account, m: Memory, pc: Pc, move: Move)
    requires AgreesAt(hash, acc, m, pc) && pc.Finish?
    ensures var (m', pc') := Act(hash, m, pc, move.job, move.granted); Agrees(hash, acc, m', pc')
  {
    hide MemoryOk, Stands, L.AllSpent;
  }

  /** There is room in the new table as long as the moves account for what it has. */
  lemma RoomIsEnough(cur: seq<Entry>, prev: seq<Entry>, pc: Pc, n: int)
    requires HasRoom(cur, prev, true, pc) && 3 * n <= Dues(pc)
    ensures Used(cur) + n <= L.Threshold(|cur|)
  {
    CountBounds(prev);
    if Used(cur) + n >= 0 { L.RoomWhileMigrating(|prev|, Used(cur) + n, Moved(prev)); }
  }

  /** The migration is over. */
  lemma SettleAgrees(hash: Hash, acc: Account, m: Memory, pc: Pc, move: Move)
    requires AgreesAt(hash, acc, m, pc) && pc.Settle?
    ensures var (m', pc') := Act(hash, m, pc, move.job, move.granted); Agrees(hash, acc, m', pc')
  {
    L.SoundFinish(hash, Cur(m), Prev(m, pc), ModelAt(acc, pc));
    RoomIsEnough(Cur(m), Prev(m, pc), pc, 0);
    hide MemoryOk, L.Sound, L.AllSpent, Clean;
  }

  /** The new table is announced. */
  lemma AnnounceAgrees(hash: Hash, acc: Account, m: Memory, pc: Pc, move: Move)
    requires AgreesAt(hash, acc, m, pc) && Chained(pc)
    ensures var (m', pc') := Act(hash, m, pc, move.job, move.granted); Agrees(hash, acc, m', pc')
  {
    hide MemoryOk, Stands, IsRight;
  }

  /** Other assertions are checked. */
  lemma CheckAgrees(hash: Hash, acc: Account, m: Memory, pc: Pc, move: Move)
    requires AgreesAt(hash, acc, m, pc) && (pc.CheckNext? || pc.CheckTop?)
    ensures var (m', pc') := Act(hash, m, pc, move.job, move.granted); Agrees(hash, acc, m', pc')
  {
    hide MemoryOk, Stands, IsRight;
  }

  /** A table is counted as full enough to grow. */
  lemma SizeAgrees(hash: Hash, acc: Account, m: Memory, pc: Pc, move: Move)
    requires AgreesAt(hash, acc, m, pc) && pc.CheckSize? && move.granted
    ensures var (m', pc') := Act(hash, m, pc, move.job, move.granted); Agrees(hash, acc, m', pc')
  {
    hide MemoryOk, Stands, IsRight;
  }

  /** A blank table in front of the current one stands for the same map. */
  lemma BlankInFront(hash: Hash, blank: seq<Entry>, cur: seq<Entry>, keys: set<int>, model: map<int, int>)
    requires Stands(hash, cur, [], keys, model) && |blank| > 0
    requires forall i {:trigger blank[i]} | 0 <= i < |blank| :: blank[i] == Entry(0, 0)
    ensures Stands(hash, blank, cur, keys, model) && Used(blank) == 0 <= Moved(cur)
  {
    L.SoundGrow(hash, blank, cur, model);
    EmptyTable(blank);
  }

  /** A table of double size is put in front. */
  lemma ChainAgrees(hash: Hash, acc: Account, m: Memory, pc: Pc, move: Move)
    requires AgreesAt(hash, acc, m, pc) && pc.Chain?
    ensures var (m', pc') := Act(hash, m, pc, move.job, move.granted); Agrees(hash, acc, m', pc')
  {
    hide MemoryOk, Stands, Over;
    var (m', pc') := Act(hash, m, pc, move.job, move.granted);
    assert |Cur(m)| > 0;
    BlankInFront(hash, Cur(m'), Cur(m), acc.keys, ModelAt(acc, pc));
  }

  // ---------- The scan of the old table ----------

  /** The old table is being scanned for a call. */
  ghost predicate Scanning(hash: Hash, acc: Account, m: Memory, tax: Tax) {
    && Paying(acc, m, tax) && TaxOk(tax) && Flags(m, Scan(tax))
    && Stands(hash, Cur(m), Prev(m, Scan(tax)), acc.keys, acc.model)
    && HasRoom(Cur(m), Prev(m, Scan(tax)), true, Scan(tax))
  }

  lemma ScanEnds(hash: Hash, acc: Account, m: Memory, tax: Tax)
    requires Scanning(hash, acc, m, tax)
    requires tax.retval < L.MIGRATIONS_PER_ACCESS ==> L.AllSpent(Prev(m, Scan(tax)))
    requires IsKey(tax.key) ==> !HasKey(Prev(m, Scan(tax)), tax.key)
    ensures Agrees(hash, acc, m, AfterScan(tax))
  {
    hide Stands, L.AllSpent, IsKey, HasKey;
  }

  /** The scan goes on to the next slot, or ends when it has been all around. */
  lemma ScanGoesOn(hash: Hash, acc: Account, m: Memory, tax: Tax)
    requires Scanning(hash, acc, m, tax) && DoneWith(hash, Prev(m, Scan(tax)), tax)
    ensures Agrees(hash, acc, m, Advance(hash, |Prev(m, Scan(tax))|, tax))
  {
    hide Stands, L.AllSpent, IsKey, HasKey, L.SpentUpTo, L.MissUpTo;
    var n := |Prev(m, Scan(tax))|;
    if NextSlot(tax.i, n) == Home(hash, tax.key, n) { ScanEnds(hash, acc, m, tax); }
  }

  /** What is known once a slot has been looked at. */
  lemma SlotSeen(hash: Hash, cur: seq<Entry>, prev: seq<Entry>, model: map<int, int>, tax: Tax, success: bool)
    requires L.Sound(hash, cur, prev, model) && 0 <= tax.i < |prev| && ScannedUpTo(hash, prev, tax) && TaxOk(tax)
    requires var k := prev[tax.i].key;
      success == (tax.success || k == 0 || k == SetAssimilated(tax.key) || k == tax.key)
    ensures DoneWith(hash, L.Retired(prev, tax.i), tax.(success := success))
    ensures L.Spent(prev[tax.i]) || (prev[tax.i].key != tax.key && tax.retval >= L.MIGRATIONS_PER_ACCESS) ==>
              DoneWith(hash, prev, tax.(success := success))
  {
    var j, i := Home(hash, tax.key, |prev|), tax.i;
    if tax.retval < L.MIGRATIONS_PER_ACCESS { L.SpentOn(prev, j, i); }
    if IsKey(tax.key) { L.LookedAt(hash, cur, prev, model, tax.key, i); }
    hide L.Sound, L.SpentUpTo, L.AllSpent, L.MissUpTo, L.Missed, HasKey, IsKey, SetAssimilated;
  }

  /** A slot is going to be moved. */
  lemma ScanTakes(hash: Hash, acc: Account, m: Memory, tax: Tax, k: int)
    requires Scanning(hash, acc, m, tax) && Moving(hash, Prev(m, Scan(tax)), tax, k)
    ensures Agrees(hash, acc, m, ReadOld(tax, k))
  {
    hide Stands, Moving;
  }

  /** The facts about a scan, without those about its slot. */
  lemma ScanningAt(hash: Hash, acc: Account, m: Memory, pc: Pc, tax: Tax)
    requires AgreesAt(hash, acc, m, pc) && (pc.Scan? || pc.ReadOld? || pc.Mark?)
    requires tax == pc.tax.(success := tax.success)
    ensures Scanning(hash, acc, m, tax)
    ensures Prev(m, Scan(tax)) == m.tables[tax.from].slots && |m.tables[tax.from].slots| > 0
    ensures pc.Scan? ==> ScannedUpTo(hash, m.tables[tax.from].slots, pc.tax)
    ensures pc.ReadOld? ==> Moving(hash, m.tables[tax.from].slots, pc.tax, pc.oldKey)
    ensures pc.Mark? ==>
              Moving(hash, m.tables[tax.from].slots, pc.tax, pc.e.key) && m.tables[tax.from].slots[tax.i] == pc.e
    ensures L.Sound(hash, Cur(m), m.tables[tax.from].slots, acc.model) && TaxOk(tax)
    ensures 0 <= tax.i < |m.tables[tax.from].slots|
  {
    hide MemoryOk, L.Sound, ScannedUpTo, DoneWith, Clean, BasesAmong, IsKey;
  }

  lemma KeysAreProper(hash: Hash, cur: seq<Entry>, prev: seq<Entry>, model: map<int, int>, i: int)
    requires L.Sound(hash, cur, prev, model) && 0 <= i < |prev|
    ensures prev[i].key != 0 && !IsAssimilated(prev[i].key) ==> IsKey(prev[i].key)
  {
    assert L.ProperKeys(prev);
    assert prev[i].key != 0 && !IsAssimilated(prev[i].key) ==> Base(prev[i].key) == prev[i].key;
  }

  lemma ScanAgrees(hash: Hash, acc: Account, m: Memory, pc: Pc, move: Move)
    requires AgreesAt(hash, acc, m, pc) && pc.Scan? && Fits(m, pc)
    ensures var (m', pc') := Act(hash, m, pc, move.job, move.granted); Agrees(hash, acc, m', pc')
  {
    hide Scanning, Agrees, AgreesAt, ScannedUpTo, IsKey, IsAssimilated, SetAssimilated, Base, L.Sound, HasKey, L.Missed,
         L.AllSpent, L.SpentUpTo, L.Retired;
    var tax, prev := pc.tax, m.tables[pc.tax.from].slots;
    var k := prev[tax.i].key;
    var tax' := tax.(success := tax.success || k == 0 || k == SetAssimilated(tax.key) || k == tax.key);
    ScanningAt(hash, acc, m, pc, tax');
    SlotSeen(hash, Cur(m), prev, acc.model, tax, tax'.success);
    KeysAreProper(hash, Cur(m), prev, acc.model, tax.i);
    L.MarkedIsAssimilated(tax.key);
    if L.Spent(prev[tax.i]) || (k != tax.key && tax.retval >= L.MIGRATIONS_PER_ACCESS) {
      ScanGoesOn(hash, acc, m, tax');
      if tax'.success && tax.retval >= L.MIGRATIONS_PER_ACCESS { ScanEnds(hash, acc, m, tax'); }
    } else {
      ScanTakes(hash, acc, m, tax', k);
    }
  }

  /** The value of a slot is read. */
  lemma ReadOldAgrees(hash: Hash, acc: Account, m: Memory, pc: Pc, move: Move)
    requires AgreesAt(hash, acc, m, pc) && pc.ReadOld?
    ensures var (m', pc') := Act(hash, m, pc, move.job, move.granted); Agrees(hash, acc, m', pc')
  {
    hide MemoryOk, Stands, DoneWith, IsKey;
  }

  /** Marking a slot of the old table takes its key out of what the tables stand for, unless it has no value. */
  lemma Marks(hash: Hash, cur: seq<Entry>, prev: seq<Entry>, keys: set<int>, model: map<int, int>, i: int)
    requires Stands(hash, cur, prev, keys, model) && 0 <= i < |prev| && IsKey(prev[i].key)
    ensures var prev' := L.Retired(prev, i);
      && prev' == prev[i := Entry(SetAssimilated(prev[i].key), prev[i].val)] && !HasKey(prev', prev[i].key)
      && Used(prev') == Used(prev) && Moved(prev') == Moved(prev) + 1
      && (if prev[i].val == TOMBSTONE then Stands(hash, cur, prev', keys, model)
          else
            && Stands(hash, cur, prev', keys, model - {prev[i].key})
            && prev[i].key in model && model[prev[i].key] == prev[i].val)
    ensures !HasKey(cur, prev[i].key) && prev[i].key in keys
  {
    L.SoundMark(hash, cur, prev, model, i);
    L.RetireFacts(hash, cur, prev, model, i);
    MarkFacts(prev[i].key);
    hide L.Sound, Used, Moved, HasKey, IsAssimilated, SetAssimilated, Base;
  }

  /** An entry that has been marked is going to be added to the new table. */
  lemma MoveBegins(hash: Hash, acc: Account, m: Memory, tax: Tax, e: Entry)
    requires Paying(acc, m, tax) && TaxOk(tax) && Flags(m, Scan(tax)) && DoneWith(hash, m.tables[tax.from].slots, tax)
    requires Stands(hash, Cur(m), m.tables[tax.from].slots, acc.keys, acc.model - {e.key})
    requires IsKey(e.key) && e.val != TOMBSTONE && !HasKey(m.tables[tax.from].slots, e.key)
    requires !HasKey(Cur(m), e.key) && e.key in acc.keys
    requires e.key in acc.model && acc.model[e.key] == e.val
    requires var cur, prev := Cur(m), m.tables[tax.from].slots;
      && prev != [] && |cur| == 2 * |prev| && Used(prev) <= L.Threshold(|prev|) + 1
      && 3 * Used(cur) + tax.retval + 4 <= 4 * Moved(prev)
    ensures Agrees(hash, acc, m, Enter(Job(Adding, e.key, e.val, Internal(tax), NO_ANSWER)))
  {
    hide Stands, DoneWith, HasKey, IsKey;
  }

  lemma MarkAgrees(hash: Hash, acc: Account, m: Memory, pc: Pc, move: Move)
    requires AgreesAt(hash, acc, m, pc) && pc.Mark? && Fits(m, pc)
    ensures var (m', pc') := Act(hash, m, pc, move.job, move.granted); Agrees(hash, acc, m', pc')
  {
    hide Agrees, AgreesAt, Stands, DoneWith, IsKey, SetAssimilated, HasKey, L.Retired;
    var tax, prev := pc.tax, m.tables[pc.tax.from].slots;
    ScanningAt(hash, acc, m, pc, tax);
    Marks(hash, Cur(m), prev, acc.keys, acc.model, tax.i);
    var m' := WriteSlot(m, tax.from, tax.i, Entry(SetAssimilated(pc.e.key), prev[tax.i].val));
    assert Cur(m') == Cur(m) && Prev(m', Scan(tax)) == L.Retired(prev, tax.i);
    if pc.e.val == TOMBSTONE {
      ScanGoesOn(hash, acc, m', tax);
    } else {
      MoveBegins(hash, acc, m', tax, pc.e);
    }
  }

  /** An entry has been moved, and the scan goes on. */
  lemma MovedAgrees(hash: Hash, acc: Account, m: Memory, pc: Pc, move: Move)
    requires AgreesAt(hash, acc, m, pc) && pc.Leave? && pc.job.back.Internal?
    ensures var (m', pc') := Act(hash, m, pc, move.job, move.granted);
      Seen(m, pc, move) == [] && Agrees(hash, acc, m', pc')
  {
    hide MemoryOk, Stands, HasKey, IsKey, L.AllSpent, L.SpentUpTo, L.Missed;
    var tax := pc.job.back.tax;
    ScanGoesOn(hash, acc, m, tax.(retval := tax.retval + 1));
  }

  // ---------- The search ----------

  /** A search that has met an unused slot, or all slots, has a key that the tables do not have. */
  lemma NotFound(hash: Hash, cur: seq<Entry>, prev: seq<Entry>, keys: set<int>, model: map<int, int>, key: int, i: int)
    requires Stands(hash, cur, prev, keys, model) && key > 0 && 0 <= i < |cur| && Passed(hash, cur, key, i)
    requires IsKey(key) ==> !HasKey(prev, key)
    requires cur[i].key == 0 || (cur[i].key != key && NextSlot(i, |cur|) == Home(hash, key, |cur|))
    ensures !HasKey(cur, key) && key !in model && (cur[i].key != 0 ==> Used(cur) == |cur|)
  {
    if cur[i].key != 0 {
      forall x {:trigger cur[x]} | 0 <= x < |cur| ensures cur[x].key != key && cur[x].key != 0 {
        assert x != i ==> Before(Home(hash, key, |cur|), x, i, |cur|);
      }
      AllUsed(cur);
    }
    hide L.Sound, IsKey, Used;
    L.NotThere(hash, cur, prev, model, key, i, cur[i].key != 0);
    L.Answer(hash, cur, prev, model, key);
  }

  /** A full table has the keys that were added, without one that it does not have. */
  lemma FullMeans(hash: Hash, cur: seq<Entry>, prev: seq<Entry>, keys: set<int>, model: map<int, int>, key: int)
    requires Stands(hash, cur, prev, keys, model) && Used(cur) == |cur| && !HasKey(cur, key) && key in keys
    ensures |keys| > |cur|
  {
    assert forall i {:trigger cur[i]} | 0 <= i < |cur| && cur[i].key != 0 :: Base(cur[i].key) == cur[i].key;
    UsedAtMost(cur, keys - {key});
  }

  /** A table only gets full when it cannot grow. */
  lemma FullIsLargest(cur: seq<Entry>, prev: seq<Entry>, migrating: bool, pc: Pc)
    requires HasRoom(cur, prev, migrating, pc) && pc.Probe? && Used(cur) == |cur| > 0
    requires pc.job.back.Internal? ==> migrating && pc.job.back.tax.retval >= 0
    ensures !migrating && |cur| >= L.MAX_TABLE_SIZE
  {
    if migrating { RoomIsEnough(cur, prev, pc, 1); }
  }

  /** The search ends without the key. */
  lemma MissAgrees(hash: Hash, acc: Account, m: Memory, pc: Pc, move: Move)
    requires AgreesAt(hash, acc, m, pc) && pc.Probe?
    requires var e := m.tables[pc.t].slots;
      && pc.t == |m.tables| - 1 && 0 <= pc.i < |e|
      && (e[pc.i].key == 0 || (e[pc.i].key != pc.job.key && NextSlot(pc.i, |e|) == Home(hash, pc.job.key, |e|)))
    ensures var (m', pc') := Act(hash, m, pc, move.job, move.granted); Agrees(hash, acc, m', pc')
  {
    var cur, prev, j := Cur(m), Prev(m, pc), pc.job;
    NotFound(hash, cur, prev, acc.keys, ModelAt(acc, pc), j.key, pc.i);
    if cur[pc.i].key != 0 {
      FullIsLargest(cur, prev, Migrating(m, pc), pc);
      if j.op == Adding { FullMeans(hash, cur, prev, acc.keys, ModelAt(acc, pc), j.key); }
    }
    assert j.op == Removing ==> acc.model - {j.key} == acc.model;
    hide MemoryOk, Stands, IsKey, Passed, HasKey;
  }

  /** It has found the key, or goes on. */
  lemma ProbeAgrees(hash: Hash, acc: Account, m: Memory, pc: Pc, move: Move)
    requires AgreesAt(hash, acc, m, pc) && pc.Probe?
    requires var e := m.tables[pc.t].slots;
      && pc.t == |m.tables| - 1 && 0 <= pc.i < |e|
      && e[pc.i].key != 0 && (e[pc.i].key == pc.job.key || NextSlot(pc.i, |e|) != Home(hash, pc.job.key, |e|))
    ensures var (m', pc') := Act(hash, m, pc, move.job, move.granted); Agrees(hash, acc, m', pc')
  {
    hide MemoryOk, Stands, IsKey;
  }

  /** A slot is claimed for a key that the tables do not have; as long as it has no value that changes nothing. */
  lemma Claims(hash: Hash, cur: seq<Entry>, prev: seq<Entry>, keys: set<int>, model: map<int, int>, key: int, i: int)
    requires Stands(hash, cur, prev, keys, model) && 0 <= i < |cur| && cur[i].key == 0 && Passed(hash, cur, key, i)
    requires IsKey(key) && !HasKey(prev, key) && key in keys
    ensures var cur' := cur[i := Entry(key, cur[i].val)];
      Stands(hash, cur', prev, keys, model) && Used(cur') == Used(cur) + 1
  {
    NotFound(hash, cur, prev, keys, model, key, i);
    L.SoundInsert(hash, cur, prev, model, i, key, TOMBSTONE);
    MarkFacts(key);
    CountsAfterUpdate(cur, i, Entry(key, TOMBSTONE));
    assert model - {key} == model;
    hide L.Sound, IsKey, Used, HasKey, Base;
  }

  /** A write to the current table leaves all else as it is. */
  lemma WriteCur(m: Memory, pc: Pc, pc': Pc, i: int, x: Entry)
    requires |m.tables| > 0 && 0 <= i < |Cur(m)| && !Chained(pc) && !Chained(pc')
    ensures var m' := WriteSlot(m, |m.tables| - 1, i, x);
      && |m'.tables| == |m.tables| && Cur(m') == Cur(m)[i := x] && Prev(m', pc') == Prev(m, pc)
      && Migrating(m', pc') == Migrating(m, pc) && (Flags(m, pc) && HasJob(pc) ==> Flags(m', pc'))
  {
  }

  lemma PendingStays(hash: Hash, acc: Account, m: Memory, i: int, x: Entry, job: Job)
    requires |m.tables| > 0 && 0 <= i < |Cur(m)| && Pending(hash, acc, m, job)
    ensures Pending(hash, acc, WriteSlot(m, |m.tables| - 1, i, x), job)
  {
    hide JobOk, TaxOk, DoneWith, IsKey;
  }

  lemma FlagsStay(m: Memory, pc: Pc, pc': Pc)
    requires |m.tables| > 0 && Flags(m, pc) && HasJob(pc) && HasJob(pc') && !Chained(pc) && !Chained(pc')
    ensures Flags(m, pc')
  {
  }

  lemma PendingSays(hash: Hash, acc: Account, m: Memory, job: Job)
    requires Pending(hash, acc, m, job)
    ensures job.key > 0 && (job.op == Adding ==> IsKey(job.key) && job.key in acc.keys && job.val != TOMBSTONE)
    ensures job.back.External? ==> acc.asked == Some(job) && job == Called(job)
    ensures job.back.Internal? ==> job.op == Adding && Migrating(m, Idle) && job.back.tax.retval >= 0
  {
    hide DoneWith;
  }

  lemma ClaimAgrees(hash: Hash, acc: Account, m: Memory, pc: Pc, move: Move)
    requires AgreesAt(hash, acc, m, pc) && pc.Claim? && Fits(m, pc)
    ensures var (m', pc') := Act(hash, m, pc, move.job, move.granted); Agrees(hash, acc, m', pc')
  {
    hide MemoryOk, Stands, IsKey, HasKey, Passed, WriteSlot, Pending, Flags, Fits, PcOk;
    var cur, prev, j, i := Cur(m), Prev(m, pc), pc.job, pc.i;
    PendingSays(hash, acc, m, j);
    if cur[i].key == 0 {
      Claims(hash, cur, prev, acc.keys, ModelAt(acc, pc), j.key, i);
      WriteCur(m, pc, Fill(j, pc.t, i), i, Entry(j.key, cur[i].val));
      PendingStays(hash, acc, m, i, Entry(j.key, cur[i].val), j);
    } else {
      FlagsStay(m, pc, Probe(j, pc.t, i));
    }
  }

  /** A value is stored in the slot of a key. */
  lemma Stores(hash: Hash, cur: seq<Entry>, prev: seq<Entry>, keys: set<int>, model: map<int, int>, i: int, val: int)
    requires Stands(hash, cur, prev, keys, model) && 0 <= i < |cur| && cur[i].key > 0
    ensures var cur' := cur[i := Entry(cur[i].key, val)];
      Stands(hash, cur', prev, keys, L.Bind(model, cur[i].key, val)) && Used(cur') == Used(cur)
    ensures IsKey(cur[i].key) && cur[i].key in keys
  {
    KeysDiffer(hash, cur);
    L.SoundStore(hash, cur, prev, model, i, val);
    MarkFacts(cur[i].key);
    CountsAfterUpdate(cur, i, Entry(cur[i].key, val));
    hide L.Sound, IsKey, Used;
  }

  /** What a move answers is not looked at. */
  lemma PendingForGood(hash: Hash, acc: Account, m: Memory, job: Job)
    requires Pending(hash, acc, m, job) && job.back.Internal?
    ensures Pending(hash, acc, m, job.(got := DONE))
  {
    hide DoneWith;
  }

  lemma FillAgrees(hash: Hash, acc: Account, m: Memory, pc: Pc, move: Move)
    requires AgreesAt(hash, acc, m, pc) && pc.Fill? && Fits(m, pc)
    ensures var (m', pc') := Act(hash, m, pc, move.job, move.granted); Agrees(hash, acc, m', pc')
  {
    hide MemoryOk, Stands, IsKey, HasKey, WriteSlot, Pending, Flags, Fits, PcOk;
    var cur, prev, j, i := Cur(m), Prev(m, pc), pc.job, pc.i;
    PendingSays(hash, acc, m, j);
    Stores(hash, cur, prev, acc.keys, ModelAt(acc, pc), i, j.val);
    assert j.back.Internal? ==> (acc.model - {j.key})[j.key := j.val] == acc.model;
    WriteCur(m, pc, Bump(j.(got := DONE), pc.t), i, Entry(cur[i].key, j.val));
    PendingStays(hash, acc, m, i, Entry(cur[i].key, j.val), j);
    if j.back.Internal? { PendingForGood(hash, acc, WriteSlot(m, pc.t, i, Entry(cur[i].key, j.val)), j); }
  }

  lemma SwapAgrees(hash: Hash, acc: Account, m: Memory, pc: Pc, move: Move)
    requires AgreesAt(hash, acc, m, pc) && pc.Swap? && Fits(m, pc)
    ensures var (m', pc') := Act(hash, m, pc, move.job, move.granted); Agrees(hash, acc, m', pc')
  {
    hide MemoryOk, Stands, IsKey, HasKey, WriteSlot, Pending, Fits, PcOk;
    var cur, prev, j, i := Cur(m), Prev(m, pc), pc.job, pc.i;
    PendingSays(hash, acc, m, j);
    var v := if j.op == Adding then j.val else TOMBSTONE;
    Stores(hash, cur, prev, acc.keys, acc.model, i, v);
    WriteCur(m, pc, Leave(j.(got := DONE), pc.t), i, Entry(cur[i].key, v));
  }

  lemma SlotHasKey(e: seq<Entry>, i: int)
    requires 0 <= i < |e|
    ensures HasKey(e, e[i].key)
  {
  }

  /** The value of a key is read. */
  lemma ReadValAgrees(hash: Hash, acc: Account, m: Memory, pc: Pc, move: Move)
    requires AgreesAt(hash, acc, m, pc) && pc.ReadVal?
    ensures var (m', pc') := Act(hash, m, pc, move.job, move.granted); Agrees(hash, acc, m', pc')
  {
    hide MemoryOk, IsKey, HasKey, L.Sound, Clean, BasesAmong, Used, Moved;
    L.Answer(hash, Cur(m), Prev(m, pc), acc.model, pc.job.key);
    SlotHasKey(Cur(m), pc.i);
  }

  /** The memory with another count of the current table. */
  function Counted(m: Memory, count: int): Memory
    requires |m.tables| > 0
  {
    var top := |m.tables| - 1;
    m.(tables := m.tables[top := m.tables[top].(count := count)])
  }

  /** A count leaves all else as it is. */
  lemma CountCur(m: Memory, pc: Pc, pc': Pc, count: int)
    requires |m.tables| > 0 && HasJob(pc) && HasJob(pc') && !Chained(pc) && !Chained(pc') && Flags(m, pc)
    ensures var m' := Counted(m, count);
      && |m'.tables| == |m.tables| && Cur(m') == Cur(m) && Prev(m', pc') == Prev(m, pc)
      && Migrating(m', pc') == Migrating(m, pc) && Flags(m', pc') && !m'.tables[|m.tables| - 1].assimilated
  {
  }

  lemma PendingCounted(hash: Hash, acc: Account, m: Memory, job: Job, count: int)
    requires |m.tables| > 0 && Pending(hash, acc, m, job)
    ensures Pending(hash, acc, Counted(m, count), job)
  {
    hide JobOk, TaxOk, DoneWith, IsKey;
  }

  /** A slot is counted, which makes the table grow if it is not being filled from another. */
  lemma BumpAgrees(hash: Hash, acc: Account, m: Memory, pc: Pc, move: Move)
    requires AgreesAt(hash, acc, m, pc) && pc.Bump? && Fits(m, pc)
    ensures var (m', pc') := Act(hash, m, pc, move.job, move.granted); Agrees(hash, acc, m', pc')
  {
    hide MemoryOk, Stands, Pending, Flags, Fits, PcOk, IsRight, Used, Moved;
    var (m', pc') := Act(hash, m, pc, move.job, move.granted);
    assert Uncounted(m, pc.t) == 1;
    if pc.job.back.Internal? {
      PendingSays(hash, acc, m, pc.job);
      PendingCounted(hash, acc, m, pc.job, m.tables[pc.t].count + 1);
    }
    if Migrating(m, pc) { RoomIsEnough(Cur(m), Prev(m, pc), pc, 0); }
    CountCur(m, pc, pc', m.tables[pc.t].count + 1);
  }

  // ---------- Every step, and every run ----------

  /** What a step of the thread makes of the account. */
  lemma ActAgrees(hash: Hash, acc: Account, m: Memory, pc: Pc, move: Move)
    requires AgreesAt(hash, acc, m, pc) && !pc.Idle? && !(pc.Leave? && pc.job.back.External?) && move.granted
    ensures var (m', pc') := Act(hash, m, pc, move.job, move.granted);
      Seen(m, pc, move) == [] && Agrees(hash, acc, m', pc')
  {
    hide MemoryOk, Stands, HasRoom, Act;
    if pc.CheckState? || pc.FindOld? || pc.CheckHead? || pc.Enter? { CalmAgrees(hash, acc, m, pc, move); }
    else if pc.CheckDone? { ScanBegins(hash, acc, m, pc, move); }
    else if pc.Scan? { ScanAgrees(hash, acc, m, pc, move); }
    else if pc.ReadOld? { ReadOldAgrees(hash, acc, m, pc, move); }
    else if pc.Mark? { MarkAgrees(hash, acc, m, pc, move); }
    else if pc.Finish? { FinishAgrees(hash, acc, m, pc, move); }
    else if pc.Settle? { SettleAgrees(hash, acc, m, pc, move); }
    else if pc.Probe? {
      var e := m.tables[pc.t].slots;
      if e[pc.i].key == 0 || (e[pc.i].key != pc.job.key && NextSlot(pc.i, |e|) == Home(hash, pc.job.key, |e|)) {
        MissAgrees(hash, acc, m, pc, move);
      } else {
        ProbeAgrees(hash, acc, m, pc, move);
      }
    }
    else if pc.Claim? { ClaimAgrees(hash, acc, m, pc, move); }
    else if pc.Fill? { FillAgrees(hash, acc, m, pc, move); }
    else if pc.Bump? { BumpAgrees(hash, acc, m, pc, move); }
    else if pc.CheckSize? { SizeAgrees(hash, acc, m, pc, move); }
    else if pc.Chain? { ChainAgrees(hash, acc, m, pc, move); }
    else if Chained(pc) { AnnounceAgrees(hash, acc, m, pc, move); }
    else if pc.CheckNext? || pc.CheckTop? { CheckAgrees(hash, acc, m, pc, move); }
    else if pc.ReadVal? { ReadValAgrees(hash, acc, m, pc, move); }
    else if pc.Swap? { SwapAgrees(hash, acc, m, pc, move); }
    else { MovedAgrees(hash, acc, m, pc, move); }
  }

  /** The account after a step of the thread. */
  function Noted(acc: Account, events: seq<Event>): Account
    requires LikeAMap(acc, events)
    decreases |events|
  {
    if events == [] then acc else Noted(Later(acc, events[0]), events[1..])
  }

  lemma OneIsNoted(acc: Account, e: Event)
    requires Happens(acc, e)
    ensures LikeAMap(acc, [e]) && Noted(acc, [e]) == Later(acc, e)
  {
    assert [e][1..] == [];
  }

  lemma StepAgrees(hash: Hash, acc: Account, m: Memory, pc: Pc, move: Move)
    requires AgreesAt(hash, acc, m, pc) && JobOk(move.job) && move.thread == 0 && move.granted && Fits(m, pc)
    ensures var (m', pc') := Act(hash, m, pc, move.job, move.granted);
      LikeAMap(acc, Seen(m, pc, move)) && Agrees(hash, Noted(acc, Seen(m, pc, move)), m', pc')
  {
    hide MemoryOk, Stands, HasRoom, Fits, IsRight;
    if pc.Idle? {
      BeginAgrees(hash, acc, m, move);
      OneIsNoted(acc, Begins(move.thread, Called(move.job)));
    } else if pc.Leave? && pc.job.back.External? {
      ReturnAgrees(hash, acc, m, pc, move);
      OneIsNoted(acc, Returns(move.thread, pc.job.got));
    } else {
      ActAgrees(hash, acc, m, pc, move);
    }
  }

  lemma {:induction false} NotedOn(acc: Account, a: seq<Event>, b: seq<Event>)
    requires LikeAMap(acc, a) && LikeAMap(Noted(acc, a), b)
    ensures LikeAMap(acc, a + b)
    decreases |a|
  {
    if a == [] {
      assert a + b == b;
    } else {
      assert (a + b)[1..] == a[1..] + b;
      NotedOn(Later(acc, a[0]), a[1..], b);
    }
  }

  lemma AllCounted(hash: Hash, s: System)
    requires Inv(hash, s) && |s.threads| == 1
    ensures forall t {:trigger Uncounted(s.m, t)} :: Uncounted(s.m, t) == Owes(s.threads[0], t)
    ensures MemoryOk(hash, s.m) && PcOk(hash, s.m, s.threads[0])
  {
    forall t {:trigger Uncounted(s.m, t)} ensures Uncounted(s.m, t) == Owes(s.threads[0], t) {
      assert s.threads[..0] == [];
      assert Inserters(s.threads, t) == Inserters(s.threads[..0], t) + Owes(s.threads[0], t);
    }
  }

  lemma {:induction false} RunAgrees(hash: Hash, s: System, moves: seq<Move>, acc: Account)
    requires Inv(hash, s) && |s.threads| == 1 && Legal(1, moves) && AllGranted(moves)
    requires Agrees(hash, acc, s.m, s.threads[0])
    ensures LikeAMap(acc, History(hash, s, moves))
    decreases |moves|
  {
    hide Agrees, MemoryOk, Uncounted;
    if moves != [] {
      var move := moves[0];
      AllCounted(hash, s);
      StepInv(hash, s, move);
      var s', now := Step(hash, s, move), Seen(s.m, s.threads[0], move);
      StepAgrees(hash, acc, s.m, s.threads[0], move);
      RunAgrees(hash, s', moves[1..], Noted(acc, now));
      NotedOn(acc, now, History(hash, s', moves[1..]));
    }
  }

  lemma StartAgrees(hash: Hash, max: nat)
    requires 0 < max <= L.MAX_TABLE_SIZE && IsPowerOfTwo(max)
    ensures var s := Start(hash, 1, max); Agrees(hash, NOTHING, s.m, s.threads[0])
  {
    hide L.Sound, IsPowerOfTwo, Inv, Moved, Used;
    var s := AllIdle(1, max);
    L.SoundStart(hash, s.m.tables[0].slots);
    EmptyTable(s.m.tables[0].slots);
    assert Cur(s.m) == s.m.tables[0].slots && Prev(s.m, Idle) == [];
  }
}
