/**
 * What the calls of any number of threads answer. As long as the first table has room for all keys that are ever
 * added, each call takes effect at one step of its own, so that the order of these steps explains all answers.
 */
module LfhtCalls {
  import opened Arithmetic
  import opened ProbeTable
  import opened LfhtThreads
  import L = Lfht

  // ---------- Histories ----------

  /** A thread makes a call; the call takes effect, which nobody sees; the call returns. */
  datatype Event =
    | Begins(thread: nat, job: Job)
    | Acts(thread: nat, answer: Answer)
    | Returns(thread: nat, answer: Answer)

  /** What can be seen of a step of a thread. */
  function Seen(m: Memory, pc: Pc, move: Move): seq<Event>
    requires Fits(m, pc)
  {
    match pc
    case Idle => [Begins(move.thread, Called(move.job))]
    case Leave(j, t) => if j.back.External? && !m.tables[t].assimilated then [Returns(move.thread, j.got)] else []
    case _ => []
  }

  /** What can be seen of a run. */
  ghost function {:induction false} History(hash: Hash, s: System, moves: seq<Move>): seq<Event>
    requires Inv(hash, s) && Legal(|s.threads|, moves)
    decreases |moves|
  {
    if moves == [] then []
    else
      StepInv(hash, s, moves[0]);
      Seen(s.m, s.threads[moves[0].thread], moves[0]) + History(hash, Step(hash, s, moves[0]), moves[1..])
  }

  // ---------- Calls without overlap ----------

  /** A map, and where the calls of each thread are. */
  datatype Status = Ready | Pending(job: Job) | Decided(job: Job, answer: Answer)
  datatype Spec = Spec(model: map<int, int>, calls: seq<Status>)

  /** Adds succeed, removals do if the key is there, and finds see the value of the key, if it has one. */
  predicate RightAnswer(model: map<int, int>, job: Job, answer: Answer) {
    match job.op
    case Adding => answer.ok
    case Removing => job.key in model ==> answer.ok
    case Finding => (if answer.ok then answer.val else TOMBSTONE) == L.Lookup(model, job.key)
  }

  function Effect(model: map<int, int>, job: Job): map<int, int> {
    match job.op
    case Adding => model[job.key := job.val]
    case Removing => model - {job.key}
    case Finding => model
  }

  predicate Allowed(sp: Spec, e: Event) {
    e.thread < |sp.calls| &&
    match e
    case Begins(n, _) => sp.calls[n].Ready?
    case Acts(n, answer) => sp.calls[n].Pending? && RightAnswer(sp.model, sp.calls[n].job, answer)
    case Returns(n, answer) => sp.calls[n].Decided? && sp.calls[n].answer == answer
  }

  function Next(sp: Spec, e: Event): Spec
    requires Allowed(sp, e)
  {
    match e
    case Begins(n, job) => sp.(calls := sp.calls[n := Pending(job)])
    case Acts(n, answer) => Spec(Effect(sp.model, sp.calls[n].job), sp.calls[n := Decided(sp.calls[n].job, answer)])
    case Returns(n, _) => sp.(calls := sp.calls[n := Ready])
  }

  /** Every call takes effect once between its begin and its end, and answers what is right then. */
  predicate Accepted(sp: Spec, events: seq<Event>)
    decreases |events|
  {
    events == [] || (Allowed(sp, events[0]) && Accepted(Next(sp, events[0]), events[1..]))
  }

  function Visible(events: seq<Event>): seq<Event>
    decreases |events|
  {
    if events == [] then [] else (if events[0].Acts? then [] else [events[0]]) + Visible(events[1..])
  }

  /** No keys, and no calls. */
  function NoCalls(threads: nat): Spec { Spec(map[], seq(threads, _ => Ready)) }

  /** There is an order in which the calls, each at a moment of its own, answer what they have answered. */
  ghost predicate Linearizable(threads: nat, history: seq<Event>) {
    exists events {:trigger Visible(events)} :: Visible(events) == history && Accepted(NoCalls(threads), events)
  }

  /** Memory is granted whenever a table is to grow. */
  predicate AllGranted(moves: seq<Move>) { forall k {:trigger moves[k]} | 0 <= k < |moves| :: moves[k].granted }

  // ---------- Runs in which the first table is enough ----------

  /** How many keys a table has room for without another one in front of it. */
  function Capacity(max: int): int { if max == L.MAX_TABLE_SIZE then max else L.Threshold(max) }

  /** All keys that calls add are among `keys`. */
  predicate AddsOnly(events: seq<Event>, keys: set<int>) {
    forall e {:trigger e in events} | e in events && e.Begins? && e.job.op == Adding :: e.job.key in keys
  }

  /** A call that has not taken effect yet. */
  predicate Open(keys: set<int>, job: Job) {
    job == Called(job) && JobOk(job) && (job.op == Adding ==> job.key in keys)
  }

  /** A call that has. */
  predicate Over(keys: set<int>, job: Job, st: Status) {
    job.back.External? && Open(keys, Called(job)) && st == Decided(Called(job), job.got)
  }

  ghost predicate At(hash: Hash, e: seq<Entry>, keys: set<int>, job: Job, i: int, st: Status) {
    |e| > 0 && Open(keys, job) && st == Pending(job) && 0 <= i < |e| && Passed(hash, e, job.key, i)
  }

  /** Where a thread is in its call. */
  ghost predicate PcFollows(hash: Hash, e: seq<Entry>, keys: set<int>, pc: Pc, st: Status) {
    match pc
    case Idle => st == Ready
    case CheckState(j) => Open(keys, j) && st == Pending(j)
    case Enter(j) => Open(keys, j) && st == Pending(j)
    case Probe(j, t, i) => t == 0 && At(hash, e, keys, j, i, st)
    case Claim(j, t, i) => t == 0 && At(hash, e, keys, j, i, st) && j.op == Adding
    case Fill(j, t, i) => t == 0 && At(hash, e, keys, j, i, st) && j.op == Adding && e[i].key == j.key
    case ReadVal(j, t, i) => t == 0 && At(hash, e, keys, j, i, st) && e[i].key == j.key
    case Swap(j, t, i, _) => t == 0 && At(hash, e, keys, j, i, st) && e[i].key == j.key && j.op != Finding
    case Bump(j, t) => t == 0 && Over(keys, j, st)
    case CheckSize(j, t) => t == 0 && Over(keys, j, st) && |e| == L.MAX_TABLE_SIZE
    case Leave(j, t) => t == 0 && Over(keys, j, st)
    case _ => false
  }

  ghost predicate KeysAmong(e: seq<Entry>, keys: set<int>) {
    forall i {:trigger e[i]} | 0 <= i < |e| && e[i].key != 0 :: e[i].key in keys
  }

  /** Unused slots have no value. */
  ghost predicate Clean(e: seq<Entry>) {
    forall i {:trigger e[i]} | 0 <= i < |e| && e[i].key == 0 :: e[i].val == TOMBSTONE
  }

  ghost predicate SlotsFollow(hash: Hash, e: seq<Entry>, keys: set<int>, model: map<int, int>) {
    L.Sound(hash, e, [], model) && Clean(e) && KeysAmong(e, keys) && |keys| <= Capacity(|e|)
  }

  /** There is one table, which stands for the map, and each thread is where its call is. */
  ghost predicate Follows(hash: Hash, s: System, keys: set<int>, sp: Spec) {
    && |s.m.tables| == 1 && s.m.state == L.Initial && !s.m.tables[0].assimilated
    && SlotsFollow(hash, s.m.tables[0].slots, keys, sp.model) && |sp.calls| == |s.threads|
    && forall n {:trigger s.threads[n]} | 0 <= n < |s.threads| ::
        PcFollows(hash, s.m.tables[0].slots, keys, s.threads[n], sp.calls[n])
  }

  // ---------- One step ----------

  ghost predicate Stays(e: seq<Entry>, e': seq<Entry>) {
    |e'| == |e| && forall x {:trigger e'[x]} {:trigger e[x]} | 0 <= x < |e| && e[x].key != 0 :: e'[x].key == e[x].key
  }

  /** A step of another thread does not change where a thread is. */
  lemma PcStaysThere(hash: Hash, e: seq<Entry>, e': seq<Entry>, keys: set<int>, pc: Pc, st: Status)
    requires PcFollows(hash, e, keys, pc, st) && Stays(e, e') && L.NoMarks(e) && L.ProperKeys(e)
    ensures PcFollows(hash, e', keys, pc, st)
  {
    if (pc.Probe? || pc.Claim? || pc.Fill? || pc.ReadVal? || pc.Swap?) {
      assert forall x {:trigger e'[x]} | Before(Home(hash, pc.job.key, |e|), x, pc.i, |e|) ::
          e'[x].key == e[x].key;
      assert pc.job.key != 0;
    }
  }

  /** The keys of a table are different, so that there are at most as many as keys are added. */
  lemma {:induction false} UsedAtMost(e: seq<Entry>, keys: set<int>)
    requires KeysAmong(e, keys)
    requires forall i, k {:trigger e[i], e[k]} | 0 <= i < k < |e| && e[i].key != 0 :: e[k].key != e[i].key
    ensures Used(e) <= |keys|
    decreases |e|
  {
    if e != [] {
      var n := |e| - 1;
      var f := e[..n];
      assert forall i {:trigger f[i]} | 0 <= i < n :: f[i] == e[i];
      if e[n].key == 0 {
        UsedAtMost(f, keys);
      } else {
        assert e[n].key in keys;
        forall i {:trigger f[i]} | 0 <= i < |f| && f[i].key != 0 ensures f[i].key in keys - {e[n].key} {
          assert e[i].key != e[n].key;
        }
        UsedAtMost(f, keys - {e[n].key});
      }
    }
  }

  lemma KeysDiffer(hash: Hash, e: seq<Entry>)
    requires WellFormed(hash, e) && L.ProperKeys(e) && L.NoMarks(e)
    ensures forall i, k {:trigger e[i], e[k]} | 0 <= i < |e| && 0 <= k < |e| && i != k && e[i].key != 0 ::
              e[k].key != e[i].key
    ensures forall i {:trigger e[i]} | 0 <= i < |e| && e[i].key != 0 :: IsKey(e[i].key)
  {
  }

  lemma {:induction false} AllUsed(e: seq<Entry>)
    requires forall i {:trigger e[i]} | 0 <= i < |e| :: e[i].key != 0
    ensures Used(e) == |e|
  {
    if e != [] { AllUsed(e[..|e| - 1]); }
  }

  /** A search that has met an unused slot, or all slots, has a key that is not in the map. */
  lemma Misses(hash: Hash, e: seq<Entry>, keys: set<int>, model: map<int, int>, key: int, i: int)
    requires SlotsFollow(hash, e, keys, model) && key > 0 && 0 <= i < |e| && Passed(hash, e, key, i)
    requires e[i].key == 0 || (e[i].key != key && NextSlot(i, |e|) == Home(hash, key, |e|))
    ensures !HasKey(e, key) && key !in model
    ensures e[i].key != 0 ==> key !in keys
  {
    KeysDiffer(hash, e);
    forall k {:trigger e[k]} | 0 <= k < |e| ensures e[k].key != key {
      assert e[k].key != 0 ==> Reachable(hash, e, k) && Base(e[k].key) == e[k].key;
    }
    ValOfAbsent(e, key);
    assert key in model ==> L.Lookup(model, key) == L.ValueOf(e, [], key);
    if e[i].key != 0 && key in keys {
      forall k {:trigger e[k]} | 0 <= k < |e| ensures e[k].key != 0 {
      }
      AllUsed(e);
      UsedAtMost(e, keys - {key});
    }
  }

  /** The effect that a step has, seen from how the thread goes on. */
  function Taken(n: nat, pc: Pc, pc': Pc): seq<Event> {
    if (pc.Probe? || pc.Fill? || pc.ReadVal? || pc.Swap?)
      && (pc'.Bump? || pc'.Leave?) then [Acts(n, pc'.job.got)] else []
  }

  function StatusAfter(st: Status, pc: Pc, pc': Pc, move: Move): Status {
    if pc.Idle? then Pending(Called(move.job))
    else if pc.Leave? && pc'.Idle? then Ready
    else if Taken(0, pc, pc') != [] && st.Pending? then Decided(st.job, pc'.job.got)
    else st
  }

  function ModelAfter(model: map<int, int>, st: Status, pc: Pc, pc': Pc): map<int, int> {
    if Taken(0, pc, pc') != [] && st.Pending? then Effect(model, st.job) else model
  }

  predicate OneTable(m: Memory) { |m.tables| == 1 && m.state == L.Initial && !m.tables[0].assimilated }

  /** What a step makes of the map and of the call, and that it is right. */
  ghost predicate Explained(hash: Hash, keys: set<int>, m: Memory, pc: Pc, move: Move, model: map<int, int>, st: Status,
                            m': Memory, pc': Pc)
    requires OneTable(m)
  {
    var e, model' := m.tables[0].slots, ModelAfter(model, st, pc, pc');
    && OneTable(m') && SlotsFollow(hash, m'.tables[0].slots, keys, model') && Stays(e, m'.tables[0].slots)
    && PcFollows(hash, m'.tables[0].slots, keys, pc', StatusAfter(st, pc, pc', move))
    && (Taken(0, pc, pc') != [] ==> st.Pending? && RightAnswer(model, st.job, pc'.job.got))
    && (pc.Leave? && pc'.Idle? ==> st == Decided(Called(pc.job), pc.job.got))
  }

  ghost predicate FollowsAt(hash: Hash, keys: set<int>, m: Memory, pc: Pc, model: map<int, int>, st: Status) {
    && OneTable(m) && SlotsFollow(hash, m.tables[0].slots, keys, model)
    && PcFollows(hash, m.tables[0].slots, keys, pc, st) && Fits(m, pc)
  }

  /** Steps that only read. */
  lemma CalmStep(hash: Hash, keys: set<int>, m: Memory, pc: Pc, move: Move, model: map<int, int>, st: Status)
    requires FollowsAt(hash, keys, m, pc, model, st) && JobOk(move.job)
    requires pc.Idle? || pc.CheckState? || pc.Enter? || pc.Leave? || pc.CheckSize?
    requires pc.Idle? && move.job.op == Adding ==> move.job.key in keys
    ensures var (m', pc') := Act(hash, m, pc, move.job, move.granted);
      Explained(hash, keys, m, pc, move, model, st, m', pc')
  {
    hide SlotsFollow;
  }

  /** A step of a search. */
  lemma ProbeStep(hash: Hash, keys: set<int>, m: Memory, pc: Pc, move: Move, model: map<int, int>, st: Status)
    requires FollowsAt(hash, keys, m, pc, model, st) && pc.Probe?
    ensures var (m', pc') := Act(hash, m, pc, move.job, move.granted);
      Explained(hash, keys, m, pc, move, model, st, m', pc')
  {
    var e, j, i := m.tables[0].slots, pc.job, pc.i;
    if e[i].key == 0 || (e[i].key != j.key && NextSlot(i, |e|) == Home(hash, j.key, |e|)) {
      Misses(hash, e, keys, model, j.key, i);
      assert j.op == Removing ==> model - {j.key} == model;
    }
    hide SlotsFollow, IsKey;
  }

  /** A slot is claimed for a key; as long as it has no value that changes nothing. */
  lemma ClaimStep(hash: Hash, keys: set<int>, m: Memory, pc: Pc, move: Move, model: map<int, int>, st: Status)
    requires FollowsAt(hash, keys, m, pc, model, st) && pc.Claim?
    ensures var (m', pc') := Act(hash, m, pc, move.job, move.granted);
      Explained(hash, keys, m, pc, move, model, st, m', pc')
  {
    var e, j, i := m.tables[0].slots, pc.job, pc.i;
    if e[i].key == 0 {
      Misses(hash, e, keys, model, j.key, i);
      L.SoundInsert(hash, e, [], model, i, j.key, TOMBSTONE);
      assert model - {j.key} == model;
      hide L.Sound;
      var e' := e[i := Entry(j.key, TOMBSTONE)];
      assert SlotsFollow(hash, e', keys, model);
      assert forall x {:trigger e'[x]} | Before(Home(hash, j.key, |e'|), x, i, |e'|) :: e'[x] == e[x];
      hide SlotsFollow, IsKey;
    } else {
      hide SlotsFollow, IsKey;
    }
  }

  /** A value is stored in the slot of a key. */
  lemma StoreFollows(hash: Hash, keys: set<int>, e: seq<Entry>, model: map<int, int>, i: int, val: int)
    requires SlotsFollow(hash, e, keys, model) && 0 <= i < |e| && e[i].key > 0
    ensures SlotsFollow(hash, e[i := Entry(e[i].key, val)], keys, L.Bind(model, e[i].key, val))
    ensures Stays(e, e[i := Entry(e[i].key, val)])
  {
    KeysDiffer(hash, e);
    L.SoundStore(hash, e, [], model, i, val);
  }

  lemma FillStep(hash: Hash, keys: set<int>, m: Memory, pc: Pc, move: Move, model: map<int, int>, st: Status)
    requires FollowsAt(hash, keys, m, pc, model, st) && pc.Fill?
    ensures var (m', pc') := Act(hash, m, pc, move.job, move.granted);
      Explained(hash, keys, m, pc, move, model, st, m', pc')
  {
    StoreFollows(hash, keys, m.tables[0].slots, model, pc.i, pc.job.val);
    hide SlotsFollow, IsKey, Passed;
  }

  lemma SwapStep(hash: Hash, keys: set<int>, m: Memory, pc: Pc, move: Move, model: map<int, int>, st: Status)
    requires FollowsAt(hash, keys, m, pc, model, st) && pc.Swap?
    ensures var (m', pc') := Act(hash, m, pc, move.job, move.granted);
      Explained(hash, keys, m, pc, move, model, st, m', pc')
  {
    StoreFollows(hash, keys, m.tables[0].slots, model, pc.i, if pc.job.op == Adding then pc.job.val else TOMBSTONE);
    hide SlotsFollow, IsKey, Passed;
  }

  /** The value of a key is read. */
  lemma ReadStep(hash: Hash, keys: set<int>, m: Memory, pc: Pc, move: Move, model: map<int, int>, st: Status)
    requires FollowsAt(hash, keys, m, pc, model, st) && pc.ReadVal?
    ensures var (m', pc') := Act(hash, m, pc, move.job, move.granted);
      Explained(hash, keys, m, pc, move, model, st, m', pc')
  {
    var e, i := m.tables[0].slots, pc.i;
    KeysDiffer(hash, e);
    ValAt(e, i);
    assert L.Lookup(model, e[i].key) == L.ValueOf(e, [], e[i].key);
    hide SlotsFollow, IsKey, Passed;
  }

  /** A slot is counted, which does not make the table grow. */
  lemma BumpStep(hash: Hash, keys: set<int>, m: Memory, pc: Pc, move: Move, model: map<int, int>, st: Status)
    requires FollowsAt(hash, keys, m, pc, model, st) && pc.Bump? && m.tables[0].count < Used(m.tables[0].slots)
    ensures var (m', pc') := Act(hash, m, pc, move.job, move.granted);
      Explained(hash, keys, m, pc, move, model, st, m', pc')
  {
    var e := m.tables[0].slots;
    KeysDiffer(hash, e);
    UsedAtMost(e, keys);
    hide L.Sound;
  }

  lemma ActFollows(hash: Hash, keys: set<int>, m: Memory, pc: Pc, move: Move, model: map<int, int>, st: Status)
    requires FollowsAt(hash, keys, m, pc, model, st) && JobOk(move.job)
    requires pc.Idle? && move.job.op == Adding ==> move.job.key in keys
    requires pc.Bump? ==> m.tables[0].count < Used(m.tables[0].slots)
    ensures var (m', pc') := Act(hash, m, pc, move.job, move.granted);
      Explained(hash, keys, m, pc, move, model, st, m', pc')
  {
    hide Act, Explained, Fits, SlotsFollow;
    if pc.Probe? { ProbeStep(hash, keys, m, pc, move, model, st); }
    else if pc.Claim? { ClaimStep(hash, keys, m, pc, move, model, st); }
    else if pc.Fill? { FillStep(hash, keys, m, pc, move, model, st); }
    else if pc.Swap? { SwapStep(hash, keys, m, pc, move, model, st); }
    else if pc.ReadVal? { ReadStep(hash, keys, m, pc, move, model, st); }
    else if pc.Bump? { BumpStep(hash, keys, m, pc, move, model, st); }
    else { CalmStep(hash, keys, m, pc, move, model, st); }
  }

  // ---------- Every run ----------

  function After(sp: Spec, events: seq<Event>): Spec
    requires Accepted(sp, events)
    decreases |events|
  {
    if events == [] then sp else After(Next(sp, events[0]), events[1..])
  }

  lemma {:induction false} AcceptedOn(sp: Spec, a: seq<Event>, b: seq<Event>)
    requires Accepted(sp, a) && Accepted(After(sp, a), b)
    ensures Accepted(sp, a + b) && Visible(a + b) == Visible(a) + Visible(b)
    decreases |a|
  {
    if a == [] {
      assert a + b == b;
    } else {
      assert (a + b)[1..] == a[1..] + b;
      AcceptedOn(Next(sp, a[0]), a[1..], b);
    }
  }

  /** The thread that counts a slot has not been counted yet. */
  lemma BumpIsOwed(hash: Hash, s: System, n: nat)
    requires Inv(hash, s) && n < |s.threads| && s.threads[n].Bump? && s.threads[n].t == 0 < |s.m.tables|
    ensures s.m.tables[0].count < Used(s.m.tables[0].slots)
  {
    InsertersAfter(s.threads, n, Idle, 0);
    InsertersNatural(s.threads[n := Idle], 0);
    assert Uncounted(s.m, 0) == Inserters(s.threads, 0);
  }

  /** The step of one thread leaves the others where they are. */
  lemma OthersFollow(hash: Hash, s: System, keys: set<int>, sp: Spec, n: nat, m': Memory, pc': Pc,
                     model': map<int, int>, st': Status)
    requires Follows(hash, s, keys, sp) && n < |s.threads| && OneTable(m')
    requires var e, e' := s.m.tables[0].slots, m'.tables[0].slots;
      SlotsFollow(hash, e', keys, model') && Stays(e, e') && PcFollows(hash, e', keys, pc', st')
    ensures Follows(hash, System(m', s.threads[n := pc']), keys, Spec(model', sp.calls[n := st']))
  {
    var e, e', s', sp' := s.m.tables[0].slots, m'.tables[0].slots, s.threads[n := pc'], sp.calls[n := st'];
    assert L.NoMarks(e) && L.ProperKeys(e);
    hide SlotsFollow, PcFollows, Stays;
    forall i {:trigger s'[i]} | 0 <= i < |s'| ensures PcFollows(hash, e', keys, s'[i], sp'[i]) {
      if i != n { PcStaysThere(hash, e, e', keys, s.threads[i], sp.calls[i]); }
    }
  }

  /** The events of one step: what can be seen of it, or an effect. */
  function Events(s: System, move: Move, pc': Pc): seq<Event>
    requires move.thread < |s.threads| && Fits(s.m, s.threads[move.thread])
  {
    Seen(s.m, s.threads[move.thread], move) + Taken(move.thread, s.threads[move.thread], pc')
  }

  lemma OneEvent(sp: Spec, e: Event)
    requires Allowed(sp, e)
    ensures Accepted(sp, [e]) && After(sp, [e]) == Next(sp, e) && Visible([e]) == if e.Acts? then [] else [e]
  {
    assert [e][1..] == [];
  }

  /** These events are accepted, and lead to where the thread is. */
  lemma EventsFit(m: Memory, pc: Pc, move: Move, sp: Spec, pc': Pc)
    requires move.thread < |sp.calls| && Fits(m, pc)
    requires var st := sp.calls[move.thread];
      && (pc.Idle? ==> st == Ready)
      && (Taken(0, pc, pc') != [] ==> st.Pending? && RightAnswer(sp.model, st.job, pc'.job.got))
      && (pc.Leave? ==> (pc'.Idle? <==> pc.job.back.External? && !m.tables[pc.t].assimilated))
      && (pc.Leave? && pc'.Idle? ==> st == Decided(Called(pc.job), pc.job.got))
    ensures var n := move.thread; var events := Seen(m, pc, move) + Taken(n, pc, pc');
      && Accepted(sp, events) && Visible(events) == Seen(m, pc, move)
      && After(sp, events) ==
         Spec(ModelAfter(sp.model, sp.calls[n], pc, pc'), sp.calls[n := StatusAfter(sp.calls[n], pc, pc', move)])
  {
    var n := move.thread;
    var st, a, b := sp.calls[n], Seen(m, pc, move), Taken(n, pc, pc');
    hide Fits, RightAnswer;
    assert sp.calls[n := st] == sp.calls;
    if a != [] {
      OneEvent(sp, a[0]);
      assert a == [a[0]] && a + b == a;
    } else if b != [] {
      OneEvent(sp, b[0]);
      assert b == [b[0]] && a + b == b;
    } else {
      assert a + b == [];
    }
  }

  lemma StepFollows(hash: Hash, s: System, move: Move, keys: set<int>, sp: Spec)
    requires Inv(hash, s) && Follows(hash, s, keys, sp) && move.thread < |s.threads| && JobOk(move.job)
    requires Fits(s.m, s.threads[move.thread]) && AddsOnly(Seen(s.m, s.threads[move.thread], move), keys)
    ensures var s' := Step(hash, s, move);
      var events := Events(s, move, s'.threads[move.thread]);
      && Accepted(sp, events) && Visible(events) == Seen(s.m, s.threads[move.thread], move)
      && Follows(hash, s', keys, After(sp, events))
  {
    var n, s' := move.thread, Step(hash, s, move);
    var pc, pc', st := s.threads[n], s'.threads[n], sp.calls[n];
    if pc.Idle? { assert Begins(n, Called(move.job)) in Seen(s.m, pc, move); }
    if pc.Bump? { BumpIsOwed(hash, s, n); }
    assert PcFollows(hash, s.m.tables[0].slots, keys, pc, st);
    ActFollows(hash, keys, s.m, pc, move, sp.model, st);
    hide Inv, SlotsFollow, Stays, AddsOnly, Fits;
    OthersFollow(hash, s, keys, sp, n, s'.m, pc', ModelAfter(sp.model, st, pc, pc'), StatusAfter(st, pc, pc', move));
    EventsFit(s.m, pc, move, sp, pc');
  }

  lemma {:induction false} RunFollows(hash: Hash, s: System, moves: seq<Move>, keys: set<int>, sp: Spec)
    returns (events: seq<Event>)
    requires Inv(hash, s) && Legal(|s.threads|, moves) && Follows(hash, s, keys, sp)
    requires AddsOnly(History(hash, s, moves), keys)
    ensures Accepted(sp, events) && Visible(events) == History(hash, s, moves)
    decreases |moves|
  {
    events := [];
    if moves != [] {
      var move := moves[0];
      StepInv(hash, s, move);
      var s' := Step(hash, s, move);
      var a, h := Seen(s.m, s.threads[move.thread], move), History(hash, s', moves[1..]);
      assert History(hash, s, moves) == a + h;
      assert AddsOnly(a, keys) && AddsOnly(h, keys) by {
        assert forall e {:trigger e in a} {:trigger e in h} :: e in a || e in h ==> e in a + h;
      }
      StepFollows(hash, s, move, keys, sp);
      hide Inv, Follows, History;
      var now := Events(s, move, s'.threads[move.thread]);
      var later := RunFollows(hash, s', moves[1..], keys, After(sp, now));
      AcceptedOn(sp, now, later);
      events := now + later;
    }
  }

  lemma StartFollows(hash: Hash, threads: nat, max: nat, keys: set<int>)
    requires 0 < max <= L.MAX_TABLE_SIZE && IsPowerOfTwo(max) && |keys| <= Capacity(max)
    ensures Follows(hash, Start(hash, threads, max), keys, NoCalls(threads))
  {
    var s := AllIdle(threads, max);
    L.SoundStart(hash, s.m.tables[0].slots);
  }
}
