/** The expanding hash table, run by one thread at a time. */
module Lfht {
  import opened Arithmetic
  import opened ProbeTable

  /** Slots hold 0, a key, or a key marked as moved. */
  ghost predicate ProperKeys(e: seq<Entry>) {
    forall i {:trigger e[i]} | 0 <= i < |e| && e[i].key != 0 ::
      IsKey(Base(e[i].key)) && (IsAssimilated(e[i].key) ==> e[i].key == Base(e[i].key) + 1)
  }

  ghost predicate NoMarks(e: seq<Entry>) {
    forall i {:trigger e[i]} | 0 <= i < |e| :: !IsAssimilated(e[i].key)
  }

  function Lookup(model: map<int, int>, k: int): int { if k in model then model[k] else TOMBSTONE }

  /** The value of a key: in the old table if it is still there, else in the current one. */
  ghost function ValueOf(cur: seq<Entry>, prev: seq<Entry>, k: int): int {
    if HasKey(prev, k) then Val(prev, k) else Val(cur, k)
  }

  /** Two tables, of which `prev` is being emptied into `cur`, together represent `model`. */
  ghost predicate Sound(hash: Hash, cur: seq<Entry>, prev: seq<Entry>, model: map<int, int>) {
    && WellFormed(hash, cur) && ProperKeys(cur) && NoMarks(cur)
    && (prev == [] || WellFormed(hash, prev)) && ProperKeys(prev)
    && (forall k {:trigger HasKey(cur, k), HasKey(prev, k)} | IsKey(k) :: !(HasKey(cur, k) && HasKey(prev, k)))
    && (forall k {:trigger k in model} | k in model :: IsKey(k) && model[k] != TOMBSTONE)
    && (forall k {:trigger Lookup(model, k)} | IsKey(k) :: Lookup(model, k) == ValueOf(cur, prev, k))
  }

  ghost function Bind(model: map<int, int>, k: int, v: int): map<int, int> {
    if v == TOMBSTONE then model - {k} else model[k := v]
  }

  /** Claiming a slot of the current table for a new key. */
  lemma SoundInsert(hash: Hash, cur: seq<Entry>, prev: seq<Entry>, model: map<int, int>, i: int, key: int, val: int)
    requires Sound(hash, cur, prev, model) && IsKey(key)
    requires 0 <= i < |cur| && cur[i].key == 0 && !HasKey(cur, key) && !HasKey(prev, key)
    requires forall x {:trigger cur[x]} | Before(Home(hash, key, |cur|), x, i, |cur|) :: cur[x].key != 0
    ensures Sound(hash, cur[i := Entry(key, val)], prev, Bind(model, key, val))
  {
    var cur' := cur[i := Entry(key, val)];
    InsertKeepsWellFormed(hash, cur, i, key, val);
    forall k {:trigger HasKey(cur', k), HasKey(prev, k)} | IsKey(k) ensures !(HasKey(cur', k) && HasKey(prev, k)) {
      if k != key { HasOther(cur, i, Entry(key, val), k); }
    }
    ValAt(cur', i);
    forall k {:trigger Lookup(Bind(model, key, val), k)} | IsKey(k)
      ensures Lookup(Bind(model, key, val), k) == ValueOf(cur', prev, k)
    {
      assert Lookup(model, k) == ValueOf(cur, prev, k);
      if k != key { ValOfOther(cur, i, Entry(key, val), k); }
    }
  }

  /** Storing a value, possibly TOMBSTONE, for a key of the current table. */
  lemma SoundStore(hash: Hash, cur: seq<Entry>, prev: seq<Entry>, model: map<int, int>, i: int, val: int)
    requires Sound(hash, cur, prev, model) && 0 <= i < |cur| && IsKey(cur[i].key)
    ensures Sound(hash, cur[i := Entry(cur[i].key, val)], prev, Bind(model, cur[i].key, val))
  {
    var key := cur[i].key;
    var x := Entry(key, val);
    var cur' := cur[i := x];
    StoreKeepsWellFormed(hash, cur, i, x);
    assert HasKey(cur, key) && cur'[i].key == key;
    forall k {:trigger HasKey(cur', k), HasKey(prev, k)} | IsKey(k) ensures !(HasKey(cur', k) && HasKey(prev, k)) {
      if k != key { HasOther(cur, i, x, k); }
    }
    assert forall y {:trigger cur'[y]} | 0 <= y < |cur'| && y != i :: cur'[y].key != key by {
      assert forall y {:trigger cur[y]} | 0 <= y < |cur| && y != i && cur[y].key != 0 :: Base(cur[y].key) != Base(key);
    }
    ValAt(cur', i);
    forall k {:trigger Lookup(Bind(model, key, val), k)} | IsKey(k)
      ensures Lookup(Bind(model, key, val), k) == ValueOf(cur', prev, k)
    {
      assert Lookup(model, k) == ValueOf(cur, prev, k);
      if k != key { ValOfOther(cur, i, x, k); }
    }
  }

  lemma MarkedIsGone(hash: Hash, prev: seq<Entry>, s: int)
    requires WellFormed(hash, prev) && ProperKeys(prev) && 0 <= s < |prev| && IsKey(prev[s].key)
    ensures var prev' := prev[s := Entry(SetAssimilated(prev[s].key), prev[s].val)];
      && WellFormed(hash, prev') && ProperKeys(prev') && !HasKey(prev', prev[s].key)
    ensures forall y {:trigger prev[y]} | 0 <= y < |prev| && y != s :: prev[y].key != prev[s].key
  {
    MarkFacts(prev[s].key);
    hide Base, SetAssimilated, IsAssimilated;
    var x := Entry(SetAssimilated(prev[s].key), prev[s].val);
    var prev' := prev[s := x];
    StoreKeepsWellFormed(hash, prev, s, x);
    forall y {:trigger prev[y]} | 0 <= y < |prev| && y != s ensures prev[y].key != prev[s].key {
      assert prev[y].key != 0 ==> Base(prev[y].key) != Base(prev[s].key);
    }
    forall y {:trigger prev'[y]} | 0 <= y < |prev'| ensures prev'[y].key != prev[s].key {
      assert y != s ==> prev'[y] == prev[y];
    }
  }

  /** Marking the slot of an entry: what is left represents the map without its key. */
  lemma SoundMark(hash: Hash, cur: seq<Entry>, prev: seq<Entry>, model: map<int, int>, s: int)
    requires Sound(hash, cur, prev, model) && 0 <= s < |prev| && IsKey(prev[s].key)
    ensures Sound(hash, cur, prev[s := Entry(SetAssimilated(prev[s].key), prev[s].val)], model - {prev[s].key})
    ensures !HasKey(prev[s := Entry(SetAssimilated(prev[s].key), prev[s].val)], prev[s].key)
    ensures !HasKey(cur, prev[s].key) && Lookup(model, prev[s].key) == prev[s].val
  {
    MarkedIsGone(hash, prev, s);
    var key := prev[s].key;
    var x := Entry(SetAssimilated(key), prev[s].val);
    var prev', model' := prev[s := x], model - {key};
    assert HasKey(prev, key) && Lookup(model, key) == ValueOf(cur, prev, key);
    ValAt(prev, s);
    ValOfAbsent(cur, key);
    forall k {:trigger HasKey(cur, k), HasKey(prev', k)} | IsKey(k) ensures !(HasKey(cur, k) && HasKey(prev', k)) {
      if k != key { HasOther(prev, s, x, k); }
    }
    forall k {:trigger Lookup(model', k)} | IsKey(k) ensures Lookup(model', k) == ValueOf(cur, prev', k) {
      assert Lookup(model, k) == ValueOf(cur, prev, k);
      if k != key {
        HasOther(prev, s, x, k);
        ValOfOther(prev, s, x, k);
      }
    }
  }

  /** Marking the slot of an entry whose value has been removed: it need not be moved. */
  lemma SoundDrop(hash: Hash, cur: seq<Entry>, prev: seq<Entry>, model: map<int, int>, s: int)
    requires Sound(hash, cur, prev, model) && 0 <= s < |prev| && IsKey(prev[s].key) && prev[s].val == TOMBSTONE
    ensures Sound(hash, cur, prev[s := Entry(SetAssimilated(prev[s].key), prev[s].val)], model)
  {
    SoundMark(hash, cur, prev, model, s);
    assert model - {prev[s].key} == model;
  }

  /** Nothing is left to move from a slot. */
  predicate Spent(e: Entry) { e.key == 0 || IsAssimilated(e.key) }

  ghost predicate AllSpent(e: seq<Entry>) {
    forall x {:trigger e[x]} | 0 <= x < |e| :: Spent(e[x])
  }

  /** When every entry has been moved the old table can be forgotten. */
  lemma SoundFinish(hash: Hash, cur: seq<Entry>, prev: seq<Entry>, model: map<int, int>)
    requires Sound(hash, cur, prev, model)
    requires AllSpent(prev)
    ensures Sound(hash, cur, [], model)
  {
    forall k {:trigger Lookup(model, k)} | IsKey(k) ensures Lookup(model, k) == ValueOf(cur, [], k) {
      assert Lookup(model, k) == ValueOf(cur, prev, k);
      assert !HasKey(prev, k);
    }
  }

  /** A fresh table in front of the current one. */
  lemma SoundGrow(hash: Hash, blank: seq<Entry>, cur: seq<Entry>, model: map<int, int>)
    requires Sound(hash, cur, [], model) && |blank| > 0
    requires forall i {:trigger blank[i]} | 0 <= i < |blank| :: blank[i] == Entry(0, 0)
    ensures Sound(hash, blank, cur, model)
  {
    forall k {:trigger Lookup(model, k)} | IsKey(k) ensures Lookup(model, k) == ValueOf(blank, cur, k) {
      assert Lookup(model, k) == ValueOf(cur, [], k);
      ValOfAbsent(blank, k);
      if !HasKey(cur, k) { ValOfAbsent(cur, k); }
    }
  }

  // ---------- The tables ----------

  const MIGRATIONS_PER_ACCESS: int := 3
  const MAX_TABLE_SIZE: int := 0x8000_0000

  datatype LfhtState = Initial | Expanding | Expanded

  datatype Outcome = Found | Vacant | Full

  /** The number of used slots beyond which a table of `max` slots grows. */
  function Threshold(max: int): int { 3 * max / 5 }

  lemma LargestSize()
    ensures IsPowerOfTwo(MAX_TABLE_SIZE)
  {
    Halves(31);
    LargePowers();
  }

  /** With three moves an access, the new table cannot fill up before the old one is empty. */
  lemma RoomWhileMigrating(max: int, count: int, moved: int)
    requires max > 0 && 3 * count <= 4 * moved && moved <= Threshold(max) + 1
    ensures count <= Threshold(2 * max)
  {
    if max >= 6 {
      assert 3 * count <= 4 * (3 * max / 5 + 1);
    }
  }

  class Table {
    const max: int
    const threshold: int
    const next: Table?
    const entries: array<Entry>
    var count: int
    var assimilated: bool

    ghost predicate Shaped()
      reads this, entries
    {
      && 0 < max <= MAX_TABLE_SIZE && IsPowerOfTwo(max) && threshold == Threshold(max)
      && entries.Length == max && count == Used(entries[..])
    }

    constructor (max: int, next: Table?)
      requires 0 < max <= MAX_TABLE_SIZE && IsPowerOfTwo(max)
      ensures Shaped() && this.max == max && this.next == next && count == 0 && !assimilated
      ensures fresh(entries)
      ensures forall i {:trigger entries[i]} | 0 <= i < max :: entries[i] == Entry(0, 0)
    {
      this.max := max;
      threshold := 3 * max / 5;
      this.next := next;
      count := 0;
      assimilated := false;
      var table := new Entry[max](_ => Entry(0, 0));
      entries := table;
      new;
      EmptyTable(entries[..]);
    }

    /** Follows the probe sequence of a key up to the key or an unused slot. */
    method Probe(hash: Hash, key: int) returns (outcome: Outcome, i: int)
      requires entries.Length == max && max > 0 && key != 0
      ensures 0 <= i < max
      ensures outcome == Found ==> entries[i].key == key
      ensures outcome == Vacant ==> entries[i].key == 0
      ensures outcome == Full ==> forall x {:trigger entries[x]} | 0 <= x < max ::
                entries[x].key != 0 && entries[x].key != key
      ensures outcome != Full ==> forall x {:trigger entries[x]} | Before(Home(hash, key, max), x, i, max) ::
                  entries[x].key != 0 && entries[x].key != key
    {
      var j := hash(key) % max;
      i := j;
      while true
        invariant 0 <= i < max && 0 <= j < max
        invariant forall x {:trigger entries[x]} | Before(j, x, i, max) :: entries[x].key != 0 && entries[x].key != key
        decreases max - Dist(j, i, max)
      {
        if entries[i].key == 0 { return Vacant, i; }
        if entries[i].key == key { return Found, i; }
        var next := NextSlot(i, max);
        if next == j { return Full, i; }
        i := next;
      }
    }
  }

  /** What holds between a growth and the end of the migration that it starts, in numbers. */
  predicate OnSchedule(max: int, count: int, oldMax: int, oldCount: int, moved: int, taxed: int) {
    && oldMax > 0 && max == 2 * oldMax && oldCount <= Threshold(oldMax) + 1
    && 0 <= 3 * count <= 4 * moved
    && 0 <= 3 * taxed <= moved
  }

  lemma {:induction false} ZeroIsUnused(e: seq<Entry>, i: int)
    requires 0 <= i < |e| && e[i].key == 0
    ensures Used(e) < |e|
  {
    var n := |e| - 1;
    CountBounds(e[..n]);
    if i < n { ZeroIsUnused(e[..n], i); }
  }

  /** A slot of a table tells that its key is there, and an unused one that the table is not full. */
  lemma SlotTells(e: seq<Entry>, i: int)
    requires 0 <= i < |e|
    ensures HasKey(e, e[i].key) && (e[i].key == 0 ==> Used(e) < |e|)
  {
    if e[i].key == 0 { ZeroIsUnused(e, i); }
  }

  /** A hash that gives key 16 * (i + 1) slot `i` of any table that has one. */
  function Spread(key: int): nat { if key >= KEY_ALIGNMENT then key / KEY_ALIGNMENT - 1 else 0 }

  lemma SpreadFacts(n: nat, m: nat)
    requires 0 < m <= n
    ensures Home(Spread, KEY_ALIGNMENT * m, n) == m - 1 && IsKey(KEY_ALIGNMENT * m)
  {
  }

  lemma SoundStart(hash: Hash, e: seq<Entry>)
    requires |e| > 0 && forall i {:trigger e[i]} | 0 <= i < |e| :: e[i] == Entry(0, 0)
    ensures Sound(hash, e, [], map[])
  {
    forall k {:trigger Lookup(map[], k)} | IsKey(k) ensures Lookup(map[], k) == ValueOf(e, [], k) {
      ValOfAbsent(e, k);
    }
  }

  /** Keys that all have slots are no more than the slots in use. */
  lemma {:induction false} SlotsForKeys(e: seq<Entry>, keys: set<int>)
    requires forall k {:trigger k in keys} | k in keys :: k != 0 && HasKey(e, k)
    ensures |keys| <= Used(e)
    decreases |e|
  {
    if e == [] {
      assert keys == {} by { assert forall k {:trigger k in keys} :: k in keys ==> HasKey(e, k); }
    } else {
      var n := |e| - 1;
      var f, rest := e[..n], keys - {e[n].key};
      forall k {:trigger k in rest} | k in rest ensures k != 0 && HasKey(f, k) {
        assert k in keys;
        var i :| 0 <= i < |e| && e[i].key == k;
        assert f[i].key == k;
      }
      SlotsForKeys(f, rest);
      assert e[n].key == 0 ==> rest == keys;
    }
  }

  lemma ModelFits(hash: Hash, e: seq<Entry>, model: map<int, int>)
    requires Sound(hash, e, [], model)
    ensures |model| <= |e|
  {
    forall k {:trigger k in model.Keys} | k in model.Keys ensures k != 0 && HasKey(e, k) {
      assert Lookup(model, k) == ValueOf(e, [], k);
      if !HasKey(e, k) { ValOfAbsent(e, k); }
    }
    SlotsForKeys(e, model.Keys);
    CountBounds(e);
    assert |model| == |model.Keys|;
  }

  /** There are always keys that a table does not have. */
  method KeyBeyond(e: array<Entry>) returns (key: int)
    ensures IsKey(key) && !HasKey(e[..], key)
  {
    var n := 1;
    for i := 0 to e.Length
      invariant n > 0 && forall k {:trigger e[k]} | 0 <= k < i :: e[k].key < KEY_ALIGNMENT * n
    {
      if e[i].key >= KEY_ALIGNMENT * n { n := e[i].key / KEY_ALIGNMENT + 1; }
    }
    key := KEY_ALIGNMENT * n;
  }

  /** A key that is not in a table that was probed up to an unused slot, or all around. */
  lemma NotThere(hash: Hash, cur: seq<Entry>, prev: seq<Entry>, model: map<int, int>, key: int, i: int, full: bool)
    requires Sound(hash, cur, prev, model) && key != 0
    requires full ==> forall x {:trigger cur[x]} | 0 <= x < |cur| :: cur[x].key != key
    requires !full ==> 0 <= i < |cur| && cur[i].key == 0
    requires !full ==> forall x {:trigger cur[x]} | Before(Home(hash, key, |cur|), x, i, |cur|) :: cur[x].key != key
    ensures !HasKey(cur, key)
  {
    if IsKey(key) && !full {
      AbsentBeyondZero(hash, cur, key, i);
    }
  }

  /** The current table alone answers for a key that the old table does not hold. */
  lemma Answer(hash: Hash, cur: seq<Entry>, prev: seq<Entry>, model: map<int, int>, key: int)
    requires Sound(hash, cur, prev, model) && (IsKey(key) ==> !HasKey(prev, key))
    ensures !HasKey(cur, key) ==> key !in model
    ensures HasKey(cur, key) && key != 0 ==> IsKey(key)
    ensures forall i {:trigger cur[i]} | 0 <= i < |cur| && cur[i].key == key && key != 0 ::
              Lookup(model, key) == cur[i].val && (key in model <==> cur[i].val != TOMBSTONE)
  {
    if key in model {
      assert Lookup(model, key) == ValueOf(cur, prev, key);
      if !HasKey(cur, key) { ValOfAbsent(cur, key); }
    }
    forall i {:trigger cur[i]} | 0 <= i < |cur| && cur[i].key == key && key != 0
      ensures Lookup(model, key) == cur[i].val && IsKey(key)
    {
      assert Base(key) == key;
      assert Lookup(model, key) == ValueOf(cur, prev, key);
      ValAt(cur, i);
    }
  }

  /** The slots that the probe sequence from `j` visits before `i` have nothing left to move. */
  ghost predicate SpentUpTo(e: seq<Entry>, j: int, i: int) {
    forall x {:trigger e[x]} | Before(j, x, i, |e|) :: Spent(e[x])
  }

  ghost predicate MissUpTo(e: seq<Entry>, j: int, i: int, key: int) {
    forall x {:trigger e[x]} | Before(j, x, i, |e|) :: e[x].key != key
  }

  lemma NothingVisited(e: seq<Entry>, j: int, key: int)
    requires 0 <= j < |e|
    ensures SpentUpTo(e, j, j) && MissUpTo(e, j, j, key)
  {
  }

  /** The old table after its slot `s` was looked at. */
  ghost function Retired(prev: seq<Entry>, s: int): seq<Entry>
    requires 0 <= s < |prev|
  {
    if prev[s].key == 0 || IsAssimilated(prev[s].key) then prev
    else prev[s := Entry(SetAssimilated(prev[s].key), prev[s].val)]
  }

  lemma MarkedIsAssimilated(key: int)
    ensures IsAssimilated(SetAssimilated(key))
  {
    var marked := SetAssimilated(key);
    assert marked % 2 == 1;
    assert marked != 2 * (8 * (marked / 16));
  }

  lemma SpentOn(e: seq<Entry>, j: int, i: int)
    requires 0 <= i < |e| && 0 <= j < |e| && SpentUpTo(e, j, i)
    ensures var next := NextSlot(i, |e|);
      if next == j then AllSpent(Retired(e, i)) else SpentUpTo(Retired(e, i), j, next)
  {
    MarkedIsAssimilated(e[i].key);
    hide IsAssimilated, SetAssimilated;
  }

  lemma RetireFacts(hash: Hash, cur: seq<Entry>, prev: seq<Entry>, model: map<int, int>, s: int)
    requires Sound(hash, cur, prev, model) && 0 <= s < |prev| && prev[s].key != 0 && !IsAssimilated(prev[s].key)
    ensures IsKey(prev[s].key) && !HasKey(Retired(prev, s), prev[s].key)
    ensures Used(Retired(prev, s)) == Used(prev) && Moved(Retired(prev, s)) == Moved(prev) + 1
    ensures if prev[s].val == TOMBSTONE then Sound(hash, cur, Retired(prev, s), model)
            else
              && Sound(hash, cur, Retired(prev, s), model - {prev[s].key})
              && model == (model - {prev[s].key})[prev[s].key := prev[s].val]
  {
    assert IsKey(Base(prev[s].key)) && Base(prev[s].key) == prev[s].key;
    MarkFacts(prev[s].key);
    CountsAfterUpdate(prev, s, Entry(SetAssimilated(prev[s].key), prev[s].val));
    SoundMark(hash, cur, prev, model, s);
    if prev[s].val == TOMBSTONE { SoundDrop(hash, cur, prev, model, s); }
  }

  /** The probe sequence from `j` has gone past slot `i` without meeting `key`. */
  ghost predicate Missed(e: seq<Entry>, j: int, i: int, key: int) {
    && (NextSlot(i, |e|) == j ==> !HasKey(e, key))
    && (NextSlot(i, |e|) != j ==> MissUpTo(e, j, NextSlot(i, |e|), key))
  }

  /** What is known of `key` after slot `i` of its probe sequence was looked at. */
  lemma LookedAt(hash: Hash, cur: seq<Entry>, prev: seq<Entry>, model: map<int, int>, key: int, i: int)
    requires Sound(hash, cur, prev, model) && 0 <= i < |prev| && IsKey(key)
    ensures (prev[i].key == 0 || prev[i].key == SetAssimilated(key))
            && MissUpTo(prev, Home(hash, key, |prev|), i, key) ==>
              !HasKey(prev, key)
    ensures prev[i].key == key || !HasKey(prev, key) ==> !HasKey(Retired(prev, i), key)
    ensures prev[i].key != key && MissUpTo(prev, Home(hash, key, |prev|), i, key) ==>
              Missed(prev, Home(hash, key, |prev|), i, key) && Missed(Retired(prev, i), Home(hash, key, |prev|), i, key)
  {
    MarkFacts(key);
    if prev[i].key == SetAssimilated(key) {
      forall x {:trigger prev[x]} | 0 <= x < |prev| ensures prev[x].key != key {
        assert prev[x].key != 0 && x != i ==> Base(prev[x].key) != Base(prev[i].key);
      }
    }
    if prev[i].key == 0 && MissUpTo(prev, Home(hash, key, |prev|), i, key) {
      AbsentBeyondZero(hash, prev, key, i);
    }
    if !Spent(prev[i]) {
      RetireFacts(hash, cur, prev, model, i);
      if prev[i].key != key {
        MarkFacts(prev[i].key);
        HasOther(prev, i, Entry(SetAssimilated(prev[i].key), prev[i].val), key);
      }
    }
  }

  lemma ZeroIsNoKey(hash: Hash, cur: seq<Entry>, prev: seq<Entry>, model: map<int, int>)
    requires Sound(hash, cur, prev, model)
    ensures 0 !in model
  {
  }

  class Lfht {
    const hash: Hash
    var state: LfhtState
    var hdr: Table
    ghost var model: map<int, int>   // what the table stands for
    ghost var moved: int             // moves made by the current migration
    ghost var taxed: int             // accesses that paid for the current migration

    ghost function Footprint(): set<object>
      reads this, hdr
    {
      {this, hdr, hdr.entries} + if hdr.next == null then {} else {hdr.next, hdr.next.entries}
    }

    /** The table that is being emptied. */
    ghost function Prev(): seq<Entry>
      reads Footprint()
    {
      if state == Expanding && hdr.next != null then hdr.next.entries[..] else []
    }

    ghost predicate Shaped()
      reads Footprint()
    {
      && hdr.Shaped() && !hdr.assimilated
      && (state == Expanding ==> hdr.next != null && hdr.next.Shaped() && !hdr.next.assimilated)
      && (state != Expanding ==> hdr.next == null || hdr.next.assimilated)
      && (hdr.next != null ==> hdr.next != hdr && hdr.next.entries != hdr.entries)
    }

    ghost predicate Timely()
      reads Footprint()
    {
      && (state == Expanding && hdr.next != null ==>
            && OnSchedule(hdr.max, hdr.count, hdr.next.max, hdr.next.count, moved, taxed)
            && moved <= Moved(hdr.next.entries[..]))
      && (state != Expanding && hdr.max < MAX_TABLE_SIZE ==> hdr.count <= hdr.threshold)
    }

    ghost predicate Valid()
      reads Footprint()
    {
      Shaped() && Timely() && Sound(hash, hdr.entries[..], Prev(), model)
    }

    constructor (hash: Hash, max: int)
      requires 0 < max <= MAX_TABLE_SIZE && IsPowerOfTwo(max)
      ensures Valid() && fresh(Footprint()) && this.hash == hash && model == map[]
      ensures state == Initial && hdr.max == max
    {
      this.hash := hash;
      state := Initial;
      hdr := new Table(max, null);
      model := map[];
      moved, taxed := 0, 0;
      new;
      SoundStart(hash, hdr.entries[..]);
    }

    /** Puts a table of double size in front. Its predecessor is fully assimilated at that point. */
    method Grow()
      requires Shaped() && Sound(hash, hdr.entries[..], Prev(), model)
      requires state != Expanding && hdr.max < MAX_TABLE_SIZE && hdr.count <= hdr.threshold + 1
      modifies this
      ensures Valid() && model == old(model) && state == Expanding
      ensures fresh(hdr) && fresh(hdr.entries) && hdr.next == old(hdr) && hdr.max == 2 * old(hdr.max)
      ensures hdr.next.next == null || hdr.next.next.assimilated
      ensures taxed == 0
    {
      hide Sound, IsPowerOfTwo, IsKey;
      assert hdr.next == null || hdr.next.assimilated;
      LargestSize();
      DoublingFits(hdr.max, MAX_TABLE_SIZE);
      var ohdr := hdr;
      var nhdr := new Table(2 * ohdr.max, ohdr);
      SoundGrow(hash, nhdr.entries[..], ohdr.entries[..], model);
      hdr := nhdr;
      state := Expanding;
      moved, taxed := 0, 0;
      assert hdr.next.entries[..] == old(hdr.entries[..]);
      CountBounds(hdr.next.entries[..]);
    }

    /** Claims a slot of the current table for a key, or stores into the one that it has. */
    method Claim(key: int, val: int) returns (outcome: Outcome)
      requires Shaped() && Sound(hash, hdr.entries[..], Prev(), model)
      requires IsKey(key) && val != TOMBSTONE && !HasKey(Prev(), key)
      modifies this`model, hdr`count, hdr.entries
      ensures Shaped() && Sound(hash, hdr.entries[..], Prev(), model)
      ensures Prev() == old(Prev())
      ensures hdr.count == old(hdr.count) + (if outcome == Vacant then 1 else 0)
      ensures outcome != Full ==> model == Bind(old(model), key, val)
      ensures outcome == Full ==> model == old(model) && key !in model
      ensures outcome == Full <==> old(hdr.count == hdr.max && !HasKey(hdr.entries[..], key))
    {
      hide Sound, HasKey;
      ghost var cur, prev := hdr.entries[..], Prev();
      var i;
      outcome, i := hdr.Probe(hash, key);
      SlotTells(cur, i);
      if outcome == Vacant {
        NotThere(hash, cur, prev, model, key, i, false);
        SoundInsert(hash, cur, prev, model, i, key, val);
        CountsAfterUpdate(cur, i, Entry(key, val));
        hdr.entries[i] := Entry(key, val);
        hdr.count := hdr.count + 1;
        model := Bind(model, key, val);
        assert hdr.entries[..] == cur[i := Entry(key, val)];
      } else if outcome == Found {
        SoundStore(hash, cur, prev, model, i, val);
        CountsAfterUpdate(cur, i, Entry(key, val));
        hdr.entries[i] := Entry(key, val);
        model := Bind(model, key, val);
        assert hdr.entries[..] == cur[i := Entry(key, val)];
      } else {
        NotThere(hash, cur, prev, model, key, i, true);
        Answer(hash, cur, prev, model, key);
        CountBounds(cur);
      }
      assert Prev() == prev;
    }

    /** Adds to the current table, which grows when that leaves too many slots in use. */
    method Put(key: int, val: int) returns (r: bool)
      requires Shaped() && Sound(hash, hdr.entries[..], Prev(), model)
      requires IsKey(key) && val != TOMBSTONE && !HasKey(Prev(), key)
      requires state == Expanding ==> hdr.count < hdr.threshold
      requires state != Expanding && hdr.max < MAX_TABLE_SIZE ==> hdr.count <= hdr.threshold
      modifies this, hdr`count, hdr.entries
      ensures Shaped() && Sound(hash, hdr.entries[..], Prev(), model)
      ensures model == if r then old(model)[key := val] else old(model)
      ensures !r ==> key !in model && hdr == old(hdr)
      ensures !r <==> old(hdr.count == hdr.max && !HasKey(hdr.entries[..], key))
      ensures old(hdr.count < hdr.threshold) ==>
                && hdr == old(hdr) && state == old(state) && Prev() == old(Prev()) && moved == old(moved)
                && taxed == old(taxed)
                && old(hdr.count) <= hdr.count <= old(hdr.count) + 1
      ensures state != Expanding || old(hdr.count >= hdr.threshold) ==> Valid()
      ensures hdr != old(hdr) ==> fresh(hdr) && fresh(hdr.entries) && hdr.next == old(hdr) && old(state) != Expanding
      ensures hdr != old(hdr) ==> taxed == 0
    {
      hide Sound;
      var outcome := Claim(key, val);
      r := outcome != Full;
      if outcome == Vacant && hdr.count > hdr.threshold && hdr.max < MAX_TABLE_SIZE {
        Grow();
      }
    }

    /** Moves the entry of one slot of the old table, unless it was removed or moved before. */
    method MoveSlot(s: int) returns (n: int)
      requires Valid() && state == Expanding && hdr.next != null && 0 <= s < hdr.next.max
      modifies this, hdr`count, hdr.entries, hdr.next.entries
      ensures Valid() && state == Expanding && hdr == old(hdr) && model == old(model) && taxed == old(taxed)
      ensures 0 <= n <= 1 && moved == old(moved) + n && hdr.count <= old(hdr.count) + n
      ensures Prev() == Retired(old(Prev()), s)
    {
      hide Sound, IsAssimilated, SetAssimilated, Moved, Used;
      ghost var cur, prev := hdr.entries[..], Prev();
      n := 0;
      var e := hdr.next.entries[s];
      if e.key != 0 && !IsAssimilated(e.key) {
        RetireFacts(hash, cur, prev, model, s);
        hdr.next.entries[s] := Entry(SetAssimilated(e.key), e.val);
        assert Prev() == Retired(prev, s);
        CountBounds(Prev());
        if e.val != TOMBSTONE {
          model := model - {e.key};
          RoomWhileMigrating(hdr.next.max, hdr.count + 1, moved + 1);
          var r := Put(e.key, e.val);
          assert r;
          assert model == old(model);
          n := 1;
          moved := moved + 1;
        }
      }
    }

    /**
     * Moves at least `count` entries out of the old table if there are that many, starting where `key` may lie,
     * and makes sure that `key` itself is moved. A result below `count` means that nothing is left to move.
     */
    method Assimilate(key: int, count: int) returns (retval: int)
      requires Valid() && state == Expanding && hdr.next != null && key > 0 && count > 0
      modifies this, hdr`count, hdr.entries, hdr.next.entries
      ensures Valid() && state == Expanding && hdr == old(hdr) && model == old(model) && taxed == old(taxed)
      ensures retval >= 0 && moved == old(moved) + retval && hdr.count <= old(hdr.count) + retval
      ensures !IsKey(key) || !HasKey(Prev(), key)
      ensures retval < count ==> AllSpent(Prev())
    {
      hide Sound, OnSchedule, IsAssimilated, SetAssimilated, IsPowerOfTwo, HasKey, IsKey, SpentUpTo, AllSpent, MissUpTo,
           Retired;
      assert |Prev()| == hdr.next.max == hdr.next.entries.Length && hdr.next.max > 0;
      hide Valid;
      NothingVisited(Prev(), hash(key) % hdr.next.max, key);
      var success, moveit := false, false;
      var dkey := SetAssimilated(key);
      retval := 0;
      var max := hdr.next.max;
      var j := hash(key) % max;
      var i := j;
      while true
        invariant Valid() && state == Expanding && hdr == old(hdr) && model == old(model) && taxed == old(taxed)
        invariant hdr.next != null && max == |Prev()| && !moveit
        invariant 0 <= i < max && 0 <= j < max && retval >= 0 && moved == old(moved) + retval
        invariant hdr.count <= old(hdr.count) + retval
        invariant retval < count ==> SpentUpTo(Prev(), j, i)
        invariant !success && IsKey(key) ==> MissUpTo(Prev(), j, i, key)
        invariant success && IsKey(key) ==> !HasKey(Prev(), key)
        decreases max - Dist(j, i, max)
      {
        ghost var prev := Prev();
        ValidIsSound();
        if retval < count { SpentOn(prev, j, i); }
        if IsKey(key) { LookedAt(hash, hdr.entries[..], prev, model, key, i); }
        var entry := hdr.next.entries[i];
        if entry.key == 0 || entry.key == dkey {
          success := true;
        } else if entry.key == key {
          success := true;
          moveit := true;
        }
        if moveit || retval < count {
          moveit := false;
          var n := MoveSlot(i);
          retval := retval + n;
        } else if success && retval >= count {
          break;
        }
        i := NextSlot(i, max);
        if i == j { break; }
      }
    }

    /** The old table is empty, and flagged as assimilated. */
    method FinishMigration()
      requires Valid() && state == Expanding && hdr.next != null && AllSpent(Prev())
      modifies this`state, hdr.next`assimilated
      ensures Valid() && state == Expanded && hdr.next.assimilated && hdr.count <= hdr.threshold
    {
      hide Sound, IsPowerOfTwo, IsKey;
      SoundFinish(hash, hdr.entries[..], Prev(), model);
      CountBounds(Prev());
      RoomWhileMigrating(hdr.next.max, hdr.count, moved);
      hdr.next.assimilated := true;
      state := Expanded;
    }

    /** Pays the migration tax of an access with `key`, after which the current table answers for `key`. */
    method MigrateTable(key: int)
      requires Valid() && key > 0
      modifies Footprint()
      ensures Valid() && hdr == old(hdr) && model == old(model)
      ensures !IsKey(key) || !HasKey(Prev(), key)
      ensures state != Expanding ==> hdr.next == null || hdr.next.assimilated
      ensures old(state) != Expanding ==>
                state == old(state) && hdr.entries[..] == old(hdr.entries[..]) && hdr.count == old(hdr.count)
      ensures old(state) == Expanding ==> old(hdr.count) <= hdr.threshold && hdr.count <= hdr.threshold
      ensures state == Expanding ==> taxed == old(taxed) + 1 && hdr.count < hdr.threshold && Affords(1)
    {
      hide Sound, IsPowerOfTwo, IsKey;
      if state == Expanding {
        CountBounds(Prev());
        RoomWhileMigrating(hdr.next.max, hdr.count, moved);
        var retval := Assimilate(key, MIGRATIONS_PER_ACCESS);
        if retval < MIGRATIONS_PER_ACCESS {
          FinishMigration();
        } else {
          CountBounds(Prev());
          RoomWhileMigrating(hdr.next.max, hdr.count + 1, moved);
          taxed := taxed + 1;
        }
      }
    }

    /** The moves made so far leave room for `n` more slots to be used. */
    ghost predicate Affords(n: int)
      reads this, hdr
    {
      3 * (hdr.count + n) <= 4 * moved
    }

    /** Binds a key to a value; false exactly when the table is as large as can be, full, and without a slot for the
        key. */
    method Add(key: int, val: int) returns (r: bool)
      requires Valid() && IsKey(key) && val != TOMBSTONE
      modifies Footprint()
      ensures Valid() && fresh(Footprint() - old(Footprint()))
      ensures model == if r then old(model)[key := val] else old(model)
      ensures !r <==> old(hdr.max == MAX_TABLE_SIZE && hdr.count == hdr.max && !HasKey(hdr.entries[..], key))
      ensures hdr != old(hdr) ==> hdr.next == old(hdr) && state == Expanding && hdr.max == 2 * old(hdr.max)
      ensures hdr != old(hdr) ==> taxed == 0 && (hdr.next.next == null || hdr.next.next.assimilated)
      ensures hdr == old(hdr) && state == Expanding ==> old(state) == Expanding && taxed == old(taxed) + 1
    {
      hide Sound;
      MigrateTable(key);
      ghost var table := hdr;
      r := Put(key, val);
      assert !table.assimilated;   // a single thread has no reason to retry
    }

    /** Unbinds a key. True when the key has a slot, even if it was removed before. */
    method Remove(key: int) returns (r: bool)
      requires Valid() && key >= 0
      modifies Footprint()
      ensures Valid() && hdr == old(hdr) && Footprint() == old(Footprint())
      ensures model == old(model) - {key}
      ensures r <==> key != 0 && HasKey(hdr.entries[..], key)
      ensures key in old(model) ==> r
      ensures state == Expanding ==> key == 0 || (old(state) == Expanding && taxed == old(taxed) + 1)
    {
      hide Sound;
      if key == 0 {
        ZeroIsNoKey(hash, hdr.entries[..], Prev(), model);
        return false;
      }
      MigrateTable(key);
      r := Bury(key);
    }

    /** Stores TOMBSTONE in the slot that the current table has for a key, if any. */
    method Bury(key: int) returns (r: bool)
      requires Valid() && key > 0 && (IsKey(key) ==> !HasKey(Prev(), key))
      modifies this`model, hdr.entries
      ensures Valid() && model == old(model) - {key}
      ensures r <==> HasKey(hdr.entries[..], key)
      ensures key in old(model) ==> r
    {
      hide Sound, OnSchedule, IsPowerOfTwo;
      ghost var cur, prev := hdr.entries[..], Prev();
      Answer(hash, cur, prev, model, key);
      var outcome, i := hdr.Probe(hash, key);
      r := outcome == Found;
      if r {
        SoundStore(hash, cur, prev, model, i, TOMBSTONE);
        CountsAfterUpdate(cur, i, Entry(key, TOMBSTONE));
        hdr.entries[i] := Entry(key, TOMBSTONE);
        model := model - {key};
        assert hdr.entries[..] == cur[i := Entry(key, TOMBSTONE)];
        assert hdr.entries[..][i].key == key;
        assert Prev() == prev;
      } else {
        NotThere(hash, cur, prev, model, key, i, outcome == Full);
      }
    }

    /** Looks a key up; a result of TOMBSTONE stands for an absent key. */
    method Find(key: int) returns (r: bool, val: int)
      requires Valid() && key >= 0
      modifies Footprint()
      ensures Valid() && hdr == old(hdr) && model == old(model) && Footprint() == old(Footprint())
      ensures r && val != TOMBSTONE <==> key in model
      ensures key in model ==> val == model[key]
      ensures state == Expanding ==> key == 0 || (old(state) == Expanding && taxed == old(taxed) + 1)
    {
      hide Sound;
      if key == 0 {
        ZeroIsNoKey(hash, hdr.entries[..], Prev(), model);
        return false, TOMBSTONE;
      }
      MigrateTable(key);
      Answer(hash, hdr.entries[..], Prev(), model, key);
      var outcome, i := hdr.Probe(hash, key);
      if outcome == Found {
        return true, hdr.entries[i].val;
      }
      NotThere(hash, hdr.entries[..], Prev(), model, key, i, outcome == Full);
      return false, TOMBSTONE;
    }

    /** How long a migration can last: it is over within one more access than this. */
    lemma MigrationEnds()
      requires Valid() && state == Expanding
      ensures taxed <= (Threshold(hdr.next.max) + 1) / 3
    {
      CountBounds(hdr.next.entries[..]);
    }

    lemma HasRoom()
      requires Valid()
      ensures 0 < hdr.max <= MAX_TABLE_SIZE && (state != Expanding ==> |model| <= hdr.max)
    {
      if state != Expanding { ModelFits(hash, hdr.entries[..], model); }
    }

    lemma ModelIsProper()
      requires Valid()
      ensures forall k {:trigger k in model} | k in model :: model[k] != TOMBSTONE
    {
    }

    lemma ValidIsSound()
      requires Valid()
      ensures Sound(hash, hdr.entries[..], Prev(), model)
    {
    }
  }

  /** The table has the largest size and `n` keys, the first ones. */
  ghost predicate HasFirst(t: Lfht, n: int)
    reads t, t.Footprint()
  {
    && t.Valid() && t.state != Expanding && t.hdr.max == MAX_TABLE_SIZE && 0 <= |t.model| == n <= MAX_TABLE_SIZE
    && forall k {:trigger k in t.model} | k in t.model :: k <= KEY_ALIGNMENT * n
  }

  method AddNext(t: Lfht, n: int)
    requires HasFirst(t, n - 1) && t.hdr.count != t.hdr.max
    modifies t.Footprint()
    ensures HasFirst(t, n) && fresh(t.Footprint() - old(t.Footprint())) && n <= MAX_TABLE_SIZE
  {
    hide Lfht.Valid;
    var r := t.Add(KEY_ALIGNMENT * n, 1);
    t.HasRoom();
  }

  method Fill(t: Lfht) returns (n: int)
    requires HasFirst(t, 0)
    modifies t.Footprint()
    ensures HasFirst(t, n) && t.hdr.count == t.hdr.max && fresh(t.Footprint() - old(t.Footprint()))
  {
    hide HasFirst;
    n := 0;
    while t.hdr.count != t.hdr.max
      invariant HasFirst(t, n) && n <= MAX_TABLE_SIZE && fresh(t.Footprint() - old(t.Footprint()))
      decreases MAX_TABLE_SIZE - n
    {
      n := n + 1;
      AddNext(t, n);
    }
  }

  /** A table of the largest size gets full, and then there is a key that cannot be added to it. */
  method FillUp(t: Lfht) returns (key: int)
    requires t.Valid() && t.state != Expanding && t.hdr.max == MAX_TABLE_SIZE && t.model == map[]
    modifies t.Footprint()
    ensures t.Valid() && fresh(t.Footprint() - old(t.Footprint())) && t.hdr.max == MAX_TABLE_SIZE
    ensures t.hdr.count == t.hdr.max && IsKey(key) && !HasKey(t.hdr.entries[..], key)
  {
    hide Lfht.Valid, IsKey, HasKey;
    var n := Fill(t);
    key := KeyBeyond(t.hdr.entries);
  }

  /** An add that returns false. */
  method AddCanFail(hash: Hash) returns (r: bool)
    ensures !r
  {
    hide Lfht.Valid, IsKey, HasKey;
    LargestSize();
    var t := new Lfht(hash, MAX_TABLE_SIZE);
    var key := FillUp(t);
    r := t.Add(key, 1);
  }
}
