/** Open addressing with linear probing, on the contents of one table. */
module ProbeTable {
  const TOMBSTONE: int := 0
  const KEY_ALIGNMENT: int := 16

  /** A slot: key 0 means that it was never used, value TOMBSTONE that its key was removed. */
  datatype Entry = Entry(key: int, val: int)

  type Hash = int -> nat

  predicate IsAssimilated(key: int) { key % KEY_ALIGNMENT != 0 }

  /** Marks an aligned key as moved to the next table, by setting its lowest bit. */
  function SetAssimilated(key: int): int { if key % 2 == 0 then key + 1 else key }

  /** The key that a slot was claimed for. */
  function Base(key: int): int { key - key % KEY_ALIGNMENT }

  /** Where the probe sequence of a key starts, in a table of `n` slots. */
  function Home(hash: Hash, key: int, n: int): int
    requires n > 0
  {
    hash(key) % n
  }

  /** How many steps the probe sequence takes from slot `j` to slot `i`. */
  function Dist(j: int, i: int, n: int): int { if i >= j then i - j else i - j + n }

  /** The slot after `i`. */
  function NextSlot(i: int, n: int): int { if i + 1 == n then 0 else i + 1 }

  /** Every slot on the way from the home slot of the key in slot `i` to `i` is in use. */
  ghost predicate Reachable(hash: Hash, e: seq<Entry>, i: int)
    requires 0 <= i < |e|
  {
    var j := Home(hash, Base(e[i].key), |e|);
    forall x {:trigger e[x]} | 0 <= x < |e| && Dist(j, x, |e|) < Dist(j, i, |e|) :: e[x].key != 0
  }

  /** Each key has a slot of its own, that can be reached from its home slot. */
  ghost predicate WellFormed(hash: Hash, e: seq<Entry>) {
    && |e| > 0
    && (forall i {:trigger Reachable(hash, e, i)} | 0 <= i < |e| && e[i].key != 0 :: Reachable(hash, e, i))
    && (forall i, k {:trigger e[i], e[k]} | 0 <= i < |e| && 0 <= k < |e| && i != k && e[i].key != 0 && e[k].key != 0 ::
          Base(e[i].key) != Base(e[k].key))
  }

  /** Some slot holds `key`. */
  ghost predicate HasKey(e: seq<Entry>, key: int) {
    exists i {:trigger e[i]} :: 0 <= i < |e| && e[i].key == key
  }

  /** The number of slots in use. */
  function Used(e: seq<Entry>): nat {
    if e == [] then 0 else Used(e[..|e| - 1]) + (if e[|e| - 1].key != 0 then 1 else 0)
  }

  /** The number of slots whose key is marked as moved. */
  function Moved(e: seq<Entry>): nat {
    if e == [] then 0 else Moved(e[..|e| - 1]) + (if IsAssimilated(e[|e| - 1].key) then 1 else 0)
  }

  lemma {:induction false} CountsAfterUpdate(e: seq<Entry>, i: int, x: Entry)
    requires 0 <= i < |e|
    ensures Used(e[i := x]) == Used(e) - (if e[i].key != 0 then 1 else 0) + (if x.key != 0 then 1 else 0)
    ensures Moved(e[i := x]) ==
            Moved(e) - (if IsAssimilated(e[i].key) then 1 else 0) + (if IsAssimilated(x.key) then 1 else 0)
  {
    var n := |e| - 1;
    var e' := e[i := x];
    if i == n {
      assert e'[..n] == e[..n];
    } else {
      assert e'[..n] == e[..n][i := x];
      CountsAfterUpdate(e[..n], i, x);
    }
  }

  lemma {:induction false} CountBounds(e: seq<Entry>)
    ensures Moved(e) <= Used(e) <= |e|
    ensures Used(e) < |e| ==> HasKey(e, 0)
  {
    if e != [] {
      var n := |e| - 1;
      CountBounds(e[..n]);
      if e[n].key != 0 && Used(e) < |e| {
        var i :| 0 <= i < n && e[..n][i].key == 0;
        assert e[i].key == 0;
      }
    }
  }

  lemma {:induction false} EmptyTable(e: seq<Entry>)
    requires forall i {:trigger e[i]} | 0 <= i < |e| :: e[i] == Entry(0, 0)
    ensures Used(e) == 0 && Moved(e) == 0
  {
    if e != [] {
      EmptyTable(e[..|e| - 1]);
    }
  }

  predicate IsKey(key: int) { key > 0 && !IsAssimilated(key) }

  lemma MarkFacts(key: int)
    requires IsKey(key)
    ensures Base(key) == key && Base(SetAssimilated(key)) == key
    ensures SetAssimilated(key) == key + 1 && IsAssimilated(SetAssimilated(key))
  {
  }

  /** The value of `key` in a table; TOMBSTONE if it is not there. */
  function Val(e: seq<Entry>, key: int): int {
    if e == [] then TOMBSTONE
    else if e[|e| - 1].key == key then e[|e| - 1].val
    else Val(e[..|e| - 1], key)
  }

  lemma {:induction false} ValAt(e: seq<Entry>, i: int)
    requires 0 <= i < |e| && forall x {:trigger e[x]} | 0 <= x < |e| && x != i :: e[x].key != e[i].key
    ensures Val(e, e[i].key) == e[i].val
  {
    if i < |e| - 1 {
      assert e[|e| - 1].key != e[i].key;
      ValAt(e[..|e| - 1], i);
    }
  }

  lemma {:induction false} ValOfAbsent(e: seq<Entry>, key: int)
    requires !HasKey(e, key)
    ensures Val(e, key) == TOMBSTONE
  {
    if e != [] {
      assert e[|e| - 1].key != key;
      var f := e[..|e| - 1];
      forall i {:trigger f[i]} | 0 <= i < |f| ensures f[i].key != key {
        assert f[i] == e[i];
      }
      ValOfAbsent(e[..|e| - 1], key);
    }
  }

  lemma {:induction false} ValOfOther(e: seq<Entry>, i: int, x: Entry, key: int)
    requires 0 <= i < |e| && key != e[i].key && key != x.key
    ensures Val(e[i := x], key) == Val(e, key)
  {
    var n := |e| - 1;
    if i < n {
      assert e[i := x][..n] == e[..n][i := x];
      ValOfOther(e[..n], i, x, key);
    } else {
      assert e[i := x][..n] == e[..n];
    }
  }

  lemma HasOther(e: seq<Entry>, i: int, x: Entry, key: int)
    requires 0 <= i < |e| && key != e[i].key && key != x.key
    ensures HasKey(e[i := x], key) <==> HasKey(e, key)
  {
    if HasKey(e, key) {
      var k :| 0 <= k < |e| && e[k].key == key;
      assert e[i := x][k].key == key;
    }
  }

  // ---------- What one store does to a table ----------

  /** The slots that the probe sequence from `j` visits before slot `i`. */
  predicate Before(j: int, x: int, i: int, n: int) { 0 <= x < n && Dist(j, x, n) < Dist(j, i, n) }

  /** A key that was not met before an unused slot is not in the table. */
  lemma AbsentBeyondZero(hash: Hash, e: seq<Entry>, key: int, i: int)
    requires WellFormed(hash, e) && 0 <= i < |e| && e[i].key == 0 && IsKey(key)
    requires forall x {:trigger e[x]} | Before(Home(hash, key, |e|), x, i, |e|) :: e[x].key != key
    ensures !HasKey(e, key)
  {
    forall k {:trigger e[k]} | 0 <= k < |e| ensures e[k].key != key {
      assert Base(key) == key && (e[k].key != 0 ==> Reachable(hash, e, k));
    }
  }

  /** The slots that stay as they are stay reachable when a slot keeps its use or gains one. */
  lemma ReachableAfter(hash: Hash, e: seq<Entry>, i: int, x: Entry, k: int)
    requires 0 <= i < |e| && 0 <= k < |e| && k != i && Reachable(hash, e, k) && x.key != 0
    ensures Reachable(hash, e[i := x], k)
  {
  }

  /** Claiming the first unused slot of a key's probe sequence. */
  lemma InsertKeepsWellFormed(hash: Hash, e: seq<Entry>, i: int, key: int, val: int)
    requires WellFormed(hash, e) && 0 <= i < |e| && e[i].key == 0 && IsKey(key)
    requires forall x {:trigger e[x]} | 0 <= x < |e| && e[x].key != 0 :: Base(e[x].key) != key
    requires forall x {:trigger e[x]} | Before(Home(hash, key, |e|), x, i, |e|) :: e[x].key != 0
    ensures WellFormed(hash, e[i := Entry(key, val)])
  {
    var e' := e[i := Entry(key, val)];
    assert Base(key) == key;
    forall k {:trigger Reachable(hash, e', k)} | 0 <= k < |e'| && e'[k].key != 0 ensures Reachable(hash, e', k) {
      if k != i {
        assert Reachable(hash, e, k);
        ReachableAfter(hash, e, i, Entry(key, val), k);
      }
    }
  }

  /** Storing a value, or marking a key as moved, in a slot that is in use. */
  lemma StoreKeepsWellFormed(hash: Hash, e: seq<Entry>, i: int, x: Entry)
    requires WellFormed(hash, e) && 0 <= i < |e| && e[i].key != 0 && x.key != 0 && Base(x.key) == Base(e[i].key)
    ensures WellFormed(hash, e[i := x])
  {
    var e' := e[i := x];
    forall k {:trigger Reachable(hash, e', k)} | 0 <= k < |e'| && e'[k].key != 0 ensures Reachable(hash, e', k) {
      assert Reachable(hash, e, k);
    }
  }
}
