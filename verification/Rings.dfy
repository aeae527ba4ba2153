/** Circular doubly linked lists through a forward and a backward field of the records. */
module Rings {
  import opened Sequences
  import opened Chains

  /** A link field of the records; the field of a record that is not in the map is NULL. */
  type Field = map<Ref, Ref>

  function Get(f: Field, x: Ref): Ref { if x in f then f[x] else NIL }

  function Succ(n: int, j: int): int { if j + 1 == n then 0 else j + 1 }
  function Pred(n: int, j: int): int { if j == 0 then n - 1 else j - 1 }

  predicate RingAt(f: Field, b: Field, s: seq<Ref>, j: int)
    requires 0 <= j < |s|
  {
    s[j] != NIL && Get(f, s[j]) == s[Succ(|s|, j)] && Get(b, s[j]) == s[Pred(|s|, j)]
  }

  /** The records of `s`, in this order, form a ring. */
  ghost predicate Ring(f: Field, b: Field, s: seq<Ref>) {
    Distinct(s) && forall j {:trigger RingAt(f, b, s, j)} | 0 <= j < |s| :: RingAt(f, b, s, j)
  }

  /** The neighbours of an old record in a sequence, seen as a circle, into which `v` was put. */
  lemma Neighbours(s: seq<Ref>, k: int, v: Ref, i: int)
    requires 0 <= k <= |s| && 0 <= i < |s|
    ensures var ks, kp := if k == |s| then 0 else k, if k == 0 then |s| - 1 else k - 1;
      var t, j := Inserted(s, k, v), if i < k then i else i + 1;
      && |t| == |s| + 1 && t[j] == s[i] && t[Pred(|t|, j)] == (if i == ks then v else s[Pred(|s|, i)])
      && t[Succ(|t|, j)] == (if i == kp then v else s[Succ(|s|, i)])
  {
  }

  /** An old record of a ring into which `v` was linked. */
  lemma InsertKeepsAt(f: Field, b: Field, s: seq<Ref>, k: int, v: Ref, i: int)
    requires Ring(f, b, s) && 0 <= k <= |s| && v !in s && 0 <= i < |s|
    ensures var succ, pred := s[if k == |s| then 0 else k], s[if k == 0 then |s| - 1 else k - 1];
      RingAt(f[v := succ][pred := v], b[v := pred][succ := v], Inserted(s, k, v), if i < k then i else i + 1)
  {
    var ks, kp := if k == |s| then 0 else k, if k == 0 then |s| - 1 else k - 1;
    assert RingAt(f, b, s, i) && s[i] in s;
    assert s[ks] == s[i] <==> i == ks;
    assert s[kp] == s[i] <==> i == kp;
    Neighbours(s, k, v, i);
    hide Distinct, Ring, Inserted;
  }

  /** Links a record between its two new neighbours. With `k == |s|` it goes behind the last record. */
  lemma InsertKeepsRing(f: Field, b: Field, s: seq<Ref>, k: int, v: Ref)
    requires Ring(f, b, s) && 0 <= k <= |s| && s != [] && v != NIL && v !in s
    ensures var succ, pred := s[if k == |s| then 0 else k], s[if k == 0 then |s| - 1 else k - 1];
      Ring(f[v := succ][pred := v], b[v := pred][succ := v], Inserted(s, k, v))
  {
    var succ, pred := s[if k == |s| then 0 else k], s[if k == 0 then |s| - 1 else k - 1];
    var f', b', t := f[v := succ][pred := v], b[v := pred][succ := v], Inserted(s, k, v);
    InsertedIsDistinct(s, k, v);
    hide Distinct;
    assert pred in s && succ in s;
    forall j {:trigger RingAt(f', b', t, j)} | 0 <= j < |t| ensures RingAt(f', b', t, j) {
      if j < k {
        InsertKeepsAt(f, b, s, k, v, j);
      } else if j > k {
        InsertKeepsAt(f, b, s, k, v, j - 1);
      }
    }
  }

  /** Unlinks record `k`. */
  lemma RemoveKeepsRing(f: Field, b: Field, s: seq<Ref>, k: int)
    requires Ring(f, b, s) && 0 <= k < |s|
    ensures var succ, pred := Get(f, s[k]), Get(b, s[k]);
      Ring(f[pred := succ], b[succ := pred], Removed(s, k)) && succ == s[Succ(|s|, k)] && pred == s[Pred(|s|, k)]
  {
    assert RingAt(f, b, s, k);
    var succ, pred := Get(f, s[k]), Get(b, s[k]);
    var f', b', t := f[pred := succ], b[succ := pred], Removed(s, k);
    assert Distinct(t) by {
      assert forall i {:trigger t[i]} | 0 <= i < |t| :: t[i] == s[if i < k then i else i + 1];
    }
    forall j {:trigger RingAt(f', b', t, j)} | 0 <= j < |t| ensures RingAt(f', b', t, j) {
      var i := if j < k then j else j + 1;
      assert RingAt(f, b, s, i) && t[j] == s[i] && s[i] != s[k];
      assert s[Pred(|s|, k)] == s[i] <==> i == Pred(|s|, k);
      assert s[Succ(|s|, k)] == s[i] <==> i == Succ(|s|, k);
    }
  }

  /** Puts a record in the place of record `k`. */
  lemma ReplaceKeepsRing(f: Field, b: Field, s: seq<Ref>, k: int, q: Ref)
    requires Ring(f, b, s) && 0 <= k < |s| && |s| > 1 && q != NIL && q !in s
    ensures var succ, pred := Get(f, s[k]), Get(b, s[k]);
      Ring(f[q := succ][pred := q], b[q := pred][succ := q], s[k := q])
  {
    assert RingAt(f, b, s, k);
    var succ, pred := Get(f, s[k]), Get(b, s[k]);
    var f', b', t := f[q := succ][pred := q], b[q := pred][succ := q], s[k := q];
    assert pred in s && succ in s;
    assert Distinct(t);
    forall j {:trigger RingAt(f', b', t, j)} | 0 <= j < |t| ensures RingAt(f', b', t, j) {
      if j != k {
        assert RingAt(f, b, s, j) && s[j] in s;
        assert s[Pred(|s|, k)] == s[j] <==> j == Pred(|s|, k);
        assert s[Succ(|s|, k)] == s[j] <==> j == Succ(|s|, k);
      }
    }
  }
}
