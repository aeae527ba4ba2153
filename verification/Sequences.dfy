/** Sequences without repetitions, with an element put in or taken out, and the total length of several. */
module Sequences {
  ghost predicate Distinct<T>(s: seq<T>) {
    forall i, j {:trigger s[i], s[j]} | 0 <= i < |s| && 0 <= j < |s| && i != j :: s[i] != s[j]
  }

  function Inserted<T>(s: seq<T>, k: int, v: T): seq<T>
    requires 0 <= k <= |s|
  {
    s[..k] + [v] + s[k..]
  }

  function Removed<T>(s: seq<T>, k: int): seq<T>
    requires 0 <= k < |s|
  {
    s[..k] + s[k + 1..]
  }

  lemma InsertedIsDistinct<T>(s: seq<T>, k: int, v: T)
    requires Distinct(s) && 0 <= k <= |s| && v !in s
    ensures Distinct(Inserted(s, k, v))
  {
    var t := Inserted(s, k, v);
    forall i, j {:trigger t[i], t[j]} | 0 <= i < |t| && 0 <= j < |t| && i != j ensures t[i] != t[j] {
      assert i < k ==> t[i] == s[i];
      assert i > k ==> t[i] == s[i - 1];
      assert j < k ==> t[j] == s[j];
      assert j > k ==> t[j] == s[j - 1];
    }
  }

  lemma InsertedMembers<T>(s: seq<T>, k: int, v: T)
    requires 0 <= k <= |s|
    ensures forall x {:trigger x in Inserted(s, k, v)} :: x in Inserted(s, k, v) <==> x == v || x in s
  {
    assert s == s[..k] + s[k..];
  }

  lemma RemovedMembers<T>(s: seq<T>, k: int)
    requires 0 <= k < |s|
    ensures forall x {:trigger x in Removed(s, k)} :: x in Removed(s, k) ==> x in s
    ensures Distinct(s) ==> s[k] !in Removed(s, k) && Distinct(Removed(s, k))
    ensures Distinct(s) ==> forall x {:trigger x in Removed(s, k)} :: x in Removed(s, k) <==> x in s && x != s[k]
  {
    var t := Removed(s, k);
    assert forall i {:trigger t[i]} | 0 <= i < |t| :: t[i] == s[if i < k then i else i + 1];
    assert s == s[..k] + [s[k]] + s[k + 1..];
  }

  lemma Parts<T>(a: seq<T>, b: seq<T>)
    requires Distinct(a + b)
    ensures Distinct(a) && Distinct(b)
    ensures forall x {:trigger x in a} {:trigger x in b} :: x in a ==> x !in b
  {
    var t := a + b;
    assert forall i {:trigger a[i]} | 0 <= i < |a| :: t[i] == a[i];
    assert forall i {:trigger b[i]} | 0 <= i < |b| :: t[|a| + i] == b[i];
    forall x {:trigger x in a} | x in a ensures x !in b {
      var i :| 0 <= i < |a| && a[i] == x;
      forall j {:trigger b[j]} | 0 <= j < |b| ensures b[j] != x {
        assert t[i] != t[|a| + j];
      }
    }
  }

  lemma DistinctSum<T>(a: seq<T>, b: seq<T>)
    requires Distinct(a) && Distinct(b) && forall x {:trigger x in a} | x in a :: x !in b
    ensures Distinct(a + b)
  {
    var t := a + b;
    forall i, j {:trigger t[i], t[j]} | 0 <= i < |t| && 0 <= j < |t| && i != j ensures t[i] != t[j] {
      assert i < |a| ==> t[i] == a[i] && a[i] in a;
      assert j < |a| ==> t[j] == a[j] && a[j] in a;
      assert i >= |a| ==> t[i] == b[i - |a|] && t[i] in b;
      assert j >= |a| ==> t[j] == b[j - |a|] && t[j] in b;
    }
  }

  // ---------- Several sequences ----------

  function TotalLength<T>(lists: seq<seq<T>>): nat {
    if lists == [] then 0 else TotalLength(lists[..|lists| - 1]) + |lists[|lists| - 1]|
  }

  lemma {:induction false} TotalLengthAfter<T>(lists: seq<seq<T>>, i: int, s: seq<T>)
    requires 0 <= i < |lists|
    ensures TotalLength(lists[i := s]) == TotalLength(lists) - |lists[i]| + |s|
  {
    var n := |lists| - 1;
    if i < n {
      assert lists[i := s][..n] == lists[..n][i := s];
      TotalLengthAfter(lists[..n], i, s);
    } else {
      assert lists[i := s][..n] == lists[..n];
    }
  }

  lemma TotalLengthOfOneMore<T>(lists: seq<seq<T>>, s: seq<T>)
    ensures TotalLength(lists + [s]) == TotalLength(lists) + |s|
  {
    assert (lists + [s])[..|lists|] == lists;
  }
}
