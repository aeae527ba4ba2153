/** Bucket chains: singly linked lists through the `next_bucket` fields of the records. */
module Chains {
  import opened Sequences

  type Ref = int
  const NIL: Ref := 0

  /** The `next_bucket` field of each record. */
  type Links = map<Ref, Ref>

  function At(s: seq<Ref>, j: int): Ref { if 0 <= j < |s| then s[j] else NIL }

  function Last(s: seq<Ref>): Ref { At(s, |s| - 1) }

  predicate LinkOk(next: Links, s: seq<Ref>, j: int)
    requires 0 <= j < |s|
  {
    s[j] != NIL && s[j] in next && next[s[j]] == At(s, j + 1)
  }

  /** Following the links from `head` meets the records of `s` in order and then ends. */
  ghost predicate Chain(next: Links, head: Ref, s: seq<Ref>) {
    head == At(s, 0) && forall j {:trigger LinkOk(next, s, j)} | 0 <= j < |s| :: LinkOk(next, s, j)
  }

  /** Links of records outside a chain do not matter to it. */
  ghost predicate SameLinks(next: Links, next': Links, s: seq<Ref>) {
    forall x {:trigger x in s} | x in s :: x in next && x in next' && next'[x] == next[x]
  }

  lemma ChainStays(next: Links, next': Links, head: Ref, s: seq<Ref>)
    requires Chain(next, head, s) && SameLinks(next, next', s)
    ensures Chain(next', head, s)
  {
    forall j {:trigger LinkOk(next', s, j)} | 0 <= j < |s| ensures LinkOk(next', s, j) {
      assert s[j] in s && LinkOk(next, s, j);
    }
  }

  /** A record is put in front of a chain. */
  lemma PushKeepsChain(next: Links, head: Ref, s: seq<Ref>, x: Ref)
    requires Chain(next, head, s) && x != NIL && x !in s
    ensures Chain(next[x := head], x, [x] + s)
  {
    var next', t := next[x := head], [x] + s;
    forall j {:trigger LinkOk(next', t, j)} | 0 <= j < |t| ensures LinkOk(next', t, j) {
      if j > 0 { assert s[j - 1] in s && LinkOk(next, s, j - 1); }
    }
  }

  /** A record is linked behind the last one of a chain, or starts one. */
  lemma AppendKeepsChain(next: Links, head: Ref, s: seq<Ref>, x: Ref)
    requires Chain(next, head, s) && x != NIL && x !in s && Distinct(s)
    ensures Chain((if s == [] then next else next[Last(s) := x])[x := NIL], if s == [] then x else head, s + [x])
  {
    var next', t := (if s == [] then next else next[Last(s) := x])[x := NIL], s + [x];
    forall j {:trigger LinkOk(next', t, j)} | 0 <= j < |t| ensures LinkOk(next', t, j) {
      if j < |s| { assert s[j] in s && LinkOk(next, s, j); }
    }
  }

  /** The record behind `a` is taken out of a chain. */
  lemma UnlinkKeepsChain(next: Links, head: Ref, a: seq<Ref>, x: Ref, b: seq<Ref>)
    requires Chain(next, head, a + [x] + b) && Distinct(a + [x] + b)
    ensures x in next && next[x] == At(b, 0) && (a != [] ==> Last(a) in next)
    ensures Chain(if a == [] then next else next[Last(a) := next[x]], if a == [] then next[x] else head, a + b)
  {
    var s, t := a + [x] + b, a + b;
    assert s[|a|] == x && LinkOk(next, s, |a|);
    var next' := if a == [] then next else next[Last(a) := next[x]];
    if a != [] { assert LinkOk(next, s, |a| - 1) && s[|a| - 1] == Last(a); }
    forall j {:trigger LinkOk(next', t, j)} | 0 <= j < |t| ensures LinkOk(next', t, j) {
      var k := if j < |a| then j else j + 1;
      assert s[k] == t[j] && LinkOk(next, s, k);
    }
  }

  /** A chain is spliced onto the end of another. */
  lemma SpliceKeepsChain(next: Links, a: seq<Ref>, ahead: Ref, b: seq<Ref>, bhead: Ref)
    requires Chain(next, ahead, a) && Chain(next, bhead, b) && a != [] && Distinct(a + b)
    ensures Chain(next[Last(a) := bhead], ahead, a + b)
  {
    var next', t := next[Last(a) := bhead], a + b;
    forall j {:trigger LinkOk(next', t, j)} | 0 <= j < |t| ensures LinkOk(next', t, j) {
      assert j != |a| - 1 ==> t[j] != t[|a| - 1];
      if j < |a| { assert LinkOk(next, a, j); } else { assert LinkOk(next, b, j - |a|); }
    }
  }

  // ---------- Moving part of a chain to another chain ----------

  /** The state of a split: `kept` and `rest` make up the old chain, `moved` the new one. */
  ghost predicate Splitting(next: Links, head: Ref, newHead: Ref, kept: seq<Ref>, rest: seq<Ref>, moved: seq<Ref>) {
    Chain(next, head, kept + rest) && Chain(next, newHead, moved) && Distinct(kept + rest + moved)
  }

  /** The links after the record in front of `rest` was moved to the end of the new chain. */
  function Moved(next: Links, kept: seq<Ref>, x: Ref, moved: seq<Ref>): Links
    requires x in next
  {
    var next1 := if moved == [] then next else next[Last(moved) := x];
    var next2 := if kept == [] then next1 else next1[Last(kept) := next[x]];
    next2[x := NIL]
  }

  lemma InChain(next: Links, head: Ref, s: seq<Ref>)
    requires Chain(next, head, s)
    ensures forall x {:trigger x in s} | x in s :: x in next && x != NIL
  {
    forall x {:trigger x in s} | x in s ensures x in next && x != NIL {
      var j :| 0 <= j < |s| && s[j] == x;
      assert LinkOk(next, s, j);
    }
  }

  lemma Rotated(a: seq<Ref>, x: Ref, b: seq<Ref>, c: seq<Ref>)
    requires Distinct(a + [x] + b + c)
    ensures Distinct(a + b + (c + [x])) && x !in a && x !in c && Distinct(c)
  {
    var s, t := a + [x] + b + c, a + b + (c + [x]);
    forall i, j {:trigger t[i], t[j]} | 0 <= i < |t| && 0 <= j < |t| && i != j ensures t[i] != t[j] {
      var p := if i < |a| then i else if i == |t| - 1 then |a| else i + 1;
      var q := if j < |a| then j else if j == |t| - 1 then |a| else j + 1;
      assert s[p] == t[i] && s[q] == t[j] && p != q;
    }
    Parts(a + [x] + b, c);
    Parts(a, [x] + b + c) by { assert a + ([x] + b + c) == s; }
    assert x in [x] + b + c && x in a + [x] + b;
  }

  lemma MoveKeepsSplitting(next: Links, head: Ref, newHead: Ref, kept: seq<Ref>, rest: seq<Ref>, moved: seq<Ref>)
    requires Splitting(next, head, newHead, kept, rest, moved) && rest != []
    ensures rest[0] in next && rest[0] != NIL && next[rest[0]] == At(rest, 1)
    ensures moved != [] ==> rest[0] != Last(moved)
    ensures kept != [] ==> rest[0] != Last(kept) && Last(kept) in next
    ensures Splitting(Moved(next, kept, rest[0], moved), if kept == [] then next[rest[0]] else head,
                      if moved == [] then rest[0] else newHead, kept, rest[1..], moved + [rest[0]])
  {
    var x, tail := rest[0], rest[1..];
    assert kept + rest == kept + [x] + tail;
    Parts(kept + rest, moved);
    InChain(next, head, kept + rest);
    Rotated(kept, x, tail, moved);
    UnlinkKeepsChain(next, head, kept, x, tail);
    var next' := if kept == [] then next else next[Last(kept) := next[x]];
    assert x in kept + rest && (kept != [] ==> Last(kept) in kept + rest) && (moved != [] ==> Last(moved) in moved);
    Parts(kept + tail, moved + [x]);
    hide Distinct;
    assert Moved(next, kept, x, moved) == (if moved == [] then next' else next'[Last(moved) := x])[x := NIL] by {
      hide Chain;
    }
    InChain(next, newHead, moved);
    InChain(next', if kept == [] then next[x] else head, kept + tail);
    ChainStays(next, next', newHead, moved);
    AppendKeepsChain(next', newHead, moved, x);
    ChainStays(next', Moved(next, kept, x, moved), if kept == [] then next[x] else head, kept + tail);
  }

  lemma ChainHead(next: Links, head: Ref, s: seq<Ref>)
    requires Chain(next, head, s)
    ensures (head == NIL <==> s == []) && (head != NIL ==> head in next)
  {
    assert s != [] ==> LinkOk(next, s, 0);
  }
}
