/** The linear hash table of chunk records: bins are split and merged one at a time. */
module LinearHash {
  import opened Arithmetic
  import opened Sequences
  import opened Chains
  import opened Binning
  import opened Directories

  const MIN_LOAD: int := 2
  const MAX_LOAD: int := 3

  /** The segments in use are those that the bins need. */
  predicate Covers(segments: int, bincount: int) {
    SEGMENT_LENGTH * (segments - 1) < bincount <= SEGMENT_LENGTH * segments
  }

  /** Bin `i` holds the first record of chain `i`. */
  ghost predicate LinkedUp(next: Links, rows: seq<seq<Ref>>, chains: seq<seq<Ref>>) {
    forall i {:trigger chains[i]} | 0 <= i < |chains| :: Chain(next, Bin(rows, i), chains[i])
  }

  /** The bins beyond the table are empty, also in segments that were recycled. */
  ghost predicate SpareIsEmpty(rows: seq<seq<Ref>>, bincount: int) {
    forall i {:trigger Bin(rows, i)} | bincount <= i :: Bin(rows, i) == NIL
  }

  predicate LinkStays(next: Links, next': Links, x: Ref)
    requires x in next
  {
    x in next' && next'[x] == next[x]
  }

  /** The links of the records outside `c` are as they were. */
  ghost predicate SameElsewhere(next: Links, next': Links, c: seq<Ref>) {
    forall x {:trigger LinkStays(next, next', x)} | x in next && x !in c :: LinkStays(next, next', x)
  }

  ghost predicate OtherBinsStay(rows: seq<seq<Ref>>, rows': seq<seq<Ref>>, i: int, j: int) {
    |rows'| == |rows| && forall k {:trigger Bin(rows', k)} | k != i && k != j :: Bin(rows', k) == Bin(rows, k)
  }

  /** The record has its place in one of two bins. */
  predicate SplitsTo(hash: Hash, keys: Keys, maxp: int, p: int, i: int, j: int, x: Ref)
    requires maxp > 0
  {
    var b := Bindex(hash(KeyOf(keys, x)), maxp, p);
    b == i || b == j
  }

  /** Where the loop that splits chain `c` is: the records of `done` have been assigned to their bins. */
  ghost predicate Progress(hash: Hash, keys: Keys, maxp: int, p: int, i: int, j: int, next0: Links, next: Links,
                           head: Ref, newHead: Ref,
                           c: seq<Ref>, done: seq<Ref>, rest: seq<Ref>, kept: seq<Ref>, moved: seq<Ref>)
    requires maxp > 0
  {
    && c == done + rest && Splitting(next, head, newHead, kept, rest, moved)
    && kept == Pick(hash, keys, done, maxp, p, i) && moved == Pick(hash, keys, done, maxp, p, j)
    && SameElsewhere(next0, next, c)
    && (forall x {:trigger x in c} | x in c :: SplitsTo(hash, keys, maxp, p, i, j, x))
  }

  lemma ProgressBegins(hash: Hash, keys: Keys, maxp: int, p: int, i: int, j: int, next: Links, head: Ref, c: seq<Ref>)
    requires maxp > 0 && Chain(next, head, c) && Distinct(c)
    requires forall x {:trigger x in c} | x in c :: SplitsTo(hash, keys, maxp, p, i, j, x)
    ensures Progress(hash, keys, maxp, p, i, j, next, next, head, NIL, c, [], c, [], []) && head == At(c, 0)
  {
    assert [] + c == c && [] + c + [] == c;
  }

  lemma PickNext(hash: Hash, keys: Keys, s: seq<Ref>, x: Ref, maxp: int, p: int, i: int)
    requires maxp > 0
    ensures Pick(hash, keys, s + [x], maxp, p, i)
            == Pick(hash, keys, s, maxp, p, i) + (if Bindex(hash(KeyOf(keys, x)), maxp, p) == i then [x] else [])
  {
    assert (s + [x])[..|s|] == s;
  }

  lemma KeepKeepsSplitting(next: Links, head: Ref, newHead: Ref, kept: seq<Ref>, rest: seq<Ref>, moved: seq<Ref>)
    requires Splitting(next, head, newHead, kept, rest, moved) && rest != []
    ensures Splitting(next, head, newHead, kept + [rest[0]], rest[1..], moved)
    ensures rest[0] in next && next[rest[0]] == At(rest, 1)
  {
    assert kept + [rest[0]] + rest[1..] == kept + rest;
    assert LinkOk(next, kept + rest, |kept|);
  }

  lemma ProgressKeeps(hash: Hash, keys: Keys, maxp: int, p: int, i: int, j: int, next0: Links, next: Links, head: Ref,
                      newHead: Ref, c: seq<Ref>, done: seq<Ref>, rest: seq<Ref>, kept: seq<Ref>, moved: seq<Ref>)
    requires maxp > 0 && i != j && rest != []
    requires Progress(hash, keys, maxp, p, i, j, next0, next, head, newHead, c, done, rest, kept, moved)
    requires Bindex(hash(KeyOf(keys, rest[0])), maxp, p) != j
    ensures Progress(hash, keys, maxp, p, i, j, next0, next, head, newHead, c, done + [rest[0]], rest[1..],
                     kept + [rest[0]], moved)
    ensures rest[0] in next && next[rest[0]] == At(rest, 1)
  {
    assert rest[0] in c && SplitsTo(hash, keys, maxp, p, i, j, rest[0]);
    PickNext(hash, keys, done, rest[0], maxp, p, i);
    PickNext(hash, keys, done, rest[0], maxp, p, j);
    hide Bindex, Pick;
    KeepKeepsSplitting(next, head, newHead, kept, rest, moved);
    hide Splitting, SameElsewhere, SplitsTo;
    assert done + [rest[0]] + rest[1..] == done + rest;
  }

  lemma ProgressSplits(hash: Hash, keys: Keys, maxp: int, p: int, i: int, j: int, next0: Links, next: Links, head: Ref,
                       newHead: Ref, c: seq<Ref>, done: seq<Ref>, rest: seq<Ref>, kept: seq<Ref>, moved: seq<Ref>)
    requires maxp > 0 && Progress(hash, keys, maxp, p, i, j, next0, next, head, newHead, c, done, rest, kept, moved)
    ensures Splitting(next, head, newHead, kept, rest, moved)
  {
  }

  lemma SameElsewhereOn(a: Links, b: Links, next: Links, c: seq<Ref>, d: seq<Ref>)
    requires SameElsewhere(a, b, c) && SameElsewhere(b, next, d) && forall x {:trigger x in d} :: x in d ==> x in c
    ensures SameElsewhere(a, next, c)
  {
    forall x {:trigger LinkStays(a, next, x)} | x in a && x !in c ensures LinkStays(a, next, x) {
      assert x !in d && LinkStays(a, b, x) && LinkStays(b, next, x);
    }
  }

  lemma ProgressMoves(hash: Hash, keys: Keys, maxp: int, p: int, i: int, j: int, next0: Links, next: Links, head: Ref,
                      newHead: Ref, c: seq<Ref>, done: seq<Ref>, rest: seq<Ref>, kept: seq<Ref>, moved: seq<Ref>,
                      next': Links, head': Ref, newHead': Ref)
    requires maxp > 0 && i != j && rest != []
    requires Progress(hash, keys, maxp, p, i, j, next0, next, head, newHead, c, done, rest, kept, moved)
    requires Bindex(hash(KeyOf(keys, rest[0])), maxp, p) == j
    requires Splitting(next', head', newHead', kept, rest[1..], moved + [rest[0]])
    requires SameElsewhere(next, next', kept + rest + moved)
    ensures Progress(hash, keys, maxp, p, i, j, next0, next', head', newHead', c, done + [rest[0]], rest[1..], kept,
                     moved + [rest[0]])
  {
    PickNext(hash, keys, done, rest[0], maxp, p, i);
    PickNext(hash, keys, done, rest[0], maxp, p, j);
    PickMembers(hash, keys, done, maxp, p, i);
    PickMembers(hash, keys, done, maxp, p, j);
    hide Bindex, Pick, Splitting, SplitsTo;
    forall x {:trigger x in kept + rest + moved} ensures x in kept + rest + moved ==> x in c {
      assert x in kept + rest + moved ==> x in done || x in rest;
    }
    SameElsewhereOn(next0, next, next', c, kept + rest + moved);
    hide SameElsewhere;
    assert done + [rest[0]] + rest[1..] == done + rest;
  }

  lemma SplittingEnds(next: Links, head: Ref, newHead: Ref, kept: seq<Ref>, rest: seq<Ref>, moved: seq<Ref>)
    requires Splitting(next, head, newHead, kept, rest, moved) && At(rest, 0) == NIL
    ensures rest == [] && Chain(next, head, kept) && Chain(next, newHead, moved)
  {
    assert rest != [] ==> LinkOk(next, kept + rest, |kept|);
    assert kept + [] == kept;
  }

  lemma ProgressEnds(hash: Hash, keys: Keys, maxp: int, p: int, i: int, j: int, next0: Links, next: Links, head: Ref,
                     newHead: Ref, c: seq<Ref>, done: seq<Ref>, rest: seq<Ref>, kept: seq<Ref>, moved: seq<Ref>)
    requires maxp > 0 && At(rest, 0) == NIL
    requires Progress(hash, keys, maxp, p, i, j, next0, next, head, newHead, c, done, rest, kept, moved)
    ensures Chain(next, head, Pick(hash, keys, c, maxp, p, i)) && Chain(next, newHead, Pick(hash, keys, c, maxp, p, j))
    ensures SameElsewhere(next0, next, c)
  {
    SplittingEnds(next, head, newHead, kept, rest, moved);
    assert done == c;
  }

  lemma StackOfOne(keys: Keys, x: Ref, k: int)
    ensures StackIn(keys, [x], k) == if KeyOf(keys, x) == k then [x] else []
  {
    assert [x][..0] == [];
  }

  lemma StackWithout(keys: Keys, c: seq<Ref>, j: nat, k: int)
    requires j < |c| && forall x {:trigger x in c[..j]} | x in c[..j] :: KeyOf(keys, x) != KeyOf(keys, c[j])
    ensures var s := StackIn(keys, c, k);
      if KeyOf(keys, c[j]) == k then s != [] && StackIn(keys, Removed(c, j), k) == s[1..]
      else StackIn(keys, Removed(c, j), k) == s
  {
    hide StackIn;
    var x, a, b := c[j], c[..j], c[j + 1..];
    assert c == a + ([x] + b);
    StackOfSum(keys, a, [x] + b, k);
    StackOfSum(keys, [x], b, k);
    StackOfSum(keys, a, b, k);
    StackOfOne(keys, x, k);
    if KeyOf(keys, x) == k { NoStack(keys, a, k); }
  }

  lemma UnlinkedChain(hash: Hash, keys: Keys, maxp: int, p: int, next: Links, head: Ref, c: seq<Ref>, j: nat, i: int)
    requires maxp > 0 && Chain(next, head, c) && Distinct(c) && PlacedIn(hash, keys, maxp, p, c, i) && j < |c|
    ensures c[j] in next && (At(c, j - 1) == NIL <==> j == 0) && |Removed(c, j)| == |c| - 1
    ensures var next' := if j == 0 then next else next[c[j - 1] := next[c[j]]];
            Chain(next', if j == 0 then next[c[j]] else head, Removed(c, j)) && SameElsewhere(next, next', c)
    ensures Distinct(Removed(c, j)) && PlacedIn(hash, keys, maxp, p, Removed(c, j), i)
  {
    hide Bindex;
    var x, a, b := c[j], c[..j], c[j + 1..];
    assert c == a + [x] + b && (j > 0 ==> Last(a) == c[j - 1] && c[j - 1] in c);
    InChain(next, head, c);
    UnlinkKeepsChain(next, head, a, x, b);
    assert a + [x] + b + [] == c;
    Rotated(a, x, b, []);
    Parts(a + b, [] + [x]);
    forall y {:trigger y in Removed(c, j)} | y in Removed(c, j) ensures y in c {
    }
  }

  /** The records of a chain that have another key, in order. */
  function Others(keys: Keys, s: seq<Ref>, chunk: int): seq<Ref> {
    if s == [] then []
    else Others(keys, s[..|s| - 1], chunk) + (if KeyOf(keys, s[|s| - 1]) != chunk then [s[|s| - 1]] else [])
  }

  lemma {:induction false} StackOfOthers(keys: Keys, s: seq<Ref>, chunk: int, k: int)
    ensures StackIn(keys, Others(keys, s, chunk), k) == if k == chunk then [] else StackIn(keys, s, k)
  {
    if s != [] {
      var n := |s| - 1;
      var t, u := Others(keys, s[..n], chunk), if KeyOf(keys, s[n]) != chunk then [s[n]] else [];
      StackOfOthers(keys, s[..n], chunk, k);
      StackOfSum(keys, t, u, k);
      StackOfOne(keys, s[n], k);
    }
  }

  lemma {:induction false} OthersMembers(keys: Keys, s: seq<Ref>, chunk: int)
    ensures forall x {:trigger x in Others(keys, s, chunk)} :: x in Others(keys, s, chunk) ==> x in s
    ensures Distinct(s) ==> Distinct(Others(keys, s, chunk))
    ensures |Others(keys, s, chunk)| + |StackIn(keys, s, chunk)| == |s|
  {
    if s != [] {
      var n := |s| - 1;
      OthersMembers(keys, s[..n], chunk);
      assert s == s[..n] + [s[n]];
      if Distinct(s) {
        Parts(s[..n], [s[n]]);
        assert s[n] in [s[n]];
        DistinctSum(Others(keys, s[..n], chunk), if KeyOf(keys, s[n]) != chunk then [s[n]] else []);
      }
    }
  }

  lemma OthersFacts(hash: Hash, keys: Keys, maxp: int, p: int, c: seq<Ref>, chunk: int, i: int)
    requires maxp > 0 && Distinct(c) && PlacedIn(hash, keys, maxp, p, c, i)
    ensures Distinct(Others(keys, c, chunk)) && PlacedIn(hash, keys, maxp, p, Others(keys, c, chunk), i)
    ensures |Others(keys, c, chunk)| + |StackIn(keys, c, chunk)| == |c|
  {
    hide Bindex;
    OthersMembers(keys, c, chunk);
    var s := Others(keys, c, chunk);
    forall x {:trigger x in s} | x in s ensures x in c {
    }
  }

  /** Where the loop that deletes from chain `c` is: the records of `done` have been looked at. */
  ghost predicate Sweeping(keys: Keys, chunk: int, next0: Links, next: Links, head: Ref,
                           c: seq<Ref>, done: seq<Ref>, kept: seq<Ref>, rest: seq<Ref>, deleted: int) {
    && c == done + rest && kept == Others(keys, done, chunk) && deleted == |StackIn(keys, done, chunk)|
    && Chain(next, head, kept + rest) && Distinct(kept + rest) && SameElsewhere(next0, next, c)
    && (forall x {:trigger x in c} :: x in kept ==> x in c) && (forall x {:trigger x in c} | x in c :: x in keys)
  }

  lemma SweepBegins(keys: Keys, chunk: int, next: Links, head: Ref, c: seq<Ref>)
    requires Chain(next, head, c) && Distinct(c) && forall x {:trigger x in c} | x in c :: x in keys
    ensures Sweeping(keys, chunk, next, next, head, c, [], [], c, 0) && head == At(c, 0)
  {
    assert [] + c == c;
  }

  lemma RelinkInside(next0: Links, next: Links, c: seq<Ref>, x: Ref, y: Ref)
    requires SameElsewhere(next0, next, c)
    ensures x in c ==> SameElsewhere(next0, next[x := y], c)
  {
    if x in c {
      forall z {:trigger LinkStays(next0, next[x := y], z)} | z in next0 && z !in c
        ensures LinkStays(next0, next[x := y], z)
      {
        assert LinkStays(next0, next, z);
      }
    }
  }

  lemma OthersNext(keys: Keys, s: seq<Ref>, x: Ref, chunk: int)
    ensures Others(keys, s + [x], chunk) == Others(keys, s, chunk) + (if KeyOf(keys, x) != chunk then [x] else [])
    ensures |StackIn(keys, s + [x], chunk)| == |StackIn(keys, s, chunk)| + (if KeyOf(keys, x) == chunk then 1 else 0)
  {
    assert (s + [x])[..|s|] == s;
  }

  /** What the links tell about the record that the loop is at. */
  lemma SweptLinks(next: Links, head: Ref, c: seq<Ref>, kept: seq<Ref>, x: Ref, tail: seq<Ref>)
    requires Chain(next, head, kept + [x] + tail) && Distinct(kept + [x] + tail)
    ensures x in next && next[x] == At(tail, 0) && (Last(kept) == NIL <==> kept == []) && x != Last(kept)
    ensures Chain(if kept == [] then next else next[Last(kept) := next[x]],
                  if kept == [] then next[x] else head, kept + tail) && Distinct(kept + tail)
    ensures kept != [] ==> Last(kept) in kept
  {
    InChain(next, head, kept + [x] + tail);
    assert x in kept + [x] + tail && (kept != [] ==> Last(kept) in kept + [x] + tail);
    UnlinkKeepsChain(next, head, kept, x, tail);
    assert kept + [x] + tail + [] == kept + [x] + tail;
    Rotated(kept, x, tail, []);
    Parts(kept + tail, [] + [x]);
  }

  lemma SweepsOn(keys: Keys, chunk: int, next0: Links, next: Links, head: Ref,
                 c: seq<Ref>, done: seq<Ref>, kept: seq<Ref>, rest: seq<Ref>, deleted: int)
    requires Sweeping(keys, chunk, next0, next, head, c, done, kept, rest, deleted) && rest != []
    ensures rest[0] in keys && rest[0] in next && next[rest[0]] == At(rest, 1)
    ensures (Last(kept) == NIL <==> kept == []) && rest[0] != Last(kept)
    ensures if keys[rest[0]] == chunk then
              Sweeping(keys, chunk, next0, if kept == [] then next else next[Last(kept) := next[rest[0]]],
                       if kept == [] then next[rest[0]] else head, c, done + [rest[0]], kept, rest[1..], deleted + 1)
            else Sweeping(keys, chunk, next0, next, head, c, done + [rest[0]], kept + [rest[0]], rest[1..], deleted)
  {
    hide Others, StackIn, SameElsewhere, Chain, Distinct;
    var x, tail := rest[0], rest[1..];
    assert kept + rest == kept + [x] + tail && done + [x] + tail == c && x in c;
    OthersNext(keys, done, x, chunk);
    SweptLinks(next, head, c, kept, x, tail);
    if keys[x] == chunk {
      var next' := if kept == [] then next else next[Last(kept) := next[x]];
      RelinkInside(next0, next, c, Last(kept), next[x]);
      assert next' == next || next' == next[Last(kept) := next[x]];
    } else {
      assert kept + [x] + tail == kept + rest;
    }
  }

  lemma SweepEnds(keys: Keys, chunk: int, next0: Links, next: Links, head: Ref,
                  c: seq<Ref>, done: seq<Ref>, kept: seq<Ref>, rest: seq<Ref>, deleted: int)
    requires Sweeping(keys, chunk, next0, next, head, c, done, kept, rest, deleted) && At(rest, 0) == NIL
    ensures Chain(next, head, Others(keys, c, chunk)) && SameElsewhere(next0, next, c)
    ensures deleted == |StackIn(keys, c, chunk)|
  {
    assert rest != [] ==> LinkOk(next, kept + rest, |kept|);
    assert done == c && kept + [] == kept;
  }

  lemma {:induction false} StackHolds(keys: Keys, s: seq<Ref>, x: Ref)
    requires x in s
    ensures x in StackIn(keys, s, KeyOf(keys, x))
  {
    var n := |s| - 1;
    if x != s[n] {
      assert s == s[..n] + [s[n]];
      StackHolds(keys, s[..n], x);
    }
  }

  lemma ChainFacts(hash: Hash, keys: Keys, maxp: int, p: int, chains: seq<seq<Ref>>, next: Links, rows: seq<seq<Ref>>,
                   i: int)
    requires maxp > 0 && 0 <= i < |chains| && Placed(hash, keys, maxp, p, chains) && LinkedUp(next, rows, chains)
    ensures Chain(next, Bin(rows, i), chains[i]) && Distinct(chains[i]) && PlacedIn(hash, keys, maxp, p, chains[i], i)
  {
  }

  /** The first record with a key is the top of the stack of that key. */
  lemma TopOfStack(keys: Keys, c: seq<Ref>, j: nat, k: int)
    requires j <= |c| && forall x {:trigger x in c[..j]} | x in c[..j] :: KeyOf(keys, x) != k
    requires j < |c| ==> KeyOf(keys, c[j]) == k
    ensures StackIn(keys, c, k) == if j == |c| then [] else [c[j]] + StackIn(keys, c[j + 1..], k)
  {
    NoStack(keys, c[..j], k);
    if j < |c| {
      assert c == c[..j] + ([c[j]] + c[j + 1..]);
      StackOfSum(keys, c[..j], [c[j]] + c[j + 1..], k);
      StackOfSum(keys, [c[j]], c[j + 1..], k);
      StackOfOne(keys, c[j], k);
    } else {
      assert c[..j] == c;
    }
  }

  /** A chain whose record `j` was moved to the front. */
  function Fronted(c: seq<Ref>, j: nat): seq<Ref>
    requires j < |c|
  {
    [c[j]] + (c[..j] + c[j + 1..])
  }

  lemma FrontedStack(keys: Keys, c: seq<Ref>, j: nat, k: int)
    requires j < |c| && forall x {:trigger x in c[..j]} | x in c[..j] :: KeyOf(keys, x) != KeyOf(keys, c[j])
    ensures StackIn(keys, Fronted(c, j), k) == StackIn(keys, c, k)
  {
    hide StackIn;
    var x, a, b := c[j], c[..j], c[j + 1..];
    assert c == a + ([x] + b);
    StackOfSum(keys, a, [x] + b, k);
    StackOfSum(keys, [x], b, k);
    StackOfSum(keys, [x], a + b, k);
    StackOfSum(keys, a, b, k);
    StackOfOne(keys, x, k);
    var s, t := StackIn(keys, a, k), StackIn(keys, b, k);
    if KeyOf(keys, x) == k {
      NoStack(keys, a, k);
      assert [] + ([x] + t) == [x] + ([] + t);
    } else {
      assert s + ([] + t) == [] + (s + t);
    }
  }

  lemma FrontedChain(hash: Hash, keys: Keys, maxp: int, p: int, next: Links, head: Ref, c: seq<Ref>, j: nat, i: int)
    requires maxp > 0 && Chain(next, head, c) && Distinct(c) && PlacedIn(hash, keys, maxp, p, c, i) && 0 < j < |c|
    ensures c[j] in next && c[j - 1] in next && c[j] != c[j - 1] && |Fronted(c, j)| == |c|
    ensures var next' := next[c[j - 1] := next[c[j]]][c[j] := head];
            Chain(next', c[j], Fronted(c, j)) && SameElsewhere(next, next', c)
    ensures Distinct(Fronted(c, j)) && PlacedIn(hash, keys, maxp, p, Fronted(c, j), i)
  {
    hide Bindex;
    var x, a, b := c[j], c[..j], c[j + 1..];
    assert c == a + [x] + b && Last(a) == c[j - 1] && x in c;
    InChain(next, head, c);
    UnlinkKeepsChain(next, head, a, x, b);
    var next1 := next[Last(a) := next[x]];
    assert c + [] == c && a + [x] + b + [] == c;
    Rotated(a, x, b, []);
    assert a + b + ([] + [x]) == (a + b) + [x];
    Parts(a + b, [x]);
    assert x in [x] && x !in a + b;
    PushKeepsChain(next1, head, a + b, x);
    DistinctSum([x], a + b);
    forall y {:trigger y in Fronted(c, j)} | y in Fronted(c, j) ensures y in c {
    }
    assert c[j] in c && c[j - 1] in c;
  }

  /** A record that is in no chain is given a key. */
  lemma KeyAdded(hash: Hash, keys: Keys, maxp: int, p: int, chains: seq<seq<Ref>>, b: Ref, chunk: int)
    requires maxp > 0 && Placed(hash, keys, maxp, p, chains) && forall i {:trigger chains[i]} | 0 <= i < |chains| ::
              b !in chains[i]
    ensures Placed(hash, keys[b := chunk], maxp, p, chains)
  {
    var keys' := keys[b := chunk];
    hide Bindex, Distinct;
    forall i {:trigger chains[i]} | 0 <= i < |chains|
      ensures PlacedIn(hash, keys', maxp, p, chains[i], i) && Distinct(chains[i])
    {
      assert PlacedIn(hash, keys, maxp, p, chains[i], i);
    }
  }

  lemma {:induction false} KeyAddedStack(keys: Keys, s: seq<Ref>, b: Ref, chunk: int, k: int)
    requires b !in s
    ensures StackIn(keys[b := chunk], s, k) == StackIn(keys, s, k)
  {
    if s != [] { KeyAddedStack(keys, s[..|s| - 1], b, chunk, k); }
  }

  lemma KeyAddedStacks(hash: Hash, keys: Keys, maxp: int, p: int, chains: seq<seq<Ref>>, b: Ref, chunk: int, k: int)
    requires maxp > 0 && forall i {:trigger chains[i]} | 0 <= i < |chains| :: b !in chains[i]
    ensures Stack(hash, keys[b := chunk], maxp, p, chains, k) == Stack(hash, keys, maxp, p, chains, k)
  {
    hide Bindex;
    var i := Bindex(hash(k), maxp, p);
    if 0 <= i < |chains| { KeyAddedStack(keys, chains[i], b, chunk, k); }
  }

  /** A chain is not touched when records that belong in other bins are relinked. */
  lemma OthersStay(hash: Hash, keys: Keys, maxp: int, p: int, chains: seq<seq<Ref>>, next: Links, next': Links,
                   rows: seq<seq<Ref>>, rows': seq<seq<Ref>>, c: seq<Ref>, i: int)
    requires maxp > 0 && Placed(hash, keys, maxp, p, chains) && 0 <= i < |chains| && Bin(rows', i) == Bin(rows, i)
    requires LinkedUp(next, rows, chains) && SameElsewhere(next, next', c)
    requires forall x {:trigger x in c} | x in c :: Bindex(hash(KeyOf(keys, x)), maxp, p) != i
    ensures Chain(next', Bin(rows', i), chains[i])
  {
    hide Bin, Bindex;
    assert Chain(next, Bin(rows, i), chains[i]) && PlacedIn(hash, keys, maxp, p, chains[i], i);
    InChain(next, Bin(rows, i), chains[i]);
    forall x {:trigger x in chains[i]} | x in chains[i] ensures x in next && x in next' && next'[x] == next[x] {
      assert x !in c && LinkStays(next, next', x);
    }
    ChainStays(next, next', Bin(rows, i), chains[i]);
  }

  /** Chain `i` is replaced by `s`; only links of records that belong in bin `i` have changed. */
  lemma Rebin(hash: Hash, keys: Keys, maxp: int, p: int, chains: seq<seq<Ref>>, next: Links, next': Links,
              rows: seq<seq<Ref>>, rows': seq<seq<Ref>>, i: int, c: seq<Ref>, s: seq<Ref>)
    requires maxp > 0 && 0 <= i < |chains|
    requires Placed(hash, keys, maxp, p, chains) && LinkedUp(next, rows, chains) && SpareIsEmpty(rows, |chains|)
    requires OtherBinsStay(rows, rows', i, i) && SameElsewhere(next, next', c) && PlacedIn(hash, keys, maxp, p, c, i)
    requires Chain(next', Bin(rows', i), s) && PlacedIn(hash, keys, maxp, p, s, i) && Distinct(s)
    ensures Placed(hash, keys, maxp, p, chains[i := s]) && LinkedUp(next', rows', chains[i := s])
    ensures SpareIsEmpty(rows', |chains|)
  {
    hide Bin, Bindex, Chain, Distinct, SameElsewhere;
    var chains' := chains[i := s];
    forall j {:trigger chains'[j]} | 0 <= j < |chains'|
      ensures PlacedIn(hash, keys, maxp, p, chains'[j], j) && Distinct(chains'[j])
      ensures Chain(next', Bin(rows', j), chains'[j])
    {
      if j != i {
        OthersStay(hash, keys, maxp, p, chains, next, next', rows, rows', c, j);
        assert PlacedIn(hash, keys, maxp, p, chains[j], j) && Distinct(chains[j]);
      }
    }
  }

  /** The chain of bin `i` with a new record in front. */
  lemma PushedChain(hash: Hash, keys: Keys, maxp: int, p: int, chains: seq<seq<Ref>>, next: Links, rows: seq<seq<Ref>>,
                    b: Ref, i: int)
    requires maxp > 0 && 0 <= i < |chains| && b != NIL && b !in chains[i] && b in keys
    requires Bindex(hash(keys[b]), maxp, p) == i
    requires Placed(hash, keys, maxp, p, chains) && LinkedUp(next, rows, chains)
    ensures Chain(next[b := Bin(rows, i)], b, [b] + chains[i]) && Distinct([b] + chains[i])
    ensures PlacedIn(hash, keys, maxp, p, [b] + chains[i], i) && PlacedIn(hash, keys, maxp, p, [b], i)
    ensures SameElsewhere(next, next[b := Bin(rows, i)], [b])
  {
    hide Bin, Bindex;
    assert PlacedIn(hash, keys, maxp, p, chains[i], i) && Chain(next, Bin(rows, i), chains[i]);
    PushKeepsChain(next, Bin(rows, i), chains[i], b);
    DistinctSum([b], chains[i]);
    assert b in [b];
  }

  /** Following links that are the same leads to the same records. */
  lemma {:induction false} SameWay(next: Links, next': Links, head: Ref, s: seq<Ref>, s': seq<Ref>, k: int)
    requires Chain(next, head, s) && Chain(next', head, s') && 0 <= k < |s|
    requires forall x {:trigger s[x]} | 0 <= x < k :: s[x] in next && s[x] in next' && next'[s[x]] == next[s[x]]
    ensures k < |s'| && s'[k] == s[k]
    decreases k
  {
    assert LinkOk(next, s, k);
    if k > 0 {
      SameWay(next, next', head, s, s', k - 1);
      assert LinkOk(next, s, k - 1) && LinkOk(next', s', k - 1);
    }
  }

  lemma OtherLinks(next: Links, head: Ref, s: seq<Ref>, b: Ref, k: int, next': Links)
    requires Chain(next, head, s) && Distinct(s) && 0 <= k < |s| && s[k] == b
    requires exists x: Ref {:trigger next[b := x]} :: next' == next[b := x]
    ensures forall x {:trigger s[x]} | 0 <= x < k :: s[x] in next && s[x] in next' && next'[s[x]] == next[s[x]]
  {
    forall x {:trigger s[x]} | 0 <= x < k ensures s[x] in next && s[x] in next' && next'[s[x]] == next[s[x]] {
      assert LinkOk(next, s, x);
    }
  }

  lemma Repeats(s: seq<Ref>, k: int)
    requires s != [] && 0 <= k < |s[1..]| && s[1..][k] == s[0]
    ensures !Distinct(s)
  {
    assert s[k + 1] == s[0];
  }

  /** A record of a chain that is linked in front of it comes round again. */
  lemma PushedTwice(next: Links, head: Ref, s: seq<Ref>, b: Ref, k: int, s': seq<Ref>)
    requires Chain(next, head, s) && Distinct(s) && 0 <= k < |s| && s[k] == b
    ensures Chain(next[b := head], b, s') ==> !Distinct(s')
  {
    assert LinkOk(next, s, k);
    var next' := next[b := head];
    if Chain(next', b, s') {
      assert LinkOk(next', s', 0);
      var t := s'[1..];
      assert Chain(next', head, t) by {
        forall x {:trigger LinkOk(next', t, x)} | 0 <= x < |t| ensures LinkOk(next', t, x) {
          assert LinkOk(next', s', x + 1);
        }
      }
      OtherLinks(next, head, s, b, k, next');
      SameWay(next, next', head, s, t, k);
      Repeats(s', k);
    }
  }

  /** The table after a record was pushed that was in no chain. */
  lemma PushedTable(hash: Hash, keys: Keys, maxp: int, p: int, chains: seq<seq<Ref>>, next: Links,
                    rows: seq<seq<Ref>>, b: Ref, chunk: int, i: int)
    requires maxp > 0 && b != NIL && AreRows(rows) && 0 <= i < |chains| && i < SEGMENT_LENGTH * |rows|
    requires Placed(hash, keys, maxp, p, chains) && LinkedUp(next, rows, chains) && SpareIsEmpty(rows, |chains|)
    requires i == Bindex(hash(chunk), maxp, p) && forall j {:trigger chains[j]} | 0 <= j < |chains| :: b !in chains[j]
    ensures var keys', next', rows' := keys[b := chunk], next[b := Bin(rows, i)], WithBin(rows, i, b);
      && Placed(hash, keys', maxp, p, chains[i := [b] + chains[i]]) && SpareIsEmpty(rows', |chains|)
      && LinkedUp(next', rows', chains[i := [b] + chains[i]]) && AreRows(rows') && |rows'| == |rows|
  {
    hide Bin, Bindex, Chain, Distinct, SpareIsEmpty, WithBin;
    var keys', next', rows' := keys[b := chunk], next[b := Bin(rows, i)], WithBin(rows, i, b);
    WithBinFacts(rows, i, b);
    KeyAdded(hash, keys, maxp, p, chains, b, chunk);
    PushedChain(hash, keys', maxp, p, chains, next, rows, b, i);
    Rebin(hash, keys', maxp, p, chains, next, next', rows, rows', i, [b], [b] + chains[i]);
  }

  /** Some chains make the table one in which every record has its place. */
  ghost predicate HasChains(hash: Hash, keys: Keys, maxp: int, p: int, n: int, next: Links, rows: seq<seq<Ref>>)
    requires maxp > 0
  {
    exists chains: seq<seq<Ref>> {:trigger LinkedUp(next, rows, chains)} ::
      |chains| == n && Placed(hash, keys, maxp, p, chains) && LinkedUp(next, rows, chains)
  }

  lemma NoPlaceTwice(hash: Hash, keys: Keys, maxp: int, p: int, chains: seq<seq<Ref>>, next: Links,
                     rows: seq<seq<Ref>>, b: Ref, chunk: int, i: int, chains': seq<seq<Ref>>)
    requires maxp > 0 && i == Bindex(hash(chunk), maxp, p) && 0 <= i < |chains| == |chains'| && AreRows(rows)
    requires i < SEGMENT_LENGTH * |rows|
    requires Placed(hash, keys, maxp, p, chains) && LinkedUp(next, rows, chains)
    requires exists j {:trigger chains[j]} :: 0 <= j < |chains| && b in chains[j]
    ensures var rows' := WithBin(rows, i, b);
      !(Placed(hash, keys[b := chunk], maxp, p, chains') && LinkedUp(next[b := Bin(rows, i)], rows', chains'))
  {
    hide Bin, Bindex, Chain, Distinct, WithBin;
    var keys', next', rows' := keys[b := chunk], next[b := Bin(rows, i)], WithBin(rows, i, b);
    WithBinFacts(rows, i, b);
    if LinkedUp(next', rows', chains') {
      var j :| 0 <= j < |chains| && b in chains[j];
      var s := chains[j];
      var k :| 0 <= k < |s| && s[k] == b;
      assert Chain(next, Bin(rows, j), s) && Distinct(s) && Chain(next', Bin(rows', j), chains'[j]);
      if j == i {
        PushedTwice(next, Bin(rows, i), s, b, k, chains'[i]);
      } else {
        OtherLinks(next, Bin(rows, j), s, b, k, next');
        SameWay(next, next', Bin(rows, j), s, chains'[j], k);
        assert b in chains'[j] && KeyOf(keys', b) == chunk;
        assert !PlacedIn(hash, keys', maxp, p, chains'[j], j);
      }
    }
  }

  /** Pushing a record leaves such a table exactly if the record was in no chain before. */
  lemma PushNeedsUnlinked(hash: Hash, keys: Keys, maxp: int, p: int, chains: seq<seq<Ref>>, next: Links,
                          rows: seq<seq<Ref>>, b: Ref, chunk: int)
    requires 0 <= p < maxp && |chains| == maxp + p && b != NIL && AreRows(rows) && |chains| <= SEGMENT_LENGTH * |rows|
    requires Placed(hash, keys, maxp, p, chains) && LinkedUp(next, rows, chains) && SpareIsEmpty(rows, |chains|)
    ensures var i := Bindex(hash(chunk), maxp, p);
      0 <= i < |chains| &&
      (HasChains(hash, keys[b := chunk], maxp, p, |chains|, next[b := Bin(rows, i)], WithBin(rows, i, b)) <==>
       forall j {:trigger chains[j]} | 0 <= j < |chains| :: b !in chains[j])
  {
    hide Bin, Bindex, Chain, Distinct, SpareIsEmpty, WithBin;
    var i := Bindex(hash(chunk), maxp, p);
    BindexInRange(hash(chunk), maxp, p);
    var keys', next', rows' := keys[b := chunk], next[b := Bin(rows, i)], WithBin(rows, i, b);
    WithBinFacts(rows, i, b);
    if forall j {:trigger chains[j]} | 0 <= j < |chains| :: b !in chains[j] {
      PushedTable(hash, keys, maxp, p, chains, next, rows, b, chunk, i);
      assert LinkedUp(next', rows', chains[i := [b] + chains[i]]);
    } else {
      forall chains': seq<seq<Ref>> {:trigger LinkedUp(next', rows', chains')} |
        |chains'| == |chains| && Placed(hash, keys', maxp, p, chains')
        ensures !LinkedUp(next', rows', chains')
      {
        if LinkedUp(next', rows', chains') { NoPlaceTwice(hash, keys, maxp, p, chains, next, rows, b, chunk, i,
                                                          chains'); }
      }
    }
  }

  lemma PushedStack(hash: Hash, keys: Keys, maxp: int, p: int, chains: seq<seq<Ref>>, i: int, b: Ref, k: int)
    requires maxp > 0 && 0 <= i < |chains| && b in keys && Bindex(hash(keys[b]), maxp, p) == i
    ensures Stack(hash, keys, maxp, p, chains[i := [b] + chains[i]], k)
            == if k == keys[b] then [b] + Stack(hash, keys, maxp, p, chains, k)
                else Stack(hash, keys, maxp, p, chains, k)
  {
    hide Bindex, StackIn;
    StackOfSum(keys, [b], chains[i], k);
    StackOfOne(keys, b, k);
  }

  /** The average length of a chain. */
  function Load(count: int, bincount: int): int
    requires bincount > 0
  {
    count / bincount
  }

  lemma LoadFacts(maxp: int, p: int, L: int, bincount: int, count: int)
    requires Dims(maxp, p, L, bincount)
    ensures bincount > 0
    ensures Load(count, bincount) > MAX_LOAD <==> count >= (MAX_LOAD + 1) * bincount
    ensures Load(count, bincount) < MIN_LOAD <==> count < MIN_LOAD * bincount
  {
    Pow2Positive(L);
    var q := count / bincount;
    assert count == q * bincount + count % bincount;
    ProductAtLeast(q - MAX_LOAD, bincount);
    ProductAtLeast(q - MAX_LOAD - 1, bincount);
    ProductAtLeast(q - MIN_LOAD, bincount);
    ProductAtLeast(q - MIN_LOAD + 1, bincount);
  }

  lemma ChainOf(next: Links, rows: seq<seq<Ref>>, chains: seq<seq<Ref>>, i: int)
    requires LinkedUp(next, rows, chains) && 0 <= i < |chains|
    ensures Chain(next, Bin(rows, i), chains[i])
  {
  }

  lemma MergeRelinks(hash: Hash, keys: Keys, maxp: int, p: int, L: int, chains: seq<seq<Ref>>, next: Links,
                     next': Links, rows: seq<seq<Ref>>, rows': seq<seq<Ref>>)
    requires Dims(maxp, p, L, |chains|) && L > 0 && Placed(hash, keys, maxp, p, chains)
    requires 0 <= ShrunkP(maxp, p) < |chains| - 1
    requires LinkedUp(next, rows, chains) && SpareIsEmpty(rows, |chains|)
    requires var src, tgt := |chains| - 1, ShrunkP(maxp, p);
      && OtherBinsStay(rows, rows', src, tgt) && Bin(rows', src) == NIL
      && SameElsewhere(next, next', chains[tgt] + chains[src])
      && Chain(next', Bin(rows', tgt), chains[tgt] + chains[src])
    ensures LinkedUp(next', rows', Merge(maxp, p, chains)) && SpareIsEmpty(rows', |chains| - 1)
  {
    var src, tgt, chains' := |chains| - 1, ShrunkP(maxp, p), Merge(maxp, p, chains);
    ShrinkKeepsDims(maxp, p, L, |chains|);
    var c := chains[tgt] + chains[src];
    hide Bin, Bindex, Chain, Distinct, SameElsewhere, Dims, ShrunkP, ShrunkMaxp;
    assert PlacedIn(hash, keys, maxp, p, chains[src], src) && PlacedIn(hash, keys, maxp, p, chains[tgt], tgt);
    forall i {:trigger chains'[i]} | 0 <= i < |chains'| ensures Chain(next', Bin(rows', i), chains'[i]) {
      if i != tgt {
        OthersStay(hash, keys, maxp, p, chains, next, next', rows, rows', c, i);
      }
    }
  }

  /** Bins that are as they were hold the same chains. */
  lemma BinsMove(next: Links, rows: seq<seq<Ref>>, rows': seq<seq<Ref>>, chains: seq<seq<Ref>>, bincount: int)
    requires LinkedUp(next, rows, chains) && SpareIsEmpty(rows, bincount)
    requires forall j {:trigger Bin(rows', j)} :: Bin(rows', j) == Bin(rows, j)
    ensures LinkedUp(next, rows', chains) && SpareIsEmpty(rows', bincount)
  {
    forall i {:trigger chains[i]} | 0 <= i < |chains| ensures Chain(next, Bin(rows', i), chains[i]) {
      assert Chain(next, Bin(rows, i), chains[i]);
    }
  }

  lemma ReadyToSplit(hash: Hash, keys: Keys, maxp: int, p: int, chains: seq<seq<Ref>>, next: Links, rows: seq<seq<Ref>>)
    requires 0 <= p < maxp && maxp + p == |chains| < BINCOUNT_MAX && Placed(hash, keys, maxp, p, chains)
    requires LinkedUp(next, rows, chains) && SpareIsEmpty(rows, |chains|)
    ensures Chain(next, Bin(rows, p), chains[p]) && Distinct(chains[p]) && Bin(rows, |chains|) == NIL
    ensures forall x {:trigger x in chains[p]} | x in chains[p] ::
              SplitsTo(hash, keys, GrownMaxp(maxp, p), GrownP(maxp, p), p, maxp + p, x)
  {
    assert PlacedIn(hash, keys, maxp, p, chains[p], p);
    forall x {:trigger x in chains[p]} | x in chains[p]
      ensures SplitsTo(hash, keys, GrownMaxp(maxp, p), GrownP(maxp, p), p, maxp + p, x)
    {
      SplitBindex(hash(KeyOf(keys, x)), maxp, p);
    }
  }

  lemma SplitRelinks(hash: Hash, keys: Keys, maxp: int, p: int, chains: seq<seq<Ref>>, next: Links, next': Links,
                     rows: seq<seq<Ref>>, rows': seq<seq<Ref>>)
    requires 0 <= p < maxp && maxp + p == |chains| < BINCOUNT_MAX && Placed(hash, keys, maxp, p, chains)
    requires LinkedUp(next, rows, chains) && SpareIsEmpty(rows, |chains|)
    requires OtherBinsStay(rows, rows', p, maxp + p) && SameElsewhere(next, next', chains[p])
    requires Chain(next', Bin(rows', p), Pick(hash, keys, chains[p], GrownMaxp(maxp, p), GrownP(maxp, p), p))
    requires Chain(next', Bin(rows', maxp + p),
                   Pick(hash, keys, chains[p], GrownMaxp(maxp, p), GrownP(maxp, p), maxp + p))
    ensures LinkedUp(next', rows', Split(hash, keys, maxp, p, chains)) && SpareIsEmpty(rows', |chains| + 1)
  {
    var chains' := Split(hash, keys, maxp, p, chains);
    hide Bin, Bindex, Chain, Distinct, Pick, SameElsewhere;
    assert PlacedIn(hash, keys, maxp, p, chains[p], p);
    forall i {:trigger chains'[i]} | 0 <= i < |chains'| ensures Chain(next', Bin(rows', i), chains'[i]) {
      if i != p && i != maxp + p {
        OthersStay(hash, keys, maxp, p, chains, next, next', rows, rows', chains[p], i);
      }
    }
  }

  /** The segments run out exactly when the next bin is the first of a segment. */
  lemma RoomFor(segments: int, newBindex: int)
    requires Covers(segments, newBindex) && newBindex > 0
    ensures PlaceOf(newBindex) == 0 <==> newBindex == SEGMENT_LENGTH * segments
    ensures PlaceOf(newBindex) == 0 ==> SegmentOf(newBindex) == segments
  {
  }

  function NoChains(n: nat): seq<seq<Ref>> { seq(n, _ => []) }

  lemma {:induction false} EmptyTotal(n: nat)
    ensures TotalLength(NoChains(n)) == 0
  {
    if n > 0 {
      assert NoChains(n)[..n - 1] == NoChains(n - 1);
      EmptyTotal(n - 1);
    }
  }

  lemma EmptyBins()
    ensures forall i {:trigger Bin([EMPTY_ROW], i)} :: Bin([EMPTY_ROW], i) == NIL
  {
    forall i {:trigger Bin([EMPTY_ROW], i)} ensures Bin([EMPTY_ROW], i) == NIL {
      if 0 <= i < SEGMENT_LENGTH { SegmentFacts(i, 1); }
    }
  }

  class Metadata {
    const hash: Hash
    const dir: Directory
    var maxp: int
    var p: int
    var L: int
    var bincount: int
    var count: int
    var nextBucket: Links
    var keys: Keys
    ghost var chains: seq<seq<Ref>>
    ghost var grown: bool              // whether the last change of size was an expansion
    ghost var deletions: int           // records deleted since then

    ghost function Footprint(): set<object>
      reads this, dir
    {
      {this, dir, dir.directory} + dir.segments
    }

    ghost predicate Counted()
      reads this, dir
    {
      && Dims(maxp, p, L, bincount) && |chains| == bincount && Covers(|dir.rows|, bincount)
      && count == TotalLength(chains)
    }

    /** The average chain is no longer than the largest load, unless there can be no more bins. */
    ghost predicate Light()
      reads this
    {
      bincount < BINCOUNT_MAX ==> count < (MAX_LOAD + 1) * bincount
    }

    /** The records that an expansion left are still there or were deleted since. */
    ghost predicate Spaced()
      reads this
    {
      grown ==> count + deletions >= (MAX_LOAD + 1) * (bincount - 1)
    }

    ghost predicate Stored()
      reads this, dir
      requires maxp > 0
    {
      && Placed(hash, keys, maxp, p, chains) && LinkedUp(nextBucket, dir.rows, chains)
      && SpareIsEmpty(dir.rows, bincount)
    }

    ghost predicate Valid()
      reads this, Footprint()
    {
      dir.Valid() && Counted() && maxp > 0 && Stored() && Light() && Spaced()
    }

    /** All the records with key `k`, the one added last in front. */
    ghost function StackOf(k: int): seq<Ref>
      reads this
    {
      if maxp > 0 then Stack(hash, keys, maxp, p, chains, k) else []
    }

    constructor (hash: Hash)
      ensures Valid() && fresh(Footprint()) && this.hash == hash
      ensures forall k {:trigger StackOf(k)} :: StackOf(k) == []
    {
      this.hash := hash;
      dir := new Directory();
      maxp, p, L := FIRST_BINS, 0, 0;
      bincount, count := FIRST_BINS, 0;
      nextBucket, keys := map[], map[];
      chains := NoChains(FIRST_BINS);
      grown, deletions := false, 0;
      new;
      EmptyTotal(FIRST_BINS);
      EmptyBins();
    }

    /** One round of the loop that splits a chain: `current` goes to the end of the new chain. */
    method MoveBucket(oldIndex: int, newIndex: int, previous: Ref, lastofnew: Ref, current: Ref,
                      ghost kept: seq<Ref>, ghost rest: seq<Ref>, ghost moved: seq<Ref>) returns (next: Ref)
      requires dir.Valid() && 0 <= oldIndex < SEGMENT_LENGTH * |dir.rows| && 0 <= newIndex < SEGMENT_LENGTH * |dir.rows|
      requires oldIndex != newIndex
      requires Splitting(nextBucket, Bin(dir.rows, oldIndex), Bin(dir.rows, newIndex), kept, rest, moved)
      requires rest != [] && current == rest[0] && previous == Last(kept) && lastofnew == Last(moved)
      modifies this`nextBucket, dir`rows, dir.segments
      ensures dir.Valid() && OtherBinsStay(old(dir.rows), dir.rows, oldIndex, newIndex)
      ensures Splitting(nextBucket, Bin(dir.rows, oldIndex), Bin(dir.rows, newIndex), kept, rest[1..],
                        moved + [current])
      ensures next == At(rest, 1)
      ensures SameElsewhere(old(nextBucket), nextBucket, kept + rest + moved)
    {
      ghost var next0 := nextBucket;
      MoveKeepsSplitting(nextBucket, Bin(dir.rows, oldIndex), Bin(dir.rows, newIndex), kept, rest, moved);
      InChain(nextBucket, Bin(dir.rows, oldIndex), kept + rest);
      InChain(nextBucket, Bin(dir.rows, newIndex), moved);
      assert kept != [] ==> Last(kept) in kept + rest;
      assert moved != [] ==> Last(moved) in moved;
      hide Splitting;
      WithBinFacts(dir.rows, oldIndex, nextBucket[current]);
      if lastofnew == NIL {
        WithBinFacts(dir.rows, newIndex, current);
        dir.Set(newIndex, current);
      } else {
        nextBucket := nextBucket[lastofnew := current];
      }
      if previous == NIL {
        WithBinFacts(dir.rows, oldIndex, nextBucket[current]);
        dir.Set(oldIndex, nextBucket[current]);
      } else {
        nextBucket := nextBucket[previous := nextBucket[current]];
      }
      next := nextBucket[current];
      nextBucket := nextBucket[current := NIL];
      assert nextBucket == Moved(next0, kept, current, moved);
    }

    /** Splits chain `c` of bin `oldIndex`: the records that now belong in bin `newIndex` go there, in order. */
    method SplitChain(oldIndex: int, newIndex: int, ghost c: seq<Ref>)
      requires dir.Valid() && 0 <= oldIndex < SEGMENT_LENGTH * |dir.rows| && 0 <= newIndex < SEGMENT_LENGTH * |dir.rows|
      requires oldIndex != newIndex
      requires Chain(nextBucket, Bin(dir.rows, oldIndex), c) && Distinct(c) && Bin(dir.rows, newIndex) == NIL
      requires maxp > 0
      requires forall x {:trigger x in c} | x in c :: SplitsTo(hash, keys, maxp, p, oldIndex, newIndex, x)
      modifies this`nextBucket, dir`rows, dir.segments
      ensures dir.Valid() && OtherBinsStay(old(dir.rows), dir.rows, oldIndex, newIndex)
      ensures Chain(nextBucket, Bin(dir.rows, oldIndex), Pick(hash, keys, c, maxp, p, oldIndex))
      ensures Chain(nextBucket, Bin(dir.rows, newIndex), Pick(hash, keys, c, maxp, p, newIndex))
      ensures SameElsewhere(old(nextBucket), nextBucket, c)
    {
      hide Progress, Bindex, Bin, Chain, Pick;
      ghost var next0, rows0 := nextBucket, dir.rows;
      var current := dir.Get(oldIndex);
      var previous, lastofnew := NIL, NIL;
      ghost var kept, rest, moved, done := [], c, [], [];
      ProgressBegins(hash, keys, maxp, p, oldIndex, newIndex, nextBucket, current, c);
      while current != NIL
        invariant dir.Valid() && OtherBinsStay(rows0, dir.rows, oldIndex, newIndex)
        invariant Progress(hash, keys, maxp, p, oldIndex, newIndex, next0, nextBucket,
                           Bin(dir.rows, oldIndex), Bin(dir.rows, newIndex), c, done, rest, kept, moved)
        invariant current == At(rest, 0) && previous == Last(kept) && lastofnew == Last(moved)
        decreases |rest|
      {
        ghost var next1, head, newHead := nextBucket, Bin(dir.rows, oldIndex), Bin(dir.rows, newIndex);
        if Bindex(hash(KeyOf(keys, current)), maxp, p) == newIndex {
          ProgressSplits(hash, keys, maxp, p, oldIndex, newIndex, next0, next1, head, newHead, c, done, rest, kept,
                         moved);
          var next := MoveBucket(oldIndex, newIndex, previous, lastofnew, current, kept, rest, moved);
          ProgressMoves(hash, keys, maxp, p, oldIndex, newIndex, next0, next1, head, newHead, c, done, rest, kept,
                        moved, nextBucket, Bin(dir.rows, oldIndex), Bin(dir.rows, newIndex));
          lastofnew := current;
          moved := moved + [current];
          current := next;
        } else {
          ProgressKeeps(hash, keys, maxp, p, oldIndex, newIndex, next0, nextBucket, head, newHead, c, done, rest, kept,
                        moved);
          kept := kept + [current];
          previous := current;
          current := nextBucket[current];
        }
        done := done + [rest[0]];
        rest := rest[1..];
      }
      ProgressEnds(hash, keys, maxp, p, oldIndex, newIndex, next0, nextBucket,
                   Bin(dir.rows, oldIndex), Bin(dir.rows, newIndex), c, done, rest, kept, moved);
    }

    /** Sees to it that there is a segment for one more bin. */
    method MakeRoom(newBindex: int)
      requires dir.Valid() && newBindex == bincount > 0 && Covers(|dir.rows|, bincount)
      modifies dir, dir.directory
      ensures dir.Valid() && Covers(|dir.rows|, bincount + 1) && AreRows(dir.rows)
      ensures forall j {:trigger Bin(dir.rows, j)} :: Bin(dir.rows, j) == Bin(old(dir.rows), j)
      ensures fresh(dir.segments - old(dir.segments)) && (dir.directory == old(dir.directory) || fresh(dir.directory))
      ensures var n := old(dir.directory.Length);
          dir.directory.Length == if n == old(dir.directoryCurrent) then 2 * n else n
    {
      if dir.directory.Length == dir.directoryCurrent {
        dir.Resize(2 * dir.directory.Length);
      }
      assert dir.rows == old(dir.rows) && dir.directoryCurrent == |dir.rows|;
      RoomFor(|dir.rows|, newBindex);
      if PlaceOf(newBindex) == 0 && dir.directory[SegmentOf(newBindex)] == null {
        AppendFacts(dir.rows);
        dir.AddSegment();
      }
    }

    /** Advances the counters and splits the bin that is next in turn. */
    method SplitNext()
      requires dir.Valid() && Dims(maxp, p, L, bincount) && |chains| == bincount < BINCOUNT_MAX
      requires Covers(|dir.rows|, bincount + 1)
      requires maxp > 0 && Stored()
      modifies this, dir`rows, dir.segments
      ensures dir.Valid() && Dims(maxp, p, L, bincount) && bincount == old(bincount) + 1 && Covers(|dir.rows|, bincount)
      ensures maxp == old(GrownMaxp(maxp, p)) && p == old(GrownP(maxp, p)) && count == old(count) && keys == old(keys)
      ensures deletions == old(deletions) && grown == old(grown)
      ensures 0 <= old(p) < old(maxp) && old(maxp + p == |chains|) && chains == old(Split(hash, keys, maxp, p, chains))
      ensures LinkedUp(nextBucket, dir.rows, chains) && SpareIsEmpty(dir.rows, bincount)
    {
      hide Bin, Chain, Bindex, Pick, Distinct, SameElsewhere, Split, Placed, LinkedUp, SpareIsEmpty, SplitsTo, AreRows,
           Directory.Valid;
      ghost var maxp0, p0, chains0, next0, rows0 := maxp, p, chains, nextBucket, dir.rows;
      GrowKeepsDims(maxp, p, L, bincount);
      var newBindex := maxp + p;
      var oldBin := p;
      ReadyToSplit(hash, keys, maxp, p, chains, nextBucket, dir.rows);
      p := p + 1;
      if p == maxp {
        maxp := 2 * maxp;
        p := 0;
        L := L + 1;
      }
      bincount := bincount + 1;
      SplitChain(oldBin, newBindex, chains[oldBin]);
      chains := Split(hash, keys, maxp0, p0, chains);
      SplitRelinks(hash, keys, maxp0, p0, chains0, next0, nextBucket, rows0, dir.rows);
    }

    /** Adds a bin to the table. */
    method ExpandTable()
      requires dir.Valid() && Counted() && maxp > 0 && Stored() && bincount < BINCOUNT_MAX
      modifies Footprint()
      ensures dir.Valid() && Counted() && maxp > 0 && Stored()
      ensures bincount == old(bincount) + 1 && count == old(count) && keys == old(keys)
      ensures maxp == old(GrownMaxp(maxp, p)) && p == old(GrownP(maxp, p))
      ensures deletions == old(deletions) && grown == old(grown)
      ensures forall k {:trigger StackOf(k)} :: StackOf(k) == old(StackOf(k))
      ensures fresh(Footprint() - old(Footprint()))
    {
      hide Bin, Chain, Bindex, Split, Stack, TotalLength, Placed, LinkedUp, SpareIsEmpty, AreRows, Dims;
      ghost var maxp0, p0, chains0, rows0 := maxp, p, chains, dir.rows;
      MakeRoom(maxp + p) by { GrowKeepsDims(maxp, p, L, bincount); }
      BinsMove(nextBucket, rows0, dir.rows, chains, bincount);
      SplitNext();
      SplitKeepsPlaced(hash, keys, maxp0, p0, chains0);
      SplitKeepsTotal(hash, keys, maxp0, p0, chains0);
      forall k {:trigger StackOf(k)} ensures StackOf(k) == old(StackOf(k)) {
        SplitKeepsStacks(hash, keys, maxp0, p0, chains0, k);
      }
    }

    /** Moves the chain of bin `src` to the end of the chain of bin `tgt`. */
    method MoveBuckets(src: int, tgt: int, ghost a: seq<Ref>, ghost b: seq<Ref>)
      requires dir.Valid() && 0 <= src < SEGMENT_LENGTH * |dir.rows| && 0 <= tgt < SEGMENT_LENGTH * |dir.rows|
      requires src != tgt
      requires Chain(nextBucket, Bin(dir.rows, tgt), a) && Chain(nextBucket, Bin(dir.rows, src), b) && Distinct(a + b)
      modifies this`nextBucket, dir`rows, dir.segments
      ensures dir.Valid() && OtherBinsStay(old(dir.rows), dir.rows, src, tgt)
      ensures Chain(nextBucket, Bin(dir.rows, tgt), a + b) && Bin(dir.rows, src) == NIL
      ensures SameElsewhere(old(nextBucket), nextBucket, a + b)
    {
      hide Bin, Distinct;
      var srcHead := dir.Get(src);
      var tgtHead := dir.Get(tgt);
      ChainHead(nextBucket, srcHead, b);
      ChainHead(nextBucket, tgtHead, a);
      WithBinFacts(dir.rows, src, NIL);
      if srcHead != NIL {
        if tgtHead == NIL {
          assert a + b == b;
          dir.Set(tgt, srcHead) by { WithBinFacts(dir.rows, tgt, srcHead); }
          WithBinFacts(old(dir.rows), tgt, srcHead);
          WithBinFacts(dir.rows, src, NIL);
          dir.Set(src, NIL);
        } else {
          var tmp := tgtHead;
          ghost var j := 0;
          while nextBucket[tmp] != NIL
            invariant 0 <= j < |a| && tmp == a[j] && tmp in nextBucket
            decreases |a| - j
          {
            assert LinkOk(nextBucket, a, j) && LinkOk(nextBucket, a, j + 1);
            tmp := nextBucket[tmp];
            j := j + 1;
          }
          assert LinkOk(nextBucket, a, j) && (j + 1 < |a| ==> LinkOk(nextBucket, a, j + 1));
          SpliceKeepsChain(nextBucket, a, tgtHead, b, srcHead);
          nextBucket := nextBucket[tmp := srcHead];
          dir.Set(src, NIL);
        }
      } else {
        assert b == [] && a + b == a;
      }
    }

    /** Gives the last segment back when the last bin was its first. */
    method GiveBackRoom(srcindex: int)
      requires dir.Valid() && Covers(|dir.rows|, srcindex + 1) && srcindex >= FIRST_BINS
      requires SpareIsEmpty(dir.rows, srcindex)
      modifies dir, dir.directory
      ensures dir.Valid() && Covers(|dir.rows|, srcindex)
      ensures forall j {:trigger Bin(dir.rows, j)} :: Bin(dir.rows, j) == Bin(old(dir.rows), j)
      ensures dir.segments == old(dir.segments) && dir.directory == old(dir.directory)
    {
      var segindex := SegmentOf(srcindex);
      if PlaceOf(srcindex) == 0 {
        assert segindex == |dir.rows| - 1;
        DropFacts(dir.rows);
        dir.DropSegment();
      }
    }

    /** Halves the directory when less than half of it is in use. */
    method ContractDirectory()
      requires dir.Valid()
      modifies dir`directory
      ensures dir.Valid() && (dir.directory == old(dir.directory) || fresh(dir.directory))
      ensures var n := old(dir.directory.Length);
              dir.directory.Length == if n > DIRECTORY_LENGTH && dir.directoryCurrent < n / 2 then n / 2 else n
    {
      if dir.directory.Length > DIRECTORY_LENGTH && dir.directoryCurrent < dir.directory.Length / 2 {
        dir.Resize(dir.directory.Length / 2);
      }
    }

    /** Merges the last bin into the one that it was split from. */
    method MergeBins(srcindex: int, tgtindex: int)
      requires dir.Valid() && Counted() && maxp > 0 && Stored() && L > 0
      requires srcindex == bincount - 1 && tgtindex == ShrunkP(maxp, p)
      modifies this`nextBucket, this`chains, dir`rows, dir.segments
      ensures dir.Valid() && |dir.rows| == |old(dir.rows)|
      ensures 0 <= tgtindex < |old(chains)| - 1 && chains == old(Merge(maxp, p, chains))
      ensures LinkedUp(nextBucket, dir.rows, chains) && SpareIsEmpty(dir.rows, srcindex)
    {
      hide Bin, Chain, Bindex, Distinct, SameElsewhere, Merge, Placed, LinkedUp, SpareIsEmpty, AreRows;
      ghost var chains0, next0, rows0 := chains, nextBucket, dir.rows;
      ShrinkKeepsDims(maxp, p, L, bincount);
      MergeKeepsPlaced(hash, keys, maxp, p, L, chains);
      ChainOf(nextBucket, dir.rows, chains, srcindex);
      ChainOf(nextBucket, dir.rows, chains, tgtindex);
      MoveBuckets(srcindex, tgtindex, chains[tgtindex], chains[srcindex]);
      chains := Merge(maxp, p, chains);
      MergeRelinks(hash, keys, maxp, p, L, chains0, next0, nextBucket, rows0, dir.rows);
    }

    /** Takes the counters one bin back and merges the last bin into the one that it was split from. */
    method MergeLast()
      requires dir.Valid() && Counted() && maxp > 0 && Stored() && L > 0
      modifies this, dir, dir.directory, dir.segments
      ensures dir.Valid() && Dims(maxp, p, L, bincount) && bincount == old(bincount) - 1 && Covers(|dir.rows|, bincount)
      ensures maxp == old(ShrunkMaxp(maxp, p)) && p == old(ShrunkP(maxp, p)) && count == old(count) && keys == old(keys)
      ensures deletions == old(deletions) && grown == old(grown)
      ensures old(0 <= ShrunkP(maxp, p) < |chains| - 1) && chains == old(Merge(maxp, p, chains))
      ensures LinkedUp(nextBucket, dir.rows, chains) && SpareIsEmpty(dir.rows, bincount)
      ensures dir.segments == old(dir.segments) && dir.directory == old(dir.directory)
    {
      hide Bin, Chain, Bindex, Merge, Placed, LinkedUp, SpareIsEmpty, AreRows, Directory.Valid;
      ShrinkKeepsDims(maxp, p, L, bincount);
      var srcindex, tgtindex;
      if p == 0 {
        tgtindex := maxp / 2 - 1;
        srcindex := maxp - 1;
      } else {
        tgtindex := p - 1;
        srcindex := maxp + (p - 1);
      }
      MergeBins(srcindex, tgtindex);
      ghost var rows1 := dir.rows;
      GiveBackRoom(srcindex);
      BinsMove(nextBucket, rows1, dir.rows, chains, srcindex);
      p := p - 1;
      if p == -1 {
        maxp := maxp / 2;
        p := maxp - 1;
        L := L - 1;
      }
      bincount := bincount - 1;
    }

    /** Takes a bin from the table. */
    method ContractTable()
      requires dir.Valid() && Counted() && maxp > 0 && Stored() && L > 0
      modifies Footprint()
      ensures dir.Valid() && Counted() && maxp > 0 && Stored()
      ensures bincount == old(bincount) - 1 && count == old(count) && keys == old(keys)
      ensures maxp == old(ShrunkMaxp(maxp, p)) && p == old(ShrunkP(maxp, p))
      ensures deletions == old(deletions) && grown == old(grown)
      ensures forall k {:trigger StackOf(k)} :: StackOf(k) == old(StackOf(k))
      ensures fresh(Footprint() - old(Footprint()))
    {
      hide Bin, Chain, Bindex, Merge, Stack, TotalLength, Placed, LinkedUp, SpareIsEmpty, AreRows;
      ghost var maxp0, p0, L0, chains0 := maxp, p, L, chains;
      ContractDirectory();
      ShrinkKeepsDims(maxp, p, L, bincount);
      hide Dims;
      MergeLast();
      MergeKeepsPlaced(hash, keys, maxp0, p0, L0, chains0);
      MergeKeepsTotal(maxp0, p0, chains0);
      forall k {:trigger StackOf(k)} ensures StackOf(k) == old(StackOf(k)) {
        MergeKeepsStacks(hash, keys, maxp0, p0, L0, chains0, k);
      }
    }

    method ExpandCheck()
      requires dir.Valid() && Counted() && maxp > 0 && Stored() && Spaced()
      requires bincount < BINCOUNT_MAX ==> count <= (MAX_LOAD + 1) * bincount
      modifies Footprint()
      ensures Valid() && count == old(count) && keys == old(keys)
      ensures forall k {:trigger StackOf(k)} :: StackOf(k) == old(StackOf(k))
      ensures if bincount == old(bincount) then grown == old(grown) && deletions == old(deletions)
              else bincount == old(bincount) + 1 && grown && deletions == 0
      ensures bincount != old(bincount) <==> old(bincount < BINCOUNT_MAX && count >= (MAX_LOAD + 1) * bincount)
      ensures fresh(Footprint() - old(Footprint()))
    {
      hide Dims, Placed, LinkedUp, SpareIsEmpty, Covers, TotalLength, Stack;
      LoadFacts(maxp, p, L, bincount, count);
      hide Load;
      if bincount < BINCOUNT_MAX && Load(count, bincount) > MAX_LOAD {
        grown, deletions := true, 0;
        ExpandTable();
      }
    }

    /** A contraction comes at least 2 * bincount - 3 deletions after the last expansion. */
    method ContractCheck()
      requires dir.Valid() && Counted() && maxp > 0 && Stored() && Light() && Spaced()
      modifies Footprint()
      ensures Valid() && count == old(count) && keys == old(keys) && deletions == old(deletions)
      ensures forall k {:trigger StackOf(k)} :: StackOf(k) == old(StackOf(k))
      ensures if bincount == old(bincount) then grown == old(grown) else bincount == old(bincount) - 1 && !grown
      ensures bincount != old(bincount) <==> old(L > 0 && count < MIN_LOAD * bincount)
      ensures bincount < old(bincount) && old(grown) ==> deletions >= 2 * old(bincount) - 3
      ensures fresh(Footprint() - old(Footprint()))
    {
      hide Placed, LinkedUp, SpareIsEmpty, Covers, TotalLength, Stack, Dims;
      LoadFacts(maxp, p, L, bincount, count);
      hide Load;
      if L > 0 && Load(count, bincount) < MIN_LOAD {
        ShrinkKeepsDims(maxp, p, L, bincount);
        grown := false;
        ContractTable();
      }
    }

    /** The record is in no chain. */
    ghost predicate Unlinked(b: Ref)
      reads this
    {
      forall i {:trigger chains[i]} | 0 <= i < |chains| :: b !in chains[i]
    }

    /** A record that is in no stack is in no chain, so that it can be linked. */
    lemma InNoChain(b: Ref)
      requires Valid() && forall k {:trigger StackOf(k)} :: b !in StackOf(k)
      ensures Unlinked(b)
    {
      hide Bindex, StackIn, Distinct;
      forall i {:trigger chains[i]} | 0 <= i < |chains| ensures b !in chains[i] {
        var s := StackOf(KeyOf(keys, b));
        assert PlacedIn(hash, keys, maxp, p, chains[i], i);
        if b in chains[i] { StackHolds(keys, chains[i], b); }
        assert b in chains[i] ==> b in s;
      }
    }

    /** Links a record in front of the chain of its bin. */
    method PushLink(b: Ref, chunk: int)
      requires Valid() && b != NIL && Unlinked(b)
      modifies this`nextBucket, this`keys, this`count, this`chains, dir`rows, dir.segments
      ensures dir.Valid() && Counted() && Stored() && Spaced() && count == old(count) + 1
      ensures keys == old(keys)[b := chunk]
      ensures var i := Bindex(hash(chunk), maxp, p);
        0 <= i < |old(chains)| && chains == old(chains)[i := [b] + old(chains[i])]
    {
      hide Bin, Chain, Bindex, Distinct, SameElsewhere, Placed, PlacedIn, LinkedUp, SpareIsEmpty, AreRows, StackIn,
           Dims, Covers, TotalLength, Stack, WithBin, Directory.Valid;
      ghost var chains0, next0, rows0, keys0 := chains, nextBucket, dir.rows, keys;
      var i := BinFor(chunk);
      var head := dir.Get(i);
      PushedTable(hash, keys0, maxp, p, chains0, next0, rows0, b, chunk, i);
      keys := keys[b := chunk];
      nextBucket := nextBucket[b := head];
      dir.Set(i, b);
      count := count + 1;
      chains := chains[i := [b] + chains[i]];
      TotalLengthAfter(chains0, i, [b] + chains0[i]);
    }

    /** Puts a record in front of its chain. The record must not be in the table already. */
    method Push(b: Ref, chunk: int)
      requires Valid() && b != NIL && Unlinked(b)
      modifies this`nextBucket, this`keys, this`count, this`chains, dir`rows, dir.segments
      ensures dir.Valid() && Counted() && maxp > 0 && Stored() && Spaced() && count == old(count) + 1
      ensures keys == old(keys)[b := chunk]
      ensures forall k {:trigger StackOf(k)} ::
                StackOf(k) == if k == chunk then [b] + old(StackOf(k)) else old(StackOf(k))
    {
      hide Bin, Chain, Bindex, Distinct, SameElsewhere, PlacedIn, LinkedUp, SpareIsEmpty, AreRows, StackIn, Dims,
           Covers, TotalLength, Stack;
      ghost var chains0, keys0, i := chains, keys, Bindex(hash(chunk), maxp, p);
      PushLink(b, chunk);
      forall k {:trigger StackOf(k)}
        ensures StackOf(k) == if k == chunk then [b] + old(StackOf(k)) else old(StackOf(k))
      {
        KeyAddedStacks(hash, keys0, maxp, p, chains0, b, chunk, k);
        PushedStack(hash, keys, maxp, p, chains0, i, b, k);
      }
    }

    method BinFor(chunk: int) returns (i: int)
      requires dir.Valid() && Counted()
      ensures 0 <= i < bincount && i < SEGMENT_LENGTH * |dir.rows| && AreRows(dir.rows) && maxp > 0
      ensures i == Bindex(hash(chunk), maxp, p)
    {
      i := Bindex(hash(chunk), maxp, p);
      BindexInRange(hash(chunk), maxp, p);
    }

    /** Walks a chain to the first record with key `chunk`, if there is one. */
    method Search(i: int, chunk: int) returns (previous: Ref, current: Ref, ghost j: nat)
      requires dir.Valid() && 0 <= i < |chains| && i < SEGMENT_LENGTH * |dir.rows|
      requires Chain(nextBucket, Bin(dir.rows, i), chains[i])
      requires forall x {:trigger x in chains[i]} | x in chains[i] :: x in keys
      ensures j <= |chains[i]| && current == At(chains[i], j) && previous == At(chains[i], j - 1)
      ensures current == NIL <==> j == |chains[i]|
      ensures forall x {:trigger x in chains[i][..j]} | x in chains[i][..j] :: KeyOf(keys, x) != chunk
      ensures current != NIL ==> current in keys && KeyOf(keys, current) == chunk
    {
      hide Bin;
      ghost var c := chains[i];
      previous := NIL;
      current := dir.Get(i);
      j := 0;
      while current != NIL
        invariant j <= |c| && current == At(c, j) && previous == At(c, j - 1)
        invariant forall x {:trigger x in c[..j]} | x in c[..j] :: KeyOf(keys, x) != chunk
        decreases |c| - j
      {
        assert LinkOk(nextBucket, c, j) && c[j] in c;
        if keys[current] == chunk {
          return;
        }
        assert c[..j + 1] == c[..j] + [c[j]];
        previous := current;
        current := nextBucket[current];
        j := j + 1;
      }
      assert j < |c| ==> LinkOk(nextBucket, c, j);
    }

    /** The record of `chunk` that was added last, which also moves to the front of its chain; or NIL. */
    method Lookup(chunk: int) returns (value: Ref)
      requires Valid()
      modifies this`nextBucket, this`chains, dir`rows, dir.segments
      ensures Valid()
      ensures value == At(old(StackOf(chunk)), 0)
      ensures forall k {:trigger StackOf(k)} :: StackOf(k) == old(StackOf(k))
    {
      hide Bin, Chain, Bindex, Distinct, Placed, LinkedUp, SpareIsEmpty, AreRows, StackIn, Dims, Covers, TotalLength;
      var i := BinFor(chunk);
      ChainFacts(hash, keys, maxp, p, chains, nextBucket, dir.rows, i);
      var previous, current, j := Search(i, chunk);
      value := current;
      TopOfStack(keys, chains[i], j, chunk);
      var head := dir.Get(i);
      if current != NIL && previous != NIL && previous != head {
        MoveToFront(i, head, previous, current, j);
      }
    }

    /** Moves record `j` of a chain, the first with its key, to the front. */
    method MoveToFront(i: int, head: Ref, previous: Ref, current: Ref, ghost j: nat)
      requires Valid() && 0 <= i < bincount && i < SEGMENT_LENGTH * |dir.rows| && AreRows(dir.rows)
      requires head == Bin(dir.rows, i) && 0 < j < |chains[i]| && previous == chains[i][j - 1]
      requires current == chains[i][j]
      requires forall x {:trigger x in chains[i][..j]} | x in chains[i][..j] :: KeyOf(keys, x) != KeyOf(keys, current)
      modifies this`nextBucket, this`chains, dir`rows, dir.segments
      ensures Valid()
      ensures forall k {:trigger StackOf(k)} :: StackOf(k) == old(StackOf(k))
    {
      hide Bin, Chain, Bindex, Distinct, SameElsewhere, Placed, LinkedUp, SpareIsEmpty, AreRows, StackIn, Dims, Covers,
           TotalLength, Fronted;
      ghost var chains0, next0, rows0, c := chains, nextBucket, dir.rows, chains[i];
      ChainFacts(hash, keys, maxp, p, chains, nextBucket, dir.rows, i);
      FrontedChain(hash, keys, maxp, p, next0, head, c, j, i);
      WithBinFacts(rows0, i, current);
      nextBucket := nextBucket[previous := nextBucket[current]];
      nextBucket := nextBucket[current := head];
      dir.Set(i, current);
      chains := chains[i := Fronted(c, j)];
      Rebin(hash, keys, maxp, p, chains0, next0, nextBucket, rows0, dir.rows, i, c, Fronted(c, j));
      TotalLengthAfter(chains0, i, Fronted(c, j));
      forall k {:trigger StackOf(k)} ensures StackOf(k) == old(StackOf(k)) {
        FrontedStack(keys, c, j, k);
      }
    }

    /** Adds a record for `chunk`. (Allocation is taken to succeed, so that the result is always true.) */
    method Add(b: Ref, chunk: int)
      requires Valid() && b != NIL && Unlinked(b)
      modifies Footprint()
      ensures Valid() && count == old(count) + 1 && keys == old(keys)[b := chunk]
      ensures forall k {:trigger StackOf(k)} ::
                StackOf(k) == if k == chunk then [b] + old(StackOf(k)) else old(StackOf(k))
      ensures if bincount == old(bincount) then grown == old(grown) && deletions == old(deletions)
              else bincount == old(bincount) + 1 && grown && deletions == 0
      ensures bincount != old(bincount) <==> old(bincount) < BINCOUNT_MAX && count >= (MAX_LOAD + 1) * old(bincount)
      ensures fresh(Footprint() - old(Footprint()))
    {
      hide Placed, LinkedUp, SpareIsEmpty, Stack, Dims, Covers, TotalLength;
      Push(b, chunk);
      ExpandCheck();
    }

    /** Takes the first record with key `chunk` out of its chain. */
    method Unlink(chunk: int) returns (found: bool)
      requires Valid()
      modifies this`nextBucket, this`count, this`chains, this`deletions, dir`rows, dir.segments
      ensures dir.Valid() && Counted() && maxp > 0 && Stored() && Light() && Spaced()
      ensures found <==> old(StackOf(chunk)) != []
      ensures count == old(count) - (if found then 1 else 0) && deletions == old(deletions) + (if found then 1 else 0)
      ensures forall k {:trigger StackOf(k)} ::
                StackOf(k) == if k == chunk && found then old(StackOf(k))[1..] else old(StackOf(k))
    {
      hide Bin, Chain, Bindex, Distinct, SameElsewhere, Placed, LinkedUp, SpareIsEmpty, AreRows, StackIn, Dims, Covers,
           TotalLength, Directory.Valid;
      ghost var chains0, next0, rows0 := chains, nextBucket, dir.rows;
      var i := BinFor(chunk);
      ChainFacts(hash, keys, maxp, p, chains, nextBucket, dir.rows, i);
      var previous, current, j := Search(i, chunk);
      ghost var c := chains[i];
      TopOfStack(keys, c, j, chunk);
      found := current != NIL;
      if found {
        UnlinkedChain(hash, keys, maxp, p, next0, Bin(rows0, i), c, j, i);
        if previous == NIL {
          WithBinFacts(rows0, i, nextBucket[current]);
          dir.Set(i, nextBucket[current]);
        } else {
          nextBucket := nextBucket[previous := nextBucket[current]];
        }
        count, deletions := count - 1, deletions + 1;
        chains := chains[i := Removed(c, j)];
        Rebin(hash, keys, maxp, p, chains0, next0, nextBucket, rows0, dir.rows, i, c, Removed(c, j));
        TotalLengthAfter(chains0, i, Removed(c, j));
        forall k {:trigger StackOf(k)}
          ensures StackOf(k) == if k == chunk then old(StackOf(k))[1..] else old(StackOf(k))
        {
          StackWithout(keys, c, j, k);
        }
      }
    }

    /** Deletes the record of `chunk` that was added last. */
    method Delete(chunk: int) returns (found: bool)
      requires Valid()
      modifies Footprint()
      ensures Valid() && keys == old(keys)
      ensures found <==> old(StackOf(chunk)) != []
      ensures count == old(count) - (if found then 1 else 0)
      ensures forall k {:trigger StackOf(k)} ::
                StackOf(k) == if k == chunk && found then old(StackOf(k))[1..] else old(StackOf(k))
      ensures deletions == old(deletions) + (if found then 1 else 0)
      ensures if bincount == old(bincount) then grown == old(grown) else bincount == old(bincount) - 1 && !grown
      ensures bincount != old(bincount) <==> found && old(L) > 0 && count < MIN_LOAD * old(bincount)
      ensures bincount < old(bincount) && old(grown) ==> deletions >= 2 * old(bincount) - 3
      ensures fresh(Footprint() - old(Footprint()))
    {
      hide Placed, LinkedUp, SpareIsEmpty, Stack, Dims, Covers, TotalLength;
      found := Unlink(chunk);
      if found {
        ContractCheck();
      }
    }

    /** Deletes every record of `chunk` and tells how many there were. */
    method DeleteAll(chunk: int) returns (deleted: int)
      requires Valid()
      modifies Footprint()
      ensures Valid() && keys == old(keys)
      ensures deleted == |old(StackOf(chunk))| && count == old(count) - deleted
      ensures forall k {:trigger StackOf(k)} :: StackOf(k) == if k == chunk then [] else old(StackOf(k))
      ensures deletions == old(deletions) + deleted
      ensures if bincount == old(bincount) then grown == old(grown) else bincount == old(bincount) - 1 && !grown
      ensures bincount != old(bincount) <==> deleted > 0 && old(L) > 0 && count < MIN_LOAD * old(bincount)
      ensures bincount < old(bincount) && old(grown) ==> deletions >= 2 * old(bincount) - 3
      ensures fresh(Footprint() - old(Footprint()))
    {
      hide Placed, LinkedUp, SpareIsEmpty, Stack, Dims, Covers, TotalLength;
      deleted := UnlinkAll(chunk);
      if deleted > 0 {
        ContractCheck();
      }
    }

    method UnlinkAll(chunk: int) returns (deleted: int)
      requires Valid()
      modifies this`nextBucket, this`count, this`chains, this`deletions, dir`rows, dir.segments
      ensures dir.Valid() && Counted() && maxp > 0 && Stored() && Light() && Spaced()
      ensures deleted == |old(StackOf(chunk))| && count == old(count) - deleted && deletions == old(deletions) + deleted
      ensures forall k {:trigger StackOf(k)} :: StackOf(k) == if k == chunk then [] else old(StackOf(k))
    {
      hide Bin, Chain, Bindex, Distinct, SameElsewhere, Placed, LinkedUp, SpareIsEmpty, AreRows, StackIn, Dims, Covers,
           TotalLength, Others;
      ghost var chains0, next0, rows0 := chains, nextBucket, dir.rows;
      var i := BinFor(chunk);
      ChainFacts(hash, keys, maxp, p, chains, nextBucket, dir.rows, i);
      ghost var c := chains[i];
      deleted := Sweep(i, chunk, c);
      OthersFacts(hash, keys, maxp, p, c, chunk, i);
      count, deletions := count - deleted, deletions + deleted;
      chains := chains[i := Others(keys, c, chunk)];
      Rebin(hash, keys, maxp, p, chains0, next0, nextBucket, rows0, dir.rows, i, c, Others(keys, c, chunk));
      TotalLengthAfter(chains0, i, Others(keys, c, chunk));
      forall k {:trigger StackOf(k)} ensures StackOf(k) == if k == chunk then [] else old(StackOf(k)) {
        StackOfOthers(keys, c, chunk, k);
      }
    }

    /** Unlinks every record with key `chunk` from chain `c`. */
    method Sweep(i: int, chunk: int, ghost c: seq<Ref>) returns (deleted: int)
      requires dir.Valid() && 0 <= i < SEGMENT_LENGTH * |dir.rows|
      requires Chain(nextBucket, Bin(dir.rows, i), c) && Distinct(c) && forall x {:trigger x in c} | x in c :: x in keys
      modifies this`nextBucket, dir`rows, dir.segments
      ensures dir.Valid() && OtherBinsStay(old(dir.rows), dir.rows, i, i)
      ensures Chain(nextBucket, Bin(dir.rows, i), Others(keys, c, chunk))
      ensures SameElsewhere(old(nextBucket), nextBucket, c)
      ensures deleted == |StackIn(keys, c, chunk)|
    {
      hide Bin, Chain, SameElsewhere, Others, StackIn, Sweeping;
      ghost var next0, rows0 := nextBucket, dir.rows;
      var current := dir.Get(i);
      var previous := NIL;
      deleted := 0;
      ghost var done, kept, rest := [], [], c;
      SweepBegins(keys, chunk, nextBucket, current, c);
      while current != NIL
        invariant dir.Valid() && OtherBinsStay(rows0, dir.rows, i, i)
        invariant Sweeping(keys, chunk, next0, nextBucket, Bin(dir.rows, i), c, done, kept, rest, deleted)
        invariant current == At(rest, 0) && previous == Last(kept)
        decreases |rest|
      {
        SweepsOn(keys, chunk, next0, nextBucket, Bin(dir.rows, i), c, done, kept, rest, deleted);
        if keys[current] == chunk {
          deleted := deleted + 1;
          if previous == NIL {
            WithBinFacts(dir.rows, i, nextBucket[current]);
            dir.Set(i, nextBucket[current]);
            current := nextBucket[current];
          } else {
            nextBucket := nextBucket[previous := nextBucket[current]];
            current := nextBucket[current];
          }
        } else {
          kept := kept + [current];
          previous := current;
          current := nextBucket[current];
        }
        done := done + [rest[0]];
        rest := rest[1..];
      }
      SweepEnds(keys, chunk, next0, nextBucket, Bin(dir.rows, i), c, done, kept, rest, deleted);
    }
  }
}
