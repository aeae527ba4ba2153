/** A large bin: chunks in order of decreasing size, and a skip ring through the first chunk of each size. */
module LargeBins {
  import opened Sequences
  import opened Chains
  import opened Rings
  import opened BinIndex

  type Sizes = map<Ref, int>

  function SizeOf(size: Sizes, x: Ref): int { if x in size then size[x] else 0 }

  ghost predicate Sorted(size: Sizes, s: seq<Ref>) {
    forall i, j {:trigger s[i], s[j]} | 0 <= i < j < |s| :: SizeOf(size, s[i]) >= SizeOf(size, s[j])
  }

  ghost predicate Positive(size: Sizes, s: seq<Ref>) {
    forall i {:trigger s[i]} | 0 <= i < |s| :: SizeOf(size, s[i]) > 0
  }

  /** The chunks of `s` that are the first of their size, where a chunk of size `prev` comes before `s`. */
  function Leaders(size: Sizes, prev: int, s: seq<Ref>): seq<Ref>
    decreases |s|
  {
    if s == [] then []
    else (if SizeOf(size, s[0]) == prev then [] else [s[0]]) + Leaders(size, SizeOf(size, s[0]), s[1..])
  }

  predicate IsLeader(size: Sizes, s: seq<Ref>, k: int)
    requires 0 <= k < |s|
  {
    k == 0 || SizeOf(size, s[k - 1]) != SizeOf(size, s[k])
  }

  /** The size in front of position `k`. */
  function SizeBefore(size: Sizes, prev: int, s: seq<Ref>, k: int): int
    requires 0 <= k <= |s|
  {
    if k == 0 then prev else SizeOf(size, s[k - 1])
  }

  lemma Reassociate(a: seq<Ref>, b: seq<Ref>, c: seq<Ref>)
    ensures a + (b + c) == (a + b) + c
  {
  }

  lemma {:induction false} LeadersSplit(size: Sizes, prev: int, s: seq<Ref>, k: int)
    requires 0 <= k <= |s|
    ensures Leaders(size, prev, s) == Leaders(size, prev, s[..k]) + Leaders(size, SizeBefore(size, prev, s, k), s[k..])
    decreases |s|
  {
    if k == 0 {
      assert s[..0] == [] && s[0..] == s;
    } else {
      var x, t := SizeOf(size, s[0]), s[1..];
      LeadersSplit(size, x, t, k - 1);
      assert s[..k][1..] == t[..k - 1] && t[k - 1..] == s[k..] && s[..k][0] == s[0];
      assert SizeBefore(size, x, t, k - 1) == SizeBefore(size, prev, s, k);
      var first := if x == prev then [] else [s[0]];
      assert Leaders(size, prev, s) == first + Leaders(size, x, t);
      assert Leaders(size, prev, s[..k]) == first + Leaders(size, x, t[..k - 1]);
      hide Leaders;
      Reassociate(first, Leaders(size, x, t[..k - 1]), Leaders(size, SizeBefore(size, prev, s, k), s[k..]));
    }
  }

  lemma {:induction false} LeadersMembers(size: Sizes, prev: int, s: seq<Ref>)
    ensures forall x {:trigger x in Leaders(size, prev, s)} :: x in Leaders(size, prev, s) ==> x in s
    decreases |s|
  {
    if s != [] {
      LeadersMembers(size, SizeOf(size, s[0]), s[1..]);
      assert s[0] in s && forall x {:trigger x in s[1..]} :: x in s[1..] ==> x in s;
    }
  }

  /** Position `k` of the list is entry `|Leaders(s[..k])|` of the ring if it is the first of its size. */
  lemma LeaderEntry(size: Sizes, s: seq<Ref>, k: int)
    requires 0 <= k < |s| && Distinct(s) && Positive(size, s)
    ensures var r, m := Leaders(size, 0, s), |Leaders(size, 0, s[..k])|;
      if IsLeader(size, s, k) then m < |r| && r[m] == s[k] else s[k] !in r
  {
    LeadersSplit(size, 0, s, k);
    assert SizeOf(size, s[k]) > 0;
    var x := SizeBefore(size, 0, s, k);
    assert s[k..][0] == s[k] && s[k..][1..] == s[k + 1..];
    if !IsLeader(size, s, k) {
      LeadersMembers(size, 0, s[..k]);
      LeadersMembers(size, SizeOf(size, s[k]), s[k + 1..]);
      assert Leaders(size, x, s[k..]) == [] + Leaders(size, SizeOf(size, s[k]), s[k + 1..]);
    }
  }

  ghost predicate Decreasing(size: Sizes, r: seq<Ref>, bound: int) {
    && (forall j {:trigger r[j]} | 0 <= j < |r| :: SizeOf(size, r[j]) < bound)
    && forall i, j {:trigger r[i], r[j]} | 0 <= i < j < |r| :: SizeOf(size, r[i]) > SizeOf(size, r[j])
  }

  lemma SortedTail(size: Sizes, s: seq<Ref>)
    requires Sorted(size, s) && s != []
    ensures Sorted(size, s[1..]) && (|s| > 1 ==> SizeOf(size, s[1..][0]) <= SizeOf(size, s[0]))
  {
    var t := s[1..];
    assert forall i {:trigger t[i]} | 0 <= i < |t| :: t[i] == s[i + 1];
  }

  /** Sizes on the ring strictly decrease. */
  lemma {:induction false} LeadersDecrease(size: Sizes, prev: int, s: seq<Ref>)
    requires Sorted(size, s) && (s != [] ==> SizeOf(size, s[0]) <= prev)
    ensures Decreasing(size, Leaders(size, prev, s), prev)
    decreases |s|
  {
    if s != [] {
      var x, t := SizeOf(size, s[0]), s[1..];
      SortedTail(size, s);
      LeadersDecrease(size, x, t);
      var r := Leaders(size, x, t);
      assert x != prev ==> Leaders(size, prev, s) == [s[0]] + r;
      assert x == prev ==> Leaders(size, prev, s) == [] + r == r;
    }
  }

  /** Every chunk has the size of an entry of the ring. */
  lemma {:induction false} LeadersCover(size: Sizes, prev: int, s: seq<Ref>, k: int) returns (j: int)
    requires 0 <= k < |s|
    ensures var r := Leaders(size, prev, s);
            SizeOf(size, s[k]) == prev || (0 <= j < |r| && SizeOf(size, r[j]) == SizeOf(size, s[k]))
    decreases |s|
  {
    j := 0;
    var x, t := SizeOf(size, s[0]), s[1..];
    if k > 0 {
      j := LeadersCover(size, x, t, k - 1);
      assert Leaders(size, prev, s) == (if x == prev then [] else [s[0]]) + Leaders(size, x, t);
      if SizeOf(size, s[k]) == x {
        j := 0;
      } else if x != prev {
        j := j + 1;
      }
    }
  }

  /** One more chunk in front of chunks that are behind an entry. */
  lemma BehindEntry(size: Sizes, prev: int, s: seq<Ref>, j: int, k: int)
    requires s != [] && Sorted(size, s) && 0 <= j < |Leaders(size, prev, s)| && 0 <= k < |s|
    requires SizeOf(size, s[0]) == prev || j > 0
    requires var x, t, r := SizeOf(size, s[0]), s[1..], Leaders(size, SizeOf(size, s[0]), s[1..]);
      var i := if x == prev then j else j - 1;
      forall n {:trigger t[n]} | 0 <= n < k ::
          SizeOf(size, t[n]) == x || (0 < i <= |r| && SizeOf(size, t[n]) >= SizeOf(size, r[i - 1]))
    ensures forall n {:trigger s[n]} | 0 <= n <= k ::
              SizeOf(size, s[n]) == prev || (j > 0 && SizeOf(size, s[n]) >= SizeOf(size, Leaders(size, prev, s)[j - 1]))
  {
    var x, t := SizeOf(size, s[0]), s[1..];
    SortedTail(size, s);
    LeadersDecrease(size, x, t);
    var r, r' := Leaders(size, prev, s), Leaders(size, x, t);
    assert r == (if x == prev then [] else [s[0]]) + r';
    hide Leaders, Sorted;
    forall n {:trigger s[n]} | 0 <= n <= k
      ensures SizeOf(size, s[n]) == prev || (j > 0 && SizeOf(size, s[n]) >= SizeOf(size, r[j - 1]))
    {
      assert n > 0 ==> s[n] == t[n - 1];
      assert x != prev && j > 1 ==> r[j - 1] == r'[j - 2] && SizeOf(size, r'[j - 2]) < x;
      assert x == prev && j > 0 ==> r[j - 1] == r'[j - 1];
    }
  }

  /** Where the chunk of a ring entry is in the list: behind all the chunks that the entry before stands for. */
  lemma {:induction false} EntryPosition(size: Sizes, prev: int, s: seq<Ref>, j: int) returns (k: int)
    requires 0 <= j < |Leaders(size, prev, s)| && Sorted(size, s)
    ensures 0 <= k < |s| && s[k] == Leaders(size, prev, s)[j] && |Leaders(size, prev, s[..k])| == j
    ensures SizeBefore(size, prev, s, k) != SizeOf(size, s[k])
    ensures forall i {:trigger s[i]} | 0 <= i < k ::
              SizeOf(size, s[i]) == prev || (j > 0 && SizeOf(size, s[i]) >= SizeOf(size, Leaders(size, prev, s)[j - 1]))
    decreases |s|
  {
    var x, t := SizeOf(size, s[0]), s[1..];
    var first := if x == prev then [] else [s[0]];
    assert Leaders(size, prev, s) == first + Leaders(size, x, t);
    if x != prev && j == 0 {
      k := 0;
    } else {
      SortedTail(size, s);
      k := EntryPosition(size, x, t, j - |first|);
      assert s[..k + 1][1..] == t[..k] && s[..k + 1][0] == s[0];
      assert Leaders(size, prev, s[..k + 1]) == first + Leaders(size, x, t[..k]);
      BehindEntry(size, prev, s, j, k);
      k := k + 1;
    }
  }

  lemma LeadersNext(size: Sizes, prev: int, x: Ref, b: seq<Ref>)
    ensures Leaders(size, prev, [x] + b)
        == (if SizeOf(size, x) == prev then [] else [x]) + Leaders(size, SizeOf(size, x), b)
  {
    assert ([x] + b)[1..] == b;
  }

  /** A size in front does not matter if no chunk of it follows. */
  lemma LeadersAnyPrev(size: Sizes, prev: int, prev': int, b: seq<Ref>)
    requires b == [] || (SizeOf(size, b[0]) != prev && SizeOf(size, b[0]) != prev')
    ensures Leaders(size, prev, b) == Leaders(size, prev', b)
  {
  }

  lemma SizesAround(size: Sizes, s: seq<Ref>, k: int)
    requires 0 <= k < |s| && Positive(size, s)
    ensures IsLeader(size, s, k) <==> SizeOf(size, s[k]) != SizeBefore(size, 0, s, k)
  {
  }

  /** What comes after an entry that is taken out: its follower, or what came after it before. */
  lemma FollowerLeads(size: Sizes, s: seq<Ref>, k: int)
    requires 0 <= k < |s| && Sorted(size, s) && Positive(size, s) && IsLeader(size, s, k)
    ensures var B, C := Leaders(size, SizeOf(size, s[k]), s[k + 1..]),
        Leaders(size, SizeBefore(size, 0, s, k), s[k + 1..]);
      C == if k + 1 < |s| && !IsLeader(size, s, k + 1) then [s[k + 1]] + B else B
  {
    hide Leaders;
    var b, x := s[k + 1..], SizeBefore(size, 0, s, k);
    if k + 1 < |s| {
      var q, c := s[k + 1], s[k + 2..];
      assert b == [q] + c && (k > 0 ==> SizeOf(size, s[k - 1]) >= SizeOf(size, s[k]))
        && SizeOf(size, s[k]) >= SizeOf(size, q) > 0;
      LeadersNext(size, x, q, c);
      LeadersNext(size, SizeOf(size, s[k]), q, c);
      assert [] + Leaders(size, SizeOf(size, q), c) == Leaders(size, SizeOf(size, q), c);
    } else {
      LeadersAnyPrev(size, x, SizeOf(size, s[k]), b);
    }
  }

  lemma Middle(a: seq<Ref>, p: Ref, q: Ref, b: seq<Ref>)
    ensures var r := a + ([p] + b); r[|a| := q] == a + ([q] + b) && Removed(r, |a|) == a + b
  {
  }

  /** What unlinking chunk `k` of the list means for the ring. */
  lemma LeadersRemoved(size: Sizes, s: seq<Ref>, k: int)
    requires 0 <= k < |s| && Sorted(size, s) && Positive(size, s)
    ensures var r, m, t := Leaders(size, 0, s), |Leaders(size, 0, s[..k])|, Leaders(size, 0, Removed(s, k));
      if !IsLeader(size, s, k) then t == r
      else if k + 1 < |s| && !IsLeader(size, s, k + 1) then m < |r| && t == r[m := s[k + 1]]
      else m < |r| && t == Removed(r, m)
  {
    hide Leaders, Sorted, Positive;
    var p, a, b, x, t := s[k], s[..k], s[k + 1..], SizeBefore(size, 0, s, k), Removed(s, k);
    var A, B, C := Leaders(size, 0, a), Leaders(size, SizeOf(size, p), b), Leaders(size, x, b);
    LeadersSplit(size, 0, s, k);
    LeadersSplit(size, 0, t, k);
    assert t[..k] == a && t[k..] == b && s[k..] == [p] + b && SizeBefore(size, 0, t, k) == x;
    assert Leaders(size, 0, t) == A + C;
    LeadersNext(size, x, p, b);
    if !IsLeader(size, s, k) {
      assert Leaders(size, 0, s) == A + ([] + B) && [] + B == B && B == C by { SizesAround(size, s, k); }
    } else {
      assert Leaders(size, 0, s) == A + ([p] + B) by { SizesAround(size, s, k); }
      FollowerLeads(size, s, k);
      Middle(A, p, if k + 1 < |s| then s[k + 1] else p, B);
    }
  }

  /** What linking a chunk in at position `k` of the list means for the ring. */
  lemma LeadersInserted(size: Sizes, s: seq<Ref>, k: int, v: Ref)
    requires 0 <= k <= |s| && Positive(size, s) && SizeOf(size, v) > 0
    requires k > 0 ==> SizeOf(size, s[k - 1]) >= SizeOf(size, v)
    requires k < |s| && SizeBefore(size, 0, s, k) != SizeOf(size, v) ==> SizeOf(size, s[k]) < SizeOf(size, v)
    ensures var r, m := Leaders(size, 0, s), |Leaders(size, 0, s[..k])|;
      m <= |r| &&
      Leaders(size, 0, Inserted(s, k, v)) ==
        if SizeBefore(size, 0, s, k) == SizeOf(size, v) then r else Inserted(r, m, v)
  {
    hide Leaders;
    var a, b, x, t := s[..k], s[k..], SizeBefore(size, 0, s, k), Inserted(s, k, v);
    var A, B := Leaders(size, 0, a), Leaders(size, x, b);
    LeadersSplit(size, 0, s, k);
    LeadersSplit(size, 0, t, k);
    assert t[..k] == a && t[k..] == [v] + b && SizeBefore(size, 0, t, k) == x;
    LeadersNext(size, x, v, b);
    if x != SizeOf(size, v) {
      assert b != [] ==> b[0] == s[k];
      LeadersAnyPrev(size, x, SizeOf(size, v), b);
      assert Inserted(A + B, |A|, v) == A + ([v] + B);
    }
  }

  lemma InsertedIsSorted(size: Sizes, s: seq<Ref>, k: int, v: Ref)
    requires 0 <= k <= |s| && Sorted(size, s)
    requires k > 0 ==> SizeOf(size, s[k - 1]) >= SizeOf(size, v)
    requires k < |s| ==> SizeOf(size, s[k]) <= SizeOf(size, v)
    ensures Sorted(size, Inserted(s, k, v))
  {
    var t := Inserted(s, k, v);
    forall i, j {:trigger t[i], t[j]} | 0 <= i < j < |t| ensures SizeOf(size, t[i]) >= SizeOf(size, t[j]) {
      assert i < k ==> t[i] == s[i];
      assert i > k ==> t[i] == s[i - 1];
      assert j < k ==> t[j] == s[j];
      assert j > k ==> t[j] == s[j - 1];
    }
  }

  // ---------- What the ring promises ----------

  /** The first chunk of every run of equal sizes is on the ring. */
  ghost predicate LeadersIn(size: Sizes, s: seq<Ref>, r: seq<Ref>) {
    forall k {:trigger s[k]} | 0 <= k < |s| :: IsLeader(size, s, k) ==> s[k] in r
  }

  /** Chunks that are not on the ring say so; the bin itself may say so, or be a ring of its own. */
  ghost predicate OthersAreOff(s: seq<Ref>, header: Ref, r: seq<Ref>, f: Field) {
    && (forall x {:trigger x in r} {:trigger x in s} :: x in r ==> x in s || x == header)
    && (forall x {:trigger x in s} | x in s && x !in r :: Get(f, x) == NIL)
    && (header !in r ==> Get(f, header) == NIL || Get(f, header) == header)
  }

  /** Holds always: `r` is a ring with the first chunk of every run of equal sizes on it, and maybe with other chunks
      and the bin itself. */
  ghost predicate Loose(size: Sizes, s: seq<Ref>, header: Ref, r: seq<Ref>, f: Field, b: Field) {
    && Positive(size, s) && Rings.Ring(f, b, r) && LeadersIn(size, s, r) && OthersAreOff(s, header, r, f)
    && (s == [] ==> r == [])
  }

  /** Holds as long as the bin itself is not on the ring: chunks are sorted, and just the first of each size is on
      it. */
  ghost predicate Tidy(size: Sizes, s: seq<Ref>, r: seq<Ref>) {
    Sorted(size, s) && r == Leaders(size, 0, s)
  }

  lemma FirstEntry(size: Sizes, s: seq<Ref>)
    requires s != [] && Positive(size, s)
    ensures Leaders(size, 0, s) != [] && Leaders(size, 0, s)[0] == s[0]
  {
  }

  lemma RingFacts(f: Field, b: Field, r: seq<Ref>, j: int)
    requires Rings.Ring(f, b, r) && 0 <= j < |r|
    ensures RingAt(f, b, r, j) && RingAt(f, b, r, Succ(|r|, j)) && RingAt(f, b, r, Pred(|r|, j)) && r[j] in r
  {
  }

  lemma PositionOf(r: seq<Ref>, x: Ref) returns (j: int)
    requires x in r
    ensures 0 <= j < |r| && r[j] == x
  {
    j :| 0 <= j < |r| && r[j] == x;
  }

  /** The first chunk is on the ring, and in a tidy bin it is the first entry. */
  lemma FirstIsOn(size: Sizes, s: seq<Ref>, header: Ref, r: seq<Ref>, f: Field, b: Field) returns (j: int)
    requires s != [] && Loose(size, s, header, r, f, b)
    ensures 0 <= j < |r| && r[j] == s[0] && (Tidy(size, s, r) ==> j == 0)
  {
    assert IsLeader(size, s, 0);
    j := PositionOf(r, s[0]);
    FirstEntry(size, s);
    hide Leaders;
  }

  /** Every chunk has the size of a ring entry. */
  lemma {:induction false} SizeIsOn(size: Sizes, s: seq<Ref>, r: seq<Ref>, k: int) returns (j: int)
    requires 0 <= k < |s| && LeadersIn(size, s, r)
    ensures 0 <= j < |r| && SizeOf(size, r[j]) == SizeOf(size, s[k])
    decreases k
  {
    if IsLeader(size, s, k) {
      j := PositionOf(r, s[k]);
    } else {
      j := SizeIsOn(size, s, r, k - 1);
    }
  }

  /** A record that points nowhere is not on the ring. */
  lemma NullIsOff(f: Field, b: Field, r: seq<Ref>, x: Ref)
    requires Rings.Ring(f, b, r) && x in r
    ensures Get(f, x) != NIL && Get(f, x) in r && Get(b, x) in r && (Get(f, x) == x <==> |r| == 1)
  {
    var j := PositionOf(r, x);
    RingFacts(f, b, r, j);
    assert r[Succ(|r|, j)] == r[j] <==> Succ(|r|, j) == j;
  }

  lemma {:induction false} RingWithin(f: Field, b: Field, r: seq<Ref>, s: seq<Ref>, i: int, n: nat)
    requires Rings.Ring(f, b, r) && Rings.Ring(f, b, s) && 0 <= i < |r| && r[i] in s
    ensures i + n < |r| ==> r[i + n] in s
    ensures i + n >= |r| && i + n - |r| < |r| ==> r[i + n - |r|] in s
    decreases n
  {
    if n > 0 {
      NullIsOff(f, b, s, r[i]);
      RingFacts(f, b, r, i);
      RingWithin(f, b, r, s, Succ(|r|, i), n - 1);
    }
  }

  /** Two rings with a record in common have all records in common. */
  lemma SameRing(f: Field, b: Field, r: seq<Ref>, s: seq<Ref>, x: Ref, y: Ref)
    requires Rings.Ring(f, b, r) && Rings.Ring(f, b, s) && x in r && x in s && y in r
    ensures y in s
  {
    var i := PositionOf(r, x);
    var j := PositionOf(r, y);
    RingWithin(f, b, r, s, i, if j >= i then j - i else j - i + |r|);
  }

  // ---------- A chunk enters the ring ----------

  lemma InsertKeepsPositive(size: Sizes, s: seq<Ref>, k: int, v: Ref)
    requires Positive(size, s) && 0 <= k <= |s| && SizeOf(size, v) > 0
    ensures Positive(size, Inserted(s, k, v))
  {
  }

  /** A new chunk is on the ring, in front of a chunk that is on it, or stands behind a chunk of its size. */
  lemma LeadersInInserted(size: Sizes, s: seq<Ref>, k: int, v: Ref, r: seq<Ref>, r': seq<Ref>)
    requires 0 <= k <= |s| && LeadersIn(size, s, r) && forall x {:trigger x in r} | x in r :: x in r'
    requires (v in r' && (k < |s| ==> s[k] in r)) || (k > 0 && SizeOf(size, s[k - 1]) == SizeOf(size, v))
    ensures LeadersIn(size, Inserted(s, k, v), r')
  {
    var t := Inserted(s, k, v);
    forall i {:trigger t[i]} | 0 <= i < |t| && IsLeader(size, t, i) ensures t[i] in r' {
      assert i < k ==> t[i] == s[i] && (i > 0 ==> t[i - 1] == s[i - 1]);
      assert i > k ==> t[i] == s[i - 1];
      assert i > k + 1 ==> t[i - 1] == s[i - 2];
      assert k > 0 ==> t[k - 1] == s[k - 1];
    }
  }

  ghost predicate Enters(size: Sizes, s: seq<Ref>, k: int, v: Ref, header: Ref) {
    0 <= k <= |s| && v != NIL && v != header && v !in s && SizeOf(size, v) > 0
  }

  lemma OffWithEntry(s: seq<Ref>, k: int, v: Ref, header: Ref, r: seq<Ref>, m: int, f: Field, succ: Ref, pred: Ref)
    requires OthersAreOff(s, header, r, f) && 0 <= k <= |s| && 0 <= m <= |r| && pred in r && v != header
    ensures OthersAreOff(Inserted(s, k, v), header, Inserted(r, m, v), f[v := succ][pred := v])
  {
    hide Inserted;
    InsertedMembers(r, m, v);
    InsertedMembers(s, k, v);
  }

  lemma PredIsOn(f: Field, b: Field, r: seq<Ref>, j: int)
    requires Rings.Ring(f, b, r) && 0 <= j < |r|
    ensures Get(b, r[j]) == r[Pred(|r|, j)] && Get(b, r[j]) in r
  {
    assert RingAt(f, b, r, j);
  }

  /** The new chunk is linked into the ring in front of entry `m`. */
  lemma EntersRing(size: Sizes, s: seq<Ref>, k: int, v: Ref, header: Ref, r: seq<Ref>, m: int, f: Field, b: Field)
    requires Loose(size, s, header, r, f, b) && Enters(size, s, k, v, header)
    requires 0 <= m <= |r| && r != [] && (k < |s| ==> s[k] in r)
    ensures var succ := r[if m == |r| then 0 else m];
      var pred := Get(b, succ);
      Loose(size, Inserted(s, k, v), header, Inserted(r, m, v), f[v := succ][pred := v], b[v := pred][succ := v])
  {
    hide Rings.Ring, LeadersIn, Positive, RingAt;
    var j := if m == |r| then 0 else m;
    PredIsOn(f, b, r, j);
    InsertKeepsRing(f, b, r, m, v);
    InsertedMembers(r, m, v);
    InsertKeepsPositive(size, s, k, v);
    LeadersInInserted(size, s, k, v, r, Inserted(r, m, v));
    OffWithEntry(s, k, v, header, r, m, f, r[j], Get(b, r[j]));
  }

  /** The new chunk stands behind one of its size, and the ring stays as it is. */
  lemma StaysOffRing(size: Sizes, s: seq<Ref>, k: int, v: Ref, header: Ref, r: seq<Ref>, f: Field, b: Field)
    requires Loose(size, s, header, r, f, b) && Enters(size, s, k, v, header) && Get(f, v) == NIL
    requires k > 0 && SizeOf(size, s[k - 1]) == SizeOf(size, v)
    ensures Loose(size, Inserted(s, k, v), header, r, f, b)
  {
    InsertedMembers(s, k, v);
    InsertKeepsPositive(size, s, k, v);
    LeadersInInserted(size, s, k, v, r, r);
    hide Rings.Ring, LeadersIn, Positive, Inserted;
  }

  // ---------- A chunk leaves the ring ----------

  /** The record behind a chunk in the list. */
  function Behind(s: seq<Ref>, k: int, header: Ref): Ref
    requires 0 <= k < |s|
  {
    if k + 1 < |s| then s[k + 1] else header
  }

  ghost predicate Leaves(size: Sizes, s: seq<Ref>, k: int, header: Ref, r: seq<Ref>, f: Field, b: Field) {
    && 0 <= k < |s| && Loose(size, s, header, r, f, b) && Distinct(s)
    && header !in s && header != NIL && NIL !in s
  }

  lemma RemovedIsPositive(size: Sizes, s: seq<Ref>, k: int)
    requires Positive(size, s) && 0 <= k < |s|
    ensures Positive(size, Removed(s, k))
  {
    var t := Removed(s, k);
    assert forall i {:trigger t[i]} | 0 <= i < |t| :: t[i] == s[if i < k then i else i + 1];
  }

  lemma RemovedIsSorted(size: Sizes, s: seq<Ref>, k: int)
    requires Sorted(size, s) && 0 <= k < |s|
    ensures Sorted(size, Removed(s, k))
  {
    var t := Removed(s, k);
    assert forall i {:trigger t[i]} | 0 <= i < |t| :: t[i] == s[if i < k then i else i + 1];
  }

  /** Only what is behind the chunk can have become the first of its size. */
  lemma LeadersInRemoved(size: Sizes, s: seq<Ref>, k: int, r: seq<Ref>, r': seq<Ref>)
    requires 0 <= k < |s| && LeadersIn(size, s, r) && Distinct(s)
    requires forall x {:trigger x in r} | x in r && x != s[k] :: x in r'
    requires k + 1 < |s| ==> s[k + 1] in r' || (!IsLeader(size, s, k) && !IsLeader(size, s, k + 1))
    ensures LeadersIn(size, Removed(s, k), r')
  {
    var t := Removed(s, k);
    forall i {:trigger t[i]} | 0 <= i < |t| && IsLeader(size, t, i) ensures t[i] in r' {
      assert i < k ==> t[i] == s[i] && (i > 0 ==> t[i - 1] == s[i - 1]);
      assert i >= k ==> t[i] == s[i + 1];
      assert i > k ==> t[i - 1] == s[i];
      assert i == k > 0 ==> t[i - 1] == s[k - 1];
    }
  }

  /** A chunk that is not on the ring leaves it as it is. */
  lemma OffRingLeaves(size: Sizes, s: seq<Ref>, k: int, header: Ref, r: seq<Ref>, f: Field, b: Field)
    requires Leaves(size, s, k, header, r, f, b) && Get(f, s[k]) == NIL
    ensures Loose(size, Removed(s, k), header, r, f, b) && s[k] !in r
  {
    if s[k] in r { NullIsOff(f, b, r, s[k]); }
    assert k + 1 < |s| && s[k + 1] !in r ==> !IsLeader(size, s, k + 1);
    LeadersInRemoved(size, s, k, r, r);
    RemovedMembers(s, k);
    RemovedIsPositive(size, s, k);
    hide Rings.Ring, LeadersIn, Positive, Distinct;
  }

  lemma OnlyEntry(s: seq<Ref>, r: seq<Ref>, x: Ref)
    requires |r| == 1 && x in r
    ensures r == [x]
  {
  }

  lemma SelfRing(f: Field, b: Field, x: Ref)
    requires x != NIL && Get(f, x) == x && Get(b, x) == x
    ensures Rings.Ring(f, b, [x])
  {
  }

  lemma NoRing(f: Field, b: Field)
    ensures Rings.Ring(f, b, [])
  {
  }

  /** The chunk was the only entry, and the record behind it takes its place. */
  lemma AloneLeaves(size: Sizes, s: seq<Ref>, k: int, header: Ref, r: seq<Ref>, f: Field, b: Field)
    requires Leaves(size, s, k, header, r, f, b) && Get(f, s[k]) == s[k] && Get(f, Behind(s, k, header)) == NIL
    requires s[k] in r
    ensures var fwd := Behind(s, k, header);
      r == [s[k]] && k == 0 &&
      Loose(size, Removed(s, k), header, if |s| == 1 then [] else [fwd], f[fwd := fwd], b[fwd := fwd])
  {
    var fwd, t := Behind(s, k, header), Removed(s, k);
    NullIsOff(f, b, r, s[k]);
    OnlyEntry(s, r, s[k]);
    assert IsLeader(size, s, 0) && s[0] in r;
    var r' := if |s| == 1 then [] else [fwd];
    LeadersInRemoved(size, s, k, r, r');
    RemovedMembers(s, k);
    RemovedIsPositive(size, s, k);
    hide Positive, Distinct;
    assert k + 1 < |s| ==> s[k + 1] in s;
    SelfRing(f[fwd := fwd], b[fwd := fwd], fwd);
    NoRing(f[fwd := fwd], b[fwd := fwd]);
    hide Rings.Ring, LeadersIn;
  }

  /** The members of a ring in which one entry was replaced. */
  lemma UpdatedMembers(r: seq<Ref>, m: int, q: Ref)
    requires Distinct(r) && 0 <= m < |r|
    ensures forall x {:trigger x in r} {:trigger x in r[m := q]} :: x in r[m := q] <==> x == q || (x in r && x != r[m])
  {
    var t := r[m := q];
    forall x {:trigger x in r} {:trigger x in t} ensures x in t <==> x == q || (x in r && x != r[m]) {
      if x in r && x != r[m] {
        var i := PositionOf(r, x);
        assert t[i] == x;
      }
      assert t[m] == q;
    }
  }

  /** With another entry behind it, which is not the bin itself, a chunk is not the only one. */
  lemma NotAlone(s: seq<Ref>, header: Ref, r: seq<Ref>, p: Ref, f: Field, b: Field)
    requires Rings.Ring(f, b, r) && p in r && p in s && Get(f, p) != p
    requires forall x {:trigger x in r} :: x in r ==> x in s || x == header
    ensures header in r || |s| > 1
  {
    NullIsOff(f, b, r, p);
  }

  /** The record behind the chunk, which may be the bin itself, takes its place among several entries. */
  lemma ReplacedLeaves(size: Sizes, s: seq<Ref>, k: int, header: Ref, r: seq<Ref>, m: int, f: Field, b: Field)
    requires Leaves(size, s, k, header, r, f, b) && 0 <= m < |r| && r[m] == s[k]
    requires Get(f, s[k]) != s[k] && Get(f, Behind(s, k, header)) == NIL
    ensures var fwd, succ, pred := Behind(s, k, header), Get(f, s[k]), Get(b, s[k]);
      |s| > 1 && fwd !in r &&
      Loose(size, Removed(s, k), header, r[m := fwd], f[fwd := succ][pred := fwd], b[fwd := pred][succ := fwd])
  {
    var fwd := Behind(s, k, header);
    if fwd in r { NullIsOff(f, b, r, fwd); }
    NullIsOff(f, b, r, s[k]);
    ReplaceKeepsRing(f, b, r, m, fwd);
    UpdatedMembers(r, m, fwd);
    LeadersInRemoved(size, s, k, r, r[m := fwd]);
    RemovedMembers(s, k);
    RemovedIsPositive(size, s, k);
    hide Rings.Ring, LeadersIn, Positive, Distinct;
    assert k + 1 < |s| ==> s[k + 1] in s;
    NotAlone(s, header, r, s[k], f, b);
  }

  /** When the only chunk has left, nothing or the bin itself is left on the ring. */
  lemma LastLeaves(s: seq<Ref>, header: Ref, r: seq<Ref>, r': seq<Ref>, f: Field, b: Field, f': Field, b': Field)
    requires |s| == 1 && header !in s && s[0] in r && OthersAreOff(s, header, r, f)
    requires Rings.Ring(f, b, r) && Rings.Ring(f', b', r') && Distinct(r')
    requires forall x {:trigger x in r'} :: x in r' <==> x in r && x != s[0]
    requires f' == f[Get(b, s[0]) := Get(f, s[0])]
    ensures Get(f', header) == NIL || Get(f', header) == header
  {
    NullIsOff(f, b, r, s[0]);
    if header in r {
      NullIsOff(f', b', r', header);
      hide Rings.Ring;
      assert Get(f', header) in r';
    } else {
      hide Rings.Ring;
      assert Get(b, s[0]) in r;
    }
  }

  /** The chunk leaves a ring, and the record behind it needs no place there. */
  lemma RemovedLeaves(size: Sizes, s: seq<Ref>, k: int, header: Ref, r: seq<Ref>, m: int, f: Field, b: Field)
    requires Leaves(size, s, k, header, r, f, b) && 0 <= m < |r| && r[m] == s[k]
    requires Get(f, Behind(s, k, header)) != NIL
    ensures var succ, pred := Get(f, s[k]), Get(b, s[k]);
      Loose(size, Removed(s, k), header, if |s| == 1 then [] else Removed(r, m), f[pred := succ], b[succ := pred])
  {
    var succ, pred := Get(f, s[k]), Get(b, s[k]);
    var f', b', t, r' := f[pred := succ], b[succ := pred], Removed(s, k), Removed(r, m);
    RemoveKeepsRing(f, b, r, m);
    RemovedMembers(r, m);
    RemovedMembers(s, k);
    assert k + 1 < |s| ==> s[k + 1] in s && s[k + 1] != s[k];
    NullIsOff(f, b, r, s[k]);
    LeadersInRemoved(size, s, k, r, r');
    RemovedIsPositive(size, s, k);
    if |s| == 1 {
      LastLeaves(s, header, r, r', f, b, f', b');
      NoRing(f', b');
    }
    hide Rings.Ring, LeadersIn, Positive, Distinct;
  }

  // ---------- The bin on its own ring ----------

  /** The bin itself is on the ring, in front of a chunk. */
  predicate OnRing(f: Field, header: Ref) {
    Get(f, header) != NIL && Get(f, header) != header
  }

  lemma OnRingMeans(size: Sizes, s: seq<Ref>, header: Ref, r: seq<Ref>, f: Field, b: Field)
    requires Loose(size, s, header, r, f, b) && header !in s
    ensures header in r <==> OnRing(f, header)
  {
    if header in r {
      NullIsOff(f, b, r, header);
      assert IsLeader(size, s, 0) && s[0] in r;
    }
    hide Rings.Ring;
  }

  /** With the bin on it, the ring is not the one through the first chunk of each size. */
  lemma OnRingIsUntidy(size: Sizes, s: seq<Ref>, header: Ref, r: seq<Ref>, f: Field, b: Field)
    requires Loose(size, s, header, r, f, b) && header !in s && OnRing(f, header)
    ensures s != [] && !Rings.Ring(f, b, Leaders(size, 0, s))
  {
    OnRingMeans(size, s, header, r, f, b);
    assert IsLeader(size, s, 0) && s[0] in r;
    FirstEntry(size, s);
    LeadersMembers(size, 0, s);
    hide Leaders, Rings.Ring;
    var t := Leaders(size, 0, s);
    if Rings.Ring(f, b, t) { SameRing(f, b, r, t, s[0], header); }
  }

  /** What the ring of a tidy bin becomes when entry `m`, chunk `k`, leaves. */
  lemma TidyLeaves(size: Sizes, s: seq<Ref>, k: int, r: seq<Ref>, m: int)
    requires Tidy(size, s, r) && Positive(size, s) && Distinct(s) && Distinct(r)
    requires 0 <= k < |s| && 0 <= m < |r| && r[m] == s[k]
    ensures Tidy(size, Removed(s, k), if k + 1 < |s| && s[k + 1] !in r then r[m := s[k + 1]] else Removed(r, m))
  {
    LeaderEntry(size, s, k);
    if k + 1 < |s| { LeaderEntry(size, s, k + 1); }
    LeadersRemoved(size, s, k);
    RemovedIsSorted(size, s, k);
    hide Leaders, Sorted, Positive;
    assert r[m] in r;
  }

  lemma TidyStays(size: Sizes, s: seq<Ref>, k: int, r: seq<Ref>)
    requires Tidy(size, s, r) && Positive(size, s) && Distinct(s)
    requires 0 <= k < |s| && s[k] !in r
    ensures Tidy(size, Removed(s, k), r)
  {
    LeaderEntry(size, s, k);
    LeadersRemoved(size, s, k);
    RemovedIsSorted(size, s, k);
    hide Leaders, Sorted, Positive;
  }

  /** The ring of a bin, whatever happened to it: as long as the bin itself is not on it, it is tidy. */
  ghost predicate Fits(size: Sizes, s: seq<Ref>, header: Ref, r: seq<Ref>, f: Field, b: Field) {
    Loose(size, s, header, r, f, b) && (!OnRing(f, header) ==> Tidy(size, s, r))
  }

  /** The bin itself joins the ring when the last chunk leaves its place to it. */
  predicate Joins(s: seq<Ref>, k: int, header: Ref, f: Field)
    requires 0 <= k < |s|
  {
    Get(f, header) == NIL && k == |s| - 1 && Get(f, s[k]) != NIL && Get(f, s[k]) != s[k]
  }

  /** The ring fits without chunk `k`, and the bin itself is on it exactly if it was or joins, and a chunk is left. */
  ghost predicate FitsWithout(size: Sizes, s: seq<Ref>, k: int, header: Ref, f: Field, r': seq<Ref>, f': Field,
                              b': Field)
    requires 0 <= k < |s|
  {
    && Fits(size, Removed(s, k), header, r', f', b')
    && (OnRing(f', header) <==> |s| > 1 && (OnRing(f, header) || Joins(s, k, header, f)))
  }

  lemma LooseFits(size: Sizes, s: seq<Ref>, k: int, header: Ref, r: seq<Ref>, f: Field, b: Field,
                  r': seq<Ref>, f': Field, b': Field)
    requires Leaves(size, s, k, header, r, f, b) && Loose(size, Removed(s, k), header, r', f', b')
    requires header in r' <==> |s| > 1 && (header in r || Joins(s, k, header, f))
    requires header !in r && header !in r' ==> Tidy(size, Removed(s, k), r')
    ensures FitsWithout(size, s, k, header, f, r', f', b')
  {
    OnRingMeans(size, s, header, r, f, b);
    RemovedMembers(s, k);
    OnRingMeans(size, Removed(s, k), header, r', f', b');
    assert |s| == 1 ==> Removed(s, k) == [];
    hide Rings.Ring, LeadersIn, Positive, OthersAreOff, Sorted;
  }

  lemma OffRingFits(size: Sizes, s: seq<Ref>, k: int, header: Ref, r: seq<Ref>, f: Field, b: Field)
    requires Leaves(size, s, k, header, r, f, b) && Fits(size, s, header, r, f, b) && Get(f, s[k]) == NIL
    ensures FitsWithout(size, s, k, header, f, r, f, b)
  {
    hide Rings.Ring, LeadersIn, Sorted, Leaders, OthersAreOff;
    OffRingLeaves(size, s, k, header, r, f, b);
    OnRingMeans(size, s, header, r, f, b);
    assert |s| == 1 ==> Removed(s, k) == [];
    if header !in r { TidyStays(size, s, k, r); }
    LooseFits(size, s, k, header, r, f, b, r, f, b);
  }

  lemma AloneFits(size: Sizes, s: seq<Ref>, k: int, header: Ref, r: seq<Ref>, f: Field, b: Field)
    requires Leaves(size, s, k, header, r, f, b) && Fits(size, s, header, r, f, b)
    requires Get(f, s[k]) == s[k] && Get(f, Behind(s, k, header)) == NIL && s[k] in r
    ensures var fwd := Behind(s, k, header);
      FitsWithout(size, s, k, header, f, if |s| == 1 then [] else [fwd], f[fwd := fwd], b[fwd := fwd])
  {
    hide Rings.Ring, LeadersIn, Sorted, Leaders, OthersAreOff;
    var fwd := Behind(s, k, header);
    AloneLeaves(size, s, k, header, r, f, b);
    OnRingMeans(size, s, header, r, f, b);
    TidyLeaves(size, s, k, r, 0);
    LooseFits(size, s, k, header, r, f, b, if |s| == 1 then [] else [fwd], f[fwd := fwd], b[fwd := fwd]);
  }

  lemma ReplacedFits(size: Sizes, s: seq<Ref>, k: int, header: Ref, r: seq<Ref>, m: int, f: Field, b: Field)
    requires Leaves(size, s, k, header, r, f, b) && Fits(size, s, header, r, f, b) && 0 <= m < |r| && r[m] == s[k]
    requires Get(f, s[k]) != s[k] && Get(f, Behind(s, k, header)) == NIL
    ensures var fwd, succ, pred := Behind(s, k, header), Get(f, s[k]), Get(b, s[k]);
      FitsWithout(size, s, k, header, f, r[m := fwd], f[fwd := succ][pred := fwd], b[fwd := pred][succ := fwd])
  {
    NullIsOff(f, b, r, s[k]);
    hide Rings.Ring, LeadersIn, Sorted, Leaders, OthersAreOff, Positive;
    var fwd, succ, pred := Behind(s, k, header), Get(f, s[k]), Get(b, s[k]);
    ReplacedLeaves(size, s, k, header, r, m, f, b);
    OnRingMeans(size, s, header, r, f, b);
    UpdatedMembers(r, m, fwd);
    if k + 1 < |s| && header !in r { TidyLeaves(size, s, k, r, m); }
    LooseFits(size, s, k, header, r, f, b, r[m := fwd], f[fwd := succ][pred := fwd], b[fwd := pred][succ := fwd]);
  }

  lemma NoneIsTidy(size: Sizes)
    ensures Tidy(size, [], [])
  {
  }

  lemma RemovedFits(size: Sizes, s: seq<Ref>, k: int, header: Ref, r: seq<Ref>, m: int, f: Field, b: Field)
    requires Leaves(size, s, k, header, r, f, b) && Fits(size, s, header, r, f, b) && 0 <= m < |r| && r[m] == s[k]
    requires Get(f, Behind(s, k, header)) != NIL
    ensures var succ, pred := Get(f, s[k]), Get(b, s[k]);
      FitsWithout(size, s, k, header, f, if |s| == 1 then [] else Removed(r, m), f[pred := succ], b[succ := pred])
  {
    hide LeadersIn, Positive, RingAt, Leaders, Sorted;
    var succ, pred := Get(f, s[k]), Get(b, s[k]);
    RemovedLeaves(size, s, k, header, r, m, f, b);
    OnRingMeans(size, s, header, r, f, b);
    RemovedMembers(r, m);
    assert |s| == 1 ==> Removed(s, k) == [];
    NoneIsTidy(size);
    assert k + 1 < |s| ==> s[k + 1] in s;
    if header !in r { TidyLeaves(size, s, k, r, m); }
    LooseFits(size, s, k, header, r, f, b, if |s| == 1 then [] else Removed(r, m), f[pred := succ], b[succ := pred]);
  }

  // ---------- The list ----------

  lemma HeaderFacts(fd: Field, bk: Field, header: Ref, order: seq<Ref>)
    requires Rings.Ring(fd, bk, [header] + order)
    ensures Get(fd, header) == (if order == [] then header else order[0])
    ensures Get(bk, header) == (if order == [] then header else order[|order| - 1])
    ensures order != [] ==> order[0] in order && order[|order| - 1] in order
  {
    assert RingAt(fd, bk, [header] + order, 0);
  }

  /** The neighbours of chunk `k` in the list. */
  lemma ListFacts(fd: Field, bk: Field, header: Ref, order: seq<Ref>, k: int)
    requires Rings.Ring(fd, bk, [header] + order) && 0 <= k < |order|
    ensures Get(fd, order[k]) == (if k + 1 < |order| then order[k + 1] else header) && order[k] != NIL
    ensures Get(bk, order[k]) == (if k > 0 then order[k - 1] else header)
    ensures Get(fd, header) == order[0] && Get(bk, header) == order[|order| - 1]
    ensures header !in order && Distinct(order)
  {
    var s := [header] + order;
    assert RingAt(fd, bk, s, k + 1) && RingAt(fd, bk, s, 0);
    Parts([header], order);
    assert header in [header];
  }

  lemma NilIsNoChunk(fd: Field, bk: Field, header: Ref, order: seq<Ref>)
    requires Rings.Ring(fd, bk, [header] + order)
    ensures NIL !in order
  {
    var s := [header] + order;
    forall k {:trigger order[k]} | 0 <= k < |order| ensures order[k] != NIL {
      assert RingAt(fd, bk, s, k + 1);
    }
  }

  // ---------- Searching ----------

  /** How many steps lead from entry `i` of a ring of `n` records to entry `j`. */
  function Steps(n: int, i: int, j: int): int { if i <= j then j - i else j - i + n }

  /** No chunk that is large enough is smaller than the last entry that is. */
  lemma BestFit(size: Sizes, s: seq<Ref>, nb: int, j: int)
    requires Sorted(size, s) && Positive(size, s) && s != [] && 0 <= j < |Leaders(size, 0, s)|
    requires var r := Leaders(size, 0, s); SizeOf(size, r[j]) >= nb && (j + 1 < |r| ==> SizeOf(size, r[j + 1]) < nb)
    ensures forall x {:trigger x in s} | x in s && SizeOf(size, x) >= nb ::
              SizeOf(size, x) >= SizeOf(size, Leaders(size, 0, s)[j])
  {
    hide Leaders;
    var r, top := Leaders(size, 0, s), SizeOf(size, s[0]) + 1;
    LeadersDecrease(size, top, s);
    LeadersAnyPrev(size, 0, top, s);
    forall x {:trigger x in s} | x in s && SizeOf(size, x) >= nb ensures SizeOf(size, x) >= SizeOf(size, r[j]) {
      var k :| 0 <= k < |s| && s[k] == x;
      var i := LeadersCover(size, 0, s, k);
      var z := if j + 1 < |r| then r[j + 1] else r[j];
    }
  }

  /** In a tidy bin, all chunks in front of a ring entry have at least the size of the entry before. */
  lemma TidyEntry(size: Sizes, s: seq<Ref>, r: seq<Ref>, j: int, e: int)
    requires Tidy(size, s, r) && Positive(size, s) && Distinct(s) && 0 <= j < |r| && 0 <= e < |s| && s[e] == r[j]
    ensures |Leaders(size, 0, s[..e])| == j && IsLeader(size, s, e)
    ensures e > 0 ==> j > 0 && SizeOf(size, s[e - 1]) >= SizeOf(size, r[j - 1])
  {
    var k := EntryPosition(size, 0, s, j);
    hide Leaders, Sorted;
    assert k == e;
    assert e > 0 ==> SizeOf(size, s[e - 1]) > 0;
  }

  lemma SizeAfter(size: Sizes, s: seq<Ref>, e: int)
    requires Sorted(size, s) && 0 <= e < |s|
    ensures e + 1 < |s| ==> SizeOf(size, s[e + 1]) <= SizeOf(size, s[e])
  {
  }

  /** A new chunk at its place in a tidy bin, where `m` is its place in the ring. */
  lemma TidyInserted(size: Sizes, s: seq<Ref>, k: int, v: Ref, r: seq<Ref>)
    requires Tidy(size, s, r) && Positive(size, s) && 0 <= k <= |s| && SizeOf(size, v) > 0
    requires k > 0 ==> SizeOf(size, s[k - 1]) >= SizeOf(size, v)
    requires k < |s| ==> SizeOf(size, s[k]) <= SizeOf(size, v)
    requires k < |s| && SizeBefore(size, 0, s, k) != SizeOf(size, v) ==> SizeOf(size, s[k]) < SizeOf(size, v)
    ensures var m := |Leaders(size, 0, s[..k])|;
      m <= |r| &&
      Tidy(size, Inserted(s, k, v), if SizeBefore(size, 0, s, k) == SizeOf(size, v) then r else Inserted(r, m, v))
  {
    LeadersInserted(size, s, k, v);
    InsertedIsSorted(size, s, k, v);
    hide Leaders, Sorted;
  }

  lemma FollowerIsOff(size: Sizes, s: seq<Ref>, r: seq<Ref>, k: int)
    requires Tidy(size, s, r) && Positive(size, s) && Distinct(s) && 0 < k < |s|
    requires SizeOf(size, s[k - 1]) == SizeOf(size, s[k])
    ensures s[k] !in r
  {
    LeaderEntry(size, s, k);
  }

  lemma TwoLeaders(size: Sizes, x: Ref, y: Ref)
    requires SizeOf(size, x) > SizeOf(size, y) > 0
    ensures Leaders(size, 0, [x, y]) == [x, y]
  {
    LeadersNext(size, 0, x, [y]);
    LeadersNext(size, SizeOf(size, x), y, []);
    assert [x] + [y] == [x, y] && [y] + [] == [y];
  }

  /** All entries from entry `i` on up to entry `j` are larger than `sz`. */
  ghost predicate Passed(size: Sizes, r: seq<Ref>, i: int, j: int, sz: int)
    requires 0 <= i < |r| && 0 <= j < |r|
  {
    forall n {:trigger r[n]} | 0 <= n < |r| && Steps(|r|, i, n) < Steps(|r|, i, j) :: SizeOf(size, r[n]) > sz
  }

  lemma PassedNext(size: Sizes, r: seq<Ref>, i: int, j: int, sz: int)
    requires 0 <= i < |r| && 0 <= j < |r| && Passed(size, r, i, j, sz) && SizeOf(size, r[j]) > sz
    ensures Passed(size, r, i, Succ(|r|, j), sz)
  {
  }

  lemma PassedOne(size: Sizes, r: seq<Ref>, i: int, j: int, sz: int)
    requires i == 0 < j < |r| && Passed(size, r, i, j, sz)
    ensures SizeOf(size, r[j - 1]) > sz
  {
  }

  /** Entry `j` is the first one from entry `i` on whose size is at most `sz`. */
  ghost predicate FirstFrom(size: Sizes, r: seq<Ref>, i: int, j: int, sz: int) {
    0 <= i < |r| && 0 <= j < |r| && Passed(size, r, i, j, sz) && SizeOf(size, r[j]) <= sz
  }

  /** The ring with `v` in front of `x`. */
  ghost predicate InFrontOf(r: seq<Ref>, x: Ref, v: Ref, r': seq<Ref>) {
    exists m {:trigger r[m]} | 0 <= m < |r| :: r[m] == x && (r' == Inserted(r, m, v) || (m == 0 && r' == r + [v]))
  }

  /** Where the ring leads a chunk that is not smaller than the last one: behind an entry of its size, or in front of
      the first that is smaller. */
  ghost predicate Led(size: Sizes, s: seq<Ref>, header: Ref, r: seq<Ref>, v: Ref, k: int, r': seq<Ref>, i: int, j: int)
    requires 0 <= k <= |s| && s != []
  {
    && FirstFrom(size, r, i, j, SizeOf(size, v)) && r[i] == s[0]
    && if SizeOf(size, r[j]) == SizeOf(size, v) then k > 0 && s[k - 1] == r[j] && r' == r
       else r[j] == (if k < |s| then s[k] else header) && InFrontOf(r, r[j], v, r')
  }

  /** Where a new chunk goes in list and ring, in every state of the bin. */
  ghost predicate Goes(size: Sizes, s: seq<Ref>, header: Ref, r: seq<Ref>, v: Ref, k: int, r': seq<Ref>) {
    && 0 <= k <= |s|
    && if s == [] then k == 0 && r' == [v]
       else if SizeOf(size, v) < SizeOf(size, s[|s| - 1]) then k == |s| && InFrontOf(r, s[0], v, r')
       else exists i, j {:trigger Led(size, s, header, r, v, k, r', i, j)} :: Led(size, s, header, r, v, k, r', i, j)
  }

  lemma {:induction false} SameLeaders(size: Sizes, size': Sizes, prev: int, s: seq<Ref>)
    requires forall i {:trigger s[i]} | 0 <= i < |s| :: SizeOf(size', s[i]) == SizeOf(size, s[i])
    ensures Leaders(size', prev, s) == Leaders(size, prev, s)
    decreases |s|
  {
    if s != [] {
      assert forall i {:trigger s[1..][i]} | 0 <= i < |s| - 1 :: s[1..][i] == s[i + 1];
      SameLeaders(size, size', SizeOf(size, s[0]), s[1..]);
    }
  }

  lemma SameOrder(size: Sizes, s: seq<Ref>, v: Ref, n: int)
    requires v !in s
    ensures Positive(size, s) ==> Positive(size[v := n], s)
    ensures Sorted(size, s) ==> Sorted(size[v := n], s)
    ensures forall r {:trigger LeadersIn(size, s, r)} :: LeadersIn(size, s, r) ==> LeadersIn(size[v := n], s, r)
    ensures Leaders(size[v := n], 0, s) == Leaders(size, 0, s)
  {
    var size' := size[v := n];
    assert forall i {:trigger s[i]} | 0 <= i < |s| :: s[i] in s && SizeOf(size', s[i]) == SizeOf(size, s[i]);
    SameLeaders(size, size', 0, s);
    hide Leaders;
    forall r {:trigger LeadersIn(size, s, r)} | LeadersIn(size, s, r) ensures LeadersIn(size', s, r) {
      forall k {:trigger s[k]} | 0 <= k < |s| && IsLeader(size', s, k) ensures s[k] in r {
        assert k > 0 ==> s[k - 1] in s;
        assert IsLeader(size, s, k);
      }
    }
  }

  lemma SameRingElsewhere(f: Field, b: Field, r: seq<Ref>, v: Ref)
    requires Rings.Ring(f, b, r) && v !in r
    ensures Rings.Ring(f[v := NIL], b[v := NIL], r)
  {
    var f', b' := f[v := NIL], b[v := NIL];
    forall j {:trigger RingAt(f', b', r, j)} | 0 <= j < |r| ensures RingAt(f', b', r, j) {
      assert RingAt(f, b, r, j) && r[j] in r;
    }
  }

  /** The fields of a record that is not in the bin do not matter to it. */
  lemma FitsElsewhere(size: Sizes, s: seq<Ref>, header: Ref, r: seq<Ref>, f: Field, b: Field, v: Ref, n: int)
    requires Fits(size, s, header, r, f, b) && v !in s && v != header
    ensures Fits(size[v := n], s, header, r, f[v := NIL], b[v := NIL])
  {
    hide Leaders, Rings.Ring, LeadersIn, Positive, Sorted;
    assert v !in r;
    SameOrder(size, s, v, n);
    SameRingElsewhere(f, b, r, v);
  }

  class LargeBin {
    const header: Ref          // the bin itself, whose size is zero
    var fd: Field
    var bk: Field
    var fdNext: Field          // the fields of the skip ring
    var bkNext: Field
    var size: Sizes
    ghost var order: seq<Ref>  // the chunks, in the order of their forward links
    ghost var ring: seq<Ref>   // the records on the skip ring

    ghost predicate Listed()
      reads this
    {
      header != NIL && header !in order && SizeOf(size, header) == 0 && Rings.Ring(fd, bk, [header] + order)
    }

    /** Holds always: the first chunk of every run of equal sizes is on the ring, and if the bin itself is not,
        the chunks are sorted and the ring goes through the first chunk of each size and no other record. */
    ghost predicate Valid()
      reads this
    {
      Listed() && Fits(size, order, header, ring, fdNext, bkNext)
    }

    /** The bin itself is on its skip ring. */
    predicate Joined()
      reads this
    {
      OnRing(fdNext, header)
    }

    constructor (header: Ref)
      requires header != NIL
      ensures Valid() && !Joined() && order == [] && ring == [] && this.header == header && fdNext == map[]
    {
      this.header := header;
      fd, bk := map[header := header], map[header := header];
      fdNext, bkNext, size := map[], map[], map[];
      order, ring := [], [];
    }

    ghost predicate Insertable(v: Ref)
      reads this
    {
      Valid() && v != NIL && v != header && v !in order && SizeOf(size, v) > 0 && Get(fdNext, v) == NIL
    }

    /** A chunk of `n` bytes that is not in the bin is freed, and does not claim to be on a ring. */
    method Recycle(v: Ref, n: int)
      requires Valid() && v != NIL && v != header && v !in order && n > 0
      modifies this`fdNext, this`bkNext, this`size
      ensures Insertable(v) && SizeOf(size, v) == n && size == old(size)[v := n] && Joined() == old(Joined())
      ensures fdNext == old(fdNext)[v := NIL]
    {
      FitsElsewhere(size, order, header, ring, fdNext, bkNext, v, n);
      hide Fits, Rings.Ring;
      fdNext := fdNext[v := NIL];
      bkNext := bkNext[v := NIL];
      size := size[v := n];
    }

    /** The ring is as it has to be once `v` is linked in between `bck` and `fwd`, at position `k`. */
    ghost predicate Awaits(v: Ref, k: int, bck: Ref, fwd: Ref)
      reads this
    {
      && 0 <= k <= |order| && fwd == (if k < |order| then order[k] else header)
      && bck == (if k > 0 then order[k - 1] else header)
      && Fits(size, Inserted(order, k, v), header, ring, fdNext, bkNext)
    }

    /** The only chunk is a ring of its own. */
    method EnterFirst(v: Ref)
      requires Insertable(v) && order == []
      modifies this`fdNext, this`bkNext, this`ring
      ensures Awaits(v, 0, header, header) && fdNext == old(fdNext)[v := v] && ring == [v]
    {
      fdNext, bkNext, ring := fdNext[v := v], bkNext[v := v], [v];
      assert Inserted(order, 0, v) == [v] && Leaders(size, 0, [v]) == [v];
    }

    /** Links a chunk into the ring in front of entry `m`, to be linked into the list at position `k`. */
    method EnterRing(v: Ref, succ: Ref, pred: Ref, ghost m: int, ghost k: int)
      requires Insertable(v) && 0 <= k <= |order| && 0 <= m <= |ring| != 0 && (k < |order| ==> order[k] in ring)
      requires succ == ring[if m == |ring| then 0 else m] && pred == Get(bkNext, succ)
      modifies this`fdNext, this`bkNext, this`ring
      ensures Loose(size, Inserted(order, k, v), header, ring, fdNext, bkNext) && ring == Inserted(old(ring), m, v)
      ensures forall x {:trigger Get(fdNext, x)} | x != v && x !in ring :: Get(fdNext, x) == old(Get(fdNext, x))
    {
      EntersRing(size, order, k, v, header, ring, m, fdNext, bkNext);
      NullIsOff(fdNext, bkNext, ring, succ);
      InsertedMembers(ring, m, v);
      hide Rings.Ring, Loose;
      fdNext := fdNext[v := succ];
      bkNext := bkNext[v := pred];
      bkNext := bkNext[succ := v];
      fdNext := fdNext[pred := v];
      ring := Inserted(ring, m, v);
    }

    /** A chunk smaller than the last one goes to the end of the ring. */
    method EnterLast(v: Ref)
      requires Insertable(v) && order != [] && SizeOf(size, v) < SizeOf(size, order[|order| - 1])
      modifies this`fdNext, this`bkNext, this`ring
      ensures Awaits(v, |order|, order[|order| - 1], header) && Joined() == old(Joined())
      ensures Goes(size, order, header, old(ring), v, |order|, ring)
      ensures forall x {:trigger Get(fdNext, x)} | x != v && x !in old(ring) :: Get(fdNext, x) == old(Get(fdNext, x))
    {
      hide Leaders, Rings.Ring, Sorted, Positive, LeadersIn;
      ghost var n := |order|;
      ListFacts(fd, bk, header, order, 0);
      ghost var j := FirstIsOn(size, order, header, ring, fdNext, bkNext);
      var first := Get(fd, header);
      if !Joined() {
        assert order[..n] == order;
        TidyInserted(size, order, n, v, ring);
      }
      Enter(v, first, if j == 0 then |ring| else j, n);
      assert j == 0 ==> ring == old(ring) + [v];
    }

    /** Links a chunk into the ring, and tells what that means for the bin itself. */
    method Enter(v: Ref, succ: Ref, ghost m: int, ghost k: int)
      requires Insertable(v) && 0 <= k <= |order| && 0 <= m <= |ring| != 0 && (k < |order| ==> order[k] in ring)
      requires succ == ring[if m == |ring| then 0 else m]
      modifies this`fdNext, this`bkNext, this`ring
      ensures Loose(size, Inserted(order, k, v), header, ring, fdNext, bkNext) && ring == Inserted(old(ring), m, v)
      ensures Joined() == old(Joined())
      ensures forall x {:trigger Get(fdNext, x)} | x != v && x !in old(ring) :: Get(fdNext, x) == old(Get(fdNext, x))
    {
      hide Leaders, Rings.Ring, Tidy, Loose;
      OnRingMeans(size, order, header, ring, fdNext, bkNext);
      InsertedMembers(order, k, v);
      InsertedMembers(ring, m, v);
      EnterRing(v, succ, Get(bkNext, succ), m, k);
      OnRingMeans(size, Inserted(order, k, v), header, ring, fdNext, bkNext);
    }

    /** Walks the ring to a record that is not larger; the bin itself is smaller than every chunk. */
    method FindEntry(v: Ref) returns (fwd: Ref, ghost i: int, ghost j: int)
      requires Valid() && order != [] && SizeOf(size, v) >= SizeOf(size, order[|order| - 1])
      ensures FirstFrom(size, ring, i, j, SizeOf(size, v)) && ring[i] == order[0] && fwd == ring[j]
      ensures !Joined() ==> i == 0
    {
      ghost var last := SizeIsOn(size, order, ring, |order| - 1);
      hide Leaders, Rings.Ring, Sorted, Positive, LeadersIn, Passed;
      ghost var n := |ring|;
      ListFacts(fd, bk, header, order, 0);
      i := FirstIsOn(size, order, header, ring, fdNext, bkNext);
      j := i;
      fwd := Get(fd, header);
      while SizeOf(size, v) < SizeOf(size, fwd)
        invariant 0 <= i < n && 0 <= j < n && fwd == ring[j] && Passed(size, ring, i, j, SizeOf(size, v))
        decreases Steps(n, j, last)
      {
        RingFacts(fdNext, bkNext, ring, j);
        PassedNext(size, ring, i, j, SizeOf(size, v));
        fwd := Get(fdNext, fwd);
        j := Succ(n, j);
      }
    }

    /** Enters the ring in front of entry `j`, which is the first smaller one; its record is at position `k`. */
    method EnterBetween(v: Ref, fwd: Ref, ghost i: int, ghost j: int, ghost k: int)
      requires Insertable(v) && order != [] && FirstFrom(size, ring, i, j, SizeOf(size, v)) && (!Joined() ==> i == 0)
      requires fwd == ring[j] && SizeOf(size, fwd) < SizeOf(size, v)
      requires 0 <= k <= |order| && fwd == (if k < |order| then order[k] else header)
      modifies this`fdNext, this`bkNext, this`ring
      ensures Fits(size, Inserted(order, k, v), header, ring, fdNext, bkNext) && Joined() == old(Joined())
      ensures InFrontOf(old(ring), fwd, v, ring)
      ensures forall x {:trigger Get(fdNext, x)} | x != v && x !in old(ring) :: Get(fdNext, x) == old(Get(fdNext, x))
    {
      hide Leaders, Rings.Ring, Sorted, Positive, LeadersIn, Passed, Distinct;
      OnRingMeans(size, order, header, ring, fdNext, bkNext);
      ListFacts(fd, bk, header, order, 0);
      assert fwd in ring;
      if !Joined() {
        if j > 0 { PassedOne(size, ring, i, j, SizeOf(size, v)); }
        TidyEntry(size, order, ring, j, k);
        TidyInserted(size, order, k, v, ring);
      }
      Enter(v, fwd, j, k);
    }

    /** Behind a chunk of its size a chunk has no place on the ring. */
    lemma BehindEqual(v: Ref, k: int)
      requires Insertable(v) && 0 <= k < |order| && SizeOf(size, v) == SizeOf(size, order[k])
      ensures Fits(size, Inserted(order, k + 1, v), header, ring, fdNext, bkNext)
    {
      hide Leaders, Rings.Ring, Sorted, Positive, LeadersIn;
      if !Joined() {
        SizeAfter(size, order, k);
        TidyInserted(size, order, k + 1, v, ring);
      }
      StaysOffRing(size, order, k + 1, v, header, ring, fdNext, bkNext);
    }

    /** Enters the ring in front of the record found there, unless that is a chunk of the same size. */
    method EnterSorted(v: Ref) returns (bck: Ref, fwd: Ref, ghost k: int)
      requires Insertable(v) && order != [] && SizeOf(size, v) >= SizeOf(size, order[|order| - 1])
      modifies this`fdNext, this`bkNext, this`ring
      ensures Awaits(v, k, bck, fwd) && Joined() == old(Joined())
      ensures Goes(size, order, header, old(ring), v, k, ring)
      ensures forall x {:trigger Get(fdNext, x)} | x != v && x !in old(ring) :: Get(fdNext, x) == old(Get(fdNext, x))
    {
      hide Leaders, Rings.Ring, Sorted, Positive, LeadersIn, Passed, Tidy, Distinct;
      ghost var i, j;
      fwd, i, j := FindEntry(v);
      HeaderFacts(fd, bk, header, order);
      OnRingMeans(size, order, header, ring, fdNext, bkNext);
      assert fwd in ring;
      k := |order|;
      if fwd != header {
        k := PositionOf(order, fwd);
        ListFacts(fd, bk, header, order, k);
      }
      if SizeOf(size, v) == SizeOf(size, fwd) {
        BehindEqual(v, k);
        k := k + 1;
        fwd := Get(fd, fwd);
        if k < |order| { ListFacts(fd, bk, header, order, k); }
      } else {
        EnterBetween(v, fwd, i, j, k);
      }
      bck := Get(bk, fwd);
      assert Led(size, order, header, old(ring), v, k, ring, i, j);
    }

    /** Puts a chunk in its place in the bin. */
    method Insert(v: Ref) returns (ghost k: int)
      requires Insertable(v)
      modifies this`fd, this`bk, this`fdNext, this`bkNext, this`order, this`ring
      ensures Valid() && Joined() == old(Joined()) && 0 <= k <= |old(order)| && order == Inserted(old(order), k, v)
      ensures Goes(size, old(order), header, old(ring), v, k, ring)
      ensures forall x {:trigger Get(fdNext, x)} | x != v && x !in old(ring) :: Get(fdNext, x) == old(Get(fdNext, x))
    {
      hide Leaders, Rings.Ring, Fits, Led;
      var bck, fwd := header, Get(fd, header);
      HeaderFacts(fd, bk, header, order);
      if fwd != header {
        if SizeOf(size, v) < SizeOf(size, Get(bk, header)) {
          k := |order|;
          EnterLast(v);
          fwd := header;
          bck := Get(bk, header);
        } else {
          bck, fwd, k := EnterSorted(v);
        }
      } else {
        k := 0;
        EnterFirst(v);
      }
      LinkIn(v, bck, fwd, k);
    }

    /** Links a chunk into the list, when the ring is ready for it. */
    method LinkIn(v: Ref, bck: Ref, fwd: Ref, ghost k: int)
      requires Listed() && Awaits(v, k, bck, fwd)
      requires v != NIL && v != header && v !in order
      modifies this`fd, this`bk, this`order
      ensures Valid() && order == Inserted(old(order), k, v)
    {
      hide Leaders, Rings.Ring, Fits;
      InsertKeepsRing(fd, bk, [header] + order, k + 1, v);
      assert Inserted([header] + order, k + 1, v) == [header] + Inserted(order, k, v);
      InsertedMembers(order, k, v);
      bk := bk[v := bck];
      fd := fd[v := fwd];
      bk := bk[fwd := v];
      fd := fd[bck := v];
      order := Inserted(order, k, v);
    }

    /** The part of unlinking that is about the ring; `fwd` is the record behind chunk `k` in the list. */
    method LeaveRing(p: Ref, fwd: Ref, ghost k: int)
      requires Leaves(size, order, k, header, ring, fdNext, bkNext) && Fits(size, order, header, ring, fdNext, bkNext)
      requires p == order[k] && fwd == Behind(order, k, header)
      modifies this`fdNext, this`bkNext, this`ring
      ensures FitsWithout(size, order, k, header, old(fdNext), ring, fdNext, bkNext)
      ensures forall x {:trigger Get(fdNext, x)} | x !in order && x != header :: Get(fdNext, x) == old(Get(fdNext, x))
      ensures Get(fdNext, header) == NIL ==> old(Get(fdNext, header)) == NIL
    {
      hide FitsWithout, Fits, Leaders, Rings.Ring, Sorted, Positive, LeadersIn;
      assert p in order && Get(fdNext, p) != NIL ==> p in ring;
      if Get(fdNext, p) != NIL {
        ghost var m := PositionOf(ring, p);
        NullIsOff(fdNext, bkNext, ring, p);
        if Get(fdNext, fwd) == NIL {
          if Get(fdNext, p) == p {
            AloneFits(size, order, k, header, ring, fdNext, bkNext);
            fdNext, bkNext := fdNext[fwd := fwd], bkNext[fwd := fwd];
            ring := if |order| == 1 then [] else [fwd];
          } else {
            ReplacedFits(size, order, k, header, ring, m, fdNext, bkNext);
            var succ, pred := Get(fdNext, p), Get(bkNext, p);
            fdNext := fdNext[fwd := succ];
            bkNext := bkNext[fwd := pred];
            bkNext := bkNext[succ := fwd];
            fdNext := fdNext[pred := fwd];
            ring := ring[m := fwd];
          }
        } else {
          RemovedFits(size, order, k, header, ring, m, fdNext, bkNext);
          bkNext := bkNext[Get(fdNext, p) := Get(bkNext, p)];
          fdNext := fdNext[Get(bkNext, p) := Get(fdNext, p)];
          ring := if |order| == 1 then [] else Removed(ring, m);
        }
      } else {
        OffRingFits(size, order, k, header, ring, fdNext, bkNext);
      }
    }

    /** Takes chunk `p` off the bin. */
    method Unlink(p: Ref, ghost k: int)
      requires Valid() && 0 <= k < |order| && p == order[k]
      modifies this`fd, this`bk, this`fdNext, this`bkNext, this`order, this`ring
      ensures Valid() && order == Removed(old(order), k)
      ensures forall x {:trigger Get(fdNext, x)} | x !in old(order) && x != header ::
                Get(fdNext, x) == old(Get(fdNext, x))
      ensures Joined() <==> order != [] && old(Joined() || Joins(order, k, header, fdNext))
      ensures Get(fdNext, header) == NIL ==> old(Get(fdNext, header)) == NIL
    {
      hide Leaders, Rings.Ring, Loose, Tidy;
      var fwd, bck := Get(fd, p), Get(bk, p);
      ListFacts(fd, bk, header, order, k);
      RemoveKeepsRing(fd, bk, [header] + order, k + 1);
      assert Removed([header] + order, k + 1) == [header] + Removed(order, k);
      RemovedMembers(order, k);
      NilIsNoChunk(fd, bk, header, order);
      bk := bk[fwd := bck];
      fd := fd[bck := fwd];
      LeaveRing(p, fwd, k);
      order := Removed(order, k);
    }

    /** A chunk that is large enough. With the bin itself off the ring it is the smallest one, and not a ring entry
        if there is another of its size. */
    method Scan(nb: int) returns (victim: Ref, ghost k: int)
      requires Valid() && order != [] && SizeOf(size, order[0]) >= nb > 0
      ensures 0 <= k < |order| && victim == order[k] && SizeOf(size, victim) >= nb
      ensures !Joined() ==>
                forall x {:trigger x in order} | x in order && SizeOf(size, x) >= nb ::
                  SizeOf(size, x) >= SizeOf(size, victim)
      ensures !Joined() && Get(fdNext, victim) != NIL && k + 1 < |order| ==>
                SizeOf(size, order[k + 1]) != SizeOf(size, victim)
    {
      hide Leaders, Rings.Ring, Sorted, Positive, LeadersIn;
      ghost var n := |ring|;
      ListFacts(fd, bk, header, order, 0);
      ghost var first := FirstIsOn(size, order, header, ring, fdNext, bkNext);
      RingFacts(fdNext, bkNext, ring, first);
      victim := Get(bkNext, Get(fd, header));
      ghost var j := Pred(n, first);
      while SizeOf(size, victim) < nb
        invariant 0 <= j < n && victim == ring[j]
        invariant !Joined() && j + 1 < n ==> SizeOf(size, ring[j + 1]) < nb
        decreases Steps(n, first, j)
      {
        RingFacts(fdNext, bkNext, ring, j);
        victim := Get(bkNext, victim);
        j := Pred(n, j);
      }
      assert victim in ring;
      k := PositionOf(order, victim);
      if !Joined() { BestFit(size, order, nb, j); }
      ListFacts(fd, bk, header, order, k);
      assert order[|order| - 1] == order[k] <==> k == |order| - 1;
      if victim != Get(bk, header) && SizeOf(size, victim) == SizeOf(size, Get(fd, victim)) {
        victim := Get(fd, victim);
        k := k + 1;
        if !Joined() { FollowerIsOff(size, order, ring, k); }
        assert victim in order;
      }
    }
  }

  lemma NoChunks(size: Sizes, size': Sizes, header: Ref, f: Field, b: Field)
    requires f == map[] && Fits(size, [], header, [], f, b)
    ensures Fits(size', [], header, [], f, b)
  {
  }

  lemma OneOnRing(size: Sizes, x: Ref, header: Ref, r: seq<Ref>, f: Field, b: Field)
    requires Fits(size, [x], header, r, f, b) && SizeOf(size, x) > 0 && !OnRing(f, header)
    ensures r == [x]
  {
    LeadersNext(size, 0, x, []);
    assert [x] + [] == [x];
  }

  lemma TwoOnRing(size: Sizes, s: seq<Ref>, header: Ref, r: seq<Ref>, f: Field, b: Field)
    requires Fits(size, s, header, r, f, b) && !OnRing(f, header) && SizeOf(size, 2) > SizeOf(size, 3) > 0
    requires s == Inserted([2], 0, 3) || s == Inserted([2], 1, 3)
    ensures s == [2, 3] && r == [2, 3]
  {
    TwoLeaders(size, 2, 3);
    hide Leaders, Rings.Ring, Positive, LeadersIn, OthersAreOff;
    assert SizeOf(size, s[0]) >= SizeOf(size, s[1]);
  }

  const SIZES: Sizes := map[2 := 1056, 3 := 1008, 4 := 1008, 5 := 1024]

  /** Chunks of these sizes belong in the same large bin. */
  lemma OneBin()
    ensures forall x {:trigger x in SIZES} | x in SIZES :: !InSmallbinRange(SIZES[x]) && BinOf(SIZES[x]) == 64
  {
  }

  /** A new bin with two chunks. */
  method NewBinOfTwo() returns (bin: LargeBin)
    ensures fresh(bin) && bin.Valid() && !bin.Joined() && bin.order == [2, 3] && bin.ring == [2, 3]
    ensures bin.header == 1 && bin.size == SIZES && Get(bin.fdNext, 1) == NIL
    ensures Get(bin.fdNext, 4) == NIL && Get(bin.fdNext, 5) == NIL
  {
    hide Leaders, Rings.Ring, Fits, Goes;
    bin := new LargeBin(1);
    NoChunks(bin.size, SIZES, 1, bin.fdNext, bin.bkNext);
    bin.size := SIZES;
    var k := bin.Insert(2);
    assert bin.order == [2];
    OneOnRing(SIZES, 2, 1, bin.ring, bin.fdNext, bin.bkNext);
    k := bin.Insert(3);
    TwoOnRing(SIZES, bin.order, 1, bin.ring, bin.fdNext, bin.bkNext);
  }

  /** Taking the smaller of two chunks off a new bin puts the bin itself on the ring. */
  method TailOfNewBin() returns (bin: LargeBin)
    ensures fresh(bin) && bin.Valid() && bin.Joined() && bin.order == [2] && bin.header == 1 && bin.size == SIZES
    ensures forall x {:trigger x in SIZES} | x in SIZES :: BinOf(SIZES[x]) == 64
    ensures Get(bin.fdNext, 4) == NIL && Get(bin.fdNext, 5) == NIL
  {
    hide Leaders, Tidy, LeadersIn, BinOf, InSmallbinRange;
    OneBin();
    bin := NewBinOfTwo();
    NullIsOff(bin.fdNext, bin.bkNext, bin.ring, 3);
    bin.Unlink(3, 1);
  }

  /** The only chunk and the bin itself make up the ring. */
  lemma TwoJoined(size: Sizes, x: Ref, header: Ref, r: seq<Ref>, f: Field, b: Field)
    requires Loose(size, [x], header, r, f, b) && OnRing(f, header) && x != header
    ensures r == [x, header] || r == [header, x]
  {
    OnRingMeans(size, [x], header, r, f, b);
    var s := [x];
    assert IsLeader(size, s, 0) && s[0] in r;
    var i := PositionOf(r, x);
    var j := PositionOf(r, header);
    assert |r| > 2 ==> r[0] in r && r[1] in r && r[2] in r;
    forall n {:trigger r[n]} | 0 <= n < |r| ensures n == i || n == j {
      assert r[n] in r && OthersAreOff(s, header, r, f);
      assert r[n] == x || r[n] == header;
      assert Distinct(r) && (n != i ==> r[n] != r[i]) && (n != j ==> r[n] != r[j]);
    }
  }

  lemma RingOfThree(r: seq<Ref>, r': seq<Ref>)
    requires (r == [2, 1] || r == [1, 2]) && InFrontOf(r, 2, 4, r')
    ensures r' == [2, 1, 4] || r' == [4, 2, 1] || r' == [1, 4, 2]
  {
    var m :| 0 <= m < |r| && r[m] == 2 && (r' == Inserted(r, m, 4) || (m == 0 && r' == r + [4]));
  }

  lemma StopsAtBin(r: seq<Ref>, i: int, j: int)
    requires r == [2, 1, 4] || r == [4, 2, 1] || r == [1, 4, 2]
    requires FirstFrom(SIZES, r, i, j, 1024) && r[i] == 2
    ensures r[j] == 1
  {
    var z := Succ(|r|, i);
    assert r[z] == 1;
    hide SizeOf;
    assert Steps(|r|, i, z) == 1;
  }

  /** A chunk that comes in front of the bin itself on the ring comes behind smaller ones in the list. */
  lemma BehindSmaller(r: seq<Ref>, s: seq<Ref>, k: int, r': seq<Ref>)
    requires r == [2, 1, 4] || r == [4, 2, 1] || r == [1, 4, 2]
    requires s == [2, 4] && Goes(SIZES, s, 1, r, 5, k, r')
    ensures k == 2
  {
    hide FirstFrom, InFrontOf;
    var i, j :| Led(SIZES, s, 1, r, 5, k, r', i, j);
    assert SizeOf(SIZES, 5) == 1024;
    StopsAtBin(r, i, j);
  }

  /** Chunks that come after that can get out of order. */
  method OrderCanBeLost() returns (bin: LargeBin)
    ensures fresh(bin) && bin.Valid() && bin.order == [2, 4, 5] && !Sorted(bin.size, bin.order)
    ensures bin.size == SIZES && forall x {:trigger x in SIZES} | x in SIZES :: BinOf(SIZES[x]) == 64
  {
    hide Leaders, Rings.Ring, LeadersIn, OthersAreOff, Tidy, Led, InFrontOf, BinOf;
    bin := TailOfNewBin();
    ghost var r := bin.ring;
    TwoJoined(SIZES, 2, 1, r, bin.fdNext, bin.bkNext);
    var k := bin.Insert(4);
    ghost var r' := bin.ring;
    assert bin.order == [2, 4];
    k := bin.Insert(5);
    RingOfThree(r, r');
    BehindSmaller(r', [2, 4], k, bin.ring);
    assert bin.order == [2, 4, 5];
    assert SizeOf(SIZES, bin.order[1]) < SizeOf(SIZES, bin.order[2]);
  }
}
