/** The value of one arena's region: which chunks tile it and what each of them is for. */
module Layout {
  import opened Arithmetic

  /** Smallest chunk, in bytes (default build). */
  const MALLOC_ALIGNMENT: int := 16
  const MINSIZE: int := 32

  /**
   What a chunk is for.  Held chunks belong to the client.  Fast chunks wait in a fastbin with their
   in-use bit still set.  Binned chunks sit in a bin.  Detached and Loose chunks are in the hands of
   the allocator for the length of one operation: Detached with the in-use bit set, Loose without.
   */
  datatype Status = Held | Detached | Loose | Fast(bin: nat) | Binned(bin: nat) | Top
  {
    /** True when the successor of such a chunk has its PREV_INUSE bit clear. */
    predicate Free() { Loose? || Binned? }

    /** True of the two states a chunk passes through within one operation. */
    predicate InHand() { Loose? || Detached? }
  }

  datatype Cell = Cell(size: int, st: Status)

  type Map = map<int, Cell>

  predicate Aligned(n: int) { n % 16 == 0 }

  ghost predicate CellOk(m: Map, base: int, top: int, end: int, a: int)
    requires a in m
  {
    && base <= a
    && m[a].size >= MINSIZE
    && a + m[a].size <= end
    && Aligned(a) && Aligned(m[a].size)
    && (m[a].st.Top? <==> a == top)
    && (a != top ==> a + m[a].size in m)
    && (m[a].st.Free() ==> a + m[a].size in m && a + m[a].size != top && !m[a + m[a].size].st.Free())
  }

  ghost predicate Apart(m: Map, a: int, b: int)
    requires a in m && b in m
  {
    a + m[a].size <= b
  }

  /** Cells tile [base, end) up to the top chunk, and no free cell borders a free cell or top. */
  ghost predicate Tiles(m: Map, base: int, top: int, end: int) {
    m != map[] ==>
      && base in m && top in m && top + m[top].size == end
      && (forall a {:trigger CellOk(m, base, top, end, a)} | a in m :: CellOk(m, base, top, end, a))
      && (forall a, b {:trigger Apart(m, a, b)} | a in m && b in m && a < b :: Apart(m, a, b))
  }

  /** The predecessor of the chunk at `a`, if there is one, is not free. */
  ghost predicate FollowsUsed(m: Map, a: int) {
    forall c {:trigger m[c]} | c in m && c + m[c].size == a :: !m[c].st.Free()
  }

  /** The chunk at `a` with another status. */
  function Mark(m: Map, a: int, st: Status): Map
    requires a in m
  {
    m[a := Cell(m[a].size, st)]
  }

  /** The chunk at `a` absorbs its successor and takes status `st`. */
  function Join(m: Map, a: int, st: Status): Map
    requires a in m && a + m[a].size in m
  {
    var b := a + m[a].size;
    (m - {b})[a := Cell(m[a].size + m[b].size, st)]
  }

  /** The chunk at `a` keeps its first `n` bytes; the rest becomes a chunk of its own. */
  function Cut(m: Map, a: int, n: int, low: Status, high: Status): Map
    requires a in m && n <= m[a].size
  {
    m[a := Cell(n, low)][a + n := Cell(m[a].size - n, high)]
  }

  /** Two held chunks that are joined by way of the detached state. */
  lemma JoinByWay(m: Map, a: int, b: int)
    requires a in m && b in m && b == a + m[a].size && a != b
    ensures var m2 := Mark(Mark(m, a, Detached), b, Detached);
      Mark(Join(m2, a, Detached), a, Held) == (m - {b})[a := Cell(m[a].size + m[b].size, Status.Held)]
  {
  }

  /** A held chunk that is cut by way of the detached state. */
  lemma CutByWay(m: Map, a: int, n: int)
    requires a in m && 0 < n <= m[a].size
    ensures var m2 := Cut(Mark(m, a, Detached), a, n, Detached, Detached);
      Mark(Mark(m2, a, Held), a + n, Held) == m[a := Cell(n, Status.Held)][a + n := Cell(m[a].size - n, Status.Held)]
  {
  }

  /** The least multiple of `p` from `x` on. */
  function AlignUp(x: int, p: int): int
    requires p > 0
  {
    (x + p - 1) / p * p
  }

  lemma AlignUpFacts(x: int, p: int)
    requires p > 0 && Aligned(p)
    ensures x <= AlignUp(x, p) < x + p && Aligned(AlignUp(x, p))
  {
    var q := (x + p - 1) / p;
    assert q * p + (x + p - 1) % p == x + p - 1;
    assert p == 16 * (p / 16);
    assert q * p == 16 * (q * (p / 16));
  }

  /** It is the least one. */
  lemma AlignUpIsLeast(x: int, p: int, y: int)
    requires p > 0 && x <= y && y % p == 0
    ensures AlignUp(x, p) <= y && AlignUp(x, p) % p == 0
  {
    var q, k := (x + p - 1) / p, y / p;
    assert q * p + (x + p - 1) % p == x + p - 1 && k * p == y;
    RestOfProduct(q * p, p, q, 0);
    assert (q - k) * p < p;
    ProductAtLeast(q - k, p);
    assert q * p == (q - k) * p + k * p;
  }

  /** The aligned spot from `x` on that leaves no leader or one of at least MINSIZE bytes. */
  function AlignedSpot(x: int, p: int): int
    requires p > 0
  {
    if x % p == 0 then x
    else if AlignUp(x, p) - x < MINSIZE then AlignUp(x, p) + p
    else AlignUp(x, p)
  }

  lemma AlignedParts(x: int, y: int)
    requires Aligned(y)
    ensures Aligned(x + y) <==> Aligned(x)
  {
  }

  lemma AlignedSpotFacts(x: int, p: int)
    requires p >= MINSIZE && Aligned(p) && Aligned(x)
    ensures var y := AlignedSpot(x, p);
      && y % p == 0 && Aligned(y - x) && (y == x || MINSIZE <= y - x < p + MINSIZE)
  {
    var q := (x + p - 1) / p;
    var y := AlignUp(x, p);
    AlignUpFacts(x, p);
    RestOfProduct(q * p, p, q, 0);
    RestOfProduct((q + 1) * p, p, q + 1, 0);
    assert (q + 1) * p == y + p;
    AlignedParts(y - x, x);
    AlignedParts(y - x, p);
    hide AlignUp, Aligned;
  }

  /** The aligned spot is the first multiple from `x` on with no leader or one of at least MINSIZE bytes. */
  lemma AlignedSpotIsLeast(x: int, p: int, z: int)
    requires p >= MINSIZE && x <= z && z % p == 0 && (z == x || MINSIZE <= z - x)
    ensures AlignedSpot(x, p) <= z && (x % p == 0 ==> AlignedSpot(x, p) == x)
  {
    AlignUpIsLeast(x, p, z);
    var y := AlignUp(x, p);
    if y < z {
      var k, j := y / p, z / p;
      assert y == k * p && z == j * p;
      assert (j - k) * p > 0;
      ProductAtLeast(j - k, p);
      assert z == (j - k) * p + y;
    }
  }

  lemma MarkKeepsTiles(m: Map, base: int, top: int, end: int, a: int, st: Status)
    requires Tiles(m, base, top, end) && a in m && a != top && !st.Top?
    requires st.Free() ==> a + m[a].size in m && a + m[a].size != top && !m[a + m[a].size].st.Free()
    requires st.Free() ==> FollowsUsed(m, a)
    ensures Tiles(Mark(m, a, st), base, top, end)
  {
    var m' := Mark(m, a, st);
    assert CellOk(m, base, top, end, a);
    assert CellOk(m, base, top, end, top);
    forall b {:trigger CellOk(m', base, top, end, b)} | b in m' ensures CellOk(m', base, top, end, b) {
      assert CellOk(m, base, top, end, b);
    }
    forall b, c | b in m' && c in m' && b < c ensures Apart(m', b, c) {
      assert Apart(m, b, c);
    }
  }

  lemma JoinKeepsApart(m: Map, base: int, top: int, end: int, a: int, c: int, d: int)
    requires Tiles(m, base, top, end) && a in m && a + m[a].size in m
    requires c in m && d in m && c < d && c != a + m[a].size && d != a + m[a].size
    ensures c + (if c == a then m[a].size + m[a + m[a].size].size else m[c].size) <= d
  {
    assert Apart(m, c, d);
    var b := a + m[a].size;
    assert b < d ==> Apart(m, b, d);
  }

  /** Only one chunk ends where the successor of `a` begins. */
  lemma PredecessorIsUnique(m: Map, base: int, top: int, end: int, a: int, c: int)
    requires Tiles(m, base, top, end) && a in m && c in m
    ensures c + m[c].size == a + m[a].size <==> a == c
  {
    assert CellOk(m, base, top, end, a) && CellOk(m, base, top, end, c);
    assert a < c ==> Apart(m, a, c);
    assert c < a ==> Apart(m, c, a);
  }

  lemma JoinKeepsTiles(m: Map, base: int, top: int, end: int, a: int, st: Status)
    requires Tiles(m, base, top, end) && a in m && a != top
    requires a + m[a].size in m
    requires var b := a + m[a].size;
      && (b == top <==> st.Top?)
      && (st.Free() ==> b + m[b].size in m && b + m[b].size != top && !m[b + m[b].size].st.Free())
      && (st.Top? || st.Free() ==> FollowsUsed(m, a))
    ensures Tiles(Join(m, a, st), base, if a + m[a].size == top then a else top, end)
  {
    var m' := Join(m, a, st);
    var b := a + m[a].size;
    var top' := if b == top then a else top;
    assert CellOk(m, base, top, end, a) && CellOk(m, base, top, end, b);
    AlignedParts(m[a].size, m[b].size);
    forall c {:trigger CellOk(m', base, top', end, c)} | c in m' ensures CellOk(m', base, top', end, c) {
      assert CellOk(m, base, top, end, c);
      if c != a { PredecessorIsUnique(m, base, top, end, a, c); }
    }
    forall c, d {:trigger Apart(m', c, d)} | c in m' && d in m' && c < d ensures Apart(m', c, d) {
      JoinKeepsApart(m, base, top, end, a, c, d);
    }
  }

  lemma CutAddressIsNew(m: Map, base: int, top: int, end: int, a: int, n: int)
    requires Tiles(m, base, top, end) && a in m && 0 < n < m[a].size
    ensures a + n !in m
  {
    assert a + n in m ==> Apart(m, a, a + n);
  }

  lemma CutKeepsApart(m: Map, base: int, top: int, end: int, a: int, n: int, c: int, d: int)
    requires Tiles(m, base, top, end) && a in m && 0 < n < m[a].size
    requires (c in m || c == a + n) && (d in m || d == a + n) && c < d
    ensures c == a ==> a + n <= d
    ensures c == a + n ==> a + m[a].size <= d
    ensures c != a && c != a + n ==> c + m[c].size <= d
  {
    CutAddressIsNew(m, base, top, end, a, n);
    if c in m {
      assert d in m ==> Apart(m, c, d);
      assert c < a ==> Apart(m, c, a);
      assert a < c ==> Apart(m, a, c);
    } else {
      assert Apart(m, a, d);
    }
  }

  lemma CutKeepsTiles(m: Map, base: int, top: int, end: int, a: int, n: int, low: Status, high: Status)
    requires Tiles(m, base, top, end) && a in m
    requires MINSIZE <= n && n + MINSIZE <= m[a].size && Aligned(n)
    requires !low.Free() && !low.Top? && (high.Top? <==> a == top)
    requires high.Free() ==> a + m[a].size in m && a + m[a].size != top && !m[a + m[a].size].st.Free()
    ensures a + n !in m
    ensures Tiles(Cut(m, a, n, low, high), base, if a == top then a + n else top, end)
  {
    CutAddressIsNew(m, base, top, end, a, n);
    assert CellOk(m, base, top, end, a);
    var m' := Cut(m, a, n, low, high);
    var top' := if a == top then a + n else top;
    AlignedParts(a, n);
    AlignedParts(m[a].size - n, n);
    forall c {:trigger CellOk(m', base, top', end, c)} | c in m' ensures CellOk(m', base, top', end, c) {
      if c != a && c != a + n {
        assert CellOk(m, base, top, end, c);
      }
    }
    forall c, d {:trigger Apart(m', c, d)} | c in m' && d in m' && c < d ensures Apart(m', c, d) {
      CutKeepsApart(m, base, top, end, a, n, c, d);
    }
  }
}
