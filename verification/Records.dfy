/** Metadata records, and what it means for records, table and lists to agree with a layout. */
module Records {
  import opened Sequences
  import opened Layout
  import opened BinIndex

  /** A handle on a metadata record: its place in the metadata pool.  NIL is the null pointer. */
  type Ref = int
  const NIL: Ref := 0

  /** The metadata record of one chunk.  Records live outside the region they describe. */
  datatype ChunkInfo = ChunkInfo(
    chunk: int,        // address of the chunk
    size: int,         // size word without its flag bits
    prevInuse: bool,   // PREV_INUSE bit of the size word
    prevSize: int,     // size of the predecessor, meaningful while it is binned
    mdNext: Ref,       // record of the next chunk in the region
    mdPrev: Ref)       // record of the previous chunk in the region

  type Records = map<Ref, ChunkInfo>
  type Table = map<int, Ref>

  /** `c` is the handle that the table holds for a chunk of the region. */
  ghost predicate Owns(m: Map, t: Table, rs: Records, c: Ref) {
    c in rs && rs[c].chunk in m && rs[c].chunk in t && t[rs[c].chunk] == c
  }

  /** The table holds one record for each chunk of the region and one for the initial top; no other record is in use. */
  ghost predicate Indexed(m: Map, t: Table, rs: Records, initial: Ref) {
    && NIL !in rs && initial in rs
    && t.Keys == m.Keys + {rs[initial].chunk}
    && rs[initial].chunk !in m && t[rs[initial].chunk] == initial
    && (forall a {:trigger t[a]} | a in m :: t[a] in rs && rs[t[a]].chunk == a)
    && (forall c {:trigger rs[c]} | c in rs :: rs[c].chunk in t && t[rs[c].chunk] == c)
  }

  /** The record of chunk `a` agrees with the layout, and so does what it says of its predecessor. */
  ghost predicate LinkedAt(m: Map, t: Table, rs: Records, base: int, top: int, a: int) {
    && a in m && a in t && t[a] in rs
    && var r := rs[t[a]];
    && r.size == m[a].size
    && (if a == top then r.mdNext == NIL
        else a + m[a].size in t && r.mdNext == t[a + m[a].size])
    && (if a == base then r.mdPrev == NIL && r.prevInuse
        else
          && Owns(m, t, rs, r.mdPrev)
          && var p := m[rs[r.mdPrev].chunk];
          && rs[r.mdPrev].chunk + p.size == a
          && r.prevInuse == !p.st.Free()
          && (p.st.Free() ==> r.prevSize == p.size))
  }

  ghost predicate Linked(m: Map, t: Table, rs: Records, base: int, top: int) {
    forall a {:trigger LinkedAt(m, t, rs, base, top, a)} | a in m :: LinkedAt(m, t, rs, base, top, a)
  }

  /** The two families of lists. */
  datatype Kind = Bins | Fastbins

  function OnList(kind: Kind, b: nat): Status {
    match kind
    case Bins => Binned(b)
    case Fastbins => Fast(b)
  }

  /** List `b` may hold chunks of this size; list 1 of the bins is the unsorted one, list 0 is unused. */
  predicate Placed(kind: Kind, b: nat, size: int) {
    match kind
    case Bins => 1 <= b < NBINS && (b >= 2 ==> b == BinOf(size))
    case Fastbins => 0 <= b < NFASTBINS && b == FastbinIndex(size)
  }

  type Lists = seq<seq<Ref>>

  ghost predicate InItsList(kind: Kind, m: Map, t: Table, lists: Lists, a: int, b: nat)
    requires a in m
  {
    b < |lists| && a in t && t[a] in lists[b] && Placed(kind, b, m[a].size)
  }

  /** A chunk is on a list of this family exactly when its status says so, and then exactly once. */
  ghost predicate Listed(kind: Kind, m: Map, t: Table, rs: Records, lists: Lists) {
    && (forall b, c {:trigger c in lists[b]} | 0 <= b < |lists| && c in lists[b] ::
          Owns(m, t, rs, c) && m[rs[c].chunk].st == OnList(kind, b))
    && (forall b {:trigger Distinct(lists[b])} | 0 <= b < |lists| :: Distinct(lists[b]))
    && (forall a, b {:trigger InItsList(kind, m, t, lists, a, b)} | a in m && m[a].st == OnList(kind, b) ::
          InItsList(kind, m, t, lists, a, b))
  }

  /** Every record of `rs` is still there, and still describes the same chunk. */
  ghost predicate SameChunks(rs: Records, rs': Records) {
    forall c {:trigger rs[c]} {:trigger rs'[c]} {:trigger c in rs'} | c in rs :: c in rs' && rs'[c].chunk == rs[c].chunk
  }

  // ---------- Changing the status of one chunk ----------

  /** The successor of chunk `a` is told whether `a` is free and, if so, how large it is. */
  function Tell(m: Map, rs: Records, n: Ref, a: int, st: Status): Records
    requires a in m && n in rs
  {
    rs[n := if st.Free() then rs[n].(prevInuse := false, prevSize := m[a].size) else rs[n].(prevInuse := true)]
  }

  lemma MarkKeepsLinked(m: Map, t: Table, rs: Records, base: int, top: int, end: int, initial: Ref, a: int, st: Status)
    requires Tiles(m, base, top, end) && Indexed(m, t, rs, initial) && Linked(m, t, rs, base, top)
    requires a in m && a != top
    ensures a in t && t[a] in rs && rs[t[a]].mdNext in rs
    ensures Linked(Mark(m, a, st), t, Tell(m, rs, rs[t[a]].mdNext, a, st), base, top)
  {
    assert CellOk(m, base, top, end, a);
    assert LinkedAt(m, t, rs, base, top, a);
    var m' := Mark(m, a, st);
    var rs' := Tell(m, rs, rs[t[a]].mdNext, a, st);
    forall b {:trigger LinkedAt(m', t, rs', base, top, b)} | b in m' ensures LinkedAt(m', t, rs', base, top, b) {
      assert LinkedAt(m, t, rs, base, top, b);
      if b != base {
        PredecessorIsUnique(m, base, top, end, a, rs[rs[t[b]].mdPrev].chunk);
      }
    }
  }

  lemma MarkKeepsIndexed(m: Map, t: Table, rs: Records, initial: Ref, a: int, st: Status, n: Ref)
    requires Indexed(m, t, rs, initial) && a in m && n in rs
    ensures Indexed(Mark(m, a, st), t, Tell(m, rs, n, a, st), initial) && SameChunks(rs, Tell(m, rs, n, a, st))
  {
  }

  /** Lists stay as they are when a chunk that is on none of them changes into another such chunk. */
  lemma MarkKeepsListed(kind: Kind, m: Map, t: Table, rs: Records, lists: Lists, a: int, st: Status, rs': Records)
    requires Listed(kind, m, t, rs, lists) && a in m
    requires forall b: nat {:trigger OnList(kind, b)} :: m[a].st != OnList(kind, b) && st != OnList(kind, b)
    requires SameChunks(rs, rs')
    ensures Listed(kind, Mark(m, a, st), t, rs', lists)
  {
    var m' := Mark(m, a, st);
    forall b, c {:trigger c in lists[b]} | 0 <= b < |lists| && c in lists[b]
      ensures Owns(m', t, rs', c) && m'[rs'[c].chunk].st == OnList(kind, b)
    {
      assert Owns(m, t, rs, c);
    }
    forall d, b {:trigger InItsList(kind, m', t, lists, d, b)} | d in m' && m'[d].st == OnList(kind, b)
      ensures InItsList(kind, m', t, lists, d, b)
    {
      assert InItsList(kind, m, t, lists, d, b);
    }
  }

  // ---------- Absorbing the successor ----------

  /** Records after `q` has absorbed its successor `p`, whose record is given back to the pool. */
  function JoinRecords(rs: Records, q: Ref): Records
    requires q in rs && rs[q].mdNext in rs && q != rs[q].mdNext
  {
    var p := rs[q].mdNext;
    var n := rs[p].mdNext;
    var size := rs[q].size + rs[p].size;
    var rs1 := (rs - {p})[q := rs[q].(size := size, mdNext := n)];
    if n !in rs1 then rs1
    else rs1[n := rs1[n].(mdPrev := q, prevSize := if rs1[n].prevInuse then rs1[n].prevSize else size)]
  }

  /** The table leads from chunk `a` to its record, and from there to the record of its successor. */
  ghost predicate Adjacent(m: Map, t: Table, rs: Records, a: int) {
    && a in m && a in t && t[a] in rs && a + m[a].size in t && t[a + m[a].size] in rs
    && rs[t[a]].mdNext == t[a + m[a].size] && t[a] != t[a + m[a].size]
  }

  lemma JoinKeepsIndexed(m: Map, t: Table, rs: Records, initial: Ref, a: int)
    requires Indexed(m, t, rs, initial) && a in m && m[a].size > 0 && a + m[a].size in m
    requires Adjacent(m, t, rs, a)
    ensures Indexed(Join(m, a, m[a + m[a].size].st), t - {a + m[a].size}, JoinRecords(rs, t[a]), initial)
  {
  }

  /** What becomes of the record of chunk `c` when `a` absorbs its successor. */
  lemma JoinKeepsLinkedAt(m: Map, t: Table, rs: Records, base: int, top: int, end: int, initial: Ref, a: int, c: int)
    requires Tiles(m, base, top, end) && Indexed(m, t, rs, initial) && Linked(m, t, rs, base, top)
    requires a in m && a != top && a + m[a].size in m
    requires Adjacent(m, t, rs, a)
    requires c in m && c != a + m[a].size
    ensures LinkedAt(Join(m, a, m[a + m[a].size].st), t - {a + m[a].size}, JoinRecords(rs, t[a]),
                     base, if a + m[a].size == top then a else top, c)
  {
    var b := a + m[a].size;
    assert CellOk(m, base, top, end, a) && CellOk(m, base, top, end, b) && CellOk(m, base, top, end, c);
    assert LinkedAt(m, t, rs, base, top, a) && LinkedAt(m, t, rs, base, top, b) && LinkedAt(m, t, rs, base, top, c);
    hide Tiles, Linked;
    assert b != top ==> CellOk(m, base, top, end, b);
    if c != a && c != top {
      PredecessorIsUnique(m, base, top, end, a, c);
    }
    if c != base {
      PredecessorIsUnique(m, base, top, end, b, rs[rs[t[c]].mdPrev].chunk);
    }
  }

  lemma JoinKeepsLinked(m: Map, t: Table, rs: Records, base: int, top: int, end: int, initial: Ref, a: int)
    requires Tiles(m, base, top, end) && Indexed(m, t, rs, initial) && Linked(m, t, rs, base, top)
    requires a in m && a != top && a + m[a].size in m
    requires Adjacent(m, t, rs, a)
    ensures Linked(Join(m, a, m[a + m[a].size].st), t - {a + m[a].size}, JoinRecords(rs, t[a]),
                   base, if a + m[a].size == top then a else top)
  {
    var b := a + m[a].size;
    var top' := if b == top then a else top;
    var m', t', rs' := Join(m, a, m[b].st), t - {b}, JoinRecords(rs, t[a]);
    assert CellOk(m, base, top, end, a);
    forall c {:trigger LinkedAt(m', t', rs', base, top', c)} | c in m' ensures LinkedAt(m', t', rs', base, top', c) {
      JoinKeepsLinkedAt(m, t, rs, base, top, end, initial, a, c);
    }
  }

  lemma JoinKeepsListed(kind: Kind, m: Map, t: Table, rs: Records, initial: Ref, lists: Lists, a: int)
    requires Listed(kind, m, t, rs, lists) && Indexed(m, t, rs, initial)
    requires a in m && m[a].size > 0 && a + m[a].size in m
    requires Adjacent(m, t, rs, a)
    requires !m[a].st.Binned? && !m[a].st.Fast? && !m[a + m[a].size].st.Binned? && !m[a + m[a].size].st.Fast?
    ensures Listed(kind, Join(m, a, m[a + m[a].size].st), t - {a + m[a].size}, JoinRecords(rs, t[a]), lists)
  {
    var b := a + m[a].size;
    var m', t', rs' := Join(m, a, m[b].st), t - {b}, JoinRecords(rs, t[a]);
    forall l, c {:trigger c in lists[l]} | 0 <= l < |lists| && c in lists[l]
      ensures Owns(m', t', rs', c) && m'[rs'[c].chunk].st == OnList(kind, l)
    {
      assert Owns(m, t, rs, c);
    }
    forall d, l {:trigger InItsList(kind, m', t', lists, d, l)} | d in m' && m'[d].st == OnList(kind, l)
      ensures InItsList(kind, m', t', lists, d, l)
    {
      assert InItsList(kind, m, t, lists, d, l);
    }
  }

  // ---------- Splitting a chunk ----------

  /** Records after chunk `a` has been cut at `n` bytes; `f` is the fresh record of the upper part. */
  function CutRecords(m: Map, t: Table, rs: Records, a: int, n: int, f: Ref): Records
    requires a in m && a in t && t[a] in rs && n <= m[a].size
  {
    var x := rs[t[a]].mdNext;
    var rest := m[a].size - n;
    var rs1 := rs[t[a] := rs[t[a]].(size := n, mdNext := f)][f := ChunkInfo(a + n, rest, true, 0, x, t[a])];
    if x !in rs1 then rs1
    else rs1[x := rs1[x].(mdPrev := f, prevSize := if rs1[x].prevInuse then rs1[x].prevSize else rest)]
  }

  lemma CutKeepsIndexed(m: Map, t: Table, rs: Records, initial: Ref, a: int, n: int, low: Status, f: Ref)
    requires Indexed(m, t, rs, initial) && a in m && 0 < n <= m[a].size
    requires f !in rs && f != NIL && a + n !in t
    ensures Indexed(Cut(m, a, n, low, m[a].st), t[a + n := f], CutRecords(m, t, rs, a, n, f), initial)
  {
  }

  /** The lower and the upper part of a cut chunk. */
  lemma CutLinksParts(m: Map, t: Table, rs: Records, base: int, top: int, initial: Ref, a: int, n: int, low: Status,
                      f: Ref)
    requires Indexed(m, t, rs, initial) && LinkedAt(m, t, rs, base, top, a)
    requires 0 < n < m[a].size && !low.Free() && f !in rs && f != NIL && a + n !in t && top in t
    requires base <= a && rs[t[a]].mdNext != t[a] && (a != base ==> rs[t[a]].mdPrev != rs[t[a]].mdNext)
    ensures var m', t', rs' := Cut(m, a, n, low, m[a].st), t[a + n := f], CutRecords(m, t, rs, a, n, f);
            var top' := if a == top then a + n else top;
            LinkedAt(m', t', rs', base, top', a) && LinkedAt(m', t', rs', base, top', a + n)
  {
  }

  /** The chunk after a cut chunk. */
  lemma CutLinksNext(m: Map, t: Table, rs: Records, base: int, top: int, end: int, initial: Ref,
                     a: int, n: int, low: Status, f: Ref)
    requires Tiles(m, base, top, end) && Indexed(m, t, rs, initial) && Linked(m, t, rs, base, top)
    requires a in m && a != top && 0 < n < m[a].size && f !in rs && f != NIL && a + n !in t
    ensures LinkedAt(Cut(m, a, n, low, m[a].st), t[a + n := f], CutRecords(m, t, rs, a, n, f), base, top, a + m[a].size)
  {
    var c := a + m[a].size;
    assert CellOk(m, base, top, end, a);
    assert CellOk(m, base, top, end, c);
    assert LinkedAt(m, t, rs, base, top, a) && LinkedAt(m, t, rs, base, top, c);
    hide Tiles, Linked;
    PredecessorIsUnique(m, base, top, end, a, rs[rs[t[c]].mdPrev].chunk);
  }

  /** Any other chunk. */
  lemma CutLinksOther(m: Map, t: Table, rs: Records, base: int, top: int, end: int, initial: Ref,
                      a: int, n: int, low: Status, f: Ref, c: int)
    requires Tiles(m, base, top, end) && Indexed(m, t, rs, initial) && Linked(m, t, rs, base, top)
    requires a in m && 0 < n < m[a].size && f !in rs && f != NIL && a + n !in t
    requires c in m && c != a && c != a + m[a].size
    ensures LinkedAt(Cut(m, a, n, low, m[a].st), t[a + n := f], CutRecords(m, t, rs, a, n, f),
                     base, if a == top then a + n else top, c)
  {
    assert LinkedAt(m, t, rs, base, top, a) && LinkedAt(m, t, rs, base, top, c);
    assert CellOk(m, base, top, end, c);
    hide Tiles, Linked;
    if c != base {
      PredecessorIsUnique(m, base, top, end, a, rs[rs[t[c]].mdPrev].chunk);
    }
  }

  lemma CutKeepsLinked(m: Map, t: Table, rs: Records, base: int, top: int, end: int, initial: Ref,
                       a: int, n: int, low: Status, f: Ref)
    requires Tiles(m, base, top, end) && Indexed(m, t, rs, initial) && Linked(m, t, rs, base, top)
    requires a in m && 0 < n < m[a].size && !low.Free()
    requires f !in rs && f != NIL && a + n !in t
    ensures Linked(Cut(m, a, n, low, m[a].st), t[a + n := f], CutRecords(m, t, rs, a, n, f),
                   base, if a == top then a + n else top)
  {
    var top' := if a == top then a + n else top;
    var m', t', rs' := Cut(m, a, n, low, m[a].st), t[a + n := f], CutRecords(m, t, rs, a, n, f);
    forall c {:trigger LinkedAt(m', t', rs', base, top', c)} | c in m' ensures LinkedAt(m', t', rs', base, top', c) {
      if c == a || c == a + n {
        assert CellOk(m, base, top, end, top);
        assert LinkedAt(m, t, rs, base, top, a) && CellOk(m, base, top, end, a);
        assert a != base ==> CellOk(m, base, top, end, rs[rs[t[a]].mdPrev].chunk);
        CutLinksParts(m, t, rs, base, top, initial, a, n, low, f);
      } else if c == a + m[a].size {
        assert CellOk(m, base, top, end, c);
        CutLinksNext(m, t, rs, base, top, end, initial, a, n, low, f);
      } else {
        CutLinksOther(m, t, rs, base, top, end, initial, a, n, low, f, c);
      }
    }
  }

  lemma CutKeepsListed(kind: Kind, m: Map, t: Table, rs: Records, initial: Ref, lists: Lists,
                       a: int, n: int, low: Status, f: Ref)
    requires Listed(kind, m, t, rs, lists) && Indexed(m, t, rs, initial)
    requires a in m && 0 < n <= m[a].size && f !in rs && a + n !in t
    requires !m[a].st.Binned? && !m[a].st.Fast? && !low.Binned? && !low.Fast?
    ensures Listed(kind, Cut(m, a, n, low, m[a].st), t[a + n := f], CutRecords(m, t, rs, a, n, f), lists)
  {
    var m', t', rs' := Cut(m, a, n, low, m[a].st), t[a + n := f], CutRecords(m, t, rs, a, n, f);
    forall l, c {:trigger c in lists[l]} | 0 <= l < |lists| && c in lists[l]
      ensures Owns(m', t', rs', c) && m'[rs'[c].chunk].st == OnList(kind, l)
    {
      assert Owns(m, t, rs, c);
    }
    forall d, l {:trigger InItsList(kind, m', t', lists, d, l)} | d in m' && m'[d].st == OnList(kind, l)
      ensures InItsList(kind, m', t', lists, d, l)
    {
      assert InItsList(kind, m, t, lists, d, l);
    }
  }

  // ---------- Moving a chunk onto or off a list ----------

  lemma InsertedKeepsListed(kind: Kind, m: Map, t: Table, rs: Records, initial: Ref, lists: Lists, a: int, b: nat,
                            pos: nat)
    requires Listed(kind, m, t, rs, lists) && Indexed(m, t, rs, initial)
    requires a in m && !m[a].st.Binned? && !m[a].st.Fast?
    requires b < |lists| && pos <= |lists[b]| && Placed(kind, b, m[a].size)
    ensures Listed(kind, Mark(m, a, OnList(kind, b)), t, rs, lists[b := Inserted(lists[b], pos, t[a])])
  {
    var m' := Mark(m, a, OnList(kind, b));
    var lists' := lists[b := Inserted(lists[b], pos, t[a])];
    forall l, c {:trigger c in lists'[l]} | 0 <= l < |lists'| && c in lists'[l]
      ensures Owns(m', t, rs, c) && m'[rs[c].chunk].st == OnList(kind, l)
    {
      assert l == b ==> c in lists[b] || c == t[a];
    }
    assert t[a] !in lists[b];
    InsertedIsDistinct(lists[b], pos, t[a]);
    forall d, l {:trigger InItsList(kind, m', t, lists', d, l)} | d in m' && m'[d].st == OnList(kind, l)
      ensures InItsList(kind, m', t, lists', d, l)
    {
      InsertedMembers(lists[b], pos, t[a]);
      if d != a {
        assert InItsList(kind, m, t, lists, d, l);
      }
    }
  }

  lemma RemovedKeepsListed(kind: Kind, m: Map, t: Table, rs: Records, initial: Ref, lists: Lists,
                           a: int, b: nat, i: nat, st: Status)
    requires Listed(kind, m, t, rs, lists) && Indexed(m, t, rs, initial)
    requires a in m && !st.Binned? && !st.Fast?
    requires b < |lists| && i < |lists[b]| && lists[b][i] == t[a]
    ensures Listed(kind, Mark(m, a, st), t, rs, lists[b := Removed(lists[b], i)])
  {
    var m' := Mark(m, a, st);
    var lists' := lists[b := Removed(lists[b], i)];
    RemovedMembers(lists[b], i);
    forall l, c {:trigger c in lists'[l]} | 0 <= l < |lists'| && c in lists'[l]
      ensures Owns(m', t, rs, c) && m'[rs[c].chunk].st == OnList(kind, l)
    {
      assert c in lists[l] && t[a] in lists[b];
      assert c != t[a];
    }
    forall d, l {:trigger InItsList(kind, m', t, lists', d, l)} | d in m' && m'[d].st == OnList(kind, l)
      ensures InItsList(kind, m', t, lists', d, l)
    {
      assert InItsList(kind, m, t, lists, d, l);
    }
  }
}
