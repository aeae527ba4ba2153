/** The whole state of an arena as a value, its invariant, and the primitive steps that keep it. */
module HeapState {
  import opened Sequences
  import opened Layout
  import opened BinIndex
  import opened Records

  datatype State = State(
    m: Map, base: int, end: int,                    // the region
    lo: int, hi: int,                               // where the region may lie
    t: Table, rs: Records, top: Ref, initial: Ref,  // metadata
    bins: Lists, fastbins: Lists)

  ghost predicate Ok(s: State) {
    && |s.bins| == NBINS && |s.fastbins| == NFASTBINS
    && s.top in s.rs && s.initial in s.rs && !(s.lo <= s.rs[s.initial].chunk < s.hi)
    && (if s.m == map[] then s.rs[s.initial].size == 0 && s.base == s.end else s.lo <= s.base && s.end <= s.hi)
    && Indexed(s.m, s.t, s.rs, s.initial)
    && (if s.m == map[] then s.top == s.initial else Owns(s.m, s.t, s.rs, s.top))
    && Tiles(s.m, s.base, s.rs[s.top].chunk, s.end)
    && Linked(s.m, s.t, s.rs, s.base, s.rs[s.top].chunk)
    && Listed(Bins, s.m, s.t, s.rs, s.bins)
    && Listed(Fastbins, s.m, s.t, s.rs, s.fastbins)
  }

  /** Where the top chunk starts. */
  function TopAt(s: State): int
    requires s.top in s.rs
  {
    s.rs[s.top].chunk
  }

  function Next(s: State, a: int): int
    requires a in s.m
  {
    a + s.m[a].size
  }

  /** What the record of an inner chunk says about it and its surroundings. */
  lemma InnerFacts(s: State, a: int)
    requires Ok(s) && a in s.m
    ensures a in s.t && s.t[a] in s.rs && s.t[a] != NIL
    ensures var r := s.rs[s.t[a]];
      && r.chunk == a && r.size == s.m[a].size >= MINSIZE && Aligned(a) && Aligned(r.size)
      && s.base <= a && a + r.size <= s.end
      && (s.m[a].st.Top? <==> a == TopAt(s)) && (s.t[a] == s.top <==> a == TopAt(s))
      && (s.m[a].st.Top? ==> r.mdNext == NIL && a + r.size == s.end)
      && (!s.m[a].st.Top? ==>
            && Next(s, a) in s.m && Adjacent(s.m, s.t, s.rs, a) && s.rs[r.mdNext].chunk == Next(s, a)
            && (s.rs[r.mdNext].prevInuse <==> !s.m[a].st.Free()))
      && (r.prevInuse ==> FollowsUsed(s.m, a))
      && (s.m[a].st.Free() ==> r.prevInuse && !s.m[Next(s, a)].st.Free() && Next(s, a) != TopAt(s))
      && (!r.prevInuse ==>
            && r.mdPrev in s.rs && s.rs[r.mdPrev].chunk in s.m && s.rs[r.mdPrev].chunk in s.t
            && s.t[s.rs[r.mdPrev].chunk] == r.mdPrev
            && Next(s, s.rs[r.mdPrev].chunk) == a && s.m[s.rs[r.mdPrev].chunk].st.Free()
            && r.prevSize == s.m[s.rs[r.mdPrev].chunk].size)
  {
    var top := TopAt(s);
    assert CellOk(s.m, s.base, top, s.end, a);
    assert LinkedAt(s.m, s.t, s.rs, s.base, top, a);
    var r := s.rs[s.t[a]];
    assert a != s.base ==> CellOk(s.m, s.base, top, s.end, s.rs[r.mdPrev].chunk);
    if a != top {
      assert CellOk(s.m, s.base, top, s.end, Next(s, a));
      assert LinkedAt(s.m, s.t, s.rs, s.base, top, Next(s, a));
      PredecessorIsUnique(s.m, s.base, top, s.end, a, s.rs[s.rs[r.mdNext].mdPrev].chunk);
    }
    forall c {:trigger s.m[c]} | c in s.m && c + s.m[c].size == a
      ensures r.prevInuse <==> !s.m[c].st.Free()
    {
      assert CellOk(s.m, s.base, top, s.end, c);
      PredecessorIsUnique(s.m, s.base, top, s.end, c, s.rs[r.mdPrev].chunk);
    }
  }

  lemma TopFacts(s: State)
    requires Ok(s) && s.m != map[]
    ensures TopAt(s) in s.m && s.m[TopAt(s)].st.Top? && TopAt(s) in s.t && s.t[TopAt(s)] == s.top
  {
    InnerFacts(s, TopAt(s));
  }

  lemma TopIsRecorded(s: State)
    requires Ok(s)
    ensures s.top in s.rs && |s.bins| == NBINS && |s.fastbins| == NFASTBINS
  {
  }

  /** The initial top is top exactly as long as there is no memory. */
  lemma InitialTop(s: State)
    requires Ok(s)
    ensures s.top == s.initial <==> s.m == map[]
    ensures s.m == map[] ==> s.rs[s.top].size == 0 && s.base == s.end
    ensures s.m != map[] ==> s.base < s.end && TopAt(s) in s.m && s.rs[s.top].size == s.m[TopAt(s)].size
  {
    if s.m != map[] {
      TopFacts(s);
      InnerFacts(s, TopAt(s));
    }
  }

  // ---------- Steps that change what one chunk is for ----------

  /** Chunk `a` takes status `st`, and its successor is told. */
  ghost function MarkStep(s: State, a: int, st: Status): State
    requires Ok(s) && a in s.m && !s.m[a].st.Top?
  {
    InnerFacts(s, a);
    s.(m := Mark(s.m, a, st), rs := Tell(s.m, s.rs, s.rs[s.t[a]].mdNext, a, st))
  }

  ghost predicate Markable(s: State, a: int, st: Status)
    requires s.top in s.rs
  {
    && a in s.m && a in s.t && s.t[a] in s.rs && !s.m[a].st.Top? && !st.Top?
    && (st.Free() && !s.m[a].st.Free() ==>
          s.rs[s.t[a]].prevInuse && Next(s, a) in s.m
          && !s.m[Next(s, a)].st.Free() && Next(s, a) != TopAt(s))
  }

  /** The parts of the invariant that do not speak of lists. */
  lemma MarkStepCore(s: State, a: int, st: Status)
    requires Ok(s) && Markable(s, a, st)
    ensures var s' := MarkStep(s, a, st);
      && Tiles(s'.m, s'.base, s'.rs[s'.top].chunk, s'.end)
      && Linked(s'.m, s'.t, s'.rs, s'.base, s'.rs[s'.top].chunk)
      && Indexed(s'.m, s'.t, s'.rs, s'.initial) && s'.top in s'.rs && Owns(s'.m, s'.t, s'.rs, s'.top)
      && SameChunks(s.rs, s'.rs)
  {
    InnerFacts(s, a);
    hide Listed;
    var top := TopAt(s);
    hide Tiles, Linked, Indexed;
    MarkKeepsTiles(s.m, s.base, top, s.end, a, st);
    MarkKeepsLinked(s.m, s.t, s.rs, s.base, top, s.end, s.initial, a, st);
    MarkKeepsIndexed(s.m, s.t, s.rs, s.initial, a, st, s.rs[s.t[a]].mdNext);
  }

  lemma MarkStepOk(s: State, a: int, st: Status)
    requires Ok(s) && Markable(s, a, st) && (s.m[a].st.InHand() || s.m[a].st.Held?) && (st.InHand() || st.Held?)
    ensures Ok(MarkStep(s, a, st))
  {
    MarkStepCore(s, a, st);
    var s' := MarkStep(s, a, st);
    hide Tiles, Linked, Indexed, Listed;
    MarkKeepsListed(Bins, s.m, s.t, s.rs, s.bins, a, st, s'.rs);
    MarkKeepsListed(Fastbins, s.m, s.t, s.rs, s.fastbins, a, st, s'.rs);
  }

  // ---------- Steps that put a chunk on a list or take it off ----------

  function Family(s: State, kind: Kind): Lists {
    match kind
    case Bins => s.bins
    case Fastbins => s.fastbins
  }

  function WithFamily(s: State, kind: Kind, lists: Lists): State {
    match kind
    case Bins => s.(bins := lists)
    case Fastbins => s.(fastbins := lists)
  }

  /** Chunk `a`, in hand, goes to position `pos` of list `b`. */
  ghost function InsertStep(s: State, kind: Kind, a: int, b: nat, pos: nat): State
    requires Ok(s) && a in s.m && !s.m[a].st.Top?
    requires b < |Family(s, kind)| && pos <= |Family(s, kind)[b]|
  {
    InnerFacts(s, a);
    WithFamily(s.(m := Mark(s.m, a, OnList(kind, b))), kind,
               Family(s, kind)[b := Inserted(Family(s, kind)[b], pos, s.t[a])])
  }

  /** The chunk at position `i` of list `b` is taken in hand. */
  ghost function RemoveStep(s: State, kind: Kind, b: nat, i: nat): State
    requires Ok(s) && b < |Family(s, kind)| && i < |Family(s, kind)[b]|
  {
    var c := Family(s, kind)[b][i];
    assert c in Family(s, kind)[b];
    WithFamily(s.(m := Mark(s.m, s.rs[c].chunk, if kind.Bins? then Loose else Detached)), kind,
               Family(s, kind)[b := Removed(Family(s, kind)[b], i)])
  }

  /** A chunk that stays free, or stays in use, tells its successor nothing new. */
  lemma TellNothingNew(s: State, a: int, st: Status)
    requires Ok(s) && a in s.m && !s.m[a].st.Top? && (st.Free() <==> s.m[a].st.Free())
    ensures MarkStep(s, a, st).rs == s.rs
  {
    InnerFacts(s, a);
    var top := TopAt(s);
    var n := Next(s, a);
    assert LinkedAt(s.m, s.t, s.rs, s.base, top, n);
    assert CellOk(s.m, s.base, top, s.end, n) && CellOk(s.m, s.base, top, s.end, a);
    PredecessorIsUnique(s.m, s.base, top, s.end, a, s.rs[s.rs[s.t[n]].mdPrev].chunk);
  }

  lemma InsertStepOk(s: State, kind: Kind, a: int, b: nat, pos: nat)
    requires Ok(s) && a in s.m && s.m[a].st == (if kind.Bins? then Loose else Detached)
    requires b < |Family(s, kind)| && pos <= |Family(s, kind)[b]| && Placed(kind, b, s.m[a].size)
    ensures Ok(InsertStep(s, kind, a, b, pos))
  {
    var st := OnList(kind, b);
    InnerFacts(s, a);
    MarkStepCore(s, a, st);
    TellNothingNew(s, a, st);
    hide Tiles, Linked, Indexed, Listed;
    InsertedKeepsListed(kind, s.m, s.t, s.rs, s.initial, Family(s, kind), a, b, pos);
    match kind
    case Bins => MarkKeepsListed(Fastbins, s.m, s.t, s.rs, s.fastbins, a, st, s.rs);
    case Fastbins => MarkKeepsListed(Bins, s.m, s.t, s.rs, s.bins, a, st, s.rs);
  }

  lemma RemoveStepOk(s: State, kind: Kind, b: nat, i: nat)
    requires Ok(s) && b < |Family(s, kind)| && i < |Family(s, kind)[b]|
    ensures var c := Family(s, kind)[b][i];
      && Owns(s.m, s.t, s.rs, c) && s.m[s.rs[c].chunk].st == OnList(kind, b)
      && Placed(kind, b, s.m[s.rs[c].chunk].size)
    ensures Ok(RemoveStep(s, kind, b, i))
  {
    var c := Family(s, kind)[b][i];
    assert c in Family(s, kind)[b];
    var a := s.rs[c].chunk;
    assert InItsList(kind, s.m, s.t, Family(s, kind), a, b);
    var st := if kind.Bins? then Loose else Detached;
    InnerFacts(s, a);
    MarkStepCore(s, a, st);
    TellNothingNew(s, a, st);
    hide Tiles, Linked, Indexed, Listed;
    RemovedKeepsListed(kind, s.m, s.t, s.rs, s.initial, Family(s, kind), a, b, i, st);
    match kind
    case Bins => MarkKeepsListed(Fastbins, s.m, s.t, s.rs, s.fastbins, a, st, s.rs);
    case Fastbins => MarkKeepsListed(Bins, s.m, s.t, s.rs, s.bins, a, st, s.rs);
  }

  // ---------- Steps that join and split chunks ----------

  /** Chunk `a` absorbs its successor and takes over its status. */
  ghost function JoinStep(s: State, a: int): State
    requires Ok(s) && a in s.m && !s.m[a].st.Top?
  {
    InnerFacts(s, a);
    InnerFacts(s, Next(s, a));
    s.(m := Join(s.m, a, s.m[Next(s, a)].st), t := s.t - {Next(s, a)}, rs := JoinRecords(s.rs, s.t[a]),
       top := if Next(s, a) == TopAt(s) then s.t[a] else s.top)
  }

  lemma JoinStepOk(s: State, a: int)
    requires Ok(s) && a in s.m && s.m[a].st.InHand()
    requires Next(s, a) in s.m && (s.m[Next(s, a)].st.InHand() || s.m[Next(s, a)].st.Top?)
    requires !s.m[Next(s, a)].st.Detached? ==> a in s.t && s.t[a] in s.rs && s.rs[s.t[a]].prevInuse
    ensures Ok(JoinStep(s, a))
    ensures Adjacent(s.m, s.t, s.rs, a)
    ensures var p := s.rs[s.t[a]].mdNext;
      && s.rs[p].chunk == Next(s, a)
      && (if s.m[Next(s, a)].st.Top? then p == s.top && s.rs[p].mdNext == NIL && NIL !in s.rs else p != s.top)
      && (p != s.top ==> s.rs[p].mdNext in s.rs && s.rs[p].mdNext != p)
  {
    var b := Next(s, a);
    var top := TopAt(s);
    InnerFacts(s, a);
    InnerFacts(s, b);
    hide Tiles, Linked, Indexed, Listed;
    JoinKeepsTiles(s.m, s.base, top, s.end, a, s.m[b].st);
    JoinKeepsIndexed(s.m, s.t, s.rs, s.initial, a);
    JoinKeepsLinked(s.m, s.t, s.rs, s.base, top, s.end, s.initial, a);
    JoinKeepsListed(Bins, s.m, s.t, s.rs, s.initial, s.bins, a);
    JoinKeepsListed(Fastbins, s.m, s.t, s.rs, s.initial, s.fastbins, a);
  }

  /** Chunk `a` keeps `n` bytes; the rest becomes a chunk with record `f` and the status `a` had. */
  ghost function CutStep(s: State, a: int, n: int, f: Ref): State
    requires a in s.m && n <= s.m[a].size && a in s.t && s.t[a] in s.rs && s.top in s.rs
  {
    s.(m := Cut(s.m, a, n, Detached, s.m[a].st), t := s.t[a + n := f], rs := CutRecords(s.m, s.t, s.rs, a, n, f),
       top := if a == TopAt(s) then f else s.top)
  }

  lemma CutStepOk(s: State, a: int, n: int, f: Ref)
    requires Ok(s) && a in s.m && (s.m[a].st.InHand() || s.m[a].st.Top?)
    requires MINSIZE <= n && n + MINSIZE <= s.m[a].size && Aligned(n)
    requires f !in s.rs && f != NIL
    ensures a + n !in s.t && a in s.t && s.t[a] in s.rs && Ok(CutStep(s, a, n, f))
    ensures s.rs[s.t[a]].chunk == a && s.rs[s.t[a]].size == s.m[a].size
    ensures s.t[a] == s.top <==> a == TopAt(s)
    ensures var x := s.rs[s.t[a]].mdNext;
      if s.m[a].st.Top? then x == NIL && NIL !in s.rs && s.t[a] == s.top
      else x in s.rs && x != s.t[a] && x != NIL && s.t[a] != s.top && (s.rs[x].prevInuse <==> !s.m[a].st.Free())
  {
    var top := TopAt(s);
    InnerFacts(s, a);
    hide Tiles, Linked, Listed;
    CutKeepsTiles(s.m, s.base, top, s.end, a, n, Detached, s.m[a].st);
    assert a + n !in s.t;
    hide Indexed;
    CutKeepsIndexed(s.m, s.t, s.rs, s.initial, a, n, Detached, f);
    CutKeepsLinked(s.m, s.t, s.rs, s.base, top, s.end, s.initial, a, n, Detached, f);
    CutKeepsListed(Bins, s.m, s.t, s.rs, s.initial, s.bins, a, n, Detached, f);
    CutKeepsListed(Fastbins, s.m, s.t, s.rs, s.initial, s.fastbins, a, n, Detached, f);
  }

  // ---------- Which chunks are in use ----------

  /** A chunk whose successor has its PREV_INUSE bit set, other than top. */
  predicate Taken(st: Status) { st.Held? || st.Detached? || st.Fast? }

  type Usage = map<int, (Cell, Ref)>

  /** The chunks in use and on fastbins, with their cells and records. */
  ghost function InUse(s: State): Usage {
    map a | a in s.m && a in s.t && Taken(s.m[a].st) :: (s.m[a], s.t[a])
  }

  lemma NotInUse(s: State, a: int)
    requires a in s.m && !Taken(s.m[a].st)
    ensures a !in InUse(s)
  {
  }

  lemma MarkInUse(s: State, a: int, st: Status)
    requires Ok(s) && a in s.m && !s.m[a].st.Top? && !st.Top?
    ensures a in s.t
    ensures InUse(MarkStep(s, a, st)) ==
            if Taken(st) then InUse(s)[a := (Cell(s.m[a].size, st), s.t[a])] else InUse(s) - {a}
  {
  }

  lemma JoinInUse(s: State, a: int)
    requires Ok(s) && a in s.m && !s.m[a].st.Top? && Next(s, a) in s.m
    ensures a in s.t
    ensures var b := Next(s, a); var u := InUse(s) - {a, b};
      InUse(JoinStep(s, a)) ==
      if Taken(s.m[b].st) then u[a := (Cell(s.m[a].size + s.m[b].size, s.m[b].st), s.t[a])] else u
  {
    InnerFacts(s, a);
    hide Tiles, Linked, Listed;
  }

  lemma CutInUse(s: State, a: int, n: int, f: Ref)
    requires Ok(s) && a in s.m && n <= s.m[a].size && a in s.t && s.t[a] in s.rs && a + n !in s.t && n > 0
    ensures var low := InUse(s)[a := (Cell(n, Detached), s.t[a])];
      InUse(CutStep(s, a, n, f)) ==
      if Taken(s.m[a].st) then low[a + n := (Cell(s.m[a].size - n, s.m[a].st), f)] else low
  {
    hide Tiles, Linked, Listed;
  }

  /** The chunks among them that the client holds. */
  ghost function HeldIn(u: Usage): Usage {
    map a | a in u && u[a].0.st.Held? :: u[a]
  }

  ghost function HeldBy(s: State): Usage {
    HeldIn(InUse(s))
  }

  /** Where the free memory ends that begins with chunk `a`: behind its successor, if that is free or top. */
  function EndOfFree(m: Map, a: int): int
    requires a in m
  {
    var b := a + m[a].size;
    if b in m && (m[b].st.Free() || m[b].st.Top?) then b + m[b].size else b
  }

  /** Where the free memory starts that ends with chunk `a`: with its predecessor, if that is free. */
  ghost predicate FreeFrom(m: Map, a: int, start: int) {
    if start == a then FollowsUsed(m, a) else start in m && m[start].st.Free() && start + m[start].size == a
  }

  /** Freed, chunk `a` is part of the free chunk of `size` bytes at `start`: with both of its neighbours, if free. */
  ghost predicate CoalescesTo(m: Map, a: int, start: int, size: int)
    requires a in m
  {
    FreeFrom(m, a, start) && start + size == EndOfFree(m, a)
  }

  /** What a chunk coalesces to is determined by the chunks around it. */
  lemma CoalescesToOne(s: State, a: int, start: int, size: int, start': int, size': int)
    requires Ok(s) && a in s.m && CoalescesTo(s.m, a, start, size) && CoalescesTo(s.m, a, start', size')
    ensures start == start' && size == size'
  {
    if start != a && start' != a {
      PredecessorIsUnique(s.m, s.base, TopAt(s), s.end, start, start');
    }
  }

  /** What a chunk coalesces to does not depend on its own status. */
  lemma CoalescesMarked(m: Map, a: int, st: Status, start: int, size: int)
    requires a in m && m[a].size > 0
    ensures CoalescesTo(Mark(m, a, st), a, start, size) <==> CoalescesTo(m, a, start, size)
  {
    forall c {:trigger m[c]} | c in m ensures c != a ==> Mark(m, a, st)[c] == m[c] {
    }
    assert FollowsUsed(Mark(m, a, st), a) <==> FollowsUsed(m, a);
  }

  lemma CoalescedFrom(s: State, s': State, a: int, b: int)
    requires Ok(s) && Ok(s') && a in s.m && b in s'.m && CoalescesTo(Mark(s.m, a, Detached), a, b, s'.m[b].size)
    ensures forall start, size {:trigger CoalescesTo(s.m, a, start, size)} ::
              CoalescesTo(s.m, a, start, size) <==> start == b && size == s'.m[b].size
    ensures b in s'.t && s'.t[b] in s'.rs && s'.rs[s'.t[b]].size == s'.m[b].size
  {
    InnerFacts(s, a);
    InnerFacts(s', b);
    CoalescesMarked(s.m, a, Detached, b, s'.m[b].size);
    hide CoalescesTo;
    forall start, size {:trigger CoalescesTo(s.m, a, start, size)} | CoalescesTo(s.m, a, start, size)
      ensures start == b && size == s'.m[b].size
    {
      CoalescesToOne(s, a, start, size, b, s'.m[b].size);
    }
  }

  /** Free memory still ends where it did once its first chunk has been joined to the free chunk before it. */
  lemma EndAfterJoin(s: State, b: int, a: int)
    requires Ok(s) && a in s.m && b in s.m && Next(s, b) == a && !s.m[a].st.Top?
    ensures var m := Join(Mark(s.m, b, Loose), b, s.m[a].st); EndOfFree(m, b) == EndOfFree(s.m, a)
  {
    InnerFacts(s, a);
    InnerFacts(s, b);
  }

  /** No bin but the unsorted one has come to hold a chunk. */
  ghost predicate EmptyStay(bins: Lists, bins': Lists) {
    |bins| == |bins'| && forall j {:trigger bins'[j]} | 2 <= j < |bins| && bins[j] == [] :: bins'[j] == []
  }

  lemma EmptyStayAtFirst(bins: Lists)
    ensures EmptyStay(bins, bins)
  {
  }

  lemma EmptyStayOn(bins: Lists, bins': Lists, bins'': Lists)
    requires EmptyStay(bins, bins') && EmptyStay(bins', bins'')
    ensures EmptyStay(bins, bins'')
  {
    forall j {:trigger bins''[j]} | 2 <= j < |bins| && bins[j] == [] ensures bins''[j] == [] {
      assert bins'[j] == [];
    }
  }

  /** No chunk but those at `where` is free without being on a list. */
  ghost predicate LooseOnly(s: State, where: set<int>) {
    forall a {:trigger s.m[a]} | a in s.m && s.m[a].st.Loose? :: a in where
  }

  ghost predicate NoneDetached(s: State) {
    forall a {:trigger s.m[a]} | a in s.m :: !s.m[a].st.Detached?
  }

  /** Between two operations no chunk is in hand. */
  ghost predicate Quiet(s: State) {
    forall a {:trigger s.m[a]} | a in s.m :: !s.m[a].st.InHand()
  }

  lemma QuietFrom(s: State)
    requires Ok(s) && LooseOnly(s, {})
    requires forall a {:trigger InUse(s)[a]} | a in InUse(s) :: !InUse(s)[a].0.st.Detached?
    ensures Quiet(s)
  {
    forall a {:trigger s.m[a]} | a in s.m ensures !s.m[a].st.InHand() {
      assert s.m[a].st.Detached? ==> a in InUse(s);
    }
  }

  /** A chunk the client gives back stays in use on a fastbin, or not at all; no other held chunk changes. */
  lemma FreedIsHeldNoMore(s0: State, s1: State, s2: State, a: int, fast: bool)
    requires Ok(s0) && Ok(s1) && Ok(s2) && Quiet(s0)
    requires a in s0.m && s0.m[a].st.Held? && s1.m == Mark(s0.m, a, Detached) && s1.t == s0.t
    requires if fast then s2.t == s1.t && a in s2.m && s2.m[a].st.Fast? && s2.m == Mark(s1.m, a, s2.m[a].st)
             else LooseOnly(s2, {}) && InUse(s2) == InUse(s1) - {a}
    ensures Quiet(s2) && HeldBy(s2) == HeldBy(s0) - {a}
  {
    assert s0.m.Keys <= s0.t.Keys && s2.m.Keys <= s2.t.Keys;
    hide Tiles, Linked, Listed, Indexed;
    forall b {:trigger s2.m[b]} | b in s2.m ensures !s2.m[b].st.InHand() {
      assert s2.m[b].st.Detached? ==> b in InUse(s2);
    }
    forall b {:trigger InUse(s2)[b]} | b in HeldBy(s2) || (b in HeldBy(s0) && b != a)
      ensures b != a && b in HeldBy(s2) && b in HeldBy(s0) && InUse(s2)[b] == InUse(s0)[b]
    {
      assert b in InUse(s1) && b in InUse(s0) && b in InUse(s2);
    }
  }

  /** Taking a chunk off a fastbin and freeing it leaves the client's chunks alone and nothing in hand. */
  lemma DrainStep(s0: State, s1: State, s2: State, a: int)
    requires Ok(s0) && Ok(s1) && Ok(s2) && Quiet(s0) && LooseOnly(s2, {})
    requires a in s0.m && s0.m[a].st.Fast? && s1.m == Mark(s0.m, a, Detached) && s1.t == s0.t
    requires InUse(s2) == InUse(s1) - {a}
    ensures Quiet(s2) && HeldBy(s2) == HeldBy(s0)
  {
    assert s0.m.Keys <= s0.t.Keys;
    hide Tiles, Linked, Listed, Indexed;
    forall b {:trigger InUse(s2)[b]} | b in InUse(s2) ensures !InUse(s2)[b].0.st.Detached? {
      assert b in InUse(s1) && s0.m[b] == s1.m[b];
    }
    QuietFrom(s2);
    forall b {:trigger InUse(s2)[b]} | b in HeldBy(s2) || b in HeldBy(s0)
      ensures b in HeldBy(s2) && b in HeldBy(s0) && InUse(s2)[b] == InUse(s0)[b]
    {
      assert b in InUse(s0) && s0.m[b] == s1.m[b];
    }
  }

  ghost predicate NoFastchunks(s: State) {
    forall i {:trigger s.fastbins[i]} | 0 <= i < |s.fastbins| :: s.fastbins[i] == []
  }

  // ---------- Steps at the end of the region ----------

  /** The system moves the end of the region up by `n` bytes, and top grows into them. */
  ghost function GrowStep(s: State, n: int): State
    requires s.top in s.rs && TopAt(s) in s.m
  {
    s.(m := s.m[TopAt(s) := Cell(s.m[TopAt(s)].size + n, Top)], end := s.end + n,
       rs := s.rs[s.top := s.rs[s.top].(size := s.rs[s.top].size + n)])
  }

  lemma GrowKeepsListed(s: State, n: int, kind: Kind)
    requires Ok(s) && TopAt(s) in s.m && s.m[TopAt(s)].st.Top?
    ensures Listed(kind, GrowStep(s, n).m, s.t, GrowStep(s, n).rs, Family(s, kind))
  {
    var s', lists := GrowStep(s, n), Family(s, kind);
    forall d, l {:trigger InItsList(kind, s'.m, s.t, lists, d, l)} | d in s'.m && s'.m[d].st == OnList(kind, l)
      ensures InItsList(kind, s'.m, s.t, lists, d, l)
    {
      assert InItsList(kind, s.m, s.t, lists, d, l);
    }
  }

  lemma GrowStepOk(s: State, n: int)
    requires Ok(s) && s.m != map[] && n >= 0 && Aligned(n)
    requires s.end + n <= s.hi
    ensures TopAt(s) in s.m && Ok(GrowStep(s, n))
  {
    var a, end' := TopAt(s), s.end + n;
    TopFacts(s);
    InnerFacts(s, a);
    var s' := GrowStep(s, n);
    AlignedParts(s.m[a].size, n);
    forall b {:trigger CellOk(s'.m, s.base, a, end', b)} | b in s'.m ensures CellOk(s'.m, s.base, a, end', b) {
      assert CellOk(s.m, s.base, a, s.end, b);
    }
    forall b, c {:trigger Apart(s'.m, b, c)} | b in s'.m && c in s'.m && b < c ensures Apart(s'.m, b, c) {
      assert Apart(s.m, b, c) && CellOk(s.m, s.base, a, s.end, c);
    }
    forall b {:trigger LinkedAt(s'.m, s.t, s'.rs, s.base, a, b)} | b in s'.m
      ensures LinkedAt(s'.m, s.t, s'.rs, s.base, a, b)
    {
      assert LinkedAt(s.m, s.t, s.rs, s.base, a, b) && CellOk(s.m, s.base, a, s.end, b);
    }
    GrowKeepsListed(s, n, Bins);
    GrowKeepsListed(s, n, Fastbins);
  }

  /** The first memory from the system becomes the top chunk, with record `f`. */
  ghost function FirstTopStep(s: State, brk: int, n: int, f: Ref): State {
    s.(m := map[brk := Cell(n, Top)], base := brk, end := brk + n, t := s.t[brk := f],
       rs := s.rs[f := ChunkInfo(brk, n, true, 0, NIL, NIL)], top := f)
  }

  lemma FirstTopKeepsListed(s: State, brk: int, n: int, f: Ref, kind: Kind)
    requires Ok(s) && s.m == map[]
    ensures var s' := FirstTopStep(s, brk, n, f); Listed(kind, s'.m, s'.t, s'.rs, Family(s, kind))
  {
  }

  lemma FirstTopStepOk(s: State, brk: int, n: int, f: Ref)
    requires Ok(s) && s.m == map[] && Aligned(brk) && Aligned(n) && n >= MINSIZE
    requires f !in s.rs && f != NIL && s.lo <= brk && brk + n <= s.hi
    ensures Ok(FirstTopStep(s, brk, n, f))
  {
    var s' := FirstTopStep(s, brk, n, f);
    assert CellOk(s'.m, brk, brk, brk + n, brk);
    assert LinkedAt(s'.m, s'.t, s'.rs, brk, brk, brk);
    FirstTopKeepsListed(s, brk, n, f, Bins);
    FirstTopKeepsListed(s, brk, n, f, Fastbins);
  }

  /** The client still holds nothing. */
  lemma FirstTopFacts(s: State, brk: int, n: int, f: Ref)
    requires Ok(s) && s.m == map[]
    ensures HeldBy(FirstTopStep(s, brk, n, f)) == HeldBy(s) && Quiet(FirstTopStep(s, brk, n, f)) && s.base == s.end
    ensures NoFastchunks(s) ==> NoFastchunks(FirstTopStep(s, brk, n, f))
  {
  }

  // ---------- Serving a request ----------

  /** From `s` to `s'`, a chunk that the client did not hold, of a fitting size, has become the client's. */
  ghost predicate Serves(s: State, s': State, nb: int, r: Ref) {
    && r in s'.rs
    && var a := s'.rs[r].chunk;
    && a in s'.m && a !in HeldBy(s)
    && HeldBy(s') == HeldBy(s)[a := (s'.m[a], r)]
    && s'.m[a].st.Held? && nb <= s'.m[a].size < nb + MINSIZE
  }

  ghost predicate ServesOrFails(s: State, s': State, nb: int, r: Ref) {
    if r == NIL then HeldBy(s') == HeldBy(s) else Serves(s, s', nb, r)
  }

  lemma ServesAfter(s0: State, s1: State, s2: State, nb: int, r: Ref)
    requires HeldBy(s0) == HeldBy(s1) && ServesOrFails(s1, s2, nb, r)
    ensures ServesOrFails(s0, s2, nb, r)
  {
  }

  /** A chunk in hand that turns into the client's, all else in use staying the same. */
  lemma HandedOver(s0: State, s1: State, nb: int, a: int, r: Ref)
    requires a !in InUse(s0) || !InUse(s0)[a].0.st.Held?
    requires r in s1.rs && s1.rs[r].chunk == a && a in s1.m && s1.m[a].st.Held? && nb <= s1.m[a].size < nb + MINSIZE
    requires InUse(s1) == InUse(s0)[a := (s1.m[a], r)]
    ensures Serves(s0, s1, nb, r)
  {
  }

  lemma FastIsNotHeld(s: State, a: int)
    requires Ok(s) && a in s.m && s.m[a].st.Fast?
    ensures a in InUse(s) && InUse(s)[a] == (s.m[a], s.t[a])
  {
  }

  /** A chunk leaves its fastbin for the client. */
  lemma PoppedInUse(s0: State, s1: State, a: int, r: Ref)
    requires Ok(s0) && Ok(s1) && Quiet(s0)
    requires a in s0.m && s1.t == s0.t && a in s1.t && s1.t[a] == r && !s0.m[a].st.Top?
    requires s1.m == Mark(Mark(s0.m, a, Detached), a, Status.Held)
    ensures Quiet(s1) && InUse(s1) == InUse(s0)[a := (s1.m[a], r)]
  {
    hide Tiles, Linked, Listed, Indexed;
  }

  lemma SameHeld(s0: State, s1: State)
    requires InUse(s0) == InUse(s1)
    ensures HeldBy(s0) == HeldBy(s1)
  {
  }

  lemma AlignedEnd(s: State)
    requires Ok(s) && s.m != map[]
    ensures Aligned(s.end)
  {
    TopFacts(s);
    InnerFacts(s, TopAt(s));
    AlignedParts(TopAt(s), s.m[TopAt(s)].size);
  }

  /** The client's chunk `a` has become two of its chunks, of `n` bytes and the rest. */
  ghost predicate SplitsHeld(s: State, s': State, a: int, n: int, p: Ref, f: Ref) {
    && a in s.m && a in s'.m && a + n in s'.m && a + n !in HeldBy(s)
    && Owns(s'.m, s'.t, s'.rs, p) && Owns(s'.m, s'.t, s'.rs, f) && s'.rs[p].chunk == a && s'.rs[f].chunk == a + n
    && s'.m[a] == Cell(n, Status.Held) && s'.m[a + n] == Cell(s.m[a].size - n, Status.Held)
    && HeldBy(s') == HeldBy(s)[a := (s'.m[a], p)][a + n := (s'.m[a + n], f)]
  }

  lemma SplitHeldFacts(s: State, s': State, a: int, n: int, p: Ref, f: Ref)
    requires Ok(s) && Ok(s') && Quiet(s) && a in s.m && s.m[a].st.Held? && a + n !in s.t && n > 0
    requires s'.m == s.m[a := Cell(n, Status.Held)][a + n := Cell(s.m[a].size - n, Status.Held)]
    requires s'.t == s.t[a + n := f] && a in s.t && s.t[a] == p
    ensures Quiet(s') && SplitsHeld(s, s', a, n, p, f)
  {
    assert a + n !in s.m && s.m.Keys <= s.t.Keys;
    assert Owns(s'.m, s'.t, s'.rs, p) && Owns(s'.m, s'.t, s'.rs, f);
    assert s'.t[a] == p && s'.t[a + n] == f;
    hide Tiles, Linked, Listed, Indexed;
  }

  /** Chunk `a` grows or shrinks to `n` bytes and top takes the rest, with the fresh record `f`. */
  ghost function ShiftTopStep(s: State, a: int, n: int, f: Ref): State
    requires a in s.m && Next(s, a) in s.m && a in s.t && s.t[a] in s.rs
  {
    var total := s.m[a].size + s.m[Next(s, a)].size;
    s.(m := (s.m - {Next(s, a)})[a := Cell(n, s.m[a].st)][a + n := Cell(total - n, Top)],
       t := (s.t - {Next(s, a)})[a + n := f],
       rs := (s.rs - {s.top})[s.t[a] := s.rs[s.t[a]].(size := n, mdNext := f)]
                             [f := ChunkInfo(a + n, total - n, true, 0, NIL, s.t[a])],
       top := f)
  }

  ghost predicate Shiftable(s: State, a: int, n: int, f: Ref) {
    && Ok(s) && a in s.m && !s.m[a].st.Top? && !s.m[a].st.Free() && Next(s, a) == TopAt(s) && Next(s, a) in s.m
    && s.m[a].size <= n && Aligned(n) && n + MINSIZE <= s.m[a].size + s.m[Next(s, a)].size
    && f !in s.rs && f != NIL
  }

  /** Every chunk but top lies below it. */
  lemma TopIsLast(s: State, c: int)
    requires Ok(s) && c in s.m && c != TopAt(s)
    ensures TopAt(s) in s.m && c < c + s.m[c].size <= TopAt(s)
  {
    var top := TopAt(s);
    assert CellOk(s.m, s.base, top, s.end, c) && CellOk(s.m, s.base, top, s.end, top);
    assert c < top ==> Apart(s.m, c, top);
    assert top < c ==> Apart(s.m, top, c);
  }

  lemma ShiftTopTiles(s: State, a: int, n: int, f: Ref)
    requires Shiftable(s, a, n, f) && a in s.t && s.t[a] in s.rs
    ensures Tiles(ShiftTopStep(s, a, n, f).m, s.base, a + n, s.end)
  {
    var s' := ShiftTopStep(s, a, n, f);
    var b := Next(s, a);
    assert CellOk(s.m, s.base, b, s.end, a) && CellOk(s.m, s.base, b, s.end, b);
    AlignedParts(a, n);
    AlignedParts(s.m[a].size, s.m[b].size);
    AlignedParts(s.m[a].size + s.m[b].size - n, n);
    forall c {:trigger CellOk(s'.m, s.base, a + n, s.end, c)} | c in s'.m
      ensures CellOk(s'.m, s.base, a + n, s.end, c)
    {
      if c != a && c != a + n {
        assert CellOk(s.m, s.base, b, s.end, c);
        PredecessorIsUnique(s.m, s.base, b, s.end, a, c);
        if c + s.m[c].size == a + n { TopIsLast(s, c); }
      }
    }
    forall c, d {:trigger Apart(s'.m, c, d)} | c in s'.m && d in s'.m && c < d ensures Apart(s'.m, c, d) {
      if c != a + n { TopIsLast(s, c); }
      if d != a + n { TopIsLast(s, d); }
      assert c in s.m && d in s.m ==> Apart(s.m, c, d);
    }
  }

  lemma AtFacts(s: State, c: int)
    requires Ok(s) && c in s.m
    ensures LinkedAt(s.m, s.t, s.rs, s.base, TopAt(s), c) && CellOk(s.m, s.base, TopAt(s), s.end, c)
  {
  }

  lemma TilesFact(s: State)
    requires Ok(s)
    ensures Tiles(s.m, s.base, TopAt(s), s.end)
  {
  }

  lemma ShiftTopLinkedBelow(s: State, a: int, n: int, f: Ref, c: int)
    requires Shiftable(s, a, n, f) && a in s.t && s.t[a] in s.rs && c in s.m && c != Next(s, a) && c != a && c != a + n
    ensures var s' := ShiftTopStep(s, a, n, f); LinkedAt(s'.m, s'.t, s'.rs, s.base, a + n, c)
  {
    hide Tiles, Linked, Listed;
    var b := Next(s, a);
    InnerFacts(s, a);
    AtFacts(s, a);
    AtFacts(s, c);
    if a + n in s.m && a + n != b { TopIsLast(s, a + n); }
    PredecessorIsUnique(s.m, s.base, b, s.end, a, c) by { TilesFact(s); }
    if c != s.base {
      var d := s.rs[s.rs[s.t[c]].mdPrev].chunk;
      AtFacts(s, d);
      TopIsLast(s, c);
      PredecessorIsUnique(s.m, s.base, b, s.end, a, d) by { TilesFact(s); }
    }
  }

  lemma ShiftTopLinkedAt(s: State, a: int, n: int, f: Ref, c: int)
    requires Shiftable(s, a, n, f) && a in s.t && s.t[a] in s.rs
    requires c == a + n || (c in s.m && c != Next(s, a))
    ensures var s' := ShiftTopStep(s, a, n, f); LinkedAt(s'.m, s'.t, s'.rs, s.base, a + n, c)
  {
    hide Tiles, Linked, Listed;
    var b := Next(s, a);
    InnerFacts(s, a);
    AtFacts(s, a);
    if a + n in s.m && a + n != b { TopIsLast(s, a + n); }
    if c in s.m && c != a && c != a + n {
      ShiftTopLinkedBelow(s, a, n, f, c);
    }
  }

  lemma ShiftTopKeepsListed(s: State, a: int, n: int, f: Ref, kind: Kind)
    requires Shiftable(s, a, n, f) && a in s.t && s.t[a] in s.rs && (s.m[a].st.InHand() || s.m[a].st.Held?)
    ensures var s' := ShiftTopStep(s, a, n, f); Listed(kind, s'.m, s'.t, s'.rs, Family(s, kind))
  {
    var s', lists, b := ShiftTopStep(s, a, n, f), Family(s, kind), Next(s, a);
    InnerFacts(s, b);
    if a + n in s.m && a + n != b { TopIsLast(s, a + n); }
    forall l, c {:trigger c in lists[l]} | 0 <= l < |lists| && c in lists[l]
      ensures Owns(s'.m, s'.t, s'.rs, c) && s'.m[s'.rs[c].chunk].st == OnList(kind, l)
    {
      assert Owns(s.m, s.t, s.rs, c);
    }
    forall d, l {:trigger InItsList(kind, s'.m, s'.t, lists, d, l)} | d in s'.m && s'.m[d].st == OnList(kind, l)
      ensures InItsList(kind, s'.m, s'.t, lists, d, l)
    {
      assert InItsList(kind, s.m, s.t, lists, d, l);
    }
  }

  lemma ShiftTopIndexed(s: State, a: int, n: int, f: Ref)
    requires Shiftable(s, a, n, f) && a in s.t && s.t[a] in s.rs
    ensures var s' := ShiftTopStep(s, a, n, f); Indexed(s'.m, s'.t, s'.rs, s'.initial)
  {
    var b := Next(s, a);
    InnerFacts(s, a);
    InnerFacts(s, b);
    if a + n in s.m && a + n != b { TopIsLast(s, a + n); }
    assert s.rs[s.initial].chunk != a + n && s.initial != s.top && s.initial != s.t[a];
    hide Tiles, Linked, Listed;
  }

  lemma ShiftTopStepOk(s: State, a: int, n: int, f: Ref)
    requires Shiftable(s, a, n, f) && (s.m[a].st.InHand() || s.m[a].st.Held?)
    ensures a in s.t && s.t[a] in s.rs && s.rs[s.t[a]].chunk == a && Ok(ShiftTopStep(s, a, n, f))
  {
    InnerFacts(s, a);
    InnerFacts(s, Next(s, a));
    var s' := ShiftTopStep(s, a, n, f);
    ShiftTopTiles(s, a, n, f);
    forall c {:trigger LinkedAt(s'.m, s'.t, s'.rs, s.base, a + n, c)} | c in s'.m
      ensures LinkedAt(s'.m, s'.t, s'.rs, s.base, a + n, c)
    {
      ShiftTopLinkedAt(s, a, n, f, c);
    }
    ShiftTopKeepsListed(s, a, n, f, Bins);
    ShiftTopKeepsListed(s, a, n, f, Fastbins);
    ShiftTopIndexed(s, a, n, f);
    assert s.initial != s.top;
    hide Tiles, LinkedAt, Listed, Indexed;
  }

  /** The client's chunk `a` has become its chunk with record `r`, of a size fitting `nb`. */
  ghost predicate Resized(s: State, s': State, a: int, nb: int, r: Ref) {
    && r in s'.rs
    && var b := s'.rs[r].chunk;
    && b in s'.m && (b == a || b !in HeldBy(s))
    && HeldBy(s') == (HeldBy(s) - {a})[b := (s'.m[b], r)]
    && s'.m[b].st.Held? && nb <= s'.m[b].size < nb + MINSIZE
  }

  lemma HeldUpdate(u: Usage, a: int, c: Cell, r: Ref)
    requires c.st.Held?
    ensures HeldIn(u[a := (c, r)]) == (HeldIn(u) - {a})[a := (c, r)]
  {
  }

  lemma ShiftTopInUse(s: State, a: int, n: int, f: Ref)
    requires Shiftable(s, a, n, f) && a in s.t && s.t[a] in s.rs && s.m[a].st.Held?
    ensures InUse(ShiftTopStep(s, a, n, f)) == InUse(s)[a := (Cell(n, Status.Held), s.t[a])]
  {
    var b := Next(s, a);
    InnerFacts(s, b);
    if a + n in s.m && a + n != b { TopIsLast(s, a + n); }
    assert s.m.Keys <= s.t.Keys;
    hide Ok;
  }

  lemma ShiftTopFacts(s: State, s': State, a: int, n: int, p: Ref)
    requires Ok(s) && Ok(s') && Quiet(s) && Shiftable(s, a, n, s'.top) && s.m[a].st.Held?
    requires a in s.t && s.t[a] == p && p in s.rs && p in s'.rs && s'.rs[p].chunk == a
    requires s'.m == ShiftTopStep(s, a, n, s'.top).m && s'.t == ShiftTopStep(s, a, n, s'.top).t
    ensures Quiet(s') && Resized(s, s', a, n, p)
  {
    ShiftTopInUse(s, a, n, s'.top);
    InnerFacts(s, a);
    hide Ok;
    HeldUpdate(InUse(s), a, Cell(n, Status.Held), p);
    assert InUse(s') == InUse(ShiftTopStep(s, a, n, s'.top));
    hide InUse, HeldIn;
  }

  /** What is known of a chunk from its being held, and the other way round. */
  lemma HeldSays(s: State, a: int)
    requires Ok(s) && a in s.m && s.m[a].st.Held?
    ensures a in HeldBy(s) && a in s.t && HeldBy(s)[a] == (s.m[a], s.t[a])
  {
  }

  lemma HeldSaysBack(s: State, a: int)
    requires Ok(s) && a in HeldBy(s)
    ensures a in s.m && s.m[a].st.Held? && HeldBy(s)[a] == (s.m[a], s.t[a])
    ensures s.t[a] in s.rs && s.rs[s.t[a]].chunk == a && Owns(s.m, s.t, s.rs, s.t[a])
  {
  }

  lemma AbsorbHeldFacts(s: State, s': State, a: int, p: Ref)
    requires Ok(s) && Ok(s') && Quiet(s) && a in s.m && s.m[a].st.Held? && Next(s, a) in s.m && s.m[Next(s, a)].st.Held?
    requires a in s.t && s.t[a] == p
    requires var b := Next(s, a);
      && s'.m == (s.m - {b})[a := Cell(s.m[a].size + s.m[b].size, Status.Held)] && s'.t == s.t - {b}
    ensures Quiet(s')
    ensures HeldBy(s') == (HeldBy(s) - {Next(s, a)})[a := (s'.m[a], p)]
  {
    InnerFacts(s, a);
    assert s.m.Keys <= s.t.Keys;
    hide Ok;
    assert InUse(s') == (InUse(s) - {Next(s, a)})[a := (s'.m[a], p)];
  }

  lemma ResizedAfter(s0: State, s1: State, s2: State, a: int, nb: int, r: Ref)
    requires a in HeldBy(s0) && HeldBy(s1) - {a} == HeldBy(s0) - {a}
    requires Resized(s1, s2, a, nb, r) && s2.rs[r].chunk == a
    ensures Resized(s0, s2, a, nb, r)
  {
  }

  /** Of the client's chunks `a` and `b` one is left, with record `r` and of a size fitting `nb`. */
  ghost predicate Moves(s: State, s': State, a: int, b: int, nb: int, r: Ref)
    requires r in s'.rs
  {
    var c := s'.rs[r].chunk;
    && c in s'.m && (c == a || c == b)
    && HeldBy(s') == (HeldBy(s) - {a, b})[c := (s'.m[c], r)]
    && s'.m[c].st.Held? && nb <= s'.m[c].size < nb + MINSIZE
  }

  lemma MovesAfterServing(s0: State, s1: State, s2: State, a: int, b: int, nb: int, r: Ref)
    requires r in s2.rs && Moves(s1, s2, a, b, nb, r)
    requires a in HeldBy(s0) && b !in HeldBy(s0) && HeldBy(s1) - {b} == HeldBy(s0)
    ensures Resized(s0, s2, a, nb, r)
  {
  }

  /** Serving a request leaves each chunk of the client with its record. */
  lemma ServedApart(s0: State, s1: State, a: int, nb: int, r: Ref)
    requires Ok(s0) && Ok(s1) && a in HeldBy(s0) && Serves(s0, s1, nb, r)
    ensures a in s0.m && a in s1.m && a in s0.t && a in s1.t && s1.t[a] == s0.t[a] && s1.m[a] == s0.m[a] && s1.t[a] != r
    ensures var b := s1.rs[r].chunk;
      && b != a && Owns(s1.m, s1.t, s1.rs, r) && Owns(s1.m, s1.t, s1.rs, s1.t[a]) && s1.rs[s1.t[a]].chunk == a
      && HeldBy(s1) - {b} == HeldBy(s0) && s1.m[b].st.Held? && nb <= s1.m[b].size < nb + MINSIZE
  {
    HeldSaysBack(s0, a);
    HeldSaysBack(s1, a);
    HeldSaysBack(s1, s1.rs[r].chunk);
    hide Ok, HeldIn, InUse;
  }

  /** Chunk `b` of `s'` includes what was chunk `a` in `s`. */
  ghost predicate Includes(s': State, b: int, s: State, a: int) {
    b in s'.m && a in s.m && b <= a && Next(s, a) <= Next(s', b)
  }

  lemma CoalescedIncludes(s: State, s': State, a: int, b: int)
    requires Ok(s) && a in s.m && b in s'.m && CoalescesTo(s.m, a, b, s'.m[b].size)
    ensures Includes(s', b, s, a)
  {
    InnerFacts(s, a);
    if b != a { InnerFacts(s, b); }
    if Next(s, a) in s.m { InnerFacts(s, Next(s, a)); }
  }
}
