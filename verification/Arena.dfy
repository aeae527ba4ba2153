/** One arena of the allocator and the primitive steps its operations are made of. */
module Arenas {
  import opened Arithmetic
  import opened Sequences
  import opened Layout
  import opened BinIndex
  import opened BinMap
  import opened Records
  import opened HeapState
  import opened HeapFacts

  /** The answer of the system to a request to move the end of the region. */
  datatype SbrkReply = Refused | Granted(brk: int, corrected: bool)

  /** The bytes that top lacks for `nb` bytes and the padding, in whole pages. */
  function GrowthFor(nb: int, topSize: int, topPad: int, pageSize: int): int
    requires pageSize > 0
  {
    AlignUp(nb + topPad + MINSIZE - topSize, pageSize)
  }

  /** The end of the region after a request; the first time, a second request may round it to a page. */
  function EndAfter(sys: SbrkReply, growth: int, first: bool, pageSize: int): int
    requires pageSize > 0 && sys.Granted?
  {
    var e := sys.brk + growth;
    if first && sys.corrected then AlignUp(e, pageSize) else e
  }

  /** The system is asked for the least number of whole pages that top lacks. */
  lemma GrowthIsLeast(nb: int, topSize: int, topPad: int, pageSize: int, n: int)
    requires pageSize > 0 && Aligned(pageSize) && n % pageSize == 0 && topSize + n >= nb + topPad + MINSIZE
    ensures var growth := GrowthFor(nb, topSize, topPad, pageSize);
      growth % pageSize == 0 && topSize + growth >= nb + topPad + MINSIZE && growth <= n
  {
    AlignUpFacts(nb + topPad + MINSIZE - topSize, pageSize);
    AlignUpIsLeast(nb + topPad + MINSIZE - topSize, pageSize, n);
  }

  /** The region ends where the growth ends, or at the first page from there on if the first request is corrected. */
  lemma EndIsLeast(sys: SbrkReply, growth: int, first: bool, pageSize: int, e: int)
    requires pageSize > 0 && Aligned(pageSize) && sys.Granted? && e % pageSize == 0 && e >= sys.brk + growth
    ensures var end := EndAfter(sys, growth, first, pageSize);
      if first && sys.corrected then end % pageSize == 0 && sys.brk + growth <= end <= e
      else end == sys.brk + growth
  {
    AlignUpFacts(sys.brk + growth, pageSize);
    AlignUpIsLeast(sys.brk + growth, pageSize, e);
  }

  /** The system extends the region far enough. */
  predicate Extends(sys: SbrkReply, nb: int, topSize: int, first: bool, topPad: int, pageSize: int, hi: int)
    requires pageSize > 0
  {
    && sys.Granted?
    && var growth := GrowthFor(nb, topSize, topPad, pageSize);
    && 0 < growth < 0x8000_0000_0000_0000 && EndAfter(sys, growth, first, pageSize) <= hi
  }

  function Min(x: int, y: int): int { if x <= y then x else y }

  /** The memory after `n` bytes have been copied from `src` to `dst`. */
  function Copied(m: int -> int, src: int, dst: int, n: int): int -> int {
    x => if dst <= x < dst + n then m(x - dst + src) else m(x)
  }

  /** The first `n` bytes at `src` are now at `dst`, and nothing else has changed. */
  ghost predicate Carried(m: int -> int, m': int -> int, src: int, dst: int, n: int) {
    forall x {:trigger m'(x)} :: m'(x) == m(if dst <= x < dst + n then x - dst + src else x)
  }

  lemma CopiedCarries(m: int -> int, src: int, dst: int, n: int)
    ensures Carried(m, Copied(m, src, dst, n), src, dst, n) && Carried(m, m, src, src, n)
  {
  }

  lemma {:induction false} ListedLength(lists: Lists, i: int)
    requires 0 <= i < |lists|
    ensures |lists[i]| <= TotalLength(lists)
  {
    if i < |lists| - 1 { ListedLength(lists[..|lists| - 1], i); }
  }

  /** The most unsorted chunks that one call of malloc sorts. */
  const MAX_ITERS: int := 10000

  /** A coalesced chunk at least this large makes free empty the fastbins. */
  const FASTBIN_CONSOLIDATION_THRESHOLD: int := 65536

  /** The free chunk of `size` bytes at `start` is top or the first unsorted one. */
  ghost predicate JustFreed(s: State, start: int, size: int) {
    && start in s.m && s.m[start].size == size && start in s.t
    && (s.t[start] == s.top || (|s.bins| > 1 && s.bins[1] != [] && s.bins[1][0] == s.t[start]))
  }

  /**
   Chunk `a` has been given back: small, it is first on its fastbin; otherwise it is part of a free chunk with its
   free neighbours.  If that is large, the fastbins are emptied; otherwise, or with nothing on them, they are as they
   were and that chunk is top or the first unsorted one.
   */
  ghost predicate GivenBack(s: State, s': State, a: int, maxFast: int) {
    && a in s.m && a in s.t
    && if s.m[a].size <= maxFast then
         var i := FastbinIndex(s.m[a].size);
         0 <= i < |s.fastbins| && s'.fastbins == s.fastbins[i := [s.t[a]] + s.fastbins[i]]
         && s'.m == Mark(s.m, a, Fast(i)) && s'.bins == s.bins
       else
         exists start, size {:trigger CoalescesTo(s.m, a, start, size)} ::
           && CoalescesTo(s.m, a, start, size)
           && (size >= FASTBIN_CONSOLIDATION_THRESHOLD ==> NoFastchunks(s'))
           && (size < FASTBIN_CONSOLIDATION_THRESHOLD || NoFastchunks(s) ==>
                 s'.fastbins == s.fastbins && JustFreed(s', start, size))
  }

  lemma GivenBackLarge(s: State, s1: State, s': State, a: int, b: int, maxFast: int)
    requires a in s.m && a in s.t && s.m[a].size > maxFast && b in s1.m && CoalescesTo(s.m, a, b, s1.m[b].size)
    requires JustFreed(s1, b, s1.m[b].size) && s1.fastbins == s.fastbins
    requires if s1.m[b].size < FASTBIN_CONSOLIDATION_THRESHOLD || NoFastchunks(s) then s' == s1 else NoFastchunks(s')
    ensures GivenBack(s, s', a, maxFast)
  {
  }

  /** No chunk is unsorted, unless so many have been sorted that the others had to wait. */
  ghost predicate Sorted(bins: Lists) {
    |bins| > 1 && (bins[1] == [] || TotalLength(bins) - |bins[1]| >= MAX_ITERS)
  }

  /** The first chunk of a large request's own bin is too small for it. */
  ghost predicate FirstTooSmall(s: State, nb: int) {
    var b := LargebinIndex(nb);
    0 <= b < |s.bins| && (s.bins[b] != [] ==> s.bins[b][0] in s.rs && s.rs[s.bins[b][0]].size < nb)
  }

  /** The first bin that has nothing but chunks of at least `nb` bytes. */
  function LowestBin(nb: int): int {
    if InSmallbinRange(nb) then SmallbinIndex(nb) else LargebinIndex(nb) + 1
  }

  /** No bin has a chunk for `nb` bytes, and no chunk is left unsorted, unless there were too many. */
  ghost predicate NothingBinned(s: State, nb: int) {
    && |s.bins| == NBINS && Sorted(s.bins) && (!InSmallbinRange(nb) ==> FirstTooSmall(s, nb))
    && (forall j {:trigger s.bins[j]} | LowestBin(nb) <= j < |s.bins| && j >= 0 :: s.bins[j] == [])
  }

  /** Neither a bin nor a fastbin has a chunk for `nb` bytes: the fastbins are empty. */
  ghost predicate NothingListed(s: State, nb: int) {
    NoFastchunks(s) && NothingBinned(s, nb)
  }

  /**
   Chunk `r` is the best fit that the bins have: from a large request's own bin if the first chunk there is large
   enough, else the last chunk of the lowest bin above that is not empty.
   */
  ghost predicate BestFit(s: State, nb: int, r: Ref) {
    if !InSmallbinRange(nb) && !FirstTooSmall(s, nb) then
      var b := LargebinIndex(nb);
      0 <= b < |s.bins| && r in s.bins[b] && r in s.rs && s.rs[r].size >= nb
    else
      exists b: nat {:trigger s.bins[b]} ::
        && BinOf(nb) < b < |s.bins| && s.bins[b] != [] && r == s.bins[b][|s.bins[b]| - 1]
        && forall j {:trigger s.bins[j]} | BinOf(nb) < j < b && j >= 0 :: s.bins[j] == []
  }

  /** The fastbin of a size has a chunk. */
  ghost predicate FastFit(s: State, nb: int, maxFast: int) {
    nb <= maxFast && 0 <= FastbinIndex(nb) < |s.fastbins| && s.fastbins[FastbinIndex(nb)] != []
  }

  /** The bin of a small size has a chunk. */
  ghost predicate SmallFit(s: State, nb: int) {
    InSmallbinRange(nb) && 0 <= SmallbinIndex(nb) < |s.bins| && s.bins[SmallbinIndex(nb)] != []
  }

  /** Placing a chunk of another size leaves the bin of a small size empty. */
  lemma OwnStaysEmpty(s: State, s': State, nb: int, size: int)
    requires MINSIZE <= nb && MINSIZE <= size && Aligned(nb) && Aligned(size) && size != nb && !SmallFit(s, nb)
    requires |s.bins| == |s'.bins| == NBINS
    requires forall j {:trigger s'.bins[j]} | 0 <= j < NBINS && j != 1 && j != BinOf(size) :: s'.bins[j] == s.bins[j]
    ensures !SmallFit(s', nb)
  {
    BinOfInRange(nb);
    BinSearchFits(nb, size);
  }

  /** A request is served with a chunk of just its size, if the fastbin or else the small bin of that has one. */
  ghost predicate ExactService(s: State, nb: int, maxFast: int, r: Ref) {
    if FastFit(s, nb, maxFast) then r != NIL && r == s.fastbins[FastbinIndex(nb)][0]
    else SmallFit(s, nb) ==> r != NIL && r == s.bins[SmallbinIndex(nb)][|s.bins[SmallbinIndex(nb)]| - 1]
  }

  /** Top begins where the chunk of record `r` ends. */
  ghost predicate BordersTop(s: State, r: Ref) {
    && r in s.rs && s.rs[r].chunk in s.m && s.top in s.rs
    && Next(s, s.rs[r].chunk) == TopAt(s)
  }

  /** Top is too small for a request. */
  ghost predicate TopTooSmall(s: State, nb: int) {
    s.top in s.rs && s.rs[s.top].size < nb + MINSIZE
  }

  /** A request that no chunk of just its size serves and that is searched for as the lists are, with none unsorted. */
  ghost predicate SearchedAsIs(s: State, nb: int, maxFast: int) {
    && !FastFit(s, nb, maxFast) && !SmallFit(s, nb) && (InSmallbinRange(nb) || NoFastchunks(s))
    && |s.bins| > 1 && s.bins[1] == []
  }

  /**
   From `s` to `s'`, chunk `r` was chosen for a request: one of just its size if there is one, else, when the lists are
   searched as they are, the best fit, else top; and top is taken only when no bin has a chunk.
   */
  ghost predicate WellChosen(s: State, s': State, nb: int, maxFast: int, r: Ref) {
    && ExactService(s, nb, maxFast, r)
    && (BordersTop(s', r) && !FastFit(s, nb, maxFast) ==> NothingBinned(s', nb))
    && (SearchedAsIs(s, nb, maxFast) ==>
          if NothingBinned(s, nb) then TopTooSmall(s, nb) || r == s.top else r != NIL && BestFit(s, nb, r))
  }

  /** Chunk `a` and its successor, top or free, are large enough for `nb` bytes. */
  ghost predicate GrowsInPlace(s: State, a: int, nb: int) {
    && a in s.m && Next(s, a) in s.m
    && var sum := s.m[a].size + s.m[Next(s, a)].size;
    && if s.m[Next(s, a)].st.Top? then sum >= nb + MINSIZE else s.m[Next(s, a)].st.Free() && sum >= nb
  }

  /** What a chunk of `size` bytes keeps when it gives back what it has beyond `nb`, if that makes a chunk. */
  function Trimmed(size: int, nb: int): int { if size - nb >= MINSIZE then nb else size }

  /** Takes a record from the metadata pool. */
  method NewRecord(rs: Records) returns (f: Ref)
    ensures f !in rs && f != NIL
  {
    f := 1;
    var left := rs.Keys;
    while f in left
      invariant f >= 1 && forall c {:trigger c in left} :: c in rs ==> c in left || c < f
      decreases left
    {
      left := left - {f};
      f := f + 1;
    }
  }

  class Arena {
    const initialTop: Ref
    const maxFast: int             // largest chunk that goes to a fastbin
    var recs: Records
    var table: Table
    var top: Ref
    var fastbins: Lists
    var bins: Lists
    var binmap: Words
    var haveFastchunks: bool
    var lastRemainder: Ref
    var systemMem: int
    var mem: int -> int            // the bytes of the region
    const topPad: int              // extra bytes to ask the system for
    const pageSize: int
    const lo: int                  // the system can move the end of the region within [lo, hi)
    const hi: int
    ghost var layout: Map
    ghost var base: int
    ghost var end: int

    /** The state of the arena as a value. */
    ghost function Now(): State
      reads this
    {
      State(layout, base, end, lo, hi, table, recs, top, initialTop, bins, fastbins)
    }

    /** What holds between any two steps of an operation. */
    ghost predicate Sound()
      reads this
    {
      Ok(Now()) && Covers(binmap, bins)
    }

    /** What holds between two operations. */
    ghost predicate Valid()
      reads this
    {
      && Sound() && Quiet(Now())
      && Config()
      && systemMem == end - base
      && (haveFastchunks || NoFastchunks(Now()))
    }

    ghost predicate Config() {
      maxFast <= 160 && topPad >= 0 && pageSize > 0 && Aligned(pageSize)
    }

    constructor (initialTop: Ref, address: int, maxFast: int, topPad: int, pageSize: int, lo: int, hi: int)
      requires initialTop != NIL && !(lo <= address < hi)
      requires maxFast <= 160 && topPad >= 0 && pageSize > 0 && Aligned(pageSize)
      ensures Valid() && layout == map[]
    {
      this.initialTop, this.maxFast, this.topPad, this.pageSize := initialTop, maxFast, topPad, pageSize;
      this.lo, this.hi := lo, hi;
      recs := map[initialTop := ChunkInfo(address, 0, false, 0, NIL, NIL)];
      table := map[address := initialTop];
      top := initialTop;
      fastbins := seq(NFASTBINS, _ => []);
      bins := seq(NBINS, _ => []);
      binmap := [0, 0, 0, 0];
      haveFastchunks, lastRemainder, systemMem := false, NIL, 0;
      mem := _ => 0;
      layout, base, end := map[], 0, 0;
    }

    /** Sets the in-use bit of a free chunk that is on no list. */
    method SetInuse(c: Ref)
      requires Sound() && c in recs && Owns(layout, table, recs, c) && layout[recs[c].chunk].st.Loose?
      modifies this`layout, this`recs
      ensures Sound() && Now() == MarkStep(old(Now()), old(recs[c].chunk), Detached)
      ensures var a := old(recs[c].chunk); InUse(Now()) == InUse(old(Now()))[a := (layout[a], c)]
    {
      hide Tiles, Linked, Listed, Indexed;
      ghost var a := recs[c].chunk;
      InnerFacts(Now(), a);
      MarkStepOk(Now(), a, Detached);
      var n := recs[c].mdNext;
      recs := recs[n := recs[n].(prevInuse := true)];
      layout := Mark(layout, a, Detached);
    }

    /** Clears the in-use bit of a chunk between two chunks that are in use, and sets its footer. */
    method ClearInuse(c: Ref)
      requires Sound() && Owns(layout, table, recs, c) && layout[recs[c].chunk].st.Detached?
      requires var a := recs[c].chunk;
        && recs[c].prevInuse && Next(Now(), a) in layout
        && !layout[Next(Now(), a)].st.Free() && Next(Now(), a) != TopAt(Now())
      modifies this`layout, this`recs
      ensures Sound() && Now() == MarkStep(old(Now()), old(recs[c].chunk), Loose)
    {
      hide Tiles, Linked, Listed, Indexed;
      ghost var a := recs[c].chunk;
      InnerFacts(Now(), a);
      MarkStepOk(Now(), a, Loose);
      var n := recs[c].mdNext;
      recs := recs[n := recs[n].(prevInuse := false, prevSize := recs[c].size)];
      layout := Mark(layout, a, Loose);
    }

    /** Joins chunk `q` with its successor, whose record leaves the table and returns to the pool. */
    method Absorb(q: Ref)
      requires Sound() && Owns(layout, table, recs, q)
      requires var a := recs[q].chunk; var b := Next(Now(), a);
        && layout[a].st.InHand() && b in layout && b != TopAt(Now()) && layout[b].st.InHand()
        && (layout[b].st.Free() ==> recs[q].prevInuse)
      modifies this`layout, this`recs, this`table
      ensures Sound() && Now() == JoinStep(old(Now()), old(recs[q].chunk))
    {
      hide Tiles, Linked, Listed, Indexed;
      ghost var a := recs[q].chunk;
      JoinStepOk(Now(), a);
      ghost var s := Now();
      var p := recs[q].mdNext;
      var n := recs[p].mdNext;
      var size := recs[q].size + recs[p].size;
      table := table - {recs[p].chunk};
      recs := (recs - {p})[q := recs[q].(size := size, mdNext := n)];
      recs := recs[n := recs[n].(mdPrev := q, prevSize := if recs[n].prevInuse then recs[n].prevSize else size)];
      layout := Join(layout, a, layout[Next(s, a)].st);
    }

    /** Merges chunk `q` into the top chunk that follows it. */
    method AbsorbTop(q: Ref)
      requires Sound() && Owns(layout, table, recs, q)
      requires var a := recs[q].chunk;
        layout[a].st.Detached? && Next(Now(), a) == TopAt(Now()) && recs[q].prevInuse && top in recs
      modifies this`layout, this`recs, this`table, this`top
      ensures Sound() && Now() == JoinStep(old(Now()), old(recs[q].chunk))
      ensures InUse(Now()) == InUse(old(Now())) - {old(recs[q].chunk)}
    {
      hide Tiles, Linked, Listed, Indexed;
      ghost var a := recs[q].chunk;
      TopFacts(Now());
      JoinStepOk(Now(), a);
      ghost var s := Now();
      var p := top;
      table := table - {recs[p].chunk};
      recs := (recs - {p})[q := recs[q].(size := recs[q].size + recs[p].size, mdNext := NIL)];
      top := q;
      layout := Join(layout, a, layout[Next(s, a)].st);
    }

    /**
     Cuts chunk `c`, which is in hand, at `n` bytes: registers a record for the remainder, links it after
     `c`, and sets its head and, when it is free, its footer.
     */
    method Split(c: Ref, n: int) returns (f: Ref)
      requires Sound() && Owns(layout, table, recs, c) && layout[recs[c].chunk].st.InHand()
      requires MINSIZE <= n && n + MINSIZE <= layout[recs[c].chunk].size && Aligned(n)
      modifies this`layout, this`recs, this`table
      ensures Sound() && f !in old(recs) && f != NIL && Now() == CutStep(old(Now()), old(recs[c].chunk), n, f)
      ensures old(recs[c].chunk) + n !in old(table)
      ensures var a := old(recs[c].chunk);
        if old(layout)[a].st.Loose? then InUse(Now()) == InUse(old(Now()))[a := (layout[a], c)]
        else InUse(Now()) == InUse(old(Now()))[a := (layout[a], c)][a + n := (layout[a + n], f)]
    {
      hide Tiles, Linked, Listed, Indexed, InUse;
      ghost var a := recs[c].chunk;
      f := NewRecord(recs);
      CutStepOk(Now(), a, n, f);
      CutInUse(Now(), a, n, f);
      var x, rest := recs[c].mdNext, recs[c].size - n;
      table := table[recs[c].chunk + n := f];
      recs := recs[c := recs[c].(size := n, mdNext := f)][f := ChunkInfo(recs[c].chunk + n, rest, true, 0, x, c)];
      recs := recs[x := recs[x].(mdPrev := f, prevSize := if recs[x].prevInuse then recs[x].prevSize else rest)];
      layout := Cut(layout, a, n, Detached, layout[a].st);
    }

    /** Cuts `n` bytes off the bottom of the top chunk; the remainder is the new top. */
    method SplitTop(n: int)
      requires Sound() && layout != map[]
      requires MINSIZE <= n && n + MINSIZE <= layout[TopAt(Now())].size && Aligned(n)
      modifies this`layout, this`recs, this`table, this`top
      ensures Sound() && top !in old(recs) && Now() == CutStep(old(Now()), old(TopAt(Now())), n, top)
      ensures var a := old(TopAt(Now())); InUse(Now()) == InUse(old(Now()))[a := (layout[a], old(top))]
      ensures forall c {:trigger c in recs} | c in old(recs) && c != old(top) :: c in recs && recs[c] == old(recs[c])
    {
      hide Tiles, Linked, Listed, Indexed, InUse;
      ghost var a := TopAt(Now());
      TopFacts(Now());
      var f := NewRecord(recs);
      CutStepOk(Now(), a, n, f);
      CutInUse(Now(), a, n, f);
      var victim, rest := recs[top], recs[top].size - n;
      table, recs, top :=
        table[victim.chunk + n := f],
        recs[top := victim.(size := n, mdNext := f)][f := ChunkInfo(victim.chunk + n, rest, true, 0, NIL, top)],
        f;
      layout := Cut(layout, a, n, Detached, Top);
    }

    /** A chunk changes hands between the client and the allocator. */
    ghost method Retag(c: Ref, st: Status)
      requires Sound() && Owns(layout, table, recs, c)
      requires var now := layout[recs[c].chunk].st; (now.Held? && st.Detached?) || (now.Detached? && st.Held?)
      modifies this`layout
      ensures Sound() && layout == Mark(old(layout), recs[c].chunk, st)
      ensures var a := recs[c].chunk; InUse(Now()) == InUse(old(Now()))[a := (layout[a], c)]
    {
      hide Tiles, Linked, Listed, Indexed;
      var a := recs[c].chunk;
      InnerFacts(Now(), a);
      MarkStepOk(Now(), a, st);
      TellNothingNew(Now(), a, st);
      layout := Mark(layout, a, st);
    }

    // ---------- Lists ----------

    lemma OnlyPlace(c: Ref, b: nat, i: nat)
      requires Sound() && Owns(layout, table, recs, c) && b < |bins| && i < |bins[b]| && bins[b][i] == c
      ensures layout[recs[c].chunk].st == Binned(b)
    {
      hide Tiles, Linked, Indexed;
      assert c in bins[b];
    }

    /** Where a binned chunk is. */
    method PlaceInBins(c: Ref) returns (b: nat, i: nat)
      requires Sound() && Owns(layout, table, recs, c) && layout[recs[c].chunk].st.Binned?
      ensures b < |bins| && i < |bins[b]| && bins[b][i] == c && layout[recs[c].chunk].st == Binned(b)
    {
      assert InItsList(Bins, layout, table, bins, recs[c].chunk, layout[recs[c].chunk].st.bin);
      hide Tiles, Linked, Listed, Indexed;
      b, i :| b < |bins| && i < |bins[b]| && bins[b][i] == c;
      OnlyPlace(c, b, i);
    }

    method BinUnlinkAt(c: Ref, b: nat, i: nat)
      requires Sound() && Owns(layout, table, recs, c) && layout[recs[c].chunk].st == Binned(b)
      requires b < |bins| && i < |bins[b]| && bins[b][i] == c
      modifies this`layout, this`bins
      ensures Sound() && InUse(Now()) == InUse(old(Now()))
      ensures layout == Mark(old(layout), old(recs[c].chunk), Loose) && bins == old(bins)[b := Removed(old(bins[b]), i)]
    {
      hide Tiles, Linked, Listed, Indexed, Marked;
      RemoveStepOk(Now(), Bins, b, i);
      bins := bins[b := Removed(bins[b], i)];
      layout := Mark(layout, recs[c].chunk, Loose);
    }

    /** Takes a chunk off its bin list. */
    method BinUnlink(c: Ref)
      requires Sound() && Owns(layout, table, recs, c) && layout[recs[c].chunk].st.Binned?
      modifies this`layout, this`bins
      ensures Sound() && InUse(Now()) == InUse(old(Now()))
      ensures var a := recs[c].chunk; layout == Mark(old(layout), a, Loose)
      ensures var b := old(layout)[recs[c].chunk].st.bin;
        && b < |old(bins)| == |bins| && (forall j {:trigger bins[j]} | 0 <= j < |bins| && j != b ::
            bins[j] == old(bins[j]))
        && exists i: nat {:trigger Removed(old(bins[b]), i)} ::
             i < |old(bins[b])| && old(bins[b][i]) == c && bins[b] == Removed(old(bins[b]), i)
      ensures TotalLength(bins) == TotalLength(old(bins)) - 1 && EmptyStay(old(bins), bins)
    {
      hide TotalLength, Tiles, Linked, Listed, Indexed, Marked, InUse;
      var b, i := PlaceInBins(c);
      TotalLengthAfter(bins, b, Removed(bins[b], i));
      BinUnlinkAt(c, b, i);
    }

    /** Puts a free chunk at position `pos` of bin `b`; bins from 2 on are marked as non-empty. */
    method BinInsert(c: Ref, b: nat, pos: nat)
      requires Sound() && Owns(layout, table, recs, c) && layout[recs[c].chunk].st.Loose?
      requires b < NBINS && pos <= |bins[b]| && Placed(Bins, b, layout[recs[c].chunk].size)
      modifies this`layout, this`bins, this`binmap
      ensures Sound()
      ensures bins == old(bins)[b := Inserted(old(bins[b]), pos, c)] && InUse(Now()) == InUse(old(Now()))
      ensures var a := recs[c].chunk; layout == Mark(old(layout), a, Binned(b))
    {
      hide Tiles, Linked, Listed, Indexed, Marked, MarkBin;
      ghost var a := recs[c].chunk;
      MarkKeepsCovers(binmap, bins, b, Inserted(bins[b], pos, c));
      if b >= 2 {
        binmap := MarkBin(binmap, b);
      }
      InsertStepOk(Now(), Bins, a, b, pos);
      bins := bins[b := Inserted(bins[b], pos, c)];
      layout := Mark(layout, a, Binned(b));
    }

    // ---------- Coalescing ----------

    /** Merges chunk `p` into its predecessor if that is free; `q` is the chunk that results. */
    method CoalesceBackward(p: Ref) returns (q: Ref)
      requires Sound() && Owns(layout, table, recs, p) && layout[recs[p].chunk].st.Detached?
      requires LooseOnly(Now(), {})
      modifies this`layout, this`recs, this`table, this`bins
      ensures Sound() && Owns(layout, table, recs, q) && LooseOnly(Now(), {})
      ensures var a, b := old(recs[p].chunk), recs[q].chunk;
        && layout[b].st.Detached? && recs[q].prevInuse && b <= a && top == old(top) && top in recs
        && Next(Now(), b) == Next(old(Now()), a)
        && InUse(Now()) - {b} == InUse(old(Now())) - {a}
        && FreeFrom(old(layout), a, b) && EndOfFree(layout, b) == EndOfFree(old(layout), a)
      ensures EmptyStay(old(bins), bins)
    {
      hide Tiles, Linked, Listed, Indexed, InUse, Covers;
      q := p;
      ghost var s0 := Now();
      ghost var a := recs[p].chunk;
      InnerFacts(s0, a);
      if !recs[p].prevInuse {
        q := recs[p].mdPrev;
        InnerFacts(s0, recs[q].chunk);
        BinUnlink(q);
        assert Next(Now(), recs[q].chunk) == a;
        EndAfterJoin(s0, recs[q].chunk, a);
        NotInUse(s0, recs[q].chunk);
        JoinInUse(Now(), recs[q].chunk);
        Absorb(q);
      }
    }

    /**
     Frees chunk `p`, which borders neither top nor a free chunk below it: merges its successor into it if
     that is free, and otherwise clears its in-use bit.
     */
    method CoalesceForward(p: Ref)
      requires Sound() && Owns(layout, table, recs, p) && layout[recs[p].chunk].st.Detached?
      requires recs[p].prevInuse && recs[p].mdNext != top && LooseOnly(Now(), {})
      modifies this`layout, this`recs, this`table, this`bins
      ensures Sound() && Owns(layout, table, recs, p)
      ensures var a := old(recs[p].chunk);
        && recs[p].chunk == a && layout[a].st.Loose? && LooseOnly(Now(), {a}) && top in recs && top == old(top)
        && a + layout[a].size == EndOfFree(old(layout), a)
        && InUse(Now()) == InUse(old(Now())) - {a}
      ensures EmptyStay(old(bins), bins)
    {
      hide Tiles, Linked, Listed, Indexed, InUse, Covers, FollowsUsed;
      ghost var s0 := Now();
      ghost var a := recs[p].chunk;
      InnerFacts(s0, a);
      var n := recs[p].mdNext;
      ghost var b := recs[n].chunk;
      InnerFacts(s0, b);
      if !recs[recs[n].mdNext].prevInuse {
        BinUnlink(n);
        NotInUse(s0, b);
        JoinInUse(Now(), a);
        Absorb(p);
      } else {
        MarkInUse(Now(), a, Loose);
        ClearInuse(p);
      }
    }

    /**
     Frees chunk `p`: coalesces it with its free neighbours and puts the result, `q`, at the front of the
     unsorted bin, or makes it the top chunk if it borders that.
     */
    method FreeChunk(p: Ref) returns (q: Ref)
      requires Sound() && Owns(layout, table, recs, p) && layout[recs[p].chunk].st.Detached?
      requires LooseOnly(Now(), {})
      modifies this`layout, this`recs, this`table, this`top, this`bins, this`binmap
      ensures Sound() && LooseOnly(Now(), {})
      ensures InUse(Now()) == InUse(old(Now())) - {old(recs[p].chunk)}
      ensures Owns(layout, table, recs, q) && Includes(Now(), recs[q].chunk, old(Now()), old(recs[p].chunk))
      ensures layout[recs[q].chunk].st.Binned? || layout[recs[q].chunk].st.Top?
      ensures if old(top) in recs then top == old(top) && |bins| > 1 && bins[1] != [] && bins[1][0] == q else q == top
      ensures var b := recs[q].chunk;
        CoalescesTo(old(layout), old(recs[p].chunk), b, layout[b].size) && EmptyStay(old(bins), bins)
    {
      hide Tiles, Linked, Listed, Indexed, Covers, InUse, Includes, FollowsUsed;
      ghost var s0 := Now();
      ghost var a := recs[p].chunk;
      q := CoalesceBackward(p);
      ghost var b := recs[q].chunk;
      ghost var s1 := Now();
      InnerFacts(s1, b);
      if recs[q].mdNext != top {
        CoalesceForward(q);
        assert layout[b].st.Loose?;
        BinInsert(q, 1, 0);
      } else {
        TopFacts(s1);
        InnerFacts(s1, TopAt(s1));
        AbsorbTop(q);
      }
      CoalescedIncludes(s0, Now(), a, b);
    }

    /** Links chunk `c` to the front of fastbin `i`; its in-use bit stays set. */
    method FastbinPush(c: Ref, i: nat)
      requires Sound() && Owns(layout, table, recs, c) && layout[recs[c].chunk].st.Detached?
      requires i < NFASTBINS && i == FastbinIndex(layout[recs[c].chunk].size)
      modifies this`layout, this`fastbins
      ensures Sound() && fastbins == old(fastbins)[i := [c] + old(fastbins[i])]
      ensures layout == Mark(old(layout), recs[c].chunk, Fast(i))
    {
      hide Tiles, Linked, Listed, Indexed, Covers;
      ghost var a := recs[c].chunk;
      InsertStepOk(Now(), Fastbins, a, i, 0);
      assert Inserted(fastbins[i], 0, c) == [c] + fastbins[i];
      fastbins := fastbins[i := [c] + fastbins[i]];
      layout := Mark(layout, a, Fast(i));
    }

    /** Takes the chunk at the front of fastbin `i`. */
    method FastbinPop(i: nat) returns (c: Ref)
      requires Sound() && i < NFASTBINS && fastbins[i] != []
      modifies this`layout, this`fastbins
      ensures Sound() && c == old(fastbins[i][0]) && fastbins == old(fastbins)[i := old(fastbins[i])[1..]]
      ensures Owns(old(layout), table, recs, c)
      ensures var a := recs[c].chunk;
        && old(layout)[a].st == Fast(i) && i == FastbinIndex(old(layout)[a].size)
        && layout == Mark(old(layout), a, Detached)
    {
      hide Tiles, Linked, Listed, Indexed, Covers;
      RemoveStepOk(Now(), Fastbins, i, 0);
      c := fastbins[i][0];
      assert Removed(fastbins[i], 0) == fastbins[i][1..];
      fastbins := fastbins[i := fastbins[i][1..]];
      layout := Mark(layout, recs[c].chunk, Detached);
    }

    /** Frees and coalesces the chunks of fastbin `i`. */
    method DrainFastbin(i: nat)
      requires Sound() && Quiet(Now()) && i < NFASTBINS
      modifies this`layout, this`recs, this`table, this`top, this`bins, this`binmap, this`fastbins
      ensures Sound() && Quiet(Now())
      ensures HeldBy(Now()) == HeldBy(old(Now())) && fastbins == old(fastbins)[i := []] && EmptyStay(old(bins), bins)
      ensures old(fastbins)[i] == [] ==> Now() == old(Now())
    {
      hide Tiles, Linked, Listed, Indexed, Covers, EmptyStay;
      EmptyStayAtFirst(bins);
      while fastbins[i] != []
        invariant Sound() && Quiet(Now()) && EmptyStay(old(bins), bins)
        invariant old(fastbins)[i] == [] ==> Now() == old(Now())
        invariant HeldBy(Now()) == HeldBy(old(Now()))
        invariant |fastbins| == NFASTBINS && fastbins == old(fastbins)[i := fastbins[i]]
        decreases |fastbins[i]|
      {
        ghost var s0 := Now();
        var c := FastbinPop(i);
        ghost var s1 := Now();
        ghost var a := recs[c].chunk;
        var q := FreeChunk(c);
        EmptyStayOn(old(bins), s1.bins, bins);
        DrainStep(s0, s1, Now(), a);
      }
    }

    /** Empties every fastbin, freeing and coalescing the chunks it held. */
    method Consolidate()
      requires Valid()
      modifies this`layout, this`recs, this`table, this`top, this`bins, this`binmap, this`fastbins, this`haveFastchunks
      ensures Valid() && !haveFastchunks && NoFastchunks(Now())
      ensures HeldBy(Now()) == HeldBy(old(Now())) && EmptyStay(old(bins), bins)
      ensures old(NoFastchunks(Now())) ==> Now() == old(Now())
    {
      haveFastchunks := false;
      var i := 0;
      assert |fastbins| == NFASTBINS;
      hide Tiles, Linked, Listed, Indexed, Covers, EmptyStay;
      EmptyStayAtFirst(bins);
      while i < NFASTBINS
        invariant 0 <= i <= NFASTBINS == |fastbins| && Sound() && Quiet(Now()) && !haveFastchunks
        invariant EmptyStay(old(bins), bins) && (old(NoFastchunks(Now())) ==> Now() == old(Now()))
        invariant forall j {:trigger fastbins[j]} | 0 <= j < i :: fastbins[j] == []
        invariant HeldBy(Now()) == HeldBy(old(Now()))
      {
        ghost var was := bins;
        DrainFastbin(i);
        EmptyStayOn(old(bins), was, bins);
        i := i + 1;
      }
    }

    // ---------- free ----------

    /** Gives chunk `p` back: to a fastbin if it is small, else coalesced to the unsorted bin or to top. */
    method Free(p: Ref)
      requires Valid() && Owns(layout, table, recs, p) && layout[recs[p].chunk].st.Held?
      modifies this`layout, this`recs, this`table, this`top, this`bins, this`binmap, this`fastbins, this`haveFastchunks
      ensures Valid() && HeldBy(Now()) == HeldBy(old(Now())) - {old(recs[p].chunk)}
      ensures GivenBack(old(Now()), Now(), old(recs[p].chunk), maxFast)
      ensures old(recs[p].size) <= maxFast ==> haveFastchunks
      ensures var a := old(recs[p].chunk);
        forall start, size {:trigger CoalescesTo(old(layout), a, start, size)} |
          CoalescesTo(old(layout), a, start, size) && old(recs[p].size) > maxFast ::
          haveFastchunks == (old(haveFastchunks) && size < FASTBIN_CONSOLIDATION_THRESHOLD)
      ensures var a := old(recs[p].chunk);
        old(recs[p].size) > maxFast ==>
          forall x {:trigger IsFree(Now(), x)} | a <= x < a + old(layout)[a].size :: IsFree(Now(), x)
    {
      hide Tiles, Linked, Listed, Indexed, Covers, HeldBy, IsFree, CoalescesTo;
      ghost var a := recs[p].chunk;
      HeldSays(Now(), a);
      InnerFacts(Now(), a);
      ghost var s0 := Now();
      Retag(p, Detached);
      ghost var s1 := Now();
      if recs[p].size <= maxFast {
        haveFastchunks := true;
        FastbinExact(recs[p].size, recs[p].size);
        FastbinPush(p, FastbinIndex(recs[p].size));
        FreedIsHeldNoMore(s0, s1, Now(), a, true);
        assert Mark(s1.m, a, layout[a].st) == Mark(s0.m, a, layout[a].st);
      } else {
        var q := FreeChunk(p);
        FreedIsHeldNoMore(s0, s1, Now(), a, false);
        IncludedIsFree(s0, Now(), a, recs[q].chunk);
        ghost var s2 := Now();
        CoalescedFrom(s0, s2, a, recs[q].chunk);
        if recs[q].size >= FASTBIN_CONSOLIDATION_THRESHOLD && haveFastchunks {
          Consolidate();
          ReturnedIsFree(s0, Now(), a);
        }
        GivenBackLarge(s0, s2, Now(), a, s2.rs[q].chunk, maxFast);
      }
    }

    // ---------- malloc ----------

    /** Gives the whole of a free chunk that is on no list to the client. */
    method TakeWhole(c: Ref, nb: int)
      requires Sound() && Owns(layout, table, recs, c) && layout[recs[c].chunk].st.Loose?
      requires LooseOnly(Now(), {recs[c].chunk}) && NoneDetached(Now())
      requires nb <= layout[recs[c].chunk].size < nb + MINSIZE
      modifies this`layout, this`recs
      ensures Sound() && Quiet(Now()) && Serves(old(Now()), Now(), nb, c)
      ensures layout == Mark(old(layout), old(recs[c].chunk), Status.Held) && !BordersTop(Now(), c)
      ensures c in recs && recs[c].chunk == old(recs[c].chunk)
    {
      hide Tiles, Linked, Listed, Indexed, InUse, Covers;
      ghost var a := recs[c].chunk;
      ghost var s0 := Now();
      InnerFacts(s0, a);
      NotInUse(s0, a);
      SetInuse(c);
      Retag(c, Held);
      HandedOver(s0, Now(), nb, a, c);
    }

    /** Gives a free chunk that is on no list to the client; what is not needed goes to the unsorted bin. */
    method Carve(c: Ref, nb: int) returns (f: Ref)
      requires Sound() && Owns(layout, table, recs, c) && layout[recs[c].chunk].st.Loose?
      requires LooseOnly(Now(), {recs[c].chunk}) && NoneDetached(Now())
      requires MINSIZE <= nb <= layout[recs[c].chunk].size && Aligned(nb)
      modifies this`layout, this`recs, this`table, this`bins, this`binmap
      ensures Sound() && Quiet(Now()) && Serves(old(Now()), Now(), nb, c)
      ensures f != NIL <==> old(layout[recs[c].chunk].size) >= nb + MINSIZE
      ensures f != NIL ==>
                |bins| > 1 && bins[1] == [f] + old(bins)[1] && f in recs && recs[f].chunk == old(recs[c].chunk) + nb
      ensures !BordersTop(Now(), c) && c in recs && recs[c].chunk == old(recs[c].chunk)
    {
      hide Tiles, Linked, Listed, Indexed, InUse, Covers;
      ghost var a := recs[c].chunk;
      ghost var s0 := Now();
      InnerFacts(s0, a);
      if recs[c].size - nb < MINSIZE {
        TakeWhole(c, nb);
        f := NIL;
      } else {
        NotInUse(s0, a);
        f := Split(c, nb);
        assert Inserted(bins[1], 0, f) == [f] + bins[1];
        BinInsert(f, 1, 0);
        Retag(c, Held);
        HandedOver(s0, Now(), nb, a, c);
      }
    }

    /** Serves a small request from the fastbin of its size. */
    method TryFastbin(nb: int) returns (r: Ref)
      requires Valid() && MINSIZE <= nb && Aligned(nb)
      modifies this`layout, this`fastbins
      ensures Valid() && ServesOrFails(old(Now()), Now(), nb, r)
      ensures r == NIL ==> Now() == old(Now())
      ensures old(FastFit(Now(), nb, maxFast)) ==> r != NIL && r == old(fastbins)[FastbinIndex(nb)][0]
      ensures r != NIL ==> old(FastFit(Now(), nb, maxFast))
    {
      hide Tiles, Linked, Listed, Indexed, InUse, Covers;
      r := NIL;
      if nb <= maxFast {
        var idx := FastbinIndex(nb);
        FastbinExact(nb, nb);
        if fastbins[idx] != [] {
          ghost var s0 := Now();
          r := FastbinPop(idx);
          ghost var a := recs[r].chunk;
          InnerFacts(s0, a);
          FastbinExact(nb, layout[a].size);
          Retag(r, Held);
          FastIsNotHeld(s0, a);
          PoppedInUse(s0, Now(), a, r);
          HandedOver(s0, Now(), nb, a, r);
        }
      }
    }

    /** Serves a small request from the smallbin of its size, oldest chunk first. */
    method TrySmallbin(nb: int) returns (r: Ref)
      requires Valid() && MINSIZE <= nb && Aligned(nb) && InSmallbinRange(nb)
      modifies this`layout, this`recs, this`bins
      ensures Valid() && ServesOrFails(old(Now()), Now(), nb, r)
      ensures r == NIL ==> Now() == old(Now())
      ensures var bin := old(bins)[SmallbinIndex(nb)];
        if old(SmallFit(Now(), nb)) then r != NIL && r == bin[|bin| - 1] else r == NIL
      ensures r != NIL ==> !BordersTop(Now(), r)
    {
      hide Tiles, Linked, Listed, Indexed, InUse, Covers;
      r := NIL;
      var idx := SmallbinIndex(nb);
      BinOfInRange(nb);
      if bins[idx] != [] {
        ghost var s0 := Now();
        r := bins[idx][|bins[idx]| - 1];
        RemoveStepOk(s0, Bins, idx, |bins[idx]| - 1);
        InnerFacts(s0, recs[r].chunk);
        BinSearchFits(nb, recs[r].size);
        BinUnlink(r);
        TakeWhole(r, nb);
      }
    }

    /** Puts a free chunk that is on no list in the bin of its size. */
    method Place(c: Ref, size: int)
      requires Sound() && Owns(layout, table, recs, c) && layout[recs[c].chunk].st.Loose?
      requires LooseOnly(Now(), {recs[c].chunk}) && NoneDetached(Now()) && size == layout[recs[c].chunk].size
      modifies this`layout, this`bins, this`binmap
      ensures Sound() && Quiet(Now()) && InUse(Now()) == InUse(old(Now())) && |bins| == NBINS == |old(bins)|
      ensures var b := BinOf(size);
        && 3 <= b < NBINS && c in bins[b] && (b < 64 ==> bins[b] == [c] + old(bins)[b])
        && forall j {:trigger bins[j]} | 0 <= j < NBINS && j != b :: bins[j] == old(bins)[j]
      ensures TotalLength(bins) == TotalLength(old(bins)) + 1
    {
      hide Tiles, Linked, Listed, Indexed, InUse, Covers;
      InnerFacts(Now(), recs[c].chunk);
      TopIsRecorded(Now());
      hide Ok;
      BinOfInRange(size);
      var b: nat, pos: nat := BinOf(size), 0;
      if !InSmallbinRange(size) {
        // The skip list of a large bin decides the place.
        pos :| pos <= |bins[b]|;
      }
      TotalLengthAfter(bins, b, Inserted(bins[b], pos, c));
      BinInsert(c, b, pos);
      InsertedMembers(old(bins)[b], pos, c);
      assert pos == 0 ==> Inserted(old(bins)[b], pos, c) == [c] + old(bins)[b];
    }

    /** The last remainder is the first unsorted chunk, and was cut off chunk `r`. */
    ghost predicate IsRemainder(r: Ref, nb: int)
      reads this
    {
      && |bins| > 1 && bins[1] != [] && bins[1][0] == lastRemainder
      && lastRemainder in recs && r in recs && recs[lastRemainder].chunk == recs[r].chunk + nb
    }

    /** The bin of a small request is empty. */
    ghost predicate OwnBinEmpty(nb: int)
      reads this
    {
      !SmallFit(Now(), nb)
    }

    /** What becomes of an unsorted chunk that was taken off the list, and `alone` there. */
    method ServeOrPlace(c: Ref, size: int, alone: bool, nb: int) returns (r: Ref)
      requires Sound() && Owns(layout, table, recs, c) && layout[recs[c].chunk].st.Loose?
      requires LooseOnly(Now(), {recs[c].chunk}) && NoneDetached(Now()) && size == layout[recs[c].chunk].size
      requires MINSIZE <= nb && Aligned(nb) && c != NIL
      modifies this`layout, this`recs, this`table, this`bins, this`binmap, this`lastRemainder
      ensures Sound() && Quiet(Now()) && ServesOrFails(old(Now()), Now(), nb, r) && |bins| == NBINS
      ensures r == c || r == NIL
      ensures if r == NIL then TotalLength(bins) == TotalLength(old(bins)) + 1 && recs == old(recs)
              else !BordersTop(Now(), r)
      ensures if r == c && size != nb then IsRemainder(r, nb) else lastRemainder == old(lastRemainder)
      ensures r == NIL ==>
        var b := BinOf(size);
        && 3 <= b < NBINS == |old(bins)| && c in bins[b] && (b < 64 ==> bins[b] == [c] + old(bins)[b])
        && forall j {:trigger bins[j]} | 0 <= j < NBINS && j != b :: bins[j] == old(bins)[j]
      ensures r == c <==>
                || size == nb || (InSmallbinRange(nb) && alone && c == old(lastRemainder) && size > nb + MINSIZE)
    {
      hide Tiles, Linked, Listed, Indexed, InUse, Covers, HeldBy, Serves, BinOf, Ok, BordersTop;
      ghost var s := Now();
      r := c;
      if InSmallbinRange(nb) && alone && c == lastRemainder && size > nb + MINSIZE {
        lastRemainder := Carve(c, nb);
      } else if size == nb {
        TakeWhole(c, nb);
      } else {
        Place(c, size);
        SameHeld(s, Now());
        r := NIL;
      }
      TopIsRecorded(Now());
    }

    /**
     Deals with the oldest chunk of the unsorted bin: serves the request from it when it is the last
     remainder and alone, or an exact fit, and otherwise puts it in its bin.
     */
    method SortOne(nb: int) returns (r: Ref)
      requires Valid() && MINSIZE <= nb && Aligned(nb) && bins[1] != []
      modifies this`layout, this`recs, this`table, this`bins, this`binmap, this`lastRemainder
      ensures Valid() && ServesOrFails(old(Now()), Now(), nb, r)
      ensures |bins| == NBINS
      ensures if r == NIL then |bins[1]| == |old(bins)[1]| - 1 && TotalLength(bins) == TotalLength(old(bins))
                               && recs == old(recs) && (old(OwnBinEmpty(nb)) ==> OwnBinEmpty(nb))
              else !BordersTop(Now(), r)
      ensures var victim := old(bins)[1][|old(bins)[1]| - 1];
        && victim in old(recs) && (r == NIL || r == victim) && (old(recs)[victim].size == nb ==> r == victim)
        && (r == NIL ==> var b := BinOf(old(recs)[victim].size);
              && 3 <= b < NBINS && victim in bins[b] && (b < 64 ==> bins[b] == [victim] + old(bins)[b]))
        && (r == victim <==> var size := old(recs)[victim].size;
              || size == nb
              || (InSmallbinRange(nb) && |old(bins)[1]| == 1 && victim == old(lastRemainder) && size > nb + MINSIZE))
        && (if r == victim && old(recs)[victim].size != nb then IsRemainder(r, nb)
            else lastRemainder == old(lastRemainder))
    {
      hide Tiles, Linked, Listed, Indexed, CutRecords, JoinRecords, Tell, InUse, Covers, HeldBy, Serves, BinOf,
           BordersTop, SmallFit, IsRemainder;
      ghost var s0 := Now();
      var victim := bins[1][|bins[1]| - 1];
      RemoveStepOk(s0, Bins, 1, |bins[1]| - 1);
      ghost var a := recs[victim].chunk;
      InnerFacts(s0, a);
      hide Ok;
      var size := recs[victim].size;
      var alone := |bins[1]| == 1;
      BinUnlink(victim);
      ghost var s1 := Now();
      SameHeld(s0, s1);
      r := ServeOrPlace(victim, size, alone, nb);
      ServesAfter(s0, s1, Now(), nb, r);
      TopIsRecorded(Now());
      if r == NIL && !SmallFit(s0, nb) { OwnStaysEmpty(s0, Now(), nb, size); }
    }

    /** Sorts the unsorted chunks into their bins, serving the request from one of them if it can. */
    method SortUnsorted(nb: int) returns (r: Ref)
      requires Valid() && MINSIZE <= nb && Aligned(nb)
      modifies this`layout, this`recs, this`table, this`bins, this`binmap, this`lastRemainder
      ensures Valid() && ServesOrFails(old(Now()), Now(), nb, r)
      ensures |bins| == NBINS && (r == NIL ==> Sorted(bins) && (bins[1] == [] || |old(bins)[1]| >= MAX_ITERS))
      ensures if r == NIL then recs == old(recs) && (old(OwnBinEmpty(nb)) ==> OwnBinEmpty(nb))
              else !BordersTop(Now(), r)
      ensures old(bins)[1] == [] ==> r == NIL && Now() == old(Now())
    {
      hide Tiles, Linked, Listed, Indexed, InUse, Covers, HeldBy, TotalLength, OwnBinEmpty, BordersTop, BinOf;
      r := NIL;
      var iters := 0;
      ListedLength(bins, 1);
      assert |bins| == NBINS;
      while bins[1] != []
        invariant Valid() && |bins| == NBINS && r == NIL && HeldBy(Now()) == HeldBy(old(Now()))
        invariant recs == old(recs) && (old(OwnBinEmpty(nb)) ==> OwnBinEmpty(nb))
        invariant old(bins)[1] == [] ==> Now() == old(Now())
        invariant iters >= 0 && iters + |bins[1]| <= |old(bins)[1]| && iters + |bins[1]| <= TotalLength(bins)
        decreases |bins[1]|
      {
        ghost var s1 := Now();
        r := SortOne(nb);
        if r != NIL {
          ServesAfter(old(Now()), s1, Now(), nb, r);
          return;
        }
        iters := iters + 1;
        if iters >= MAX_ITERS { break; }
      }
    }

    /** Serves the request with chunk `i` of bin `b`, which is large enough. */
    method TakeFromBin(b: nat, i: nat, nb: int) returns (r: Ref, f: Ref)
      requires Valid() && MINSIZE <= nb && Aligned(nb)
      requires b < |bins| && i < |bins[b]| && bins[b][i] in recs && recs[bins[b][i]].size >= nb
      modifies this`layout, this`recs, this`table, this`bins, this`binmap
      ensures Valid() && Serves(old(Now()), Now(), nb, r) && r == old(bins)[b][i] && r != NIL
      ensures f != NIL <==> old(recs[bins[b][i]].size) >= nb + MINSIZE
      ensures !BordersTop(Now(), r) && (f != NIL ==>
                && |bins| > 1 && bins[1] != [] && bins[1][0] == f
                && f in recs && r in recs && recs[f].chunk == recs[r].chunk + nb)
    {
      hide Tiles, Linked, Listed, Indexed, InUse, Covers, HeldBy, BordersTop;
      ghost var s0 := Now();
      r := bins[b][i];
      RemoveStepOk(s0, Bins, b, i);
      InnerFacts(s0, recs[r].chunk);
      BinUnlink(r);
      ghost var s1 := Now();
      SameHeld(s0, s1);
      f := Carve(r, nb);
      ServesAfter(s0, s1, Now(), nb, r);
    }

    /** Serves a large request from its own bin if the first chunk of that is large enough. */
    method ScanLargeBin(nb: int) returns (r: Ref)
      requires Valid() && MINSIZE <= nb && Aligned(nb) && !InSmallbinRange(nb)
      modifies this`layout, this`recs, this`table, this`bins, this`binmap
      ensures Valid() && ServesOrFails(old(Now()), Now(), nb, r)
      ensures r == NIL <==> old(FirstTooSmall(Now(), nb))
      ensures r == NIL ==> Now() == old(Now()) && binmap == old(binmap)
      ensures r != NIL ==> BestFit(old(Now()), nb, r) && !BordersTop(Now(), r)
    {
      hide Tiles, Linked, Listed, Indexed, InUse, Covers, HeldBy, BordersTop;
      r := NIL;
      var idx := LargebinIndex(nb);
      BinOfInRange(nb);
      var bin := bins[idx];
      if bin != [] {
        RemoveStepOk(Now(), Bins, idx, 0);
        if recs[bin[0]].size >= nb {
          // The skip list of the bin decides which of the chunks that fit is taken.
          var i: nat :| i < |bin| && bin[i] in recs && recs[bin[i]].size >= nb;
          var f;
          r, f := TakeFromBin(idx, i, nb);
        }
      }
    }

    /** Serves the request from the lowest non-empty bin above bin `idx`. */
    method ScanBins(nb: int, idx: nat) returns (r: Ref)
      requires Valid() && MINSIZE <= nb && Aligned(nb) && idx == BinOf(nb)
      modifies this`layout, this`recs, this`table, this`bins, this`binmap, this`lastRemainder
      ensures Valid() && ServesOrFails(old(Now()), Now(), nb, r)
      ensures r == NIL ==> Now() == old(Now()) && forall j {:trigger bins[j]} | idx < j < NBINS :: bins[j] == []
      ensures r != NIL ==> !BordersTop(Now(), r) && exists b: nat {:trigger old(bins)[b]} ::
                && idx < b < NBINS == |old(bins)| && old(bins)[b] != [] && r == old(bins)[b][|old(bins)[b]| - 1]
                && forall j {:trigger old(bins)[j]} | idx < j < b :: old(bins)[j] == []
      ensures if r != NIL && r in old(recs) && old(recs)[r].size >= nb + MINSIZE && InSmallbinRange(nb)
              then IsRemainder(r, nb) else lastRemainder == old(lastRemainder)
    {
      hide Tiles, Linked, Listed, Indexed, InUse, Covers, HeldBy, BinOf, BordersTop;
      r := NIL;
      BinOfInRange(nb);
      assert |bins| == NBINS;
      var b;
      binmap, b := FindBin(binmap, bins, idx + 1);
      if b < NBINS {
        var last := |bins[b]| - 1;
        RemoveStepOk(Now(), Bins, b, last);
        InnerFacts(Now(), recs[bins[b][last]].chunk);
        BinSearchFits(nb, recs[bins[b][last]].size);
        var f;
        r, f := TakeFromBin(b, last, nb);
        if f != NIL && InSmallbinRange(nb) {
          lastRemainder := f;
        }
      }
    }

    /** Serves the request from the bottom of the top chunk, which is large enough. */
    method ServeFromTop(nb: int) returns (r: Ref)
      requires Valid() && MINSIZE <= nb && Aligned(nb) && layout != map[]
      requires layout[TopAt(Now())].size >= nb + MINSIZE
      modifies this`layout, this`recs, this`table, this`top
      ensures Valid() && Serves(old(Now()), Now(), nb, r) && r == old(top) && r != NIL
      ensures old(top) in old(recs) && top in recs
        && recs[top].chunk == old(recs)[old(top)].chunk + nb && recs[top].size == old(recs)[old(top)].size - nb
      ensures forall c {:trigger c in recs} | c in old(recs) && c != old(top) :: c in recs && recs[c] == old(recs[c])
    {
      hide Tiles, Linked, Listed, Indexed, InUse, Covers, HeldBy;
      ghost var s0 := Now();
      TopFacts(s0);
      NotInUse(s0, TopAt(s0));
      r := top;
      InnerFacts(s0, TopAt(s0));
      SplitTop(nb);
      Retag(r, Held);
      HandedOver(s0, Now(), nb, TopAt(s0), r);
    }

    // ---------- The system ----------

    /** How many bytes to ask the system for: top grows in place, so what it has is subtracted. */
    function SbrkSize(nb: int): int
      requires Config() && top in recs
      reads this
    {
      GrowthFor(nb, recs[top].size, topPad, pageSize)
    }

    function NewEnd(nb: int, sys: SbrkReply): int
      requires Config() && top in recs && sys.Granted?
      reads this
    {
      EndAfter(sys, SbrkSize(nb), top == initialTop, pageSize)
    }

    /** The system moves the end, if it does, up from where it is, within [lo, hi). */
    ghost predicate Possible(sys: SbrkReply)
      reads this
    {
      sys.Granted? ==> if systemMem == 0 then lo <= sys.brk && Aligned(sys.brk) else sys.brk == end
    }

    predicate CanGrow(nb: int, sys: SbrkReply)
      requires Config() && top in recs
      reads this
    {
      Extends(sys, nb, recs[top].size, top == initialTop, topPad, pageSize, hi)
    }

    lemma NewEndFacts(nb: int, sys: SbrkReply)
      requires Config() && top in recs && sys.Granted?
      requires recs[top].size < nb + MINSIZE && Aligned(sys.brk)
      ensures Aligned(SbrkSize(nb)) && Aligned(NewEnd(nb, sys)) && Aligned(NewEnd(nb, sys) - sys.brk)
      ensures sys.brk + nb + MINSIZE <= NewEnd(nb, sys) + recs[top].size
    {
      hide AlignUp, Aligned;
      AlignUpFacts(nb + topPad + MINSIZE - recs[top].size, pageSize);
      AlignUpFacts(sys.brk + SbrkSize(nb), pageSize);
      AlignedParts(SbrkSize(nb), sys.brk);
      AlignedParts(NewEnd(nb, sys) - sys.brk, sys.brk);
    }

    /** Gets more memory from the system for top, and serves the request from it. */
    method Sysmalloc(nb: int, sys: SbrkReply) returns (r: Ref)
      requires Valid() && MINSIZE <= nb && Aligned(nb) && Possible(sys)
      requires recs[top].size < nb + MINSIZE
      modifies this`layout, this`recs, this`table, this`top, this`base, this`end, this`systemMem
      ensures Valid() && ServesOrFails(old(Now()), Now(), nb, r)
      ensures r != NIL <==> old(CanGrow(nb, sys))
      ensures r != NIL ==> end == old(NewEnd(nb, sys)) && systemMem == old(systemMem) + end - sys.brk
      ensures forall c {:trigger c in old(recs)} | c in old(recs) && c != old(top) ::
                c in recs && recs[c].size == old(recs)[c].size
      ensures r == NIL ==> Now() == old(Now())
    {
      hide Tiles, Linked, Listed, Indexed, InUse, Covers, HeldBy, AlignUp, Aligned;
      r := NIL;
      if CanGrow(nb, sys) {
        ghost var s0 := Now();
        InitialTop(s0);
        if layout != map[] { AlignedEnd(s0); }
        NewEndFacts(nb, sys);
        var size := NewEnd(nb, sys) - sys.brk;
        if top != initialTop {
          ExtendTop(size);
        } else {
          InstallTop(sys.brk, size);
        }
        ghost var s1 := Now();
        InitialTop(s1);
        assert forall c {:trigger c in recs} | c in s0.rs && c != s0.top ::
            c in recs && c != top && recs[c] == s0.rs[c];
        r := ServeFromTop(nb);
        ServesAfter(s0, s1, Now(), nb, r);
        assert forall c {:trigger c in s0.rs} | c in s0.rs && c != s0.top :: c in recs && recs[c] == s0.rs[c];
        assert s0.rs == old(recs) && s0.top == old(top);
      }
    }

    /** Top grows by `n` bytes. */
    method ExtendTop(n: int)
      requires Valid() && layout != map[] && n >= 0 && Aligned(n) && end + n <= hi
      modifies this`layout, this`recs, this`end, this`systemMem
      ensures Valid() && HeldBy(Now()) == HeldBy(old(Now())) && top in old(recs)
      ensures layout != map[] && top in recs && recs[top].size == old(recs[top].size) + n
      ensures end == old(end) + n && systemMem == old(systemMem) + n
      ensures top == old(top) && forall c {:trigger c in recs} | c in old(recs) && c != top ::
                c in recs && recs[c] == old(recs[c])
    {
      hide Tiles, Linked, Listed, Indexed, Covers;
      TopFacts(Now());
      GrowStepOk(Now(), n);
      ghost var a := TopAt(Now());
      recs := recs[top := recs[top].(size := recs[top].size + n)];
      systemMem := systemMem + n;
      layout := layout[a := Cell(layout[a].size + n, Top)];
      end := end + n;
    }

    /** The first memory from the system becomes top. */
    method InstallTop(brk: int, n: int)
      requires Valid() && layout == map[] && lo <= brk && Aligned(brk)
      requires n >= MINSIZE && Aligned(n) && brk + n <= hi
      modifies this`layout, this`recs, this`table, this`top, this`base, this`end, this`systemMem
      ensures Valid() && HeldBy(Now()) == HeldBy(old(Now()))
      ensures layout != map[] && top in recs && recs[top].size == n
      ensures end == brk + n && systemMem == old(systemMem) + n
      ensures top !in old(recs) && forall c {:trigger c in recs} | c in old(recs) ::
                c in recs && recs[c] == old(recs[c])
    {
      hide Tiles, Linked, Listed, Indexed, Covers;
      var f := NewRecord(recs);
      FirstTopStepOk(Now(), brk, n, f);
      FirstTopFacts(Now(), brk, n, f);
      recs := recs[f := ChunkInfo(brk, n, true, 0, NIL, NIL)];
      table := table[brk := f];
      top := f;
      systemMem := systemMem + n;
      layout := map[brk := Cell(n, Top)];
      base, end := brk, brk + n;
    }

    /** When the bins have nothing to serve, this is so for the best fit. */
    lemma NothingLeft(nb: int)
      requires |bins| == NBINS && Sorted(bins) && OwnBinEmpty(nb) && MINSIZE <= nb
      requires !InSmallbinRange(nb) ==> FirstTooSmall(Now(), nb)
      requires forall j {:trigger bins[j]} | BinOf(nb) < j < NBINS && j >= 0 :: bins[j] == []
      ensures NothingBinned(Now(), nb)
    {
      hide Sorted, FirstTooSmall;
      BinOfInRange(nb);
    }

    /** Serves the request from the unsorted chunks or from the best fitting bin. */
    method SearchLists(nb: int) returns (r: Ref)
      requires Valid() && MINSIZE <= nb && Aligned(nb) && OwnBinEmpty(nb)
      modifies this`layout, this`recs, this`table, this`bins, this`binmap, this`lastRemainder
      ensures Valid() && ServesOrFails(old(Now()), Now(), nb, r)
      ensures if r == NIL then NothingBinned(Now(), nb) && recs == old(recs) && OwnBinEmpty(nb)
              else !BordersTop(Now(), r)
      ensures old(bins)[1] == [] ==>
                if old(NothingBinned(Now(), nb)) then r == NIL && Now() == old(Now())
                else r != NIL && BestFit(old(Now()), nb, r)
    {
      hide Tiles, Linked, Listed, Indexed, InUse, Covers, HeldBy, Serves, BordersTop, SmallFit, Sorted, FirstTooSmall;
      r := SortUnsorted(nb);
      if r != NIL {
        return;
      }
      ghost var s1 := Now();
      if !InSmallbinRange(nb) {
        r := ScanLargeBin(nb);
        ServesAfter(old(Now()), s1, Now(), nb, r);
        if r != NIL {
          return;
        }
      }
      BinOfInRange(nb);
      hide BinOf;
      r := ScanBins(nb, BinOf(nb));
      ServesAfter(old(Now()), s1, Now(), nb, r);
      if r == NIL { NothingLeft(nb); }
    }

    /**
     One round of the search: the lists, then top.  If neither serves and there are chunks on fastbins,
     these are freed and another round is due; otherwise the system is asked.
     */
    method SearchRound(nb: int, sys: SbrkReply) returns (r: Ref, again: bool)
      requires Valid() && MINSIZE <= nb && Aligned(nb) && Possible(sys) && OwnBinEmpty(nb)
      modifies this
      ensures Valid() && ServesOrFails(old(Now()), Now(), nb, r) && mem == old(mem)
      ensures again ==>
                && r == NIL && old(haveFastchunks) && !haveFastchunks && systemMem == old(systemMem) && Possible(sys)
                && OwnBinEmpty(nb) && old(TopTooSmall(Now(), nb))
      ensures !again && (r == NIL || systemMem != old(systemMem)) ==> NothingListed(Now(), nb)
      ensures !again && BordersTop(Now(), r) ==> NothingBinned(Now(), nb)
      ensures !again ==> haveFastchunks == old(haveFastchunks)
      ensures !again && r == NIL ==> TopTooSmall(Now(), nb) && !CanGrow(nb, sys)
      ensures old(bins)[1] == [] ==>
                if !old(NothingBinned(Now(), nb)) then r != NIL && BestFit(old(Now()), nb, r)
                else old(TopTooSmall(Now(), nb)) || r == old(top)
    {
      hide Tiles, Linked, Listed, Indexed, InUse, Covers, HeldBy, Serves, CanGrow, Ok, Quiet, NothingBinned,
           NoFastchunks, BordersTop, SmallFit, BestFit;
      again := false;
      r := SearchLists(nb);
      if r != NIL {
        return;
      }
      ghost var s1 := Now();
      TopIsRecorded(s1);
      InitialTop(s1);
      if recs[top].size >= nb + MINSIZE {
        r := TakeFromTop(nb);
        ServesAfter(old(Now()), s1, Now(), nb, r);
      } else if haveFastchunks {
        Consolidate();
        StaysEmpty(s1, nb);
        again := true;
      } else {
        r := AskSystem(nb, sys);
        ServesAfter(old(Now()), s1, Now(), nb, r);
      }
    }

    /** The bin of a small request stays empty as long as no bin but the unsorted one comes to hold a chunk. */
    lemma StaysEmpty(s: State, nb: int)
      requires |bins| == NBINS && MINSIZE <= nb && !SmallFit(s, nb) && EmptyStay(s.bins, bins)
      ensures OwnBinEmpty(nb)
    {
      BinOfInRange(nb);
    }

    /** The lists have nothing for `nb` bytes whatever becomes of top. */
    lemma NothingBinnedStays(s: State, nb: int)
      requires Ok(s) && NothingBinned(s, nb) && s.bins == bins && MINSIZE <= nb
      requires forall c {:trigger c in s.rs} | c in s.rs && c != s.top :: c in recs && recs[c].size == s.rs[c].size
      ensures NothingBinned(Now(), nb)
    {
      hide Tiles, Linked, Indexed, Sorted;
      BinOfInRange(nb);
      var b := LargebinIndex(nb);
      if !InSmallbinRange(nb) && s.bins[b] != [] {
        assert s.bins[b][0] in s.bins[b];
        RemoveStepOk(s, Bins, b, 0);
        InnerFacts(s, s.rs[s.bins[b][0]].chunk);
      }
    }

    /** Serves the request from top when the lists have nothing. */
    method TakeFromTop(nb: int) returns (r: Ref)
      requires Valid() && MINSIZE <= nb && Aligned(nb) && layout != map[] && NothingBinned(Now(), nb)
      requires layout[TopAt(Now())].size >= nb + MINSIZE
      modifies this`layout, this`recs, this`table, this`top
      ensures Valid() && Serves(old(Now()), Now(), nb, r) && r == old(top) && r != NIL && NothingBinned(Now(), nb)
    {
      hide Tiles, Linked, Listed, Indexed, InUse, Covers, HeldBy, Serves, Ok, Quiet, NothingBinned;
      ghost var s := Now();
      r := ServeFromTop(nb);
      assert forall c {:trigger c in s.rs} | c in s.rs && c != s.top :: c in recs && recs[c] == s.rs[c];
      NothingBinnedStays(s, nb);
    }

    /** Asks the system for memory when the lists and top have nothing. */
    method AskSystem(nb: int, sys: SbrkReply) returns (r: Ref)
      requires Valid() && MINSIZE <= nb && Aligned(nb) && Possible(sys) && recs[top].size < nb + MINSIZE
      requires NothingBinned(Now(), nb) && !haveFastchunks
      modifies this`layout, this`recs, this`table, this`top, this`base, this`end, this`systemMem
      ensures Valid() && ServesOrFails(old(Now()), Now(), nb, r) && NothingListed(Now(), nb)
      ensures r == NIL ==> top in recs && recs[top].size < nb + MINSIZE && !CanGrow(nb, sys)
    {
      hide Tiles, Linked, Listed, Indexed, InUse, Covers, HeldBy, Serves, CanGrow, BinOf, Ok, Quiet, NothingBinned;
      ghost var s := Now();
      TopIsRecorded(s);
      r := Sysmalloc(nb, sys);
      NothingBinnedStays(s, nb);
    }

    /** Searches once, or twice if the first round has led to the fastbins being emptied. */
    method Search(nb: int, sys: SbrkReply) returns (r: Ref, ghost rounds: nat)
      requires Valid() && MINSIZE <= nb && Aligned(nb) && Possible(sys) && OwnBinEmpty(nb)
      modifies this
      ensures Valid() && ServesOrFails(old(Now()), Now(), nb, r) && mem == old(mem) && rounds <= 2
      ensures r == NIL ==> NothingListed(Now(), nb) && TopTooSmall(Now(), nb) && !CanGrow(nb, sys)
      ensures systemMem != old(systemMem) ==> NothingListed(Now(), nb)
      ensures BordersTop(Now(), r) ==> NothingBinned(Now(), nb)
      ensures haveFastchunks == old(haveFastchunks) || (old(TopTooSmall(Now(), nb)) && !haveFastchunks)
      ensures old(bins)[1] == [] ==>
                if old(NothingBinned(Now(), nb)) then old(TopTooSmall(Now(), nb)) || r == old(top)
                else r != NIL && BestFit(old(Now()), nb, r)
    {
      hide Tiles, Linked, Listed, Indexed, InUse, Covers, HeldBy, Serves, CanGrow, Ok, Quiet, NothingBinned,
           NothingListed, BordersTop, OwnBinEmpty, BestFit;
      TopIsRecorded(Now());
      r, rounds := NIL, 0;
      var again := true;
      ghost var s0 := Now();
      while again
        invariant Valid() && ServesOrFails(s0, Now(), nb, r) && mem == old(mem)
        invariant again ==> r == NIL && Possible(sys) && systemMem == old(systemMem) && OwnBinEmpty(nb)
        invariant rounds + (if again then 1 else 0) + (if again && haveFastchunks then 1 else 0) <= 2
        invariant rounds == 0 ==> again && Now() == s0
        invariant again && rounds > 0 ==> old(TopTooSmall(Now(), nb))
        invariant haveFastchunks == old(haveFastchunks) || (old(TopTooSmall(Now(), nb)) && !haveFastchunks)
        invariant rounds > 0 && old(bins)[1] == [] ==>
                    if old(NothingBinned(Now(), nb)) then old(TopTooSmall(Now(), nb)) || r == old(top)
                    else r != NIL && BestFit(old(Now()), nb, r)
        invariant !again && (r == NIL || systemMem != old(systemMem)) ==> NothingListed(Now(), nb)
        invariant !again && BordersTop(Now(), r) ==> NothingBinned(Now(), nb)
        invariant !again && r == NIL ==> TopTooSmall(Now(), nb) && !CanGrow(nb, sys)
        decreases again, haveFastchunks
      {
        rounds := rounds + 1;
        ghost var s1 := Now();
        r, again := SearchRound(nb, sys);
        ServesAfter(s0, s1, Now(), nb, r);
      }
    }

    /**
     Serves a request: from the fastbin or the smallbin of its size, or else by searching, at most twice.  The answer
     is NIL only if the request is out of range, or the lists and top have nothing and the system refuses; top and the
     system are asked only when the bins have nothing.
     */
    method Malloc(bytes: int, sys: SbrkReply) returns (r: Ref, ghost rounds: nat)
      requires Valid() && 0 <= bytes && Possible(sys)
      modifies this
      ensures mem == old(mem)
      ensures Valid() && ServesOrFails(old(Now()), Now(), RequestToSize(bytes), r)
      ensures rounds <= 2 && (RequestOutOfRange(bytes) ==> r == NIL)
      ensures r == NIL ==> Unservable(bytes, sys)
      ensures !RequestOutOfRange(bytes) ==>
        var nb := RequestToSize(bytes);
        && WellChosen(old(Now()), Now(), nb, maxFast, r)
        && (systemMem != old(systemMem) ==> NothingListed(Now(), nb))
        && (if InSmallbinRange(nb) then haveFastchunks == old(haveFastchunks) || old(TopTooSmall(Now(), nb))
            else !haveFastchunks)
    {
      hide Tiles, Linked, Listed, Indexed, InUse, Covers, HeldBy, Serves, RequestToSize, BestFit, NothingBinned,
           NothingListed, BordersTop, CanGrow, Quiet, Ok;
      r, rounds := NIL, 0;
      if RequestOutOfRange(bytes) {
        return;
      }
      var nb := RequestToSize(bytes);
      RequestToSizeIsLeast(bytes, nb);
      ghost var s0 := Now();
      r := TryFastbin(nb);
      if r != NIL {
        return;
      }
      if InSmallbinRange(nb) {
        r := TrySmallbin(nb);
        if r != NIL {
          return;
        }
      } else if haveFastchunks {
        Consolidate();
      }
      ghost var s1 := Now();
      r, rounds := Search(nb, sys);
      ServesAfter(s0, s1, Now(), nb, r);
    }

    /**
     Why a request fails: it is out of range, or neither the lists nor top have anything for it and the system does
     not extend top far enough.
     */
    ghost predicate Unservable(bytes: int, sys: SbrkReply)
      requires Config()
      reads this
    {
      || RequestOutOfRange(bytes)
      || (&& NothingListed(Now(), RequestToSize(bytes))
          && TopTooSmall(Now(), RequestToSize(bytes)) && !CanGrow(RequestToSize(bytes), sys))
    }

    // ---------- realloc and memalign ----------

    /** Splits a chunk of the client into two chunks of the client. */
    method SplitHeld(p: Ref, n: int) returns (f: Ref)
      requires Valid() && Owns(layout, table, recs, p) && layout[recs[p].chunk].st.Held?
      requires MINSIZE <= n && n + MINSIZE <= layout[recs[p].chunk].size && Aligned(n)
      modifies this`layout, this`recs, this`table
      ensures Valid() && SplitsHeld(old(Now()), Now(), old(recs[p].chunk), n, p, f)
    {
      hide Tiles, Linked, Listed, Indexed, CutRecords, JoinRecords, Tell, InUse, Covers, HeldBy, Quiet, Ok;
      ghost var a := recs[p].chunk;
      ghost var s0 := Now();
      InnerFacts(s0, a);
      Retag(p, Detached);
      f := Split(p, n);
      ghost var s1 := Now();
      InnerFacts(s1, a);
      InnerFacts(s1, a + n);
      Retag(p, Held);
      Retag(f, Held);
      CutByWay(s0.m, a, n);
      SplitHeldFacts(s0, Now(), a, n, p, f);
    }

    /**
     The top chunk moves so that it starts `n` bytes after the start of chunk `p`, which it follows:
     its record is given back and a new one registered.
     */
    method ShiftTop(p: Ref, n: int)
      requires Valid() && Owns(layout, table, recs, p) && layout[recs[p].chunk].st.Held?
      requires recs[p].mdNext == top && layout[recs[p].chunk].size <= n && Aligned(n)
      requires n + MINSIZE <= layout[recs[p].chunk].size + recs[top].size
      modifies this`layout, this`recs, this`table, this`top
      ensures Valid() && Resized(old(Now()), Now(), old(recs[p].chunk), n, p) && p in recs
      ensures recs[p].chunk == old(recs[p].chunk) && top in recs && TopAt(Now()) == recs[p].chunk + n
    {
      hide Tiles, Linked, Listed, Indexed, Covers;
      ghost var s, a := Now(), recs[p].chunk;
      InnerFacts(s, a);
      InitialTop(s);
      var rest := recs[p].size + recs[top].size - n;
      var f := NewRecord(recs);
      ShiftTopStepOk(s, a, n, f);
      table := (table - {recs[top].chunk})[recs[p].chunk + n := f];
      recs := (recs - {top})[p := recs[p].(size := n, mdNext := f)]
                            [f := ChunkInfo(recs[p].chunk + n, rest, true, 0, NIL, p)];
      top := f;
      layout := ShiftTopStep(s, a, n, f).m;
      ShiftTopFacts(s, Now(), a, n, p);
    }

    /** The client's chunk `p` absorbs the chunk of the client that follows it. */
    method AbsorbHeld(p: Ref)
      requires Valid() && Owns(layout, table, recs, p) && layout[recs[p].chunk].st.Held?
      requires var b := Next(Now(), recs[p].chunk); b in layout && layout[b].st.Held?
      modifies this`layout, this`recs, this`table
      ensures Valid() && Owns(layout, table, recs, p)
      ensures var a := old(recs[p].chunk); var b := a + old(layout)[a].size;
        && recs[p].chunk == a && layout[a] == Cell(old(layout)[a].size + old(layout)[b].size, Status.Held)
        && HeldBy(Now()) == (HeldBy(old(Now())) - {b})[a := (layout[a], p)]
    {
      hide Tiles, Linked, Listed, Indexed, InUse, HeldIn, Covers, CutRecords, JoinRecords, Tell, Ok, Quiet;
      ghost var a := recs[p].chunk;
      ghost var s0 := Now();
      ghost var b := Next(s0, a);
      InnerFacts(s0, a);
      InnerFacts(s0, b);
      var n := recs[p].mdNext;
      Retag(p, Detached);
      Retag(n, Detached);
      ghost var s1 := Now();
      JoinInUse(s1, a);
      Absorb(p);
      InnerFacts(Now(), a);
      Retag(p, Held);
      JoinByWay(s0.m, a, b);
      AbsorbHeldFacts(s0, Now(), a, p);
    }

    /** Gives back what chunk `p` has beyond `nb` bytes, if that is enough for a chunk. */
    method Trim(p: Ref, nb: int)
      requires Valid() && Owns(layout, table, recs, p) && layout[recs[p].chunk].st.Held?
      requires MINSIZE <= nb <= layout[recs[p].chunk].size && Aligned(nb)
      modifies this`layout, this`recs, this`table, this`top, this`bins, this`binmap, this`fastbins, this`haveFastchunks
      ensures Valid() && Resized(old(Now()), Now(), old(recs[p].chunk), nb, p)
      ensures p in recs && recs[p].chunk == old(recs[p].chunk)
      ensures layout[recs[p].chunk].size == Trimmed(old(layout[recs[p].chunk].size), nb)
    {
      hide Tiles, Linked, Listed, Indexed, InUse, HeldIn, Covers;
      ghost var a := recs[p].chunk;
      ghost var s0 := Now();
      InnerFacts(s0, a);
      HeldSays(s0, a);
      if recs[p].size - nb >= MINSIZE {
        var f := SplitHeld(p, nb);
        Free(f);
        HeldSaysBack(Now(), a);
      }
    }

    /** The client's chunk `p` absorbs the free chunk that follows it. */
    method AbsorbFree(p: Ref)
      requires Valid() && Owns(layout, table, recs, p) && layout[recs[p].chunk].st.Held?
      requires var b := Next(Now(), recs[p].chunk); b in layout && layout[b].st.Binned?
      modifies this`layout, this`recs, this`table, this`bins
      ensures Valid() && Owns(layout, table, recs, p)
      ensures var a := old(recs[p].chunk); var b := a + old(layout)[a].size;
        && recs[p].chunk == a && layout[a] == Cell(old(layout)[a].size + old(layout)[b].size, Status.Held)
        && HeldBy(Now()) == (HeldBy(old(Now())) - {a})[a := (layout[a], p)]
    {
      hide Tiles, Linked, Listed, Indexed, InUse, HeldIn, Covers, Ok, HeldBy;
      ghost var s0, a := Now(), recs[p].chunk;
      InnerFacts(s0, a);
      HeldSays(s0, a);
      var n := recs[p].mdNext;
      ghost var b := recs[n].chunk;
      InnerFacts(s0, b);
      BinUnlink(n);
      SameHeld(s0, Now());
      TakeWhole(n, recs[n].size);
      ghost var s1 := Now();
      HeldSaysBack(s1, a);
      InnerFacts(s1, a);
      InnerFacts(s1, b);
      HeldSaysBack(s1, b);
      assert HeldBy(s1) - {b} == HeldBy(s0);
      hide Ok, Quiet, Serves;
      AbsorbHeld(p);
    }

    /** The client's chunk `p` grows to `nb` bytes into the free chunk that follows it. */
    method GrowIntoNext(p: Ref, nb: int)
      requires Valid() && Owns(layout, table, recs, p) && layout[recs[p].chunk].st.Held?
      requires var a := recs[p].chunk; var b := Next(Now(), a);
        b in layout && layout[b].st.Binned? && layout[a].size + layout[b].size >= nb >= MINSIZE && Aligned(nb)
      modifies this`layout, this`recs, this`table, this`top, this`bins, this`binmap, this`fastbins, this`haveFastchunks
      ensures Valid() && Resized(old(Now()), Now(), old(recs[p].chunk), nb, p)
      ensures p in recs && recs[p].chunk == old(recs[p].chunk)
    {
      hide Tiles, Linked, Listed, Indexed, InUse, Covers, HeldIn;
      ghost var s0, a := Now(), recs[p].chunk;
      HeldSays(s0, a);
      hide Ok, Quiet;
      AbsorbFree(p);
      ghost var s2 := Now();
      Trim(p, nb);
      ResizedAfter(s0, s2, Now(), a, nb, p);
    }

    /** Joins `oldp` with the new chunk that follows it, and gives back what is not needed. */
    method MoveByJoining(oldp: Ref, newp: Ref, nb: int)
      requires Valid() && Owns(layout, table, recs, oldp) && layout[recs[oldp].chunk].st.Held?
      requires Owns(layout, table, recs, newp) && layout[recs[newp].chunk].st.Held?
      requires MINSIZE <= nb && Aligned(nb) && nb <= layout[recs[newp].chunk].size
      requires recs[newp].chunk == Next(Now(), recs[oldp].chunk)
      modifies this`layout, this`recs, this`table, this`top, this`bins, this`binmap, this`fastbins, this`haveFastchunks
      ensures Valid() && oldp in recs && recs[oldp].chunk == old(recs[oldp].chunk)
      ensures Moves(old(Now()), Now(), old(recs[oldp].chunk), old(recs[newp].chunk), nb, oldp)
    {
      hide Tiles, Linked, Listed, Indexed, InUse, Covers, HeldIn;
      ghost var s1, a, b := Now(), recs[oldp].chunk, recs[newp].chunk;
      InnerFacts(s1, a);
      InnerFacts(s1, b);
      hide Ok, Quiet;
      AbsorbHeld(oldp);
      Trim(oldp, nb);
    }

    /** Copies the contents of `oldp` to the new chunk `newp` and frees `oldp`. */
    method MoveByCopying(oldp: Ref, newp: Ref, nb: int)
      requires Valid() && Owns(layout, table, recs, oldp) && layout[recs[oldp].chunk].st.Held?
      requires Owns(layout, table, recs, newp) && layout[recs[newp].chunk].st.Held? && oldp != newp
      requires nb <= layout[recs[newp].chunk].size < nb + MINSIZE && layout[recs[oldp].chunk].size < nb
      modifies this
      ensures Valid() && newp in recs && recs[newp].chunk == old(recs[newp].chunk)
      ensures Moves(old(Now()), Now(), old(recs[oldp].chunk), old(recs[newp].chunk), nb, newp)
      ensures mem == Copied(old(mem), old(recs[oldp].chunk), old(recs[newp].chunk),
                            old(layout)[old(recs[oldp].chunk)].size)
    {
      hide Tiles, Linked, Listed, Indexed, InUse, Covers, HeldIn;
      ghost var s1, a, b := Now(), recs[oldp].chunk, recs[newp].chunk;
      InnerFacts(s1, a);
      InnerFacts(s1, b);
      HeldSays(s1, b);
      hide Ok, Quiet;
      mem := Copied(mem, recs[oldp].chunk, recs[newp].chunk, recs[oldp].size);
      Free(oldp);
      HeldSaysBack(Now(), b);
    }

    /** Moves the contents of `oldp` to a newly allocated chunk of at least `nb` bytes. */
    method Move(oldp: Ref, nb: int, sys: SbrkReply) returns (r: Ref)
      requires Valid() && Owns(layout, table, recs, oldp) && layout[recs[oldp].chunk].st.Held?
      requires MINSIZE <= nb < SIZE_LIMIT && Aligned(nb) && Possible(sys) && layout[recs[oldp].chunk].size < nb
      modifies this
      ensures Valid() && (r == NIL ==> HeldBy(Now()) == HeldBy(old(Now())) && mem == old(mem))
      ensures r == NIL ==> Unservable(nb - 15, sys)
      ensures r != NIL ==>
        var a := old(recs[oldp].chunk);
        && Resized(old(Now()), Now(), a, nb, r)
        && Carried(old(mem), mem, a, recs[r].chunk, old(layout)[a].size)
        && recs[r].chunk != old(Next(Now(), a))
    {
      hide Tiles, Linked, Listed, Indexed, InUse, Covers, HeldIn, NothingListed, CanGrow, RequestToSize, Resized,
           Carried, Copied, Ok;
      ghost var s0, a := Now(), recs[oldp].chunk;
      HeldSays(s0, a);
      InnerFacts(s0, a);
      RequestToSizeOfPadded(nb);
      var oldsize := recs[oldp].size;
      ghost var rounds;
      r, rounds := Malloc(nb - 15, sys);
      if r == NIL {
        return;
      }
      ghost var s1, b := Now(), recs[r].chunk;
      HeldSaysBack(s1, a);
      HeldSaysBack(s1, b);
      ServedApart(s0, s1, a, nb, r);
      hide Ok, Quiet, Serves;
      if recs[r].chunk == recs[oldp].chunk + oldsize {
        // The new chunk follows the old one: no copy is needed.
        CopiedCarries(mem, a, a, oldsize);
        MoveByJoining(oldp, r, nb);
        r := oldp;
      } else {
        CopiedCarries(mem, a, b, oldsize);
        MoveByCopying(oldp, r, nb);
      }
      MovesAfterServing(s0, s1, Now(), a, b, nb, r);
    }

    /**
     Makes chunk `oldp` of the client fit `nb` bytes: in place, into top, into a free successor, or by moving
     its contents to another chunk.  The answer is NIL, and the chunk as it was, if that fails.
     */
    method Realloc(oldp: Ref, nb: int, sys: SbrkReply) returns (r: Ref)
      requires Valid() && Owns(layout, table, recs, oldp) && layout[recs[oldp].chunk].st.Held?
      requires MINSIZE <= nb < SIZE_LIMIT && Aligned(nb) && Possible(sys)
      modifies this
      ensures Valid() && (r == NIL ==> HeldBy(Now()) == HeldBy(old(Now())) && mem == old(mem))
      ensures old(recs[oldp].size) >= nb || old(GrowsInPlace(Now(), recs[oldp].chunk, nb)) ==>
                r == oldp && r in recs && recs[r].chunk == old(recs[oldp].chunk)
      ensures r == NIL ==>
        && old(recs[oldp].size) < nb && !old(GrowsInPlace(Now(), recs[oldp].chunk, nb)) && Unservable(nb - 15, sys)
      ensures r != NIL ==>
        && Resized(old(Now()), Now(), old(recs[oldp].chunk), nb, r) && recs[r].chunk in layout
        && recs[r].chunk != old(Next(Now(), recs[oldp].chunk))
        && (old(recs[oldp].size) >= nb ==> layout[recs[r].chunk].size == Trimmed(old(recs[oldp].size), nb))
        && Carried(old(mem), mem, old(recs[oldp].chunk), recs[r].chunk, Min(old(recs[oldp].size), nb))
    {
      hide Tiles, Linked, Listed, Indexed, InUse, Covers, HeldIn, CanGrow, Carried;
      ghost var s0, a := Now(), recs[oldp].chunk;
      InnerFacts(s0, a);
      HeldSays(s0, a);
      var oldsize := recs[oldp].size;
      var next := recs[oldp].mdNext;
      var nextsize := recs[next].size;
      InnerFacts(s0, recs[next].chunk);
      hide Ok;
      CopiedCarries(mem, a, a, Min(oldsize, nb));
      r := oldp;
      if oldsize >= nb {
        Trim(oldp, nb);
      } else if next == top && oldsize + nextsize >= nb + MINSIZE {
        ShiftTop(oldp, nb);
      } else if next != top && !recs[recs[next].mdNext].prevInuse && oldsize + nextsize >= nb {
        GrowIntoNext(oldp, nb);
      } else {
        r := Move(oldp, nb, sys);
      }
    }

    /** Gives the first `lead` bytes of chunk `p` back; the client keeps the rest as chunk `f`. */
    method DropLeader(p: Ref, lead: int) returns (f: Ref)
      requires Valid() && Owns(layout, table, recs, p) && layout[recs[p].chunk].st.Held?
      requires MINSIZE <= lead && lead + MINSIZE <= layout[recs[p].chunk].size && Aligned(lead)
      modifies this`layout, this`recs, this`table, this`top, this`bins, this`binmap, this`fastbins, this`haveFastchunks
      ensures Valid() && Owns(layout, table, recs, f)
      ensures var a := old(recs[p].chunk);
        && recs[f].chunk == a + lead && a + lead !in HeldBy(old(Now()))
        && layout[a + lead] == Cell(old(layout)[a].size - lead, Status.Held)
        && HeldBy(Now()) == (HeldBy(old(Now())) - {a})[a + lead := (layout[a + lead], f)]
    {
      hide Tiles, Linked, Listed, Indexed, InUse, HeldIn, Covers;
      ghost var a := recs[p].chunk;
      f := SplitHeld(p, lead);
      Free(p);
      HeldSaysBack(Now(), a + lead);
    }

    /** Gives back what chunk `p` has beyond `nb` bytes, if that is more than the least chunk. */
    method DropTail(p: Ref, nb: int)
      requires Valid() && Owns(layout, table, recs, p) && layout[recs[p].chunk].st.Held?
      requires MINSIZE <= nb <= layout[recs[p].chunk].size && Aligned(nb)
      modifies this`layout, this`recs, this`table, this`top, this`bins, this`binmap, this`fastbins, this`haveFastchunks
      ensures Valid() && Owns(layout, table, recs, p)
      ensures var a := old(recs[p].chunk);
        && recs[p].chunk == a && nb <= layout[a].size <= nb + MINSIZE && layout[a].st.Held?
        && layout[a].size == (if old(layout)[a].size > nb + MINSIZE then nb else old(layout)[a].size)
        && HeldBy(Now()) == (HeldBy(old(Now())) - {a})[a := (layout[a], p)]
    {
      hide Tiles, Linked, Listed, Indexed, InUse, HeldIn, Covers;
      ghost var a := recs[p].chunk;
      HeldSays(Now(), a);
      InnerFacts(Now(), a);
      if recs[p].size > nb + MINSIZE {
        var f := SplitHeld(p, nb);
        Free(f);
        HeldSaysBack(Now(), a);
      }
    }

    /** Cuts an aligned chunk of at least `nb` bytes out of chunk `p`, and gives back what lies around it. */
    method CutAligned(p: Ref, alignment: int, nb: int) returns (r: Ref)
      requires Valid() && Owns(layout, table, recs, p) && layout[recs[p].chunk].st.Held?
      requires MINSIZE <= alignment && Aligned(alignment) && MINSIZE <= nb && Aligned(nb)
      requires layout[recs[p].chunk].size >= nb + alignment + MINSIZE
      modifies this`layout, this`recs, this`table, this`top, this`bins, this`binmap, this`fastbins, this`haveFastchunks
      ensures Valid() && Owns(layout, table, recs, r) && r != NIL
      ensures var a, b := old(recs[p].chunk), recs[r].chunk;
        && b == AlignedSpot(a, alignment) && b % alignment == 0 && (b == a || b !in HeldBy(old(Now())))
        && nb <= layout[b].size <= nb + MINSIZE && layout[b].st.Held?
        && HeldBy(Now()) == (HeldBy(old(Now())) - {a})[b := (layout[b], r)]
    {
      hide Tiles, Linked, Listed, Indexed, InUse, HeldIn, Covers, AlignedSpot;
      ghost var a := recs[p].chunk;
      InnerFacts(Now(), a);
      AlignedSpotFacts(a, alignment);
      hide Ok, Quiet, Aligned;
      r := p;
      var spot := AlignedSpot(recs[p].chunk, alignment);
      if spot != recs[p].chunk {
        r := DropLeader(p, spot - recs[p].chunk);
      }
      DropTail(r, nb);
      InnerFacts(Now(), recs[r].chunk);
    }

    /**
     Serves a request with a chunk whose address is a multiple of `alignment`: cuts it out of a chunk that
     has room for the worst leader.
     */
    method Memalign(alignment: int, bytes: int, sys: SbrkReply) returns (r: Ref)
      requires Valid() && 0 <= bytes && Possible(sys)
      requires MINSIZE <= alignment <= LARGEST_ALIGNMENT && Aligned(alignment)
      requires !RequestOutOfRange(bytes) ==> bytes <= SIZE_LIMIT - 16 - alignment - MINSIZE
      modifies this
      ensures Valid() && mem == old(mem)
      ensures r == NIL ==> HeldBy(Now()) == HeldBy(old(Now()))
      ensures r == NIL ==> RequestOutOfRange(bytes) || Unservable(PaddedRequest(RequestToSize(bytes), alignment), sys)
      ensures r != NIL ==>
        && Owns(layout, table, recs, r)
        && var b := recs[r].chunk; var nb := RequestToSize(bytes);
        && b % alignment == 0 && b !in HeldBy(old(Now()))
        && nb <= layout[b].size <= nb + MINSIZE && layout[b].st.Held?
        && HeldBy(Now()) == HeldBy(old(Now()))[b := (layout[b], r)]
    {
      hide Tiles, Linked, Listed, Indexed, InUse, HeldIn, Covers, NothingListed, CanGrow, RequestToSize;
      r := NIL;
      if RequestOutOfRange(bytes) {
        return;
      }
      var nb := RequestToSize(bytes);
      RequestToSizeIsLeast(bytes, nb);
      PaddedRequestFits(alignment, bytes);
      ghost var rounds;
      r, rounds := Malloc(PaddedRequest(nb, alignment), sys);
      if r == NIL {
        return;
      }
      HeldSaysBack(Now(), recs[r].chunk);
      RequestToSizeIsLeast(nb + alignment + MINSIZE, nb);
      hide Ok, Quiet, Aligned;
      r := CutAligned(r, alignment, nb);
    }

    /** The alignment that memalign goes on with. */
    method RoundAlignment(alignment: int) returns (a: int)
      requires MINSIZE <= alignment
      ensures a == RoundedAlignment(alignment)
    {
      RoundedAlignmentFacts(alignment, alignment);
      a := alignment;
      if !IsPowerOfTwo(alignment) {
        a := 2 * MALLOC_ALIGNMENT;
        while a < alignment
          invariant 0 < a && DoubledUpTo(a, alignment) == RoundedAlignment(alignment)
          decreases alignment - a
        {
          a := 2 * a;
        }
      }
    }

    /**
     Serves a request of a client with a chunk whose address is a multiple of the alignment, or of the next power of
     two. Requests that pass the guard although the padded one wraps are not made.
     */
    method MidMemalign(alignment: int, bytes: int, sys: SbrkReply) returns (r: Ref)
      requires Valid() && 0 <= bytes && Possible(sys)
      requires alignment > MALLOC_ALIGNMENT ==> !MemalignWraps(alignment, bytes)
      modifies this
      ensures Valid() && mem == old(mem)
      ensures r == NIL ==> HeldBy(Now()) == HeldBy(old(Now()))
      ensures r == NIL && alignment <= MALLOC_ALIGNMENT ==> Unservable(bytes, sys)
      ensures r == NIL && alignment > MALLOC_ALIGNMENT ==>
        || !MemalignGuard(alignment, bytes) || RequestOutOfRange(bytes)
        || Unservable(PaddedRequest(RequestToSize(bytes), RoundedAlignment(alignment)), sys)
      ensures r != NIL ==>
        && (alignment > MALLOC_ALIGNMENT ==> MemalignGuard(alignment, bytes)) && !RequestOutOfRange(bytes)
        && Owns(layout, table, recs, r)
        && var b := recs[r].chunk; var nb := RequestToSize(bytes);
        && (alignment > MALLOC_ALIGNMENT ==> b % RoundedAlignment(alignment) == 0) && b !in HeldBy(old(Now()))
        && nb <= layout[b].size <= nb + MINSIZE && layout[b].st.Held?
        && HeldBy(Now()) == HeldBy(old(Now()))[b := (layout[b], r)]
    {
      hide Tiles, Linked, Listed, Indexed, InUse, HeldIn, Covers, NothingListed, CanGrow, RequestToSize;
      r := NIL;
      if alignment <= MALLOC_ALIGNMENT {
        ghost var rounds;
        r, rounds := Malloc(bytes, sys);
        if r != NIL { HeldSaysBack(Now(), recs[r].chunk); }
        return;
      }
      var a := if alignment < MINSIZE then MINSIZE else alignment;
      if a > LARGEST_ALIGNMENT || bytes > SIZE_LIMIT - 1 - a - MINSIZE {
        return;
      }
      a := RoundAlignment(a);
      RoundedAlignmentFits(alignment);
      r := Memalign(a, bytes, sys);
    }
  }
}
