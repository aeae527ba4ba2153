/** Heaps of their own alignment, and the index that tells which arena a pointer belongs to. */
module HeapLookup {
  import opened Wrappers
  import ProbeTable
  import L = Lfht

  const HEAP_MIN_SIZE: int := 0x8000
  const HEAP_MAX_SIZE: int := 0x400_0000
  const PAGESIZE: int := 0x1000
  const SIZE_T: int := 0x1_0000_0000_0000_0000

  // ---------- The address space ----------

  predicate Within(x: int, p: int, n: int) { p <= x < p + n }

  /** A stretch of the address space. */
  ghost function Range(p: int, n: int): iset<int> { iset x: int | Within(x, p, n) }

  /** What mmap answers. */
  datatype Reply = Failed | At(addr: int)

  ghost predicate Unmapped(p: int, n: int, mapped: iset<int>) {
    forall x {:trigger Within(x, p, n)} {:trigger x in mapped} | Within(x, p, n) :: x !in mapped
  }

  /** A system call returns memory that was not mapped, or fails. */
  ghost predicate Honest(reply: Reply, n: int, mapped: iset<int>) {
    reply.At? ==> 0 < reply.addr && reply.addr % PAGESIZE == 0 && Unmapped(reply.addr, n, mapped)
  }

  // ---------- Where a new heap goes ----------

  datatype Heap = Heap(base: int, size: int)

  /**
   The size of a new heap is the least number of whole pages that holds the request with its padding, within the limits;
   a sum that wraps counts as what is left of it.
   */
  predicate HeapSizeFits(size: int, topPad: int, r: int) {
    var sum := (size + topPad) % SIZE_T;
    && r % PAGESIZE == 0
    && (HEAP_MIN_SIZE <= sum <= HEAP_MAX_SIZE ==> sum <= r < sum + PAGESIZE)
    && (sum < HEAP_MIN_SIZE ==> r == HEAP_MIN_SIZE)
    && (sum > HEAP_MAX_SIZE ==> size <= HEAP_MAX_SIZE && r == HEAP_MAX_SIZE)
  }

  /** The size that a new heap gets; zero if that is too large. */
  function HeapSize(size: int, topPad: int): (r: int)
    requires 0 <= size < SIZE_T && 0 <= topPad < SIZE_T
    ensures 0 <= r <= HEAP_MAX_SIZE && r % PAGESIZE == 0
    ensures r == 0 <==> (size + topPad) % SIZE_T > HEAP_MAX_SIZE && size > HEAP_MAX_SIZE
    ensures r != 0 ==> HeapSizeFits(size, topPad, r) && (size + topPad < SIZE_T ==> r >= size)
  {
    var sum := (size + topPad) % SIZE_T;
    if sum < HEAP_MIN_SIZE then HEAP_MIN_SIZE
    else if sum <= HEAP_MAX_SIZE then (sum + PAGESIZE - 1) / PAGESIZE * PAGESIZE
    else if size > HEAP_MAX_SIZE then 0
    else HEAP_MAX_SIZE
  }

  /** The system's answers to the requests of `NewHeap`: at a given place, for twice the size, for the size, for
      access. */
  datatype Answers = Answers(area: Reply, double: Reply, single: Reply, protectable: bool)

  ghost predicate AllHonest(a: Answers, mapped: iset<int>) {
    && Honest(a.area, HEAP_MAX_SIZE, mapped) && Honest(a.double, 2 * HEAP_MAX_SIZE, mapped)
    && Honest(a.single, HEAP_MAX_SIZE, mapped)
  }

  predicate AlignedReply(reply: Reply) { reply.At? && reply.addr % HEAP_MAX_SIZE == 0 }

  function RoundUp(p: int): int { (p + (HEAP_MAX_SIZE - 1)) / HEAP_MAX_SIZE * HEAP_MAX_SIZE }

  /** Where the block of a new heap is: where an earlier call left room, inside twice as much, or at a place that is
      aligned by chance. */
  function BlockFor(alignedHeapArea: int, a: Answers): Reply {
    if alignedHeapArea != 0 && AlignedReply(a.area) then a.area
    else if a.double.At? then At(RoundUp(a.double.addr))
    else if AlignedReply(a.single) then a.single
    else Failed
  }

  function HeapFor(alignedHeapArea: int, size: int, topPad: int, a: Answers): Option<Heap>
    requires 0 <= size < SIZE_T && 0 <= topPad < SIZE_T
  {
    var block := BlockFor(alignedHeapArea, a);
    if HeapSize(size, topPad) == 0 || block == Failed || !a.protectable then None
    else Some(Heap(block.addr, HeapSize(size, topPad)))
  }

  /** The place to try first the next time. */
  function AreaAfter(alignedHeapArea: int, size: int, topPad: int, a: Answers): int
    requires 0 <= size < SIZE_T && 0 <= topPad < SIZE_T
  {
    if HeapSize(size, topPad) == 0 then alignedHeapArea
    else if alignedHeapArea != 0 && AlignedReply(a.area) then 0
    else if AlignedReply(a.double) then a.double.addr + HEAP_MAX_SIZE
    else 0
  }

  /** A block is aligned and is one that was not mapped before. */
  lemma BlockIsNew(alignedHeapArea: int, a: Answers, mapped: iset<int>)
    requires AllHonest(a, mapped) && BlockFor(alignedHeapArea, a).At?
    ensures var b := BlockFor(alignedHeapArea, a).addr;
      b % HEAP_MAX_SIZE == 0 && b > 0 && Unmapped(b, HEAP_MAX_SIZE, mapped)
  {
    var b := BlockFor(alignedHeapArea, a).addr;
    if a.double.At? {
      forall x {:trigger Within(x, b, HEAP_MAX_SIZE)} | Within(x, b, HEAP_MAX_SIZE) ensures x !in mapped {
        assert Within(x, a.double.addr, 2 * HEAP_MAX_SIZE) || b != RoundUp(a.double.addr);
      }
    }
  }

  class AddressSpace {
    ghost var mapped: iset<int>
    var alignedHeapArea: int       // where to try first; zero if there is no such place

    constructor (mapped: iset<int>)
      ensures this.mapped == mapped && alignedHeapArea == 0
    {
      this.mapped := mapped;
      alignedHeapArea := 0;
    }

    method Munmap(p: int, n: int)
      modifies this`mapped
      ensures mapped == old(mapped) - Range(p, n)
    {
      mapped := mapped - Range(p, n);
    }

    /** Maps a block at the place that an earlier call has left free, if it is still there. */
    method TryArea(reply: Reply) returns (p2: Reply)
      requires Honest(reply, HEAP_MAX_SIZE, mapped)
      modifies this
      ensures p2 == if old(alignedHeapArea) != 0 && AlignedReply(reply) then reply else Failed
      ensures mapped == if p2.At? then old(mapped) + Range(p2.addr, HEAP_MAX_SIZE) else old(mapped)
      ensures alignedHeapArea == 0
    {
      p2 := Failed;
      if alignedHeapArea != 0 {
        p2 := reply;
        alignedHeapArea := 0;
        if p2.At? {
          mapped := mapped + Range(p2.addr, HEAP_MAX_SIZE);
          if p2.addr % HEAP_MAX_SIZE != 0 {
            Munmap(p2.addr, HEAP_MAX_SIZE);
            p2 := Failed;
          }
        }
      }
    }

    /** Maps twice as much and gives back what is before and behind an aligned block. */
    method CutOut(p1: int) returns (p2: int)
      requires Honest(At(p1), 2 * HEAP_MAX_SIZE, mapped)
      modifies this
      ensures p2 == RoundUp(p1) && mapped == old(mapped) + Range(p2, HEAP_MAX_SIZE)
      ensures alignedHeapArea == if p1 % HEAP_MAX_SIZE == 0 then p1 + HEAP_MAX_SIZE else old(alignedHeapArea)
    {
      mapped := mapped + Range(p1, 2 * HEAP_MAX_SIZE);
      p2 := (p1 + (HEAP_MAX_SIZE - 1)) / HEAP_MAX_SIZE * HEAP_MAX_SIZE;
      var ul := p2 - p1;
      if ul != 0 {
        Munmap(p1, ul);
      } else {
        alignedHeapArea := p2 + HEAP_MAX_SIZE;
      }
      Munmap(p2 + HEAP_MAX_SIZE, HEAP_MAX_SIZE - ul);
    }

    /** A heap of its own maximal alignment; the memory that is mapped grows by exactly its block, or not at all. */
    method NewHeap(size: int, topPad: int, a: Answers) returns (h: Option<Heap>)
      requires 0 <= size < SIZE_T && 0 <= topPad < SIZE_T && AllHonest(a, mapped)
      modifies this
      ensures h == HeapFor(old(alignedHeapArea), size, topPad, a)
      ensures alignedHeapArea == AreaAfter(old(alignedHeapArea), size, topPad, a)
      ensures h.Some? ==> h.value.base % HEAP_MAX_SIZE == 0 && h.value.base > 0 && 0 < h.value.size <= HEAP_MAX_SIZE
      ensures h.Some? ==> HeapSizeFits(size, topPad, h.value.size)
      ensures h.Some? ==> Unmapped(h.value.base, HEAP_MAX_SIZE, old(mapped))
      ensures mapped == if h.Some? then old(mapped) + Range(h.value.base, HEAP_MAX_SIZE) else old(mapped)
    {
      if BlockFor(alignedHeapArea, a).At? { BlockIsNew(alignedHeapArea, a, mapped); }
      var bytes := HeapSize(size, topPad);
      if bytes == 0 {
        return None;
      }
      var p2 := TryArea(a.area);
      if p2 == Failed {
        if a.double.At? {
          var p := CutOut(a.double.addr);
          p2 := At(p);
        } else {
          if a.single == Failed {
            return None;
          }
          p2 := a.single;
          mapped := mapped + Range(p2.addr, HEAP_MAX_SIZE);
          if p2.addr % HEAP_MAX_SIZE != 0 {
            Munmap(p2.addr, HEAP_MAX_SIZE);
            return None;
          }
        }
      }
      if !a.protectable {
        Munmap(p2.addr, HEAP_MAX_SIZE);
        return None;
      }
      h := Some(Heap(p2.addr, bytes));
    }

    method DeleteHeap(base: int)
      modifies this
      ensures mapped == old(mapped) - Range(base, HEAP_MAX_SIZE)
      ensures alignedHeapArea == if base + HEAP_MAX_SIZE == old(alignedHeapArea) then 0 else old(alignedHeapArea)
    {
      if base + HEAP_MAX_SIZE == alignedHeapArea {
        alignedHeapArea := 0;
      }
      Munmap(base, HEAP_MAX_SIZE);
    }
  }

  // ---------- The memory of a process ----------

  datatype Region = Region(lo: int, hi: int)

  /** The memory that a mapped chunk lies in. */
  datatype Piece = Piece(lo: int, n: int)

  /** What is mapped, and which of it the allocator has as sbrk regions, mapped chunks and heaps. */
  datatype World = World(mapped: iset<int>, alignedHeapArea: int,
                         regions: seq<Region>, chunks: map<int, Piece>, heaps: map<int, int>)

  datatype Owner = OfRegion(i: int) | OfChunk(p: int) | OfHeap(base: int)

  predicate Has(w: World, o: Owner, x: int) {
    match o
    case OfRegion(i) => 0 <= i < |w.regions| && w.regions[i].lo <= x < w.regions[i].hi
    case OfChunk(p) => p in w.chunks && Within(x, w.chunks[p].lo, w.chunks[p].n)
    case OfHeap(b) => b in w.heaps && Within(x, b, HEAP_MAX_SIZE)
  }

  /** No byte has two owners, and what is owned is mapped. */
  ghost predicate Separate(w: World) {
    && (forall o, x {:trigger Has(w, o, x)} | Has(w, o, x) :: x in w.mapped)
    && (forall o, o', x {:trigger Has(w, o, x), Has(w, o', x)} | Has(w, o, x) && Has(w, o', x) :: o == o')
  }

  /** Memory is separate; chunks lie in their memory, heaps at their alignment. */
  ghost predicate Inv(w: World) {
    && Separate(w)
    && |w.regions| > 0 && (forall i {:trigger w.regions[i]} | 0 <= i < |w.regions| ::
        w.regions[i].lo <= w.regions[i].hi)
    && (forall p {:trigger w.chunks[p]} | p in w.chunks :: ProbeTable.IsKey(p) && Has(w, OfChunk(p), p))
    && (forall b {:trigger w.heaps[b]} | b in w.heaps :: b > 0 && b % HEAP_MAX_SIZE == 0 && w.heaps[b] != 0)
  }

  datatype Op =
    | CreateHeap(size: int, topPad: int, index: int, answers: Answers)
    | DeleteHeap(base: int)
    | MapChunk(reply: Reply, n: int)
    | ShiftChunk(p: int, lead: int)        // memalign registers a mapped chunk under an address further up
    | UnmapChunk(p: int)
    | GrowSbrk(addr: int, n: int)
    | ShrinkSbrk(n: int)
    | AddRegion(reply: Reply, n: int)      // memory that is mapped because sbrk fails

  /** The system is honest, and the allocator gives back what it has. */
  ghost predicate Possible(w: World, op: Op) {
    match op
    case CreateHeap(size, topPad, index, answers) =>
      0 <= size < SIZE_T && 0 <= topPad < SIZE_T && index != 0 && AllHonest(answers, w.mapped)
    case DeleteHeap(base) => base in w.heaps
    case MapChunk(reply, n) => n > 0 && Honest(reply, n, w.mapped)
    case ShiftChunk(p, lead) =>
      && p in w.chunks && lead > 0 && lead % ProbeTable.KEY_ALIGNMENT == 0
      && p + lead < w.chunks[p].lo + w.chunks[p].n
    case UnmapChunk(p) => p in w.chunks
    case GrowSbrk(addr, n) =>
      && n > 0 && addr > 0 && Unmapped(addr, n, w.mapped)
      && |w.regions| > 0 && (w.regions[0] == Region(0, 0) || addr == w.regions[0].hi)
    case ShrinkSbrk(n) => |w.regions| > 0 && 0 < n < w.regions[0].hi - w.regions[0].lo
    case AddRegion(reply, n) => n > 0 && Honest(reply, n, w.mapped)
  }

  ghost function Step(w: World, op: Op): World
    requires Possible(w, op)
  {
    match op
    case CreateHeap(size, topPad, index, answers) =>
      var h, area := HeapFor(w.alignedHeapArea, size, topPad, answers),
          AreaAfter(w.alignedHeapArea, size, topPad, answers);
      if h.None? then w.(alignedHeapArea := area)
      else w.(alignedHeapArea := area, mapped := w.mapped + Range(h.value.base, HEAP_MAX_SIZE),
              heaps := w.heaps[h.value.base := index])
    case DeleteHeap(base) =>
      w.(alignedHeapArea := if base + HEAP_MAX_SIZE == w.alignedHeapArea then 0 else w.alignedHeapArea,
         mapped := w.mapped - Range(base, HEAP_MAX_SIZE), heaps := w.heaps - {base})
    case MapChunk(reply, n) =>
      if reply.At? then
        w.(mapped := w.mapped + Range(reply.addr, n), chunks := w.chunks[reply.addr := Piece(reply.addr, n)])
      else w
    case ShiftChunk(p, lead) => w.(chunks := (w.chunks - {p})[p + lead := w.chunks[p]])
    case UnmapChunk(p) => w.(mapped := w.mapped - Range(w.chunks[p].lo, w.chunks[p].n), chunks := w.chunks - {p})
    case GrowSbrk(addr, n) =>
      var lo := if w.regions[0] == Region(0, 0) then addr else w.regions[0].lo;
      w.(mapped := w.mapped + Range(addr, n), regions := w.regions[0 := Region(lo, addr + n)])
    case ShrinkSbrk(n) =>
      var r := w.regions[0];
      w.(mapped := w.mapped - Range(r.hi - n, n), regions := w.regions[0 := Region(r.lo, r.hi - n)])
    case AddRegion(reply, n) =>
      if reply.At? then
        w.(mapped := w.mapped + Range(reply.addr, n), regions := w.regions + [Region(reply.addr, reply.addr + n)])
      else w
  }

  // ---------- What every step keeps ----------

  /** One owner gets memory that was not mapped. */
  lemma GainKeepsSeparate(w: World, w': World, o: Owner, p: int, n: int)
    requires Separate(w) && Unmapped(p, n, w.mapped) && w'.mapped == w.mapped + Range(p, n)
    requires forall q, x {:trigger Has(w', q, x)} :: Has(w', q, x) <==> Has(w, q, x) || (q == o && Within(x, p, n))
    ensures Separate(w')
  {
    forall q, q', x {:trigger Has(w', q, x), Has(w', q', x)} | Has(w', q, x) && Has(w', q', x) ensures q == q' {
      assert Has(w, q, x) ==> x in w.mapped && !Within(x, p, n);
      assert Has(w, q', x) ==> x in w.mapped && !Within(x, p, n);
    }
  }

  /** One owner loses memory that is given back to the system. */
  lemma LossKeepsSeparate(w: World, w': World, o: Owner, p: int, n: int)
    requires Separate(w) && w'.mapped == w.mapped - Range(p, n)
    requires forall x {:trigger Has(w, o, x)} | Within(x, p, n) :: Has(w, o, x)
    requires forall q, x {:trigger Has(w', q, x)} :: Has(w', q, x) <==> Has(w, q, x) && !(q == o && Within(x, p, n))
    ensures Separate(w')
  {
    forall q, x {:trigger Has(w', q, x)} | Has(w', q, x) ensures x in w'.mapped {
      assert Within(x, p, n) ==> Has(w, o, x) && Has(w, q, x);
    }
  }

  lemma SameOwners(w: World, w': World)
    requires Separate(w) && w'.mapped == w.mapped && forall o, x {:trigger Has(w', o, x)} ::
              Has(w', o, x) <==> Has(w, o, x)
    ensures Separate(w')
  {
    forall o, o', x {:trigger Has(w', o, x), Has(w', o', x)} | Has(w', o, x) && Has(w', o', x) ensures o == o' {
      assert Has(w, o, x) && Has(w, o', x);
    }
  }

  /** A chunk whose entry is the same still lies in its memory. */
  lemma StillThere(w: World, w': World)
    requires Inv(w)
    ensures forall p {:trigger w'.chunks[p]} | p in w'.chunks && p in w.chunks && w'.chunks[p] == w.chunks[p] ::
              ProbeTable.IsKey(p) && Has(w', OfChunk(p), p)
  {
    forall p {:trigger w'.chunks[p]} | p in w'.chunks && p in w.chunks && w'.chunks[p] == w.chunks[p]
      ensures ProbeTable.IsKey(p) && Has(w', OfChunk(p), p)
    {
      assert Has(w, OfChunk(p), p);
    }
  }

  lemma CreateKeepsInv(w: World, size: int, topPad: int, index: int, answers: Answers)
    requires Inv(w) && Possible(w, CreateHeap(size, topPad, index, answers))
    ensures Inv(Step(w, CreateHeap(size, topPad, index, answers)))
  {
    var w', h := Step(w, CreateHeap(size, topPad, index, answers)), HeapFor(w.alignedHeapArea, size, topPad, answers);
    if h.Some? {
      BlockIsNew(w.alignedHeapArea, answers, w.mapped);
      var b := h.value.base;
      assert Has(w, OfHeap(b), b) ==> Within(b, b, HEAP_MAX_SIZE) && b in w.mapped;
      GainKeepsSeparate(w, w', OfHeap(b), b, HEAP_MAX_SIZE);
    } else {
      SameOwners(w, w');
    }
    StillThere(w, w');
  }

  lemma DeleteKeepsInv(w: World, base: int)
    requires Inv(w) && Possible(w, DeleteHeap(base))
    ensures Inv(Step(w, DeleteHeap(base)))
  {
    var w' := Step(w, DeleteHeap(base));
    LossKeepsSeparate(w, w', OfHeap(base), base, HEAP_MAX_SIZE);
    StillThere(w, w');
  }

  lemma PageIsKey(p: int)
    requires p > 0 && p % PAGESIZE == 0
    ensures ProbeTable.IsKey(p)
  {
    assert p == 16 * (0x100 * (p / PAGESIZE));
  }

  lemma MapKeepsInv(w: World, reply: Reply, n: int)
    requires Inv(w) && Possible(w, MapChunk(reply, n))
    ensures Inv(Step(w, MapChunk(reply, n)))
  {
    if reply.At? {
      var w', p := Step(w, MapChunk(reply, n)), reply.addr;
      PageIsKey(p);
      assert Within(p, p, n);
      assert p in w.chunks ==> Has(w, OfChunk(p), p) && p in w.mapped;
      GainKeepsSeparate(w, w', OfChunk(p), p, n);
      StillThere(w, w');
    }
  }

  lemma UnmapKeepsInv(w: World, p: int)
    requires Inv(w) && Possible(w, UnmapChunk(p))
    ensures Inv(Step(w, UnmapChunk(p)))
  {
    var w' := Step(w, UnmapChunk(p));
    LossKeepsSeparate(w, w', OfChunk(p), w.chunks[p].lo, w.chunks[p].n);
    StillThere(w, w');
  }

  lemma ShiftKeepsInv(w: World, p: int, lead: int)
    requires Inv(w) && Possible(w, ShiftChunk(p, lead))
    ensures Inv(Step(w, ShiftChunk(p, lead)))
  {
    var w', q := Step(w, ShiftChunk(p, lead)), p + lead;
    assert Has(w, OfChunk(p), p) && ProbeTable.IsKey(p) && Has(w, OfChunk(p), q);
    assert q in w.chunks ==> Has(w, OfChunk(q), q);
    assert forall o, x {:trigger Has(w', o, x)} ::
        Has(w', o, x) <==> if o == OfChunk(q) then Has(w, OfChunk(p), x) else o != OfChunk(p) && Has(w, o, x);
    forall o, o', x {:trigger Has(w', o, x), Has(w', o', x)} | Has(w', o, x) && Has(w', o', x) ensures o == o' {
      assert Has(w, if o == OfChunk(q) then OfChunk(p) else o, x)
        && Has(w, if o' == OfChunk(q) then OfChunk(p) else o', x);
    }
    StillThere(w, w');
  }

  lemma SbrkKeepsInv(w: World, op: Op)
    requires Inv(w) && (op.GrowSbrk? || op.ShrinkSbrk? || op.AddRegion?) && Possible(w, op)
    ensures Inv(Step(w, op))
  {
    var w' := Step(w, op);
    match op {
      case GrowSbrk(addr, n) =>
        GainKeepsSeparate(w, w', OfRegion(0), addr, n);
      case ShrinkSbrk(n) =>
        LossKeepsSeparate(w, w', OfRegion(0), w.regions[0].hi - n, n);
      case AddRegion(reply, n) =>
        if reply.At? { GainKeepsSeparate(w, w', OfRegion(|w.regions|), reply.addr, n); }
    }
    StillThere(w, w');
  }

  lemma StepKeepsInv(w: World, op: Op)
    requires Inv(w) && Possible(w, op)
    ensures Inv(Step(w, op))
  {
    hide Inv, Step, Possible;
    match op {
      case CreateHeap(size, topPad, index, answers) => CreateKeepsInv(w, size, topPad, index, answers);
      case DeleteHeap(base) => DeleteKeepsInv(w, base);
      case MapChunk(reply, n) => MapKeepsInv(w, reply, n);
      case ShiftChunk(p, lead) => ShiftKeepsInv(w, p, lead);
      case UnmapChunk(p) => UnmapKeepsInv(w, p);
      case GrowSbrk(_, _) => SbrkKeepsInv(w, op);
      case ShrinkSbrk(_) => SbrkKeepsInv(w, op);
      case AddRegion(_, _) => SbrkKeepsInv(w, op);
    }
  }

  // ---------- Runs ----------

  /** A process that has nothing of its own yet. */
  ghost predicate IsStart(w: World) {
    w.alignedHeapArea == 0 && w.regions == [Region(0, 0)] && w.chunks == map[] && w.heaps == map[]
  }

  /** Any run: the system is honest at each step, and nothing else is asked of it. */
  ghost predicate IsRun(worlds: seq<World>, ops: seq<Op>) {
    && |worlds| == |ops| + 1 && IsStart(worlds[0])
    && forall n {:trigger ops[n]} | 0 <= n < |ops| ::
        Possible(worlds[n], ops[n]) && worlds[n + 1] == Step(worlds[n], ops[n])
  }

  lemma StartKeepsInv(w: World)
    requires IsStart(w)
    ensures Inv(w)
  {
  }

  lemma {:induction false} RunKeepsInv(worlds: seq<World>, ops: seq<Op>, n: nat)
    requires IsRun(worlds, ops) && n <= |ops|
    ensures Inv(worlds[n])
  {
    hide Inv, Step, Possible;
    if n == 0 {
      StartKeepsInv(worlds[0]);
    } else {
      RunKeepsInv(worlds, ops, n - 1);
      assert Possible(worlds[n - 1], ops[n - 1]);
      StepKeepsInv(worlds[n - 1], ops[n - 1]);
    }
  }

  // ---------- Which arena a pointer belongs to ----------

  /** The base of the heap that a pointer would be in. */
  function HeapForPtr(ptr: int): int { ptr - ptr % HEAP_MAX_SIZE }

  predicate InRegions(regions: seq<Region>, ptr: int) {
    exists i {:trigger regions[i]} :: 0 <= i < |regions| && regions[i].lo <= ptr < regions[i].hi
  }

  /** What the index answers: 1 for the main arena, 0 for a mapped chunk, else the arena of the heap. */
  function ArenaOf(regions: seq<Region>, chunks: set<int>, heaps: map<int, int>, ptr: int): Option<int> {
    if InRegions(regions, ptr) then Some(1)
    else if ptr in chunks then Some(0)
    else if HeapForPtr(ptr) in heaps then Some(heaps[HeapForPtr(ptr)])
    else None
  }

  lemma PointersOfHeap(base: int, ptr: int)
    requires base % HEAP_MAX_SIZE == 0
    ensures Within(ptr, base, HEAP_MAX_SIZE) <==> HeapForPtr(ptr) == base
  {
  }

  /**
   Pointers into regions belong to the main arena, those into heaps to the arena of the heap, and so does the start of
   a mapped chunk to none. Other pointers, also those further into mapped chunks, are not found.
   */
  ghost predicate Attributed(w: World) {
    && (forall i, ptr {:trigger Has(w, OfRegion(i), ptr)} | Has(w, OfRegion(i), ptr) ::
          ArenaOf(w.regions, w.chunks.Keys, w.heaps, ptr) == Some(1))
    && (forall p {:trigger w.chunks[p]} | p in w.chunks :: ArenaOf(w.regions, w.chunks.Keys, w.heaps, p) == Some(0))
    && (forall b, ptr {:trigger Has(w, OfHeap(b), ptr)} | Has(w, OfHeap(b), ptr) ::
          ArenaOf(w.regions, w.chunks.Keys, w.heaps, ptr) == Some(w.heaps[b]))
    && (forall p, ptr {:trigger Has(w, OfChunk(p), ptr)} | Has(w, OfChunk(p), ptr) && ptr != p ::
          ArenaOf(w.regions, w.chunks.Keys, w.heaps, ptr) == None)
    && (forall ptr {:trigger ArenaOf(w.regions, w.chunks.Keys, w.heaps, ptr)} ::
          (forall o {:trigger Has(w, o, ptr)} :: !Has(w, o, ptr)) ==>
              ArenaOf(w.regions, w.chunks.Keys, w.heaps, ptr) == None)
  }

  /** What the owner of a byte rules out. */
  lemma OnlyOwner(w: World, o: Owner, x: int)
    requires Inv(w) && Has(w, o, x)
    ensures InRegions(w.regions, x) ==> o.OfRegion?
    ensures x in w.chunks ==> o == OfChunk(x)
  {
    if InRegions(w.regions, x) {
      var i :| 0 <= i < |w.regions| && w.regions[i].lo <= x < w.regions[i].hi;
      assert Has(w, OfRegion(i), x);
    }
    assert x in w.chunks ==> Has(w, OfChunk(x), x);
  }

  lemma NoOwner(w: World, x: int)
    requires Inv(w) && forall o {:trigger Has(w, o, x)} :: !Has(w, o, x)
    ensures ArenaOf(w.regions, w.chunks.Keys, w.heaps, x) == None
  {
    forall i {:trigger w.regions[i]} | 0 <= i < |w.regions| ensures !(w.regions[i].lo <= x < w.regions[i].hi) {
      assert !Has(w, OfRegion(i), x);
    }
    assert !Has(w, OfChunk(x), x) && !Has(w, OfHeap(HeapForPtr(x)), x);
    PointersOfHeap(HeapForPtr(x), x);
  }

  /** A mapped chunk is only found by the pointer that was handed out. */
  lemma InsideChunk(w: World, p: int, x: int)
    requires Inv(w) && Has(w, OfChunk(p), x) && x != p
    ensures ArenaOf(w.regions, w.chunks.Keys, w.heaps, x) == None
  {
    OnlyOwner(w, OfChunk(p), x);
    PointersOfHeap(HeapForPtr(x), x);
    assert HeapForPtr(x) in w.heaps ==> Has(w, OfHeap(HeapForPtr(x)), x);
  }

  lemma InvIsAttributed(w: World)
    requires Inv(w)
    ensures Attributed(w)
  {
    forall i, ptr {:trigger Has(w, OfRegion(i), ptr)} | Has(w, OfRegion(i), ptr) ensures InRegions(w.regions, ptr) {
    }
    forall p {:trigger w.chunks[p]} | p in w.chunks ensures ArenaOf(w.regions, w.chunks.Keys, w.heaps, p) == Some(0) {
      OnlyOwner(w, OfChunk(p), p);
    }
    forall b, ptr {:trigger Has(w, OfHeap(b), ptr)} | Has(w, OfHeap(b), ptr)
      ensures ArenaOf(w.regions, w.chunks.Keys, w.heaps, ptr) == Some(w.heaps[b])
    {
      OnlyOwner(w, OfHeap(b), ptr);
      PointersOfHeap(b, ptr);
    }
    forall p, ptr {:trigger Has(w, OfChunk(p), ptr)} | Has(w, OfChunk(p), ptr) && ptr != p
      ensures ArenaOf(w.regions, w.chunks.Keys, w.heaps, ptr) == None
    {
      InsideChunk(w, p, ptr);
    }
    forall ptr {:trigger ArenaOf(w.regions, w.chunks.Keys, w.heaps, ptr)}
      ensures (forall o {:trigger Has(w, o, ptr)} :: !Has(w, o, ptr)) ==>
                ArenaOf(w.regions, w.chunks.Keys, w.heaps, ptr) == None
    {
      if forall o {:trigger Has(w, o, ptr)} :: !Has(w, o, ptr) { NoOwner(w, ptr); }
    }
  }

  /** Whatever has been created, mapped and given back: at every moment owners are apart and pointers are found. */
  lemma EveryRunIsAttributed(worlds: seq<World>, ops: seq<Op>, n: nat)
    requires IsRun(worlds, ops) && n <= |ops|
    ensures Separate(worlds[n]) && Attributed(worlds[n])
  {
    RunKeepsInv(worlds, ops, n);
    InvIsAttributed(worlds[n]);
  }

  // ---------- The index ----------

  lemma BaseIsKey(base: int)
    requires base > 0 && base % HEAP_MAX_SIZE == 0
    ensures ProbeTable.IsKey(base)
  {
    assert base == 16 * (0x40_0000 * (base / HEAP_MAX_SIZE));
  }

  lemma HeapFacts(w: World, base: int)
    requires Inv(w) && base in w.heaps
    ensures base > 0 && base % HEAP_MAX_SIZE == 0
  {
  }

  lemma ChunkFacts(w: World, p: int, lead: int)
    requires Inv(w) && p in w.chunks
    ensures ProbeTable.IsKey(p)
    ensures lead > 0 && lead % ProbeTable.KEY_ALIGNMENT == 0 ==> ProbeTable.IsKey(p + lead)
  {
  }

  /** The allocator's record of what it has in a process: two tables and the sbrk regions. */
  class Lookup {
    const space: AddressSpace
    const heapTbl: L.Lfht
    const mmapTbl: L.Lfht
    var regions: seq<Region>
    ghost var pieces: map<int, Piece>      // the memory of the mapped chunks

    ghost function Footprint(): set<object>
      reads this, heapTbl, heapTbl.hdr, mmapTbl, mmapTbl.hdr
    {
      {this, space} + heapTbl.Footprint() + mmapTbl.Footprint()
    }

    /** What the index knows, and what is mapped. */
    ghost function Now(): World
      reads this, space, heapTbl
    {
      World(space.mapped, space.alignedHeapArea, regions, pieces, heapTbl.model)
    }

    ghost predicate Tables()
      reads this, space, heapTbl, heapTbl.hdr, mmapTbl, mmapTbl.hdr, heapTbl.Footprint(), mmapTbl.Footprint()
    {
      && {this, space as object} !! heapTbl.Footprint() + mmapTbl.Footprint()
      && heapTbl.Footprint() !! mmapTbl.Footprint()
      && heapTbl.Valid() && mmapTbl.Valid() && mmapTbl.model.Keys == pieces.Keys
    }

    ghost predicate Valid()
      reads this, space, heapTbl, heapTbl.hdr, mmapTbl, mmapTbl.hdr, heapTbl.Footprint(), mmapTbl.Footprint()
    {
      Tables() && Inv(Now())
    }

    /** Begins with two tables of its own, which are empty. */
    constructor (space: AddressSpace, heapTbl: L.Lfht, mmapTbl: L.Lfht)
      requires heapTbl.Valid() && mmapTbl.Valid() && heapTbl.model == map[] && mmapTbl.model == map[]
      requires {space as object} !! heapTbl.Footprint() + mmapTbl.Footprint()
      requires heapTbl.Footprint() !! mmapTbl.Footprint()
      requires space.alignedHeapArea == 0
      ensures Valid() && IsStart(Now()) && this.space == space && this.heapTbl == heapTbl && this.mmapTbl == mmapTbl
    {
      hide L.Lfht.Valid, Inv;
      this.space, this.heapTbl, this.mmapTbl := space, heapTbl, mmapTbl;
      regions := [Region(0, 0)];
      pieces := map[];
      new;
      StartKeepsInv(Now());
    }

    /** The arena of a pointer: that which owns the memory it points to. */
    method LookupArenaIndex(ptr: int) returns (r: Option<int>)
      requires Valid() && ptr >= 0
      modifies heapTbl.Footprint(), mmapTbl.Footprint()
      ensures Valid() && Now() == old(Now())
      ensures r == ArenaOf(regions, pieces.Keys, heapTbl.model, ptr)
      ensures forall i {:trigger Has(Now(), OfRegion(i), ptr)} | Has(Now(), OfRegion(i), ptr) :: r == Some(1)
      ensures ptr in pieces ==> r == Some(0)
      ensures forall b {:trigger Has(Now(), OfHeap(b), ptr)} | Has(Now(), OfHeap(b), ptr) :: r == Some(heapTbl.model[b])
      ensures forall p {:trigger Has(Now(), OfChunk(p), ptr)} | Has(Now(), OfChunk(p), ptr) && ptr != p :: r == None
      ensures (forall o {:trigger Has(Now(), o, ptr)} :: !Has(Now(), o, ptr)) ==> r == None
    {
      hide L.Lfht.Valid, Inv;
      InvIsAttributed(Now());
      r := Search(ptr);
    }

    method Search(ptr: int) returns (r: Option<int>)
      requires Tables() && ptr >= 0
      modifies heapTbl.Footprint(), mmapTbl.Footprint()
      ensures Tables() && Now() == old(Now()) && r == ArenaOf(regions, pieces.Keys, heapTbl.model, ptr)
    {
      hide L.Lfht.Valid;
      for i := 0 to |regions|
        invariant forall j {:trigger regions[j]} | 0 <= j < i :: !(regions[j].lo <= ptr < regions[j].hi)
      {
        if regions[i].lo <= ptr < regions[i].hi {
          return Some(1);
        }
      }
      assert !InRegions(regions, ptr);
      var success, val := mmapTbl.Find(ptr);
      assert Tables();
      if success && val != ProbeTable.TOMBSTONE {
        return Some(0);
      }
      success, val := heapTbl.Find(HeapForPtr(ptr));
      assert Tables();
      if success && val != ProbeTable.TOMBSTONE {
        return Some(val);
      }
      assert ptr !in mmapTbl.model && HeapForPtr(ptr) !in heapTbl.model;
      return None;
    }

    /** Makes a heap and registers it; not `ok` means that the table is full, on which the program stops. */
    method CreateHeap(size: int, topPad: int, index: int, answers: Answers) returns (h: Option<Heap>, ok: bool)
      requires Valid() && Possible(Now(), Op.CreateHeap(size, topPad, index, answers))
      modifies space, heapTbl.Footprint()
      ensures ok ==> Valid() && Now() == Step(old(Now()), Op.CreateHeap(size, topPad, index, answers))
      ensures h == HeapFor(old(space.alignedHeapArea), size, topPad, answers)
      ensures fresh(Footprint() - old(Footprint()))
    {
      hide L.Lfht.Valid, Inv;
      StepKeepsInv(Now(), Op.CreateHeap(size, topPad, index, answers));
      h := space.NewHeap(size, topPad, answers);
      ok := true;
      if h.Some? {
        BaseIsKey(h.value.base);
        ok := heapTbl.Add(h.value.base, index);
      }
    }

    method DeleteHeap(base: int)
      requires Valid() && base in heapTbl.model
      modifies space, heapTbl.Footprint()
      ensures Valid() && Now() == Step(old(Now()), Op.DeleteHeap(base)) && Footprint() == old(Footprint())
    {
      hide L.Lfht.Valid, Inv;
      StepKeepsInv(Now(), Op.DeleteHeap(base));
      HeapFacts(Now(), base);
      space.DeleteHeap(base);
      var r := heapTbl.Remove(base);
      assert r;
    }

    method LookupAddMmap(p: int, size: int, ghost piece: Piece) returns (ok: bool)
      requires Tables() && ProbeTable.IsKey(p) && size != 0
      modifies this`pieces, mmapTbl.Footprint()
      ensures ok ==> Tables() && Now() == old(Now()).(chunks := old(pieces)[p := piece])
      ensures !ok ==> pieces == old(pieces)
      ensures fresh(Footprint() - old(Footprint()))
    {
      hide L.Lfht.Valid;
      ok := mmapTbl.Add(p, size);
      if ok {
        pieces := pieces[p := piece];
      }
    }

    method LookupDeleteMmap(p: int)
      requires Tables() && p in pieces && p > 0
      modifies this`pieces, mmapTbl.Footprint()
      ensures Tables() && Now() == old(Now()).(chunks := old(pieces) - {p}) && Footprint() == old(Footprint())
    {
      hide L.Lfht.Valid;
      var r := mmapTbl.Remove(p);
      assert r;
      pieces := pieces - {p};
    }

    /** Registers memory that was mapped for a single chunk; not `ok` means that the table is full. */
    method MapChunk(reply: Reply, n: int) returns (ok: bool)
      requires Valid() && Possible(Now(), Op.MapChunk(reply, n))
      modifies this, space, mmapTbl.Footprint()
      ensures ok ==> Valid() && Now() == Step(old(Now()), Op.MapChunk(reply, n))
      ensures fresh(Footprint() - old(Footprint()))
    {
      hide L.Lfht.Valid, Inv;
      StepKeepsInv(Now(), Op.MapChunk(reply, n));
      ok := true;
      if reply.At? {
        PageIsKey(reply.addr);
        space.mapped := space.mapped + Range(reply.addr, n);
        ok := LookupAddMmap(reply.addr, n, Piece(reply.addr, n));
      }
    }

    /** The chunk begins further up in its memory, and has `size` bytes; not `ok` means that the table is full. */
    method ShiftChunk(p: int, lead: int, size: int) returns (ok: bool)
      requires Valid() && Possible(Now(), Op.ShiftChunk(p, lead)) && size > 0
      modifies this, mmapTbl.Footprint()
      ensures ok ==> Valid() && Now() == Step(old(Now()), Op.ShiftChunk(p, lead))
      ensures fresh(Footprint() - old(Footprint()))
    {
      hide L.Lfht.Valid, Inv;
      StepKeepsInv(Now(), Op.ShiftChunk(p, lead));
      ChunkFacts(Now(), p, lead);
      ghost var was := pieces;
      ok := LookupAddMmap(p + lead, size, pieces[p]);
      if ok {
        LookupDeleteMmap(p);
        assert pieces == (was - {p})[p + lead := was[p]];
      }
    }

    method UnmapChunk(p: int, block: int, total: int)
      requires Valid() && p in pieces && Possible(Now(), Op.UnmapChunk(p)) && pieces[p] == Piece(block, total)
      modifies this, space, mmapTbl.Footprint()
      ensures Valid() && Now() == Step(old(Now()), Op.UnmapChunk(p)) && Footprint() == old(Footprint())
    {
      hide L.Lfht.Valid, Inv;
      StepKeepsInv(Now(), Op.UnmapChunk(p));
      ChunkFacts(Now(), p, 16);
      LookupDeleteMmap(p);
      space.Munmap(block, total);
    }

    /** The main arena's region begins, or goes on where it ends. */
    method GrowSbrk(addr: int, n: int)
      requires Valid() && Possible(Now(), Op.GrowSbrk(addr, n))
      modifies this, space
      ensures Valid() && Now() == Step(old(Now()), Op.GrowSbrk(addr, n)) && Footprint() == old(Footprint())
    {
      hide L.Lfht.Valid, Inv;
      StepKeepsInv(Now(), Op.GrowSbrk(addr, n));
      space.mapped := space.mapped + Range(addr, n);
      var region := regions[0];
      if region == Region(0, 0) {
        region := Region(addr, addr);
      }
      regions := regions[0 := Region(region.lo, region.hi + n)];
    }

    method ShrinkSbrk(n: int)
      requires Valid() && Possible(Now(), Op.ShrinkSbrk(n))
      modifies this, space
      ensures Valid() && Now() == Step(old(Now()), Op.ShrinkSbrk(n)) && Footprint() == old(Footprint())
    {
      hide L.Lfht.Valid, Inv;
      StepKeepsInv(Now(), Op.ShrinkSbrk(n));
      space.Munmap(regions[0].hi - n, n);
      regions := regions[0 := Region(regions[0].lo, regions[0].hi - n)];
    }

    /** Memory of the main arena that was mapped because sbrk failed is a region of its own. */
    method AddRegion(reply: Reply, n: int)
      requires Valid() && Possible(Now(), Op.AddRegion(reply, n))
      modifies this, space
      ensures Valid() && Now() == Step(old(Now()), Op.AddRegion(reply, n)) && Footprint() == old(Footprint())
    {
      hide L.Lfht.Valid, Inv;
      StepKeepsInv(Now(), Op.AddRegion(reply, n));
      if reply.At? {
        space.mapped := space.mapped + Range(reply.addr, n);
        regions := regions + [Region(reply.addr, reply.addr + n)];
      }
    }
  }
}
