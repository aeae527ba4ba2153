/** Runs of a large bin: chunks are freed into it, taken off it by their records, and served from it. */
module LargeBinRuns {
  import opened Sequences
  import opened Wrappers
  import opened Chains
  import opened Rings
  import opened LargeBins

  /** The chunks of the bin, with their sizes. */
  type Held = map<Ref, int>

  datatype Op =
    | Put(v: Ref, n: int)   // a chunk of `n` bytes is freed and sorted into the bin
    | Take(v: Ref)          // a chunk is joined with a neighbour
    | Fit(nb: int)          // a request of `nb` bytes is served from its own bin
    | Last                  // a smaller request is served from a higher bin

  /** The bin has the chunks of `held`, no more and no less. */
  ghost predicate Holds(bin: LargeBin, held: Held)
    reads bin
  {
    && bin.Valid() && bin.header !in held
    && (forall x {:trigger x in held} {:trigger x in bin.order} :: x in held <==> x in bin.order)
    && (forall x {:trigger held[x]} | x in held :: held[x] == SizeOf(bin.size, x) > 0)
  }

  method Put(bin: LargeBin, held: Held, v: Ref, n: int)
    requires Holds(bin, held) && Allowed(bin.header, held, Op.Put(v, n))
    modifies bin
    ensures Holds(bin, held[v := n])
  {
    hide Fits, Goes, Rings.Ring;
    bin.Recycle(v, n);
    ghost var order := bin.order;
    ghost var k := bin.Insert(v);
    InsertedMembers(order, k, v);
  }

  predicate Allowed(header: Ref, held: Held, op: Op) {
    match op
    case Put(v, n) => v != NIL && v != header && v !in held && n > 0
    case Take(v) => v in held
    case Fit(nb) => nb > 0
    case Last => true
  }

  /** What is in the bin after a step, which may have served a chunk. */
  function After(held: Held, op: Op, served: Option<Ref>): Held {
    match op
    case Put(v, n) => held[v := n]
    case Take(v) => held - {v}
    case _ => if served.Some? then held - {served.value} else held
  }

  /** Whether the right chunk was served, if any; `joined` says whether the bin was on its own ring. */
  predicate Right(held: Held, joined: bool, op: Op, served: Option<Ref>) {
    match op
    case Put(_, _) => served == None
    case Take(_) => served == None
    case Fit(nb) =>
      if served.Some? then
        && served.value in held && held[served.value] >= nb
        && (!joined ==> forall x {:trigger held[x]} | x in held && held[x] >= nb :: held[x] >= held[served.value])
      else (!joined || held == map[]) ==> forall x {:trigger held[x]} | x in held :: held[x] < nb
    case Last =>
      if served.Some? then
        served.value in held && (!joined ==> forall x {:trigger held[x]} | x in held :: held[x] >= held[served.value])
      else held == map[]
  }

  /** Before a step, and what came of it. */
  datatype Event = Event(held: Held, joined: bool, op: Op, served: Option<Ref>)

  lemma AtPosition(bin: LargeBin, held: Held, x: Ref) returns (k: int)
    requires Holds(bin, held) && x in held
    ensures 0 <= k < |bin.order| && bin.order[k] == x && Distinct(bin.order)
  {
    assert x in bin.order;
    k := PositionOf(bin.order, x);
    ListFacts(bin.fd, bin.bk, bin.header, bin.order, k);
  }

  method Drop(bin: LargeBin, held: Held, v: Ref, ghost k: int)
    requires Holds(bin, held) && v in held && 0 <= k < |bin.order| && bin.order[k] == v && Distinct(bin.order)
    modifies bin
    ensures Holds(bin, held - {v})
  {
    hide Fits, Rings.Ring, Distinct;
    RemovedMembers(bin.order, k);
    bin.Unlink(v, k);
  }

  /** In a bin that is not on its own ring the first chunk is the largest and the last one the smallest. */
  lemma FirstIsLargest(bin: LargeBin, held: Held)
    requires Holds(bin, held) && !bin.Joined()
    ensures bin.order != [] ==> forall x {:trigger held[x]} | x in held ::
              held[x] <= SizeOf(bin.size, bin.order[0]) && held[x] >= SizeOf(bin.size, bin.order[|bin.order| - 1])
  {
    hide Leaders, Loose;
    forall x {:trigger held[x]} | x in held && bin.order != []
      ensures held[x] <= SizeOf(bin.size, bin.order[0]) && held[x] >= SizeOf(bin.size, bin.order[|bin.order| - 1])
    {
      var k := AtPosition(bin, held, x);
      assert Sorted(bin.size, bin.order);
    }
  }

  method Serve(bin: LargeBin, held: Held, nb: int) returns (served: Option<Ref>)
    requires Holds(bin, held) && nb > 0
    modifies bin
    ensures Holds(bin, After(held, Fit(nb), served)) && Right(held, old(bin.Joined()), Fit(nb), served)
  {
    hide Fits, Rings.Ring, Distinct;
    HeaderFacts(bin.fd, bin.bk, bin.header, bin.order);
    var first := Get(bin.fd, bin.header);
    served := None;
    if first != bin.header && SizeOf(bin.size, first) >= nb {
      assert bin.order != [];
      var victim;
      ghost var k;
      victim, k := bin.Scan(nb);
      served := Some(victim);
      assert victim in bin.order;
      ListFacts(bin.fd, bin.bk, bin.header, bin.order, k);
      Drop(bin, held, victim, k);
    } else if !bin.Joined() {
      FirstIsLargest(bin, held);
    }
  }

  lemma KeysAreOrder(bin: LargeBin, held: Held)
    requires Holds(bin, held)
    ensures held.Keys == set x | x in bin.order
  {
    hide Fits, Rings.Ring;
    var keys := set x | x in bin.order;
    forall x {:trigger x in held} {:trigger x in keys} ensures x in held <==> x in keys {
      assert x in bin.order <==> x in held;
    }
  }

  method ServeLast(bin: LargeBin, held: Held) returns (served: Option<Ref>)
    requires Holds(bin, held)
    modifies bin
    ensures Holds(bin, After(held, Last, served)) && Right(held, old(bin.Joined()), Last, served)
  {
    hide Fits, Rings.Ring, Distinct;
    HeaderFacts(bin.fd, bin.bk, bin.header, bin.order);
    var last := Get(bin.bk, bin.header);
    served := None;
    KeysAreOrder(bin, held);
    if last != bin.header {
      ghost var k := |bin.order| - 1;
      served := Some(last);
      ListFacts(bin.fd, bin.bk, bin.header, bin.order, k);
      if !bin.Joined() { FirstIsLargest(bin, held); }
      Drop(bin, held, last, k);
    }
  }

  /** A step of the bin. */
  method Step(bin: LargeBin, held: Held, op: Op) returns (served: Option<Ref>)
    requires Holds(bin, held) && Allowed(bin.header, held, op)
    modifies bin
    ensures Holds(bin, After(held, op, served)) && Right(held, old(bin.Joined()), op, served)
  {
    served := None;
    match op
    case Put(v, n) => Put(bin, held, v, n);
    case Take(v) =>
      ghost var k := AtPosition(bin, held, v);
      Drop(bin, held, v, k);
    case Fit(nb) => served := Serve(bin, held, nb);
    case Last => served := ServeLast(bin, held);
  }

  function HeldAt(events: seq<Event>, n: nat, held: Held): Held { if n < |events| then events[n].held else held }

  function HeldAfter(header: Ref, e: Event): Held {
    if Allowed(header, e.held, e.op) then After(e.held, e.op, e.served) else e.held
  }

  // ---------- Runs ----------

  /** What is in the bin after some steps; steps that are not allowed are not made. */
  ghost predicate Traced(header: Ref, ops: seq<Op>, events: seq<Event>, held: Held) {
    && |events| == |ops| && (forall n {:trigger events[n]} | 0 <= n < |ops| :: events[n].op == ops[n])
    && (if events == [] then held == map[] else events[0].held == map[])
    && (forall n {:trigger events[n]} | 0 <= n < |events| ::
          HeldAt(events, n + 1, held) == HeldAfter(header, events[n]))
  }

  predicate RightEvent(header: Ref, e: Event) {
    if Allowed(header, e.held, e.op) then Right(e.held, e.joined, e.op, e.served) else e.served == None
  }

  lemma OneMore(header: Ref, ops: seq<Op>, i: nat, events: seq<Event>, held: Held, e: Event)
    requires i < |ops| && Traced(header, ops[..i], events, held) && e.held == held && e.op == ops[i]
    ensures Traced(header, ops[..i + 1], events + [e], HeldAfter(header, e))
  {
    var events', held' := events + [e], HeldAfter(header, e);
    forall n {:trigger events'[n]} | 0 <= n < |events'|
      ensures HeldAt(events', n + 1, held') == HeldAfter(header, events'[n])
    {
      assert n < i ==> events'[n] == events[n] && HeldAt(events, n + 1, held) == HeldAfter(header, events[n]);
    }
  }

  /** Over any sequence of steps every chunk that is served is right. */
  method Run(bin: LargeBin, ops: seq<Op>) returns (held: Held, events: seq<Event>)
    requires bin.Valid() && bin.order == []
    modifies bin
    ensures Holds(bin, held) && Traced(bin.header, ops, events, held)
    ensures forall n {:trigger events[n]} | 0 <= n < |events| :: RightEvent(bin.header, events[n])
  {
    held, events := map[], [];
    for i := 0 to |ops|
      invariant Holds(bin, held) && Traced(bin.header, ops[..i], events, held)
      invariant forall n {:trigger events[n]} | 0 <= n < |events| :: RightEvent(bin.header, events[n])
    {
      hide Right, Fits, Rings.Ring, Allowed;
      var e := Event(held, bin.Joined(), ops[i], None);
      if Allowed(bin.header, held, ops[i]) {
        var served := Step(bin, held, ops[i]);
        e := e.(served := served);
      }
      OneMore(bin.header, ops, i, events, held, e);
      held, events := HeldAfter(bin.header, e), events + [e];
    }
    assert ops[..|ops|] == ops;
  }
}
