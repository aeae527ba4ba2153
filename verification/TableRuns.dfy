/** Runs of the linear hash table: any sequence of calls, what they answer and when the table changes size. */
module TableRuns {
  import opened Chains
  import opened Binning
  import opened LinearHash

  /** The records of each key, the one added last in front. */
  type Stacks = int -> seq<Ref>

  datatype Call = Add(b: Ref, chunk: int) | Lookup(chunk: int) | Delete(chunk: int) | DeleteAll(chunk: int)

  /** After a call: the size of the table, what the call deleted and, for a lookup, what it found. */
  datatype Event = Event(count: int, bincount: int, deleted: int, found: Ref)

  function Apply(st: Stacks, call: Call): Stacks {
    match call
    case Add(b, c) => k => if k == c then [b] + st(k) else st(k)
    case Lookup(c) => st
    case Delete(c) => k => if k == c && st(k) != [] then st(k)[1..] else st(k)
    case DeleteAll(c) => k => if k == c then [] else st(k)
  }

  function After(st: Stacks, calls: seq<Call>): Stacks {
    if calls == [] then st else Apply(After(st, calls[..|calls| - 1]), calls[|calls| - 1])
  }

  /** How many records a call takes out. */
  function Gone(st: Stacks, call: Call): int {
    match call
    case Add(_, _) => 0
    case Lookup(_) => 0
    case Delete(c) => if st(c) == [] then 0 else 1
    case DeleteAll(c) => |st(c)|
  }

  function Found(st: Stacks, call: Call): Ref { if call.Lookup? then At(st(call.chunk), 0) else NIL }

  /** Only a record that no key has at that time is added. */
  ghost predicate Allowed(st: Stacks, call: Call) {
    call.Add? ==> call.b != NIL && forall k {:trigger st(k)} :: call.b !in st(k)
  }

  /** The table grows after an add that overfills it and shrinks after a deletion that leaves it too empty. */
  predicate Sizes(prev: Event, e: Event, call: Call) {
    && e.deleted >= 0 && e.count == prev.count + (if call.Add? then 1 else 0) - e.deleted
    && prev.bincount - 1 <= e.bincount <= prev.bincount + 1
    && (e.bincount == prev.bincount + 1 ==> e.count >= (MAX_LOAD + 1) * prev.bincount)
    && (e.bincount == prev.bincount - 1 ==> e.count < MIN_LOAD * prev.bincount)
  }

  /** The records deleted by the calls that led to events `i` to `j - 1`. */
  function Deleted(events: seq<Event>, i: int, j: int): int
    requires 0 <= i && j <= |events|
    decreases j - i
  {
    if i >= j then 0 else Deleted(events, i, j - 1) + events[j - 1].deleted
  }

  ghost predicate Told(events: seq<Event>, calls: seq<Call>) {
    |events| == |calls| + 1 && forall i {:trigger calls[i]} | 0 <= i < |calls| ::
        Sizes(events[i], events[i + 1], calls[i])
  }

  predicate Grows(events: seq<Event>, i: int) {
    0 < i < |events| && events[i].bincount == events[i - 1].bincount + 1
  }

  predicate Shrinks(events: seq<Event>, i: int) {
    0 < i < |events| && events[i].bincount == events[i - 1].bincount - 1
  }

  /** As long as the table does not shrink, what an expansion to event `i` left is still there or was deleted. */
  lemma {:induction false} SurplusAfter(events: seq<Event>, calls: seq<Call>, i: int, k: int)
    requires Told(events, calls) && Grows(events, i) && i <= k < |events|
    requires forall m {:trigger Shrinks(events, m)} | i < m <= k :: !Shrinks(events, m)
    ensures events[k].bincount >= events[i].bincount
    ensures events[k].count + Deleted(events, i + 1, k + 1) >= (MAX_LOAD + 1) * (events[k].bincount - 1)
    ensures Deleted(events, i + 1, k + 1) >= 0
    decreases k
  {
    assert Sizes(events[k - 1], events[k], calls[k - 1]);
    if i < k {
      SurplusAfter(events, calls, i, k - 1);
      assert !Shrinks(events, k);
    }
  }

  /** Between an expansion to b bins and the next contraction at least 2b - 3 records are deleted. */
  lemma ResizesAreApart(events: seq<Event>, calls: seq<Call>, i: int, j: int)
    requires Told(events, calls) && Grows(events, i) && i < j && Shrinks(events, j)
    requires forall m {:trigger Shrinks(events, m)} | i < m < j :: !Shrinks(events, m)
    ensures Deleted(events, i + 1, j + 1) >= 2 * events[i].bincount - 3
  {
    SurplusAfter(events, calls, i, j - 1);
    assert Sizes(events[j - 1], events[j], calls[j - 1]);
  }

  /** Makes one call. */
  method Step(t: Metadata, call: Call, ghost st: Stacks) returns (e: Event)
    requires t.Valid() && (forall k {:trigger t.StackOf(k)} :: t.StackOf(k) == st(k)) && Allowed(st, call)
    modifies t.Footprint()
    ensures t.Valid() && fresh(t.Footprint() - old(t.Footprint()))
    ensures forall k {:trigger t.StackOf(k)} :: t.StackOf(k) == Apply(st, call)(k)
    ensures Sizes(Event(old(t.count), old(t.bincount), 0, NIL), e, call)
    ensures e == Event(t.count, t.bincount, Gone(st, call), Found(st, call))
  {
    hide Metadata.Valid;
    var deleted, found := 0, NIL;
    match call {
      case Add(b, chunk) =>
        assert forall k {:trigger t.StackOf(k)} :: t.StackOf(k) == st(k) && b !in st(k);
        t.InNoChain(b);
        t.Add(b, chunk);
      case Lookup(chunk) =>
        found := t.Lookup(chunk);
      case Delete(chunk) =>
        var gone := t.Delete(chunk);
        deleted := if gone then 1 else 0;
      case DeleteAll(chunk) =>
        deleted := t.DeleteAll(chunk);
    }
    e := Event(t.count, t.bincount, deleted, found);
  }

  /** The records added by the calls are ones that no key has at that time. */
  ghost predicate AllAllowed(st: Stacks, calls: seq<Call>) {
    forall i {:trigger calls[i]} | 0 <= i < |calls| :: Allowed(After(st, calls[..i]), calls[i])
  }

  /** Every call deletes and finds what it should. */
  ghost predicate Right(st: Stacks, calls: seq<Call>, events: seq<Event>) {
    && |events| == |calls| + 1
    && forall i {:trigger calls[i]} | 0 <= i < |calls| ::
         && events[i + 1].deleted == Gone(After(st, calls[..i]), calls[i])
         && events[i + 1].found == Found(After(st, calls[..i]), calls[i])
  }

  /** The table does not shrink between events `i` and `j`. */
  ghost predicate GrowsOn(events: seq<Event>, i: int, j: int) {
    forall m {:trigger Shrinks(events, m)} | i < m < j :: !Shrinks(events, m)
  }

  /** Between an expansion to b bins and the next contraction at least 2b - 3 records are deleted. */
  ghost predicate Apart(events: seq<Event>) {
    forall i, j {:trigger Grows(events, i), Shrinks(events, j)} |
      Grows(events, i) && i < j && Shrinks(events, j) && GrowsOn(events, i, j) ::
      Deleted(events, i + 1, j + 1) >= 2 * events[i].bincount - 3
  }

  lemma ToldIsApart(events: seq<Event>, calls: seq<Call>)
    requires Told(events, calls)
    ensures Apart(events)
  {
    forall i, j {:trigger Grows(events, i), Shrinks(events, j)} |
      Grows(events, i) && i < j && Shrinks(events, j) && GrowsOn(events, i, j)
      ensures Deleted(events, i + 1, j + 1) >= 2 * events[i].bincount - 3
    {
      ResizesAreApart(events, calls, i, j);
    }
  }

  /** One more call. */
  lemma OneMore(st: Stacks, calls: seq<Call>, events: seq<Event>, call: Call, e: Event)
    requires Told(events, calls) && Right(st, calls, events) && Sizes(events[|calls|], e, call)
    requires e.deleted == Gone(After(st, calls), call) && e.found == Found(After(st, calls), call)
    ensures Told(events + [e], calls + [call]) && Right(st, calls + [call], events + [e])
    ensures After(st, calls + [call]) == Apply(After(st, calls), call)
  {
    var calls' := calls + [call];
    assert calls'[..|calls|] == calls;
    forall i {:trigger calls'[i]} | 0 <= i < |calls'|
      ensures (events + [e])[i + 1].deleted == Gone(After(st, calls'[..i]), calls'[i])
      ensures (events + [e])[i + 1].found == Found(After(st, calls'[..i]), calls'[i])
    {
      if i < |calls| { assert calls'[..i] == calls[..i] && calls'[i] == calls[i]; }
    }
  }

  lemma NoCalls(st: Stacks, events: seq<Event>)
    requires |events| == 1
    ensures Told(events, []) && Right(st, [], events) && After(st, []) == st
  {
  }

  /** What comes next depends on the sizes only. */
  lemma SizesFrom(a: Event, b: Event)
    requires a.count == b.count && a.bincount == b.bincount
    ensures forall e, call {:trigger Sizes(b, e, call)} :: Sizes(a, e, call) == Sizes(b, e, call)
  {
  }

  /**
   After any calls the table holds the stacks that the calls lead to, every call has deleted and found what it
   should, and resizes that undo each other are apart.
   */
  method Run(t: Metadata, calls: seq<Call>, ghost st: Stacks) returns (events: seq<Event>)
    requires t.Valid() && (forall k {:trigger t.StackOf(k)} :: t.StackOf(k) == st(k)) && AllAllowed(st, calls)
    modifies t.Footprint()
    ensures t.Valid() && forall k {:trigger t.StackOf(k)} :: t.StackOf(k) == After(st, calls)(k)
    ensures Right(st, calls, events) && Told(events, calls) && Apart(events)
    ensures events[|calls|].count == t.count && events[|calls|].bincount == t.bincount
  {
    hide Metadata.Valid, Right, Apart, Sizes, After, Gone, Found, Apply, Allowed;
    events := [Event(t.count, t.bincount, 0, NIL)];
    var n := 0;
    NoCalls(st, events);
    while n < |calls|
      invariant 0 <= n <= |calls| && t.Valid() && fresh(t.Footprint() - old(t.Footprint()))
      invariant forall k {:trigger t.StackOf(k)} :: t.StackOf(k) == After(st, calls[..n])(k)
      invariant Told(events, calls[..n]) && Right(st, calls[..n], events)
      invariant events[n].count == t.count && events[n].bincount == t.bincount
    {
      SizesFrom(Event(t.count, t.bincount, 0, NIL), events[n]);
      var e := Step(t, calls[n], After(st, calls[..n]));
      OneMore(st, calls[..n], events, calls[n], e);
      assert calls[..n + 1] == calls[..n] + [calls[n]];
      events := events + [e];
      n := n + 1;
    }
    assert calls[..n] == calls;
    ToldIsApart(events, calls);
  }
}
