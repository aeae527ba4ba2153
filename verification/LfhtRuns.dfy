/** Runs of the expanding hash table by one thread: what its calls answer, and how long a migration goes on. */
module LfhtRuns {
  import opened ProbeTable
  import opened Lfht

  datatype Call = Add(key: int, val: int) | Remove(key: int) | Find(key: int)

  predicate Allowed(call: Call) {
    match call
    case Add(key, val) => IsKey(key) && val != TOMBSTONE
    case Remove(key) => key > 0
    case Find(key) => key > 0
  }

  /** The size of the current table and whether it is being filled from an old one, and what the call answered. */
  datatype Event = Event(max: int, expanding: bool, ok: bool, val: int)

  /** What the table stands for after a call. */
  function After(model: map<int, int>, call: Call, e: Event): map<int, int> {
    match call
    case Add(key, val) => if e.ok then model[key := val] else model
    case Remove(key) => model - {key}
    case Find(_) => model
  }

  predicate Right(model: map<int, int>, call: Call, e: Event) {
    match call
    case Add(_, _) => e.ok || e.max == MAX_TABLE_SIZE
    case Remove(key) => key in model ==> e.ok
    case Find(key) => (if e.ok then e.val else TOMBSTONE) == Lookup(model, key)
  }

  /** What the table stands for after the calls. */
  function Stored(calls: seq<Call>, events: seq<Event>): map<int, int>
    requires |events| == |calls| + 1
  {
    if calls == [] then map[]
    else
      var n := |calls| - 1;
      After(Stored(calls[..n], events[..n + 1]), calls[n], events[n + 1])
  }

  predicate RightAt(calls: seq<Call>, events: seq<Event>, n: int)
    requires |events| == |calls| + 1 && 0 <= n < |calls|
  {
    Right(Stored(calls[..n], events[..n + 1]), calls[n], events[n + 1])
  }

  // ---------- How long a migration goes on ----------

  predicate Grows(events: seq<Event>, i: int) { 0 < i < |events| && events[i].max != events[i - 1].max }

  /** From the growth before event `i` on the old table is being emptied, and no other one comes in front. */
  predicate Migrates(events: seq<Event>, i: int, j: int) {
    && Grows(events, i) && i <= j < |events|
    && (forall m {:trigger events[m]} | i <= m <= j :: events[m].expanding && (m > i ==> !Grows(events, m)))
  }

  /** A table doubles in size, and a migration goes on for no more calls than that. */
  ghost predicate Timely(events: seq<Event>) {
    && (forall i {:trigger Grows(events, i)} | Grows(events, i) ::
          events[i].max == 2 * events[i - 1].max && events[i].expanding)
    && (forall i, j {:trigger Migrates(events, i, j)} | Migrates(events, i, j) ::
          j - i <= (Threshold(events[i - 1].max) + 1) / 3)
  }

  /** What is known of the migration that is going on. */
  ghost predicate Since(t: Lfht, events: seq<Event>, i: int)
    reads t, t.Footprint()
  {
    && t.Valid() && |events| > 0
    && events[|events| - 1].max == t.hdr.max && (events[|events| - 1].expanding <==> t.state == Expanding)
    && (t.state == Expanding ==>
          && 0 < i < |events| && Grows(events, i) && t.hdr.next != null && t.hdr.next.max == events[i - 1].max
          && t.taxed == |events| - 1 - i && (forall m {:trigger Grows(events, m)} | i < m :: !Grows(events, m)))
  }

  /** One more call. */
  method Step(t: Lfht, call: Call) returns (e: Event)
    requires t.Valid() && Allowed(call)
    modifies t.Footprint()
    ensures t.Valid() && fresh(t.Footprint() - old(t.Footprint()))
    ensures t.model == After(old(t.model), call, e) && Right(old(t.model), call, e)
    ensures e.max == t.hdr.max && (e.expanding <==> t.state == Expanding)
    ensures t.hdr != old(t.hdr) ==>
              && t.state == Expanding && t.hdr.next == old(t.hdr) && t.hdr.max == 2 * old(t.hdr.max) && t.taxed == 0
    ensures t.hdr == old(t.hdr) && t.state == Expanding ==> old(t.state) == Expanding && t.taxed == old(t.taxed) + 1
  {
    hide Lfht.Valid;
    var ok, val := true, TOMBSTONE;
    match call {
      case Add(key, val') =>
        ok := t.Add(key, val');
      case Remove(key) =>
        ok := t.Remove(key);
      case Find(key) =>
        t.ModelIsProper();
        ok, val := t.Find(key);
    }
    t.HasRoom();
    e := Event(t.hdr.max, t.state == Expanding, ok, val);
  }

  lemma GrowsOn(events: seq<Event>, e: Event)
    requires |events| > 0
    ensures forall m {:trigger Grows(events + [e], m)} ::
              Grows(events + [e], m) <==> Grows(events, m) || (m == |events| && e.max != events[|events| - 1].max)
    ensures forall m {:trigger (events + [e])[m]} | 0 <= m < |events| :: (events + [e])[m] == events[m]
  {
  }

  /** The bound at the last event. */
  lemma LastIsTimely(t: Lfht, events: seq<Event>, i: int, i': int)
    requires Since(t, events, i) && Migrates(events, i', |events| - 1)
    ensures |events| - 1 - i' <= (Threshold(events[i' - 1].max) + 1) / 3
  {
    assert events[|events| - 1].expanding && i' == i;
    t.MigrationEnds();
  }

  lemma StaysTimely(t: Lfht, events: seq<Event>, e: Event, i: int)
    requires Timely(events) && |events| > 0 && Since(t, events + [e], i)
    requires e.max != events[|events| - 1].max ==> e.max == 2 * events[|events| - 1].max && e.expanding
    ensures Timely(events + [e])
  {
    hide Since;
    var all, last := events + [e], |events|;
    forall k {:trigger Grows(all, k)} | Grows(all, k) ensures all[k].max == 2 * all[k - 1].max && all[k].expanding {
      assert k < last ==> Grows(events, k);
    }
    forall k, j {:trigger Migrates(all, k, j)} | Migrates(all, k, j)
      ensures j - k <= (Threshold(all[k - 1].max) + 1) / 3
    {
      if j == last {
        LastIsTimely(t, all, i, k);
      } else {
        assert forall m {:trigger events[m]} | 0 <= m < last :: all[m] == events[m];
        assert forall m {:trigger Grows(events, m)} | k < m <= j :: Grows(events, m) ==> Grows(all, m);
        assert Migrates(events, k, j);
      }
    }
  }

  lemma OneMore(calls: seq<Call>, events: seq<Event>, call: Call, e: Event)
    requires |events| == |calls| + 1 && forall n {:trigger RightAt(calls, events, n)} | 0 <= n < |calls| ::
               RightAt(calls, events, n)
    requires Right(Stored(calls, events), call, e)
    ensures Stored(calls + [call], events + [e]) == After(Stored(calls, events), call, e)
    ensures forall n {:trigger RightAt(calls + [call], events + [e], n)} | 0 <= n <= |calls| ::
              RightAt(calls + [call], events + [e], n)
  {
    var calls', events' := calls + [call], events + [e];
    assert calls'[..|calls|] == calls && events'[..|events|] == events;
    forall n {:trigger RightAt(calls', events', n)} | 0 <= n <= |calls| ensures RightAt(calls', events', n) {
      if n < |calls| {
        assert calls'[..n] == calls[..n] && events'[..n + 1] == events[..n + 1];
        assert RightAt(calls, events, n);
      }
    }
  }

  /** One more call, and what it means for the migration that is going on. */
  method Next(t: Lfht, ghost events: seq<Event>, ghost i: int, call: Call) returns (e: Event, ghost i': int)
    requires t.Valid() && Allowed(call) && Since(t, events, i) && Timely(events)
    modifies t.Footprint()
    ensures t.Valid() && fresh(t.Footprint() - old(t.Footprint())) && Since(t, events + [e], i') && Timely(events + [e])
    ensures t.model == After(old(t.model), call, e) && Right(old(t.model), call, e)
    ensures e.max == t.hdr.max && (e.expanding <==> t.state == Expanding)
  {
    hide Lfht.Valid, Right, Timely;
    ghost var hdr := t.hdr;
    t.HasRoom();
    e := Step(t, call);
    i' := if t.hdr != hdr then |events| else i;
    GrowsOn(events, e);
    assert Since(t, events + [e], i');
    StaysTimely(t, events, e, i');
  }

  lemma NothingYet(events: seq<Event>)
    requires |events| == 1
    ensures Timely(events)
  {
  }

  lemma StoredFirst(events: seq<Event>)
    requires |events| == 1
    ensures Stored([], events) == map[]
  {
  }

  /**
   The answers of all calls are those of a map. After a growth the old table is empty again, or another one has come
   in front, at the latest one call after floor((T + 1) / 3) calls, where T is the threshold of the old table.
   */
  method Run(t: Lfht, calls: seq<Call>) returns (events: seq<Event>)
    requires t.Valid() && t.state != Expanding && t.model == map[]
    requires forall n {:trigger calls[n]} | 0 <= n < |calls| :: Allowed(calls[n])
    modifies t.Footprint()
    ensures t.Valid() && |events| == |calls| + 1 && t.model == Stored(calls, events) && Timely(events)
    ensures forall n {:trigger RightAt(calls, events, n)} | 0 <= n < |calls| :: RightAt(calls, events, n)
    ensures events[0].max == old(t.hdr.max) && events[|calls|].max == t.hdr.max
    ensures events[|calls|].expanding <==> t.state == Expanding
  {
    hide Lfht.Valid, Right, Timely, Stored;
    events := [Event(t.hdr.max, false, true, TOMBSTONE)];
    ghost var i := 0;
    NothingYet(events);
    assert Stored([], events) == map[] by { StoredFirst(events); }
    for n := 0 to |calls|
      invariant t.Valid() && fresh(t.Footprint() - old(t.Footprint())) && |events| == n + 1
      invariant t.model == Stored(calls[..n], events) && Timely(events) && Since(t, events, i)
      invariant forall k {:trigger RightAt(calls[..n], events, k)} | 0 <= k < n :: RightAt(calls[..n], events, k)
      invariant events[0].max == old(t.hdr.max)
    {
      var e;
      e, i := Next(t, events, i, calls[n]);
      OneMore(calls[..n], events, calls[n], e);
      assert calls[..n + 1] == calls[..n] + [calls[n]];
      events := events + [e];
    }
    assert calls[..|calls|] == calls;
  }
}
