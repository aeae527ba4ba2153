/** Runs of a client: any sequence of calls to one arena, and of stores into the chunks that it has. */
module Runs {
  import opened Layout
  import opened BinIndex
  import opened Records
  import opened HeapState
  import opened HeapFacts
  import opened Arenas

  /** Whether the system extends the region, and for its first extension where it starts. */
  datatype Mood = Mood(granted: bool, brk: int, corrected: bool)

  datatype Call =
    | Malloc(bytes: nat, mood: Mood)
    | Free(mem: int)
    | Realloc(mem: int, bytes: nat, mood: Mood)
    | Memalign(alignment: int, bytes: nat, mood: Mood)
    | Store(mem: int, i: int, v: int)

  /** What a call answers; a chunk comes with the bytes that it has. */
  datatype Answer = Got(addr: int, bytes: seq<int>) | Done | Failed

  // ---------- What a client can expect ----------

  /** The chunks that a client has, and what it has in them. */
  type Ledger = map<int, seq<int>>

  /** What memalign cannot be asked for: its guard would let the request through, and it would wrap. */
  predicate NotForMemalign(alignment: int, bytes: int) {
    alignment > MALLOC_ALIGNMENT && MemalignWraps(alignment, bytes)
  }

  predicate InChunk(mine: Ledger, mem: int, i: int) { mem in mine && 0 <= i < |mine[mem]| }

  /** What the client has after a call. */
  function After(mine: Ledger, call: Call, answer: Answer): Ledger {
    match call
    case Malloc(_, _) => if answer.Got? then mine[answer.addr := answer.bytes] else mine
    case Memalign(_, _, _) => if answer.Got? then mine[answer.addr := answer.bytes] else mine
    case Free(mem) => mine - {mem}
    case Realloc(mem, _, _) => if answer.Got? then (mine - {mem})[answer.addr := answer.bytes] else mine
    case Store(mem, i, v) => if InChunk(mine, mem, i) then mine[mem := mine[mem][i := v]] else mine
  }

  /** What the client has after some calls, when it had nothing before. */
  function Owned(calls: seq<Call>, answers: seq<Answer>): Ledger
    requires |calls| == |answers|
  {
    if calls == [] then map[]
    else
      var n := |calls| - 1;
      After(Owned(calls[..n], answers[..n]), calls[n], answers[n])
  }

  /** The heap and the memory between two calls. */
  datatype Moment = Moment(s: State, m: int -> int)

  ghost predicate HasContents(now: Moment, a: int, bytes: seq<int>) {
    && a in HeldBy(now.s) && |bytes| == HeldBy(now.s)[a].0.size
    && forall i {:trigger bytes[i]} | 0 <= i < |bytes| :: now.m(a + i) == bytes[i]
  }

  /** The heap is well formed, the client's chunks are those of the ledger, and so is what is in them. */
  ghost predicate Holds(now: Moment, mine: Ledger) {
    && Ok(now.s) && mine.Keys == HeldBy(now.s).Keys
    && forall a {:trigger mine[a]} | a in mine :: HasContents(now, a, mine[a])
  }

  /** The answer of a system in that mood: it goes on where the region ends. */
  function Told(s: State, mood: Mood): SbrkReply
    requires s.top in s.rs
  {
    if !mood.granted then Refused
    else if s.top != s.initial then Granted(s.rs[s.top].chunk + s.rs[s.top].size, mood.corrected)
    else if s.lo <= mood.brk && Aligned(mood.brk) then Granted(mood.brk, mood.corrected)
    else Refused
  }

  /** The constants of an arena. */
  datatype Settings = Settings(maxFast: int, topPad: int, pageSize: int)

  /**
   A request is out of range, or neither the lists nor top have anything for it and the system does not extend top far
   enough.
   */
  ghost predicate CannotServe(g: Settings, s: State, bytes: int, sys: SbrkReply)
    requires g.pageSize > 0
  {
    || RequestOutOfRange(bytes)
    || (NothingListed(s, RequestToSize(bytes)) && TopTooSmall(s, RequestToSize(bytes))
        && !Extends(sys, RequestToSize(bytes), s.rs[s.top].size, s.top == s.initial, g.topPad, g.pageSize, s.hi))
  }

  /** The chunk that a call answers, if it answers one, is that of a record. */
  predicate Names(s: State, answer: Answer, r: Ref) {
    if answer.Got? then r in s.rs && s.rs[r].chunk == answer.addr else r == NIL
  }

  /** The first bytes of a chunk, as many as a chunk of `nb` bytes can keep. */
  predicate KeptUpTo(nb: int, bytes: seq<int>, was: seq<int>) {
    nb >= 0 && Min(|was|, nb) <= |bytes| && bytes[..Min(|was|, nb)] == was[..Min(|was|, nb)]
  }

  /** Whether a call has answered as it should. */
  ghost predicate Right(g: Settings, mine: Ledger, call: Call, answer: Answer, before: Moment, now: Moment)
    requires g.pageSize > 0 && before.s.top in before.s.rs
  {
    match call
    case Malloc(bytes, mood) =>
      var nb := RequestToSize(bytes);
      && (if answer.Got? then !RequestOutOfRange(bytes) && answer.addr !in mine && nb <= |answer.bytes| < nb + MINSIZE
          else answer == Failed && CannotServe(g, now.s, bytes, Told(before.s, mood)))
      && (!RequestOutOfRange(bytes) ==>
            exists r {:trigger Names(now.s, answer, r)} ::
              Names(now.s, answer, r) && WellChosen(before.s, now.s, nb, g.maxFast, r))
    case Free(mem) =>
      if mem in mine then answer == Done && GivenBack(before.s, now.s, mem, g.maxFast)
      else answer == Failed && now == before
    case Realloc(mem, bytes, mood) =>
      var nb := RequestToSize(bytes);
      if mem !in mine then answer == Failed
      else if answer.Got? then
        && !RequestOutOfRange(bytes) && (answer.addr == mem || answer.addr !in mine)
        && nb <= |answer.bytes| < nb + MINSIZE && KeptUpTo(nb, answer.bytes, mine[mem])
        && (|mine[mem]| >= nb ==> |answer.bytes| == Trimmed(|mine[mem]|, nb))
        && (|mine[mem]| >= nb || GrowsInPlace(before.s, mem, nb) ==> answer.addr == mem)
      else
        && answer == Failed
        && (|| RequestOutOfRange(bytes)
            || (&& CannotServe(g, now.s, nb - 15, Told(before.s, mood))
                && |mine[mem]| < nb && !GrowsInPlace(before.s, mem, nb)))
    case Memalign(alignment, bytes, mood) =>
      var nb, a := RequestToSize(bytes), RoundedAlignment(alignment);
      if NotForMemalign(alignment, bytes) then answer == Failed
      else if answer.Got? then
        && !RequestOutOfRange(bytes) && answer.addr !in mine && nb <= |answer.bytes| <= nb + MINSIZE
        && (alignment > MALLOC_ALIGNMENT ==> MemalignGuard(alignment, bytes) && answer.addr % a == 0)
      else if alignment <= MALLOC_ALIGNMENT then
        answer == Failed && CannotServe(g, now.s, bytes, Told(before.s, mood))
      else
        && answer == Failed
        && (!MemalignGuard(alignment, bytes) || RequestOutOfRange(bytes)
            || CannotServe(g, now.s, PaddedRequest(nb, a), Told(before.s, mood)))
    case Store(mem, i, _) => answer == if InChunk(mine, mem, i) then Done else Failed
  }

  // ---------- How the ledger follows the heap ----------

  lemma ContentsStay(now: Moment, now': Moment, a: int, bytes: seq<int>)
    requires HasContents(now, a, bytes) && a in HeldBy(now'.s) && HeldBy(now'.s)[a] == HeldBy(now.s)[a]
    requires forall x {:trigger now'.m(x)} | a <= x < a + |bytes| :: now'.m(x) == now.m(x)
    ensures HasContents(now', a, bytes)
  {
  }

  /** The client's chunks are as before, up to chunk `a`, of which nothing is said. */
  lemma OthersStay(now: Moment, now': Moment, mine: Ledger, a: int)
    requires Holds(now, mine) && Ok(now'.s) && now'.m == now.m && HeldBy(now'.s) - {a} == HeldBy(now.s) - {a}
    ensures forall c {:trigger mine[c]} | c in mine && c != a :: HasContents(now', c, mine[c])
  {
    hide Ok, HeldBy, HasContents;
    forall c {:trigger mine[c]} | c in mine && c != a ensures HasContents(now', c, mine[c]) {
      assert c in HeldBy(now.s) - {a} && c in HeldBy(now'.s) - {a};
      assert (HeldBy(now'.s) - {a})[c] == (HeldBy(now.s) - {a})[c];
      ContentsStay(now, now', c, mine[c]);
    }
  }

  lemma HasFacts(now: Moment, a: int, bytes: seq<int>)
    requires HasContents(now, a, bytes)
    ensures a in HeldBy(now.s) && |bytes| == HeldBy(now.s)[a].0.size
  {
  }

  lemma HoldsMore(now: Moment, now': Moment, mine: Ledger, a: int, bytes: seq<int>)
    requires Holds(now, mine) && Ok(now'.s) && now'.m == now.m && HasContents(now', a, bytes)
    requires HeldBy(now'.s) - {a} == HeldBy(now.s) - {a}
    ensures Holds(now', mine[a := bytes])
  {
    hide Ok, HeldBy, HasContents;
    OthersStay(now, now', mine, a);
    HasFacts(now', a, bytes);
    assert HeldBy(now'.s).Keys - {a} == (HeldBy(now'.s) - {a}).Keys == (HeldBy(now.s) - {a}).Keys
        == HeldBy(now.s).Keys - {a};
    var mine' := mine[a := bytes];
    var held, held' := HeldBy(now.s).Keys, HeldBy(now'.s).Keys;
    assert mine'.Keys == held - {a} + {a} && held' == held' - {a} + {a};
    forall c {:trigger mine'[c]} | c in mine' ensures HasContents(now', c, mine'[c]) {
      if c != a { assert mine'[c] == mine[c]; }
    }
  }

  lemma HoldsLess(now: Moment, now': Moment, mine: Ledger, a: int)
    requires Holds(now, mine) && Ok(now'.s) && now'.m == now.m && HeldBy(now'.s) == HeldBy(now.s) - {a}
    ensures Holds(now', mine - {a})
  {
    hide Ok, HeldBy, HasContents;
    OthersStay(now, now', mine, a);
    forall c {:trigger (mine - {a})[c]} | c in mine - {a} ensures HasContents(now', c, (mine - {a})[c]) {
      assert (mine - {a})[c] == mine[c];
    }
  }

  lemma HoldsSame(now: Moment, now': Moment, mine: Ledger)
    requires Holds(now, mine) && Ok(now'.s) && now'.m == now.m && HeldBy(now'.s) == HeldBy(now.s)
    ensures Holds(now', mine)
  {
    hide Ok, HeldBy, HasContents;
    forall c {:trigger mine[c]} | c in mine ensures HasContents(now', c, mine[c]) {
      ContentsStay(now, now', c, mine[c]);
    }
  }

  /** Bytes are only moved into the chunk that takes the place of `a`. */
  lemma OthersKeepContents(now: Moment, now': Moment, mine: Ledger, a: int, nb: int, r: Ref, n: int)
    requires Holds(now, mine) && Ok(now'.s) && a in mine && Resized(now.s, now'.s, a, nb, r)
    requires n <= nb && Carried(now.m, now'.m, a, now'.s.rs[r].chunk, n)
    ensures forall c {:trigger mine[c]} | c in mine && c != a :: HasContents(now', c, mine[c])
  {
    hide Ok, HeldBy;
    var b := now'.s.rs[r].chunk;
    assert b in HeldBy(now'.s) && HeldBy(now'.s)[b].0.size >= nb;
    forall c {:trigger mine[c]} | c in mine && c != a ensures HasContents(now', c, mine[c]) {
      assert HasContents(now, c, mine[c]);
      assert c in HeldBy(now.s) && c != b && c in HeldBy(now'.s) && HeldBy(now'.s)[c] == HeldBy(now.s)[c];
      forall x {:trigger now'.m(x)} | c <= x < c + |mine[c]| ensures now'.m(x) == now.m(x) {
        if b != a { HeldChunksAreDisjoint(now'.s, c, b, x); }
      }
      ContentsStay(now, now', c, mine[c]);
    }
  }

  lemma HoldsMoved(now: Moment, now': Moment, mine: Ledger, a: int, nb: int, r: Ref, bytes: seq<int>)
    requires Holds(now, mine) && Ok(now'.s) && a in mine && nb >= 0 && Resized(now.s, now'.s, a, nb, r)
    requires Carried(now.m, now'.m, a, now'.s.rs[r].chunk, Min(|mine[a]|, nb))
    requires HasContents(now', now'.s.rs[r].chunk, bytes)
    ensures Holds(now', (mine - {a})[now'.s.rs[r].chunk := bytes]) && KeptUpTo(nb, bytes, mine[a])
    ensures nb <= |bytes| < nb + MINSIZE && (now'.s.rs[r].chunk == a || now'.s.rs[r].chunk !in mine)
  {
    hide Ok, HeldBy;
    var b := now'.s.rs[r].chunk;
    OthersKeepContents(now, now', mine, a, nb, r, Min(|mine[a]|, nb));
    assert HasContents(now, a, mine[a]);
    var n := Min(|mine[a]|, nb);
    forall i {:trigger bytes[i]} | 0 <= i < n ensures bytes[i] == mine[a][i] {
      assert now'.m(b + i) == bytes[i] && now.m(a + i) == mine[a][i];
    }
    assert bytes[..n] == mine[a][..n];
  }

  // ---------- The calls ----------

  ghost function Now(arena: Arena): Moment
    reads arena
  {
    Moment(arena.Now(), arena.mem)
  }

  ghost predicate Accounted(arena: Arena, mine: Ledger)
    reads arena
  {
    arena.Valid() && Holds(Now(arena), mine)
  }

  function SettingsOf(arena: Arena): Settings { Settings(arena.maxFast, arena.topPad, arena.pageSize) }

  lemma HeldSize(s: State, r: Ref)
    requires Ok(s) && r in s.rs && s.rs[r].chunk in HeldBy(s)
    ensures HeldBy(s)[s.rs[r].chunk].0.size == s.rs[r].size >= 0
  {
    HeldSaysBack(s, s.rs[r].chunk);
    InnerFacts(s, s.rs[r].chunk);
  }

  /** What is in a chunk of the client. */
  method Contents(arena: Arena, r: Ref) returns (bytes: seq<int>)
    requires arena.Valid() && r in arena.recs && arena.recs[r].chunk in HeldBy(arena.Now())
    ensures HasContents(Now(arena), arena.recs[r].chunk, bytes) && |bytes| == arena.recs[r].size
    ensures |bytes| == HeldBy(arena.Now())[arena.recs[r].chunk].0.size
  {
    hide Ok, HeldBy;
    HeldSize(arena.Now(), r);
    var m, a := arena.mem, arena.recs[r].chunk;
    bytes := seq(arena.recs[r].size, i => m(a + i));
  }

  /** The answer of a system in that mood. */
  method Ask(arena: Arena, mood: Mood) returns (sys: SbrkReply)
    requires arena.Valid()
    ensures arena.top in arena.recs && sys == Told(arena.Now(), mood) && arena.Possible(sys)
  {
    InitialTop(arena.Now());
    if arena.layout != map[] { TopFacts(arena.Now()); InnerFacts(arena.Now(), TopAt(arena.Now())); }
    sys := Refused;
    if mood.granted {
      if arena.top != arena.initialTop {
        sys := Granted(arena.recs[arena.top].chunk + arena.recs[arena.top].size, mood.corrected);
      } else if arena.lo <= mood.brk && Aligned(mood.brk) {
        sys := Granted(mood.brk, mood.corrected);
      }
    }
  }

  method DoMalloc(arena: Arena, mine: Ledger, bytes: nat, mood: Mood) returns (answer: Answer)
    requires Accounted(arena, mine)
    modifies arena
    ensures arena.Valid() && old(arena.top in arena.recs)
    ensures Holds(Now(arena), After(mine, Malloc(bytes, mood), answer))
    ensures Right(SettingsOf(arena), mine, Malloc(bytes, mood), answer, old(Now(arena)), Now(arena))
  {
    hide HeldBy, Ok, Quiet, HasContents, WellChosen, NothingListed;
    ghost var now := Now(arena);
    var sys := Ask(arena, mood);
    var r;
    ghost var rounds;
    r, rounds := arena.Malloc(bytes, sys);
    if r == NIL {
      HoldsSame(now, Now(arena), mine);
      answer := Failed;
    } else {
      var contents := Contents(arena, r);
      HoldsMore(now, Now(arena), mine, arena.recs[r].chunk, contents);
      answer := Got(arena.recs[r].chunk, contents);
    }
    assert Names(arena.Now(), answer, r);
  }

  method DoFree(arena: Arena, mine: Ledger, mem: int) returns (answer: Answer)
    requires Accounted(arena, mine)
    modifies arena
    ensures arena.Valid() && old(arena.top in arena.recs)
    ensures Holds(Now(arena), After(mine, Free(mem), answer))
    ensures Right(SettingsOf(arena), mine, Free(mem), answer, old(Now(arena)), Now(arena))
  {
    ghost var now := Now(arena);
    TopIsRecorded(arena.Now());
    if mem in mine {
      HeldSaysBack(arena.Now(), mem);
      arena.Free(arena.table[mem]);
      HoldsLess(now, Now(arena), mine, mem);
      answer := Done;
    } else {
      assert mine - {mem} == mine;
      answer := Failed;
    }
  }

  method DoRealloc(arena: Arena, mine: Ledger, mem: int, bytes: nat, mood: Mood) returns (answer: Answer)
    requires Accounted(arena, mine)
    modifies arena
    ensures arena.Valid() && old(arena.top in arena.recs)
    ensures Holds(Now(arena), After(mine, Realloc(mem, bytes, mood), answer))
    ensures Right(SettingsOf(arena), mine, Realloc(mem, bytes, mood), answer, old(Now(arena)), Now(arena))
  {
    hide HeldBy, Ok, Quiet, HasContents, RequestToSize, KeptUpTo, Carried, NothingListed, GrowsInPlace, Trimmed;
    ghost var now := Now(arena);
    var sys := Ask(arena, mood);
    answer := Failed;
    if mem in mine && !RequestOutOfRange(bytes) {
      RequestToSizeIsLeast(bytes, 0);
      var nb := RequestToSize(bytes);
      HeldSaysBack(arena.Now(), mem);
      InnerFacts(arena.Now(), mem);
      assert |mine[mem]| == arena.recs[arena.table[mem]].size by { HasFacts(now, mem, mine[mem]); }
      var r := arena.Realloc(arena.table[mem], nb, sys);
      if r == NIL {
        HoldsSame(now, Now(arena), mine);
      } else {
        var contents := Contents(arena, r);
        HoldsMoved(now, Now(arena), mine, mem, nb, r, contents);
        assert |mine[mem]| >= nb ==> |contents| == Trimmed(|mine[mem]|, nb);
        assert |mine[mem]| >= nb || GrowsInPlace(now.s, mem, nb) ==> arena.recs[r].chunk == mem;
        answer := Got(arena.recs[r].chunk, contents);
      }
    }
  }

  method DoMemalign(arena: Arena, mine: Ledger, alignment: int, bytes: nat, mood: Mood) returns (answer: Answer)
    requires Accounted(arena, mine)
    modifies arena
    ensures arena.Valid() && old(arena.top in arena.recs)
    ensures Holds(Now(arena), After(mine, Memalign(alignment, bytes, mood), answer))
    ensures Right(SettingsOf(arena), mine, Memalign(alignment, bytes, mood), answer, old(Now(arena)), Now(arena))
  {
    hide HeldBy, Ok, Quiet, HasContents, RequestToSize;
    ghost var now := Now(arena);
    var sys := Ask(arena, mood);
    answer := Failed;
    if !NotForMemalign(alignment, bytes) {
      var r := arena.MidMemalign(alignment, bytes, sys);
      if r == NIL {
        HoldsSame(now, Now(arena), mine);
      } else {
        var contents := Contents(arena, r);
        HoldsMore(now, Now(arena), mine, arena.recs[r].chunk, contents);
        answer := Got(arena.recs[r].chunk, contents);
      }
    }
  }

  function Stored(m: int -> int, p: int, v: int): int -> int { x => if x == p then v else m(x) }

  lemma StoreHolds(now: Moment, mine: Ledger, a: int, i: int, v: int)
    requires Holds(now, mine) && InChunk(mine, a, i)
    ensures Holds(now.(m := Stored(now.m, a + i, v)), mine[a := mine[a][i := v]])
  {
    hide Ok, HeldBy;
    var now', mine' := now.(m := Stored(now.m, a + i, v)), mine[a := mine[a][i := v]];
    assert HasContents(now, a, mine[a]);
    forall c {:trigger mine'[c]} | c in mine' ensures HasContents(now', c, mine'[c]) {
      assert HasContents(now, c, mine[c]);
      if c != a { HeldChunksAreDisjoint(now.s, a, c, a + i); }
    }
  }

  /** The client stores a byte. */
  method DoStore(arena: Arena, mine: Ledger, mem: int, i: int, v: int) returns (answer: Answer)
    requires Accounted(arena, mine)
    modifies arena`mem
    ensures arena.Valid() && old(arena.top in arena.recs)
    ensures Holds(Now(arena), After(mine, Store(mem, i, v), answer))
    ensures Right(SettingsOf(arena), mine, Store(mem, i, v), answer, old(Now(arena)), Now(arena))
  {
    TopIsRecorded(arena.Now());
    answer := Failed;
    if InChunk(mine, mem, i) {
      StoreHolds(Now(arena), mine, mem, i, v);
      arena.mem := Stored(arena.mem, mem + i, v);
      answer := Done;
    }
  }

  method Step(arena: Arena, mine: Ledger, call: Call) returns (answer: Answer)
    requires Accounted(arena, mine)
    modifies arena
    ensures arena.Valid() && old(arena.top in arena.recs)
    ensures Holds(Now(arena), After(mine, call, answer))
    ensures Right(SettingsOf(arena), mine, call, answer, old(Now(arena)), Now(arena))
  {
    hide Holds, Right, After;
    match call
    case Malloc(bytes, mood) => answer := DoMalloc(arena, mine, bytes, mood);
    case Free(mem) => answer := DoFree(arena, mine, mem);
    case Realloc(mem, bytes, mood) => answer := DoRealloc(arena, mine, mem, bytes, mood);
    case Memalign(alignment, bytes, mood) => answer := DoMemalign(arena, mine, alignment, bytes, mood);
    case Store(mem, i, v) => answer := DoStore(arena, mine, mem, i, v);
  }

  ghost predicate HoldsAt(calls: seq<Call>, answers: seq<Answer>, moments: seq<Moment>, n: int)
    requires 0 <= n <= |calls| == |answers| && n < |moments|
  {
    Holds(moments[n], Owned(calls[..n], answers[..n]))
  }

  ghost predicate RightAt(g: Settings, calls: seq<Call>, answers: seq<Answer>, moments: seq<Moment>, n: int)
    requires g.pageSize > 0 && 0 <= n < |calls| == |answers| && n + 1 < |moments|
  {
    && moments[n].s.top in moments[n].s.rs
    && Right(g, Owned(calls[..n], answers[..n]), calls[n], answers[n], moments[n], moments[n + 1])
  }

  /**
   The run led through these moments: at each of them the heap is well formed and the client has exactly what it
   was given and has not given back, with the contents that it has put there; and every call was answered right.
   */
  ghost predicate WentWell(g: Settings, calls: seq<Call>, answers: seq<Answer>, moments: seq<Moment>)
    requires g.pageSize > 0
  {
    && |answers| == |calls| && |moments| == |calls| + 1
    && (forall n {:trigger HoldsAt(calls, answers, moments, n)} | 0 <= n <= |calls| ::
        HoldsAt(calls, answers, moments, n))
    && (forall n {:trigger RightAt(g, calls, answers, moments, n)} | 0 <= n < |calls| ::
        RightAt(g, calls, answers, moments, n))
  }

  /** What was so stays so when a call is added. */
  lemma Earlier(g: Settings, calls: seq<Call>, answers: seq<Answer>, moments: seq<Moment>, call: Call, answer: Answer,
                now: Moment, n: int)
    requires g.pageSize > 0 && 0 <= n <= |calls| == |answers| && |moments| == |calls| + 1
    ensures HoldsAt(calls + [call], answers + [answer], moments + [now], n) == HoldsAt(calls, answers, moments, n)
    ensures n < |calls| ==>
              RightAt(g, calls + [call], answers + [answer], moments + [now], n)
                  == RightAt(g, calls, answers, moments, n)
  {
    hide Holds, Right, Owned;
    assert (calls + [call])[..n] == calls[..n] && (answers + [answer])[..n] == answers[..n];
  }

  lemma Latest(g: Settings, calls: seq<Call>, answers: seq<Answer>, moments: seq<Moment>, call: Call, answer: Answer,
               now: Moment)
    requires g.pageSize > 0 && |answers| == |calls| && |moments| == |calls| + 1
    requires var mine, before := Owned(calls, answers), moments[|calls|];
      && before.s.top in before.s.rs && Right(g, mine, call, answer, before, now)
      && Holds(now, After(mine, call, answer))
    ensures Owned(calls + [call], answers + [answer]) == After(Owned(calls, answers), call, answer)
    ensures HoldsAt(calls + [call], answers + [answer], moments + [now], |calls| + 1)
    ensures RightAt(g, calls + [call], answers + [answer], moments + [now], |calls|)
  {
    hide Holds, Right, After;
    var calls', answers' := calls + [call], answers + [answer];
    assert calls'[..|calls|] == calls && answers'[..|calls|] == answers;
    assert calls'[..|calls| + 1] == calls' && answers'[..|calls| + 1] == answers';
  }

  lemma OneMore(g: Settings, calls: seq<Call>, answers: seq<Answer>, moments: seq<Moment>, call: Call, answer: Answer,
                now: Moment)
    requires g.pageSize > 0 && WentWell(g, calls, answers, moments)
    requires var mine, before := Owned(calls, answers), moments[|calls|];
      && before.s.top in before.s.rs && Right(g, mine, call, answer, before, now)
      && Holds(now, After(mine, call, answer))
    ensures WentWell(g, calls + [call], answers + [answer], moments + [now])
    ensures Owned(calls + [call], answers + [answer]) == After(Owned(calls, answers), call, answer)
  {
    hide Holds, Right, After, HoldsAt, RightAt;
    var calls', answers', moments' := calls + [call], answers + [answer], moments + [now];
    forall n {:trigger HoldsAt(calls', answers', moments', n)} | 0 <= n <= |calls'|
      ensures HoldsAt(calls', answers', moments', n)
    {
      if n <= |calls| {
        Earlier(g, calls, answers, moments, call, answer, now, n);
      } else {
        Latest(g, calls, answers, moments, call, answer, now);
      }
    }
    forall n {:trigger RightAt(g, calls', answers', moments', n)} | 0 <= n < |calls'|
      ensures RightAt(g, calls', answers', moments', n)
    {
      if n < |calls| {
        Earlier(g, calls, answers, moments, call, answer, now, n);
      } else {
        Latest(g, calls, answers, moments, call, answer, now);
      }
    }
    Latest(g, calls, answers, moments, call, answer, now);
  }

  lemma NothingYet(g: Settings, moments: seq<Moment>)
    requires g.pageSize > 0 && |moments| == 1 && Holds(moments[0], map[])
    ensures WentWell(g, [], [], moments) && Owned([], []) == map[]
  {
  }

  /** Byte `x` belongs to the client's chunk at `a`. */
  predicate Reaches(mine: Ledger, a: int, x: int) { a in mine && a <= x < a + |mine[a]| }

  lemma ChunksAreApart(now: Moment, mine: Ledger)
    requires Holds(now, mine)
    ensures forall a, b, x {:trigger Reaches(mine, a, x), Reaches(mine, b, x)} |
              Reaches(mine, a, x) && Reaches(mine, b, x) :: a == b
  {
    hide Ok, HeldBy;
    forall a, b, x {:trigger Reaches(mine, a, x), Reaches(mine, b, x)} | Reaches(mine, a, x) && Reaches(mine, b, x)
      ensures a == b
    {
      assert HasContents(now, a, mine[a]) && HasContents(now, b, mine[b]);
      if a != b { HeldChunksAreDisjoint(now.s, a, b, x); }
    }
  }

  /**
   Any calls to a new arena are answered one by one, and right, and leave the client with what these answers gave
   it.  No byte belongs to two of its chunks, and the bytes that the system gave are those of the client, of the
   lists and of top.
   */
  method Run(arena: Arena, calls: seq<Call>) returns (answers: seq<Answer>, mine: Ledger, ghost moments: seq<Moment>)
    requires Accounted(arena, map[])
    modifies arena
    ensures |answers| == |calls| && mine == Owned(calls, answers) && Accounted(arena, mine)
    ensures WentWell(SettingsOf(arena), calls, answers, moments)
    ensures moments[0] == old(Now(arena)) && moments[|calls|] == Now(arena)
    ensures forall a, b, x {:trigger Reaches(mine, a, x), Reaches(mine, b, x)} |
              Reaches(mine, a, x) && Reaches(mine, b, x) :: a == b
    ensures arena.layout != map[] ==>
              Bytes(arena.Now(), ByClient) == arena.systemMem - arena.recs[arena.top].size
                                              - Bytes(arena.Now(), OnFastbin) - Bytes(arena.Now(), OnBin)
  {
    hide Right, After, HeldBy, HasContents, WentWell, Owned, Ok, Quiet;
    answers, mine, moments := [], map[], [Now(arena)];
    var n := 0;
    NothingYet(SettingsOf(arena), moments);
    while n < |calls|
      invariant 0 <= n <= |calls| && |answers| == n && Accounted(arena, mine) && mine == Owned(calls[..n], answers)
      invariant |moments| == n + 1 && moments[0] == old(Now(arena)) && moments[n] == Now(arena)
      invariant WentWell(SettingsOf(arena), calls[..n], answers, moments)
    {
      var answer := Step(arena, mine, calls[n]);
      OneMore(SettingsOf(arena), calls[..n], answers, moments, calls[n], answer, Now(arena));
      assert calls[..n + 1] == calls[..n] + [calls[n]];
      mine := After(mine, calls[n], answer);
      answers, moments := answers + [answer], moments + [Now(arena)];
      n := n + 1;
    }
    assert calls[..n] == calls;
    ChunksAreApart(Now(arena), mine);
    if arena.layout != map[] { Conservation(arena.Now()); }
  }
}
