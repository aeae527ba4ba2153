/** What the invariant of an arena means for its clients and for its accounts. */
module HeapFacts {
  import opened Sequences
  import opened Layout
  import opened BinIndex
  import opened Records
  import opened HeapState

  /** Two chunks of the client share no byte. */
  lemma HeldChunksAreDisjoint(s: State, a: int, b: int, x: int)
    requires Ok(s) && a in HeldBy(s) && b in HeldBy(s) && a != b
    requires a <= x < a + HeldBy(s)[a].0.size
    ensures !(b <= x < b + HeldBy(s)[b].0.size)
  {
    assert a < b ==> Apart(s.m, a, b);
    assert b < a ==> Apart(s.m, b, a);
  }

  /** The addresses of the chunks from `a` up, as the sizes lead from one to the next. */
  ghost function Walk(m: Map, a: int, end: int): seq<int>
    decreases end - a
  {
    if a in m && 0 < m[a].size <= end - a then [a] + Walk(m, a + m[a].size, end) else []
  }

  /** From any chunk the walk goes on to the end of the region. */
  lemma {:induction false} WalkSteps(s: State, a: int)
    requires Ok(s) && a in s.m
    ensures var w := Walk(s.m, a, s.end);
      && |w| > 0 && w[0] == a && w[|w| - 1] == TopAt(s)
      && (forall i {:trigger w[i]} | 0 <= i < |w| :: w[i] in s.m)
      && (forall i {:trigger w[i]} | 0 <= i < |w| - 1 :: w[i + 1] == w[i] + s.m[w[i]].size)
      && (forall c {:trigger c in w} | c in s.m && a <= c :: c in w)
    decreases s.end - a
  {
    InnerFacts(s, a);
    if !s.m[a].st.Top? {
      var n := Next(s, a);
      WalkSteps(s, n);
      var w, w' := Walk(s.m, a, s.end), Walk(s.m, n, s.end);
      assert w == [a] + w';
      forall c {:trigger c in w} | c in s.m && a <= c ensures c in w {
        assert a < c ==> Apart(s.m, a, c);
        assert n <= c ==> c in w';
      }
    } else {
      assert Walk(s.m, s.end, s.end) == [] by {
        assert s.end in s.m ==> CellOk(s.m, s.base, TopAt(s), s.end, s.end);
      }
      forall c {:trigger c in Walk(s.m, a, s.end)} | c in s.m && a <= c ensures c in Walk(s.m, a, s.end) {
        if c != a { TopIsLast(s, c); }
      }
    }
  }

  lemma {:induction false} FindChunk(s: State, a: int, x: int)
    requires Ok(s) && a in s.m && a <= x < s.end
    ensures exists c {:trigger s.m[c]} :: c in s.m && c <= x < c + s.m[c].size
    decreases s.end - a
  {
    InnerFacts(s, a);
    if x >= a + s.m[a].size {
      FindChunk(s, a + s.m[a].size, x);
    }
  }

  /** Every byte of the region belongs to exactly one chunk. */
  lemma RegionIsTiled(s: State, x: int)
    requires Ok(s) && s.m != map[] && s.base <= x < s.end
    ensures exists a {:trigger s.m[a]} :: a in s.m && a <= x < a + s.m[a].size
    ensures forall a, b {:trigger s.m[a], s.m[b]} ::
              a in s.m && b in s.m && a <= x < a + s.m[a].size && b <= x < b + s.m[b].size ==> a == b
  {
    FindChunk(s, s.base, x);
    forall a, b {:trigger s.m[a], s.m[b]} |
      a in s.m && b in s.m && a <= x < a + s.m[a].size && b <= x < b + s.m[b].size
      ensures a == b
    {
      assert a < b ==> Apart(s.m, a, b);
      assert b < a ==> Apart(s.m, b, a);
    }
  }

  lemma WalkCoversAll(s: State)
    requires Ok(s) && s.m != map[]
    ensures s.m.Keys == set a | a in Walk(s.m, s.base, s.end)
  {
    WalkSteps(s, s.base);
    forall a | a in s.m ensures a in Walk(s.m, s.base, s.end) {
      InnerFacts(s, a);
    }
  }

  /** The records of chunks `a` and `b` are linked both ways, and looking up the end of `a` leads to `b`. */
  ghost predicate StepsTo(s: State, a: int, b: int) {
    && a in s.t && b in s.t && s.t[a] in s.rs && s.t[b] in s.rs
    && s.rs[s.t[a]].mdNext == s.t[b] && s.rs[s.t[b]].mdPrev == s.t[a]
    && s.rs[s.t[a]].chunk == a && a + s.rs[s.t[a]].size == b
  }

  /** There is no record before that of chunk `a`, and none after that of chunk `b`. */
  ghost predicate ChainEnds(s: State, a: int, b: int) {
    && a in s.t && b in s.t && s.t[a] in s.rs && s.t[b] in s.rs
    && s.rs[s.t[a]].mdPrev == NIL && s.rs[s.t[b]].mdNext == NIL && s.t[b] == s.top
  }

  /** Every record that is in use is in the table: none leaks. */
  lemma RecordsAreRegistered(s: State)
    requires Ok(s)
    ensures s.rs.Keys == s.t.Values
  {
    forall c {:trigger c in s.rs} | c in s.rs ensures c in s.t.Values {
      assert s.rs[c].chunk in s.t && s.t[s.rs[c].chunk] == c;
    }
    forall a {:trigger s.t[a]} | a in s.t ensures s.t[a] in s.rs {
    }
  }

  lemma WalkLinks(s: State, a: int, n: int)
    requires Ok(s) && a in s.m && n in s.m && n == a + s.m[a].size
    ensures StepsTo(s, a, n)
  {
    InnerFacts(s, a);
    InnerFacts(s, n);
    var top := TopAt(s);
    assert CellOk(s.m, s.base, top, s.end, n);
    assert LinkedAt(s.m, s.t, s.rs, s.base, top, n);
    PredecessorIsUnique(s.m, s.base, top, s.end, a, s.rs[s.rs[s.t[n]].mdPrev].chunk);
  }

  /**
   The records of the chunks are doubly linked in address order from the first chunk to top, the table holds
   these records and that of the initial top and no others, no other record is in use, and looking up the end
   of a chunk gives the next record of the chain.
   */
  lemma MetadataAgrees(s: State)
    requires Ok(s) && s.m != map[]
    ensures var w := Walk(s.m, s.base, s.end);
      && |w| > 0 && ChainEnds(s, w[0], w[|w| - 1])
      && (forall i {:trigger w[i]} | 0 <= i < |w| - 1 :: StepsTo(s, w[i], w[i + 1]))
      && s.initial in s.rs && s.t.Keys == (set a | a in w) + {s.rs[s.initial].chunk}
    ensures s.rs.Keys == s.t.Values
  {
    RecordsAreRegistered(s);
    var w := Walk(s.m, s.base, s.end);
    WalkSteps(s, s.base);
    WalkCoversAll(s);
    InnerFacts(s, TopAt(s));
    assert LinkedAt(s.m, s.t, s.rs, s.base, TopAt(s), s.base);
    assert s.initial in s.rs && s.t.Keys == s.m.Keys + {s.rs[s.initial].chunk};
    InnerFacts(s, s.base);
    TopFacts(s);
    forall i {:trigger w[i]} | 0 <= i < |w| - 1 ensures StepsTo(s, w[i], w[i + 1]) {
      WalkLinks(s, w[i], w[i + 1]);
    }
    hide Ok, StepsTo, Walk;
  }

  // ---------- Accounts ----------

  /** The four uses a byte can have between two operations. */
  datatype Use = ByClient | OnFastbin | OnBin | InTop

  predicate UsedAs(st: Status, u: Use) {
    match u
    case ByClient => st.Held?
    case OnFastbin => st.Fast?
    case OnBin => st.Binned?
    case InTop => st.Top?
  }

  /** How many bytes of the chunks from `a` up have use `u`. */
  ghost function BytesFrom(m: Map, a: int, end: int, u: Use): int
    decreases end - a
  {
    if a in m && 0 < m[a].size <= end - a then
      (if UsedAs(m[a].st, u) then m[a].size else 0) + BytesFrom(m, a + m[a].size, end, u)
    else 0
  }

  ghost function Bytes(s: State, u: Use): int {
    BytesFrom(s.m, s.base, s.end, u)
  }

  lemma {:induction false} BytesAddUp(s: State, a: int)
    requires Ok(s) && Quiet(s) && a in s.m
    ensures BytesFrom(s.m, a, s.end, ByClient) + BytesFrom(s.m, a, s.end, OnFastbin)
          + BytesFrom(s.m, a, s.end, OnBin) + BytesFrom(s.m, a, s.end, InTop) == s.end - a
    ensures BytesFrom(s.m, a, s.end, InTop) == s.m[TopAt(s)].size
    decreases s.end - a
  {
    InnerFacts(s, a);
    if s.m[a].st.Top? {
      assert s.end in s.m ==> CellOk(s.m, s.base, TopAt(s), s.end, s.end);
    } else {
      BytesAddUp(s, Next(s, a));
    }
  }

  /** What the client has is the region less top, the fastbins and the bins. */
  lemma Conservation(s: State)
    requires Ok(s) && Quiet(s) && s.m != map[]
    ensures Bytes(s, ByClient) == s.end - s.base - s.rs[s.top].size - Bytes(s, OnFastbin) - Bytes(s, OnBin)
  {
    BytesAddUp(s, s.base);
    InitialTop(s);
  }

  lemma BytesFromTop(s: State, a: int)
    requires Ok(s) && a in s.m && s.m[a].st.Top?
    ensures BytesFrom(s.m, a, s.end, ByClient) == 0
  {
    InnerFacts(s, a);
    assert s.end in s.m ==> CellOk(s.m, s.base, TopAt(s), s.end, s.end);
  }

  lemma SkipUnheld(s: State, a: int)
    requires Ok(s) && a in s.m && !s.m[a].st.Held? && !s.m[a].st.Top?
    ensures forall c {:trigger c in HeldBy(s)} | c in HeldBy(s) :: (c < Next(s, a) <==> c < a)
  {
    InnerFacts(s, a);
    forall c {:trigger c in HeldBy(s)} | c in HeldBy(s) ensures c < Next(s, a) <==> c < a {
      HeldSaysBack(s, c);
      assert a < c ==> Apart(s.m, a, c);
    }
  }

  lemma SkipHeld(s: State, a: int)
    requires Ok(s) && a in s.m && s.m[a].st.Held?
    ensures forall c {:trigger c in HeldBy(s)} | c in HeldBy(s) :: (c < Next(s, a) <==> c < a || c == a)
  {
    InnerFacts(s, a);
    forall c {:trigger c in HeldBy(s)} | c in HeldBy(s) ensures c < Next(s, a) <==> c < a || c == a {
      HeldSaysBack(s, c);
      assert a < c ==> Apart(s.m, a, c);
    }
  }

  lemma BothAtHeldOrTop(s: State, s': State, a: int, a': int)
    requires Ok(s) && Ok(s') && s.end == s'.end && HeldBy(s) == HeldBy(s') && a in s.m && a' in s'.m
    requires (s.m[a].st.Held? || s.m[a].st.Top?) && (s'.m[a'].st.Held? || s'.m[a'].st.Top?)
    requires forall c {:trigger c in HeldBy(s)} | c in HeldBy(s) :: (c < a <==> c < a')
    ensures if s.m[a].st.Top? then s'.m[a'].st.Top? else a == a' && s'.m[a'] == s.m[a]
  {
    InnerFacts(s, a);
    InnerFacts(s', a');
    if s.m[a].st.Held? {
      HeldSays(s, a);
      HeldSaysBack(s', a);
      if s'.m[a'].st.Top? {
        if a != a' { TopIsLast(s', a); }
      } else {
        HeldSays(s', a');
      }
    } else if s'.m[a'].st.Held? {
      HeldSays(s', a');
      HeldSaysBack(s, a');
      TopIsLast(s, a');
    }
  }

  /** The bytes of the client from `a` up depend only on which chunks it holds there. */
  lemma {:induction false} ClientBytesFrom(s: State, s': State, a: int, a': int)
    requires Ok(s) && Ok(s') && s.end == s'.end && HeldBy(s) == HeldBy(s')
    requires a in s.m && a' in s'.m
    requires forall c {:trigger c in HeldBy(s)} | c in HeldBy(s) :: (c < a <==> c < a')
    ensures BytesFrom(s.m, a, s.end, ByClient) == BytesFrom(s'.m, a', s.end, ByClient)
    decreases (s.end - a) + (s.end - a')
  {
    InnerFacts(s, a);
    InnerFacts(s', a');
    if !s.m[a].st.Held? && !s.m[a].st.Top? {
      SkipUnheld(s, a);
      ClientBytesFrom(s, s', Next(s, a), a');
    } else if !s'.m[a'].st.Held? && !s'.m[a'].st.Top? {
      SkipUnheld(s', a');
      ClientBytesFrom(s, s', a, Next(s', a'));
    } else {
      BothAtHeldOrTop(s, s', a, a');
      if s.m[a].st.Top? {
        BytesFromTop(s, a);
        BytesFromTop(s', a');
      } else {
        SkipHeld(s, a);
        SkipHeld(s', a');
        ClientBytesFrom(s, s', Next(s, a), Next(s', a'));
      }
    }
  }

  /** As long as the client holds the same chunks of a region, the bytes that are not its stay the same in all. */
  lemma FreeBytesPreserved(s: State, s': State)
    requires Ok(s) && Ok(s') && Quiet(s) && Quiet(s') && s.m != map[] && s'.m != map[]
    requires s.base == s'.base && s.end == s'.end && HeldBy(s) == HeldBy(s')
    ensures Bytes(s, OnFastbin) + Bytes(s, OnBin) + Bytes(s, InTop)
         == Bytes(s', OnFastbin) + Bytes(s', OnBin) + Bytes(s', InTop)
  {
    ClientBytesFrom(s, s', s.base, s.base);
    BytesAddUp(s, s.base);
    BytesAddUp(s', s.base);
  }

  lemma NotOnFastbin(s: State, a: int)
    requires Ok(s) && NoFastchunks(s) && a in s.m
    ensures !s.m[a].st.Fast?
  {
    var b := if s.m[a].st.Fast? then s.m[a].st.bin else 0;
    assert s.m[a].st == OnList(Fastbins, b) ==> InItsList(Fastbins, s.m, s.t, s.fastbins, a, b);
  }

  /** Once the fastbins are empty, no two neighbouring chunks are without an owner, and top has an owned one below. */
  lemma ConsolidatedNeighbours(s: State, a: int)
    requires Ok(s) && Quiet(s) && NoFastchunks(s) && a in s.m && !s.m[a].st.Top?
    ensures Next(s, a) in s.m && (s.m[a].st.Held? || s.m[Next(s, a)].st.Held?)
  {
    InnerFacts(s, a);
    NotOnFastbin(s, a);
    NotOnFastbin(s, Next(s, a));
    InnerFacts(s, Next(s, a));
  }

  /**
   A binned chunk is on the one list of its bin, once; the chunks around it are neither binned nor top; and its
   successor's record says that it is free and how large it is.
   */
  lemma BinnedChunk(s: State, a: int)
    requires Ok(s) && a in s.m && s.m[a].st.Binned?
    ensures var b := s.m[a].st.bin; b < |s.bins| && a in s.t && s.t[a] in s.bins[b] && Distinct(s.bins[b])
    ensures forall b {:trigger s.bins[b]} | 0 <= b < |s.bins| && s.t[a] in s.bins[b] :: b == s.m[a].st.bin
    ensures forall i {:trigger s.fastbins[i]} | 0 <= i < |s.fastbins| :: s.t[a] !in s.fastbins[i]
    ensures s.m[a].st.bin >= 2 ==> s.m[a].st.bin == BinOf(s.m[a].size)
    ensures var n := Next(s, a);
      && n in s.m && !s.m[n].st.Binned? && !s.m[n].st.Top? && n in s.t && s.t[n] in s.rs
      && !s.rs[s.t[n]].prevInuse && s.rs[s.t[n]].prevSize == s.m[a].size && s.rs[s.t[n]].mdPrev == s.t[a]
    ensures FollowsUsed(s.m, a)
  {
    InnerFacts(s, a);
    InnerFacts(s, Next(s, a));
    PredecessorIsUnique(s.m, s.base, TopAt(s), s.end, a, s.rs[s.rs[s.t[Next(s, a)]].mdPrev].chunk);
    var b := s.m[a].st.bin;
    assert s.m[a].st == OnList(Bins, b) && InItsList(Bins, s.m, s.t, s.bins, a, b);
    assert Distinct(s.bins[b]);
  }

  /** Byte `x` is in a chunk that is on a bin or is top. */
  ghost predicate IsFree(s: State, x: int) {
    exists c {:trigger s.m[c]} :: c in s.m && (s.m[c].st.Binned? || s.m[c].st.Top?) && c <= x < c + s.m[c].size
  }

  /** The bytes of chunk `a` are free once a free chunk includes it. */
  lemma IncludedIsFree(s: State, s': State, a: int, b: int)
    requires a in s.m && Includes(s', b, s, a) && (s'.m[b].st.Binned? || s'.m[b].st.Top?)
    ensures forall x {:trigger IsFree(s', x)} | a <= x < a + s.m[a].size :: IsFree(s', x)
  {
  }

  /** With empty fastbins the bytes of a chunk are free once the client does not hold it any more. */
  lemma ReturnedIsFree(s: State, s': State, a: int)
    requires Ok(s) && Ok(s') && Quiet(s') && NoFastchunks(s') && a in HeldBy(s) && HeldBy(s') == HeldBy(s) - {a}
    requires s'.m != map[] && s'.base == s.base && s'.end == s.end
    ensures forall x {:trigger IsFree(s', x)} | a <= x < a + s.m[a].size :: IsFree(s', x)
  {
    HeldSaysBack(s, a);
    InnerFacts(s, a);
    forall x {:trigger IsFree(s', x)} | a <= x < a + s.m[a].size ensures IsFree(s', x) {
      RegionIsTiled(s', x);
      var c :| c in s'.m && c <= x < c + s'.m[c].size;
      NotOnFastbin(s', c);
      if s'.m[c].st.Held? {
        HeldSays(s', c);
        HeldChunksAreDisjoint(s, a, c, x);
        assert false;
      }
    }
  }
}
