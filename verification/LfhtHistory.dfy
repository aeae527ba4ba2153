/** What a history says about the values that calls have added, which are all that is ever stored or found. */
module LfhtHistory {
  import opened Arithmetic
  import opened ProbeTable
  import opened LfhtThreads
  import opened LfhtCalls
  import opened LfhtValues
  import L = Lfht

  /** The last call that a thread has begun. */
  function LastCall(h: seq<Event>, n: nat): Job {
    if h == [] then NO_CALL
    else if h[|h| - 1].Begins? && h[|h| - 1].thread == n then h[|h| - 1].job
    else LastCall(h[..|h| - 1], n)
  }

  /** A call has begun to add a value for a key, or for the key that `key` is the mark of; or there is no value. */
  ghost predicate WasAdded(h: seq<Event>, key: int, val: int) {
    || val == TOMBSTONE
    || exists e {:trigger e in h} ::
         e in h && e.Begins? && e.job.op == Adding && e.job.key == Base(key) && e.job.val == val
  }

  /** What is known of the past is what the history says. */
  ghost predicate Tells(h: seq<Event>, past: Past) {
    && (forall n {:trigger past.calls[n]} | 0 <= n < |past.calls| :: past.calls[n] == LastCall(h, n))
    && (forall k, v {:trigger (k, v) in past.added} | (k, v) in past.added ::
          exists e {:trigger e in h} :: e in h && e.Begins? && e.job.op == Adding && e.job.key == k && e.job.val == v)
  }

  lemma TellsMore(h: seq<Event>, past: Past, e: Event)
    requires Tells(h, past) && e.thread < |past.calls|
    ensures Tells(h + [e], Since(past, e))
  {
    var h', past' := h + [e], Since(past, e);
    assert h'[..|h|] == h && h'[|h|] == e;
    forall k, v {:trigger (k, v) in past'.added} | (k, v) in past'.added
      ensures exists f {:trigger f in h'} ::
                f in h' && f.Begins? && f.job.op == Adding && f.job.key == k && f.job.val == v
    {
      if (k, v) in past.added {
        var f :| f in h && f.Begins? && f.job.op == Adding && f.job.key == k && f.job.val == v;
        assert f in h';
      } else {
        assert e in h';
      }
    }
  }

  lemma KnownWasAdded(h: seq<Event>, past: Past, key: int, val: int)
    requires Tells(h, past) && Known(past.added, key, val)
    ensures WasAdded(h, key, val)
  {
  }

  /** The answers in `later`, which follows `before`, were added before they were given. */
  ghost predicate AnswersWereAdded(before: seq<Event>, later: seq<Event>) {
    forall x {:trigger later[x]} | 0 <= x < |later| && later[x].Returns? ::
      var h := before + later[..x]; WasAdded(h, LastCall(h, later[x].thread).key, later[x].answer.val)
  }

  lemma AnswerIsKnown(past: Past, h: seq<Event>, e: Event)
    requires Happens(past, e) && Tells(h, past) && e.Returns?
    ensures WasAdded(h, LastCall(h, e.thread).key, e.answer.val)
  {
    assert past.calls[e.thread] == LastCall(h, e.thread);
  }

  lemma {:induction false} SourcedMeans(past: Past, before: seq<Event>, later: seq<Event>)
    requires Sourced(past, later) && Tells(before, past)
    ensures AnswersWereAdded(before, later) && Tells(before + later, PastAfter(past, later))
    decreases |later|
  {
    if later == [] {
      assert before + later == before;
    } else {
      var e, rest := later[0], later[1..];
      TellsMore(before, past, e);
      assert Tells(before + [e], Since(past, e));
      SourcedMeans(Since(past, e), before + [e], rest);
      assert before + later == before + [e] + rest;
      hide Tells, WasAdded, Sourced;
      forall x {:trigger later[x]} | 0 <= x < |later| && later[x].Returns?
        ensures var h := before + later[..x]; WasAdded(h, LastCall(h, later[x].thread).key, later[x].answer.val)
      {
        if x == 0 {
          assert before + later[..0] == before;
          AnswerIsKnown(past, before, e);
        } else {
          assert before + later[..x] == before + [e] + rest[..x - 1] && later[x] == rest[x - 1];
        }
      }
    }
  }

  function OfTax(tax: Tax): Pairs { if tax.op == Adding then {(tax.key, tax.val)} else {} }

  function OfJob(job: Job): Pairs {
    (if job.op == Adding then {(job.key, job.val)} else {})
    + (if job.back.Internal? then OfTax(job.back.tax) else {(job.key, job.got.val)})
  }

  /** The values that a thread has at hand, with the keys that it has them for. */
  function AtHand(pc: Pc): Pairs {
    match pc
    case Idle => {}
    case CheckDone(tax) => OfTax(tax)
    case Scan(tax) => OfTax(tax)
    case ReadOld(tax, _) => OfTax(tax)
    case Mark(tax, e) => OfTax(tax) + {(e.key, e.val)}
    case Finish(tax) => OfTax(tax)
    case CheckHead(tax) => OfTax(tax)
    case Settle(tax) => OfTax(tax)
    case _ => OfJob(pc.job)
  }

  lemma HandWasAdded(h: seq<Event>, past: Past, m: Memory, call: Job, pc: Pc, p: (int, int))
    requires Tells(h, past) && CallFrom(past.added, call) && PcFrom(past.added, m, call, pc) && p in AtHand(pc)
    ensures WasAdded(h, p.0, p.1)
  {
    if call.op == Adding { MarkFacts(call.key); }
    KnownWasAdded(h, past, p.0, p.1);
  }

  lemma NothingTells(threads: nat)
    ensures Tells([], NothingYet(threads))
  {
  }

  /**
   * After every schedule, each answer was added, before it was given, for the key of the call, and so was every value
   * in a slot for the key of the slot, and every value that a thread is about to store, move or answer.
   */
  lemma ValuesWereAdded(hash: Hash, threads: nat, max: nat, moves: seq<Move>)
    requires 0 < max <= L.MAX_TABLE_SIZE && IsPowerOfTwo(max) && Legal(threads, moves)
    ensures var s, h := Run(hash, Start(hash, threads, max), moves), History(hash, Start(hash, threads, max), moves);
      && (forall x {:trigger h[x]} | 0 <= x < |h| && h[x].Returns? ::
            WasAdded(h[..x], LastCall(h[..x], h[x].thread).key, h[x].answer.val))
      && (forall t, i {:trigger s.m.tables[t].slots[i]} | 0 <= t < |s.m.tables| && 0 <= i < |s.m.tables[t].slots| ::
            WasAdded(h, s.m.tables[t].slots[i].key, s.m.tables[t].slots[i].val))
      && (forall n, p {:trigger p in AtHand(s.threads[n])} | 0 <= n < |s.threads| && p in AtHand(s.threads[n]) ::
            WasAdded(h, p.0, p.1))
  {
    hide Inv, IsPowerOfTwo, WasAdded, Tells, PcFrom, CallFrom, AtHand;
    var s, h := Run(hash, Start(hash, threads, max), moves), History(hash, Start(hash, threads, max), moves);
    StartFrom(hash, threads, max);
    RunFrom(hash, Start(hash, threads, max), moves, NothingYet(threads));
    NothingTells(threads);
    SourcedMeans(NothingYet(threads), [], h);
    var past := PastAfter(NothingYet(threads), h);
    assert [] + h == h;
    forall x {:trigger h[x]} | 0 <= x < |h| && h[x].Returns?
      ensures WasAdded(h[..x], LastCall(h[..x], h[x].thread).key, h[x].answer.val)
    {
      assert [] + h[..x] == h[..x];
    }
    forall t, i {:trigger s.m.tables[t].slots[i]} | 0 <= t < |s.m.tables| && 0 <= i < |s.m.tables[t].slots|
      ensures WasAdded(h, s.m.tables[t].slots[i].key, s.m.tables[t].slots[i].val)
    {
      SlotTells(past.added, s.m, t, i);
      KnownWasAdded(h, past, s.m.tables[t].slots[i].key, s.m.tables[t].slots[i].val);
    }
    forall n, p {:trigger p in AtHand(s.threads[n])} | 0 <= n < |s.threads| && p in AtHand(s.threads[n])
      ensures WasAdded(h, p.0, p.1)
    {
      HandWasAdded(h, past, s.m, past.calls[n], s.threads[n], p);
    }
  }
}
