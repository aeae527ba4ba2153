/** What an order of calls rules out: how it can be told from a history that there is none. */
module LfhtOrders {
  import opened ProbeTable
  import opened LfhtThreads
  import opened LfhtCalls
  import L = Lfht

  lemma VisibleParts(events: seq<Event>)
    requires events != []
    ensures events[0].Acts? || events[0] in Visible(events)
    ensures forall x {:trigger x in Visible(events)} {:trigger x in Visible(events[1..])} ::
              x in Visible(events) <==> x in Visible(events[1..]) || (x == events[0] && !x.Acts?)
  {
    if !events[0].Acts? { assert Visible(events)[0] == events[0]; }
  }

  /** What a find answers that has seen a value. */
  predicate SeesSome(answer: Answer) { answer.ok && answer.val != TOMBSTONE }

  /** Nothing is removed, and one thread only looks for `k`. */
  predicate Finder(thread: nat, k: int, n: nat, job: Job) {
    && job.op != Removing && (job.op == Adding ==> job.val != TOMBSTONE)
    && (n == thread ==> job.op == Finding && job.key == k)
  }

  predicate FinderOnly(h: seq<Event>, thread: nat, k: int) {
    forall e {:trigger e in h} | e in h && e.Begins? :: Finder(thread, k, e.thread, e.job)
  }

  predicate Values(model: map<int, int>) {
    forall k {:trigger model[k]} | k in model :: model[k] != TOMBSTONE
  }

  ghost predicate FinderAt(sp: Spec, thread: nat, k: int) {
    && thread < |sp.calls| && Values(sp.model)
    && (forall n {:trigger sp.calls[n]} | 0 <= n < |sp.calls| && !sp.calls[n].Ready? ::
          Finder(thread, k, n, sp.calls[n].job))
    && (sp.calls[thread].Decided? && SeesSome(sp.calls[thread].answer) ==> k in sp.model)
  }

  lemma FinderStep(sp: Spec, e: Event, thread: nat, k: int)
    requires FinderAt(sp, thread, k) && Allowed(sp, e) && (e.Begins? ==> Finder(thread, k, e.thread, e.job))
    ensures FinderAt(Next(sp, e), thread, k) && (k in sp.model ==> k in Next(sp, e).model)
  {
    assert !sp.calls[e.thread].Ready? ==> Finder(thread, k, e.thread, sp.calls[e.thread].job);
  }

  /** Once the key is there, all finds see it. */
  lemma {:induction false} StaysThere(sp: Spec, events: seq<Event>, thread: nat, k: int)
    requires FinderAt(sp, thread, k) && Accepted(sp, events) && FinderOnly(Visible(events), thread, k)
    requires k in sp.model && (sp.calls[thread].Decided? ==> SeesSome(sp.calls[thread].answer))
    ensures forall e {:trigger e in Visible(events)} | e in Visible(events) && e.Returns? && e.thread == thread ::
              SeesSome(e.answer)
    decreases |events|
  {
    if events != [] {
      var e, sp' := events[0], Next(sp, events[0]);
      VisibleParts(events);
      FinderStep(sp, e, thread, k);
      assert !sp.calls[thread].Ready? ==> Finder(thread, k, thread, sp.calls[thread].job);
      StaysThere(sp', events[1..], thread, k);
    }
  }

  /** If nothing is removed, then what a find of a thread has seen its later finds see, too. */
  lemma {:induction false} FindsKeepSeeing(sp: Spec, events: seq<Event>, thread: nat, k: int,
                                           h: seq<Event>, a: Answer, h': seq<Event>)
    requires FinderAt(sp, thread, k) && Accepted(sp, events)
    requires Visible(events) == h + [Returns(thread, a)] + h' && SeesSome(a)
    requires FinderOnly(h, thread, k) && FinderOnly(h', thread, k)
    ensures forall e {:trigger e in h'} | e in h' && e.Returns? && e.thread == thread :: SeesSome(e.answer)
    decreases |events|
  {
    var e, rest := events[0], events[1..];
    var v := h + [Returns(thread, a)] + h';
    if e.Acts? {
      FinderStep(sp, e, thread, k);
      FindsKeepSeeing(Next(sp, e), rest, thread, k, h, a, h');
    } else {
      assert v[0] == e && v[1..] == Visible(rest);
      if h == [] {
        assert v[1..] == h';
        FinderStep(sp, e, thread, k);
        StaysThere(Next(sp, e), rest, thread, k);
      } else {
        assert v[1..] == h[1..] + [Returns(thread, a)] + h' && e in h;
        FinderStep(sp, e, thread, k);
        assert forall x {:trigger x in h[1..]} :: x in h[1..] ==> x in h;
        FindsKeepSeeing(Next(sp, e), rest, thread, k, h[1..], a, h');
      }
    }
  }

  // ---------- Adds ----------

  /** Adds return true. */
  lemma {:induction false} AddsSucceed(sp: Spec, events: seq<Event>)
    requires Accepted(sp, events)
    requires forall n {:trigger sp.calls[n]} | 0 <= n < |sp.calls| && !sp.calls[n].Ready? ::
               sp.calls[n].job.op == Adding && (sp.calls[n].Decided? ==> sp.calls[n].answer.ok)
    requires forall e {:trigger e in Visible(events)} | e in Visible(events) && e.Begins? :: e.job.op == Adding
    ensures forall e {:trigger e in Visible(events)} | e in Visible(events) && e.Returns? :: e.answer.ok
    decreases |events|
  {
    if events != [] {
      var e := events[0];
      VisibleParts(events);
      AddsSucceed(Next(sp, e), events[1..]);
    }
  }

  // ---------- Updates ----------

  /** One thread alone adds `k`, and nobody removes it. */
  predicate Owner(thread: nat, k: int, n: nat, job: Job) {
    && (job.op == Removing ==> job.key != k)
    && (n != thread && job.op == Adding ==> job.key != k)
  }

  predicate OwnerOnly(h: seq<Event>, thread: nat, k: int) {
    forall e {:trigger e in h} | e in h && e.Begins? :: Owner(thread, k, e.thread, e.job)
  }

  ghost predicate Others(sp: Spec, thread: nat, k: int) {
    && thread < |sp.calls|
    && forall n {:trigger sp.calls[n]} | 0 <= n < |sp.calls| && !sp.calls[n].Ready? ::
        Owner(thread, k, n, sp.calls[n].job)
  }

  lemma OwnerStep(sp: Spec, e: Event, thread: nat, k: int)
    requires Others(sp, thread, k) && Allowed(sp, e) && (e.Begins? ==> Owner(thread, k, e.thread, e.job))
    ensures Others(Next(sp, e), thread, k)
    ensures e.thread != thread || !e.Acts? || sp.calls[thread].job.op == Finding ==>
              L.Lookup(Next(sp, e).model, k) == L.Lookup(sp.model, k)
    ensures e.thread != thread ==> Next(sp, e).calls[thread] == sp.calls[thread]
  {
    assert !sp.calls[e.thread].Ready? ==> Owner(thread, k, e.thread, sp.calls[e.thread].job);
  }

  /** Answers of finds that see `v`. */
  predicate Sees(answer: Answer, v: int) { (if answer.ok then answer.val else TOMBSTONE) == v }

  /** While the owner only looks for its key, it sees the value that is there. */
  lemma {:induction false} OwnerSees(sp: Spec, events: seq<Event>, thread: nat, k: int, v: int)
    requires Others(sp, thread, k) && Accepted(sp, events) && L.Lookup(sp.model, k) == v
    requires var st := sp.calls[thread];
      !st.Ready? ==> st.job.op == Finding && st.job.key == k && (st.Decided? ==> Sees(st.answer, v))
    requires OwnerOnly(Visible(events), thread, k)
    requires forall e {:trigger e in Visible(events)} | e in Visible(events) && e.Begins? && e.thread == thread ::
               e.job.op == Finding && e.job.key == k
    ensures forall e {:trigger e in Visible(events)} | e in Visible(events) && e.Returns? && e.thread == thread ::
              Sees(e.answer, v)
    decreases |events|
  {
    if events != [] {
      var e := events[0];
      VisibleParts(events);
      OwnerStep(sp, e, thread, k);
      OwnerSees(Next(sp, e), events[1..], thread, k, v);
    }
  }

  /** What the owner does after an update: it only looks for its key. */
  predicate LooksOnly(h: seq<Event>, thread: nat, k: int) {
    OwnerOnly(h, thread, k) &&
    forall e {:trigger e in h} | e in h && e.Begins? && e.thread == thread :: e.job.op == Finding && e.job.key == k
  }

  /** From the begin of the update to its return, and further. */
  lemma {:induction false} UpdateLasts(sp: Spec, events: seq<Event>, thread: nat, job: Job,
                                       h: seq<Event>, a: Answer, h': seq<Event>)
    requires Others(sp, thread, job.key) && Accepted(sp, events) && job.op == Adding
    requires var st := sp.calls[thread];
      st == Pending(job) || (st.Decided? && st.job == job && L.Lookup(sp.model, job.key) == job.val)
    requires Visible(events) == h + [Returns(thread, a)] + h' && OwnerOnly(h, thread, job.key)
    requires forall e {:trigger e in h} | e in h :: e.thread != thread
    requires LooksOnly(h', thread, job.key)
    ensures forall e {:trigger e in h'} | e in h' && e.Returns? && e.thread == thread :: Sees(e.answer, job.val)
    decreases |events|
  {
    var e, rest := events[0], events[1..];
    var v := h + [Returns(thread, a)] + h';
    if e.Acts? {
      OwnerStep(sp, e, thread, job.key);
      UpdateLasts(Next(sp, e), rest, thread, job, h, a, h');
    } else {
      assert v[0] == e && v[1..] == Visible(rest);
      if h == [] {
        assert v[1..] == h';
        OwnerStep(sp, e, thread, job.key);
        OwnerSees(Next(sp, e), rest, thread, job.key, job.val);
      } else {
        assert v[1..] == h[1..] + [Returns(thread, a)] + h' && e in h;
        OwnerStep(sp, e, thread, job.key);
        assert forall x {:trigger x in h[1..]} :: x in h[1..] ==> x in h;
        UpdateLasts(Next(sp, e), rest, thread, job, h[1..], a, h');
      }
    }
  }

  /** What a thread has added, alone, its finds see after the add has returned. */
  lemma {:induction false} UpdateIsSeen(sp: Spec, events: seq<Event>, thread: nat, job: Job,
                                        h: seq<Event>, h': seq<Event>, a: Answer, h'': seq<Event>)
    requires Others(sp, thread, job.key) && Accepted(sp, events) && job.op == Adding
    requires Visible(events) == h + [Begins(thread, job)] + (h' + [Returns(thread, a)] + h'')
    requires OwnerOnly(h, thread, job.key) && OwnerOnly(h', thread, job.key) && LooksOnly(h'', thread, job.key)
    requires forall e {:trigger e in h'} | e in h' :: e.thread != thread
    ensures forall e {:trigger e in h''} | e in h'' && e.Returns? && e.thread == thread :: Sees(e.answer, job.val)
    decreases |events|
  {
    var e, rest := events[0], events[1..];
    var u := h' + [Returns(thread, a)] + h'';
    var v := h + [Begins(thread, job)] + u;
    if e.Acts? {
      OwnerStep(sp, e, thread, job.key);
      UpdateIsSeen(Next(sp, e), rest, thread, job, h, h', a, h'');
    } else {
      assert v[0] == e && v[1..] == Visible(rest);
      if h == [] {
        assert v[1..] == u;
        OwnerStep(sp, e, thread, job.key);
        UpdateLasts(Next(sp, e), rest, thread, job, h', a, h'');
      } else {
        assert v[1..] == h[1..] + [Begins(thread, job)] + u && e in h;
        OwnerStep(sp, e, thread, job.key);
        assert forall x {:trigger x in h[1..]} :: x in h[1..] ==> x in h;
        UpdateIsSeen(Next(sp, e), rest, thread, job, h[1..], h', a, h'');
      }
    }
  }

  // ---------- Histories without an order ----------

  /** A find sees a value, and a later one of the same thread does not, although nothing is removed. */
  lemma NoOrderForFinds(threads: nat, thread: nat, k: int, h: seq<Event>, a: Answer, h': seq<Event>, b: Answer)
    requires thread < threads && FinderOnly(h, thread, k) && FinderOnly(h', thread, k)
    requires SeesSome(a) && !SeesSome(b) && Returns(thread, b) in h'
    ensures !Linearizable(threads, h + [Returns(thread, a)] + h')
  {
    var v := h + [Returns(thread, a)] + h';
    forall events {:trigger Visible(events)} | Visible(events) == v ensures !Accepted(NoCalls(threads), events) {
      if Accepted(NoCalls(threads), events) {
        FindsKeepSeeing(NoCalls(threads), events, thread, k, h, a, h');
      }
    }
  }

  /** There are only adds, and one returns false. */
  lemma NoOrderForAdds(threads: nat, h: seq<Event>, thread: nat, b: Answer)
    requires forall e {:trigger e in h} | e in h && e.Begins? :: e.job.op == Adding
    requires Returns(thread, b) in h && !b.ok
    ensures !Linearizable(threads, h)
  {
    forall events {:trigger Visible(events)} | Visible(events) == h ensures !Accepted(NoCalls(threads), events) {
      if Accepted(NoCalls(threads), events) {
        AddsSucceed(NoCalls(threads), events);
      }
    }
  }

  /** A thread adds a value and then looks for its key, which is nobody else's, and sees another value. */
  lemma NoOrderForUpdates(threads: nat, thread: nat, job: Job, h: seq<Event>, h': seq<Event>, a: Answer,
                          h'': seq<Event>, b: Answer)
    requires thread < threads && job.op == Adding
    requires OwnerOnly(h, thread, job.key) && OwnerOnly(h', thread, job.key) && LooksOnly(h'', thread, job.key)
    requires forall e {:trigger e in h'} | e in h' :: e.thread != thread
    requires Returns(thread, b) in h'' && !Sees(b, job.val)
    ensures !Linearizable(threads, h + [Begins(thread, job)] + (h' + [Returns(thread, a)] + h''))
  {
    var v := h + [Begins(thread, job)] + (h' + [Returns(thread, a)] + h'');
    forall events {:trigger Visible(events)} | Visible(events) == v ensures !Accepted(NoCalls(threads), events) {
      if Accepted(NoCalls(threads), events) {
        UpdateIsSeen(NoCalls(threads), events, thread, job, h, h', a, h'');
      }
    }
  }
}
