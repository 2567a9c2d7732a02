/**
 What the engine's answers mean, and how often they can be given: an answer is
 tied to what the operation did to the backend, the journal and memory.
 */
module Answers {
  import opened Types
  import opened Protocol
  import opened Operations
  import opened Calls
  import C = Conservation
  import D = Delivery
  import L = Leasing
  import Q = Queue

  // ---------- Ack ----------

  /** The ack completed a task: it was held under this lease, is gone from processing, and the lease is closed. */
  ghost predicate Completes(s: State, s': State, lid: LeaseId) {
    && lid in s.leases && HoldsLease(s.store, s.leases[lid])
    && var t := s.leases[lid].task.id;
       && s'.hist.acks == s.hist.acks + [t]
       && s'.store == s.store.(processing := s.store.processing - {t})
       && s'.leases == s.leases - {lid}
       && s'.journal == s.journal + [CloseRecord(Ack, lid)]
  }

  /** The lease was unknown, or had lost its task and is now dropped; nothing else happened. */
  ghost predicate LostLease(s: State, s': State, lid: LeaseId) {
    && (lid in s.leases ==> !HoldsLease(s.store, s.leases[lid]))
    && s'.store == s.store && s'.hist.acks == s.hist.acks
    && s'.leases == s.leases - {lid}
    && s'.journal == if lid in s.leases then s.journal + [CloseRecord(Stale, lid)] else s.journal
  }

  /**
   Success is answered exactly when the ack completed a task, and "lease not
   found" only when the lease is not, or no longer, in memory and the backend was
   left alone; every other answer keeps the lease, so the ack can be tried again.
   */
  lemma AckAnswerMeans(s: State, lid: LeaseId, f: Fault, w: Write)
    requires lid in s.leases ==> s.leases[lid].id == lid
    ensures
      var answer, s' := AckAnswerOf(s, lid, f, w), AckNext(s, lid, f, w);
      && (answer == AckDone <==> Completes(s, s', lid))
      && (answer == AckDone <==> s'.hist.acks != s.hist.acks)
      && (answer == LeaseNotFound <==> s.pc.Idle? && LostLease(s, s', lid))
      && (answer == AckNotRecovered <==> !s.pc.Idle?)
      && (answer == AckNotRecovered || answer == CompleteFailed || answer == AckNotJournalled ==>
            s'.leases == s.leases)
      && (answer == CompleteFailed ==> f != Clean && s'.journal == s.journal)
      && (answer == AckNotJournalled ==> f == Clean && w != Durable)
  {
    if s.pc.Idle? && lid in s.leases {
      KnownAck(s, lid, f, w);
    }
  }

  /** The answers to an ack of a known lease, one fault at a time. */
  lemma KnownAck(s: State, lid: LeaseId, f: Fault, w: Write)
    requires s.pc.Idle? && lid in s.leases && s.leases[lid].id == lid
    ensures
      var s', held := AckNext(s, lid, f, w), HoldsLease(s.store, s.leases[lid]);
      && (f == Clean && w == Durable ==> s'.leases == s.leases - {lid} && lid !in s'.leases)
      && (f == Clean && w == Durable && held ==> Completes(s, s', lid))
      && (f == Clean && w == Durable && !held ==> LostLease(s, s', lid))
      && (f != Clean || w != Durable ==> s'.leases == s.leases && s'.hist.acks == s.hist.acks && lid in s'.leases)
      && (f != Clean ==> s'.journal == s.journal)
  {
    assert lid !in s.leases - {lid};
  }

  // ---------- Fetch ----------

  /** The fetch handed out the oldest ready task under a lease that is journalled, in memory and scheduled. */
  ghost predicate Grants(s: State, s': State, l: Lease) {
    && s.store.ready != [] && l.task == s.store.ready[0]
    && s'.store == s.store.(ready := s.store.ready[1..],
                            processing := s.store.processing[l.task.id := Q.Entry(l.task, l.id)])
    && s'.journal == s.journal + [FetchRecord(l)]
    && s'.leases == s.leases[l.id := l] && s'.heap == s.heap + multiset{Item(l.id, l.expiresAt)}
    && s'.hist.published == s.hist.published + [l]
  }

  /** The task just taken went back to the end of the ready queue, charged. */
  ghost predicate HandedBack(s: State, s': State) {
    && s.store.ready != []
    && s'.store.ready == s.store.ready[1..] + [Q.Charged(s.store.ready[0])]
    && s.store.ready[0].id !in s'.store.processing
  }

  /**
   A lease is answered exactly when it was granted, for the oldest ready task, from
   the clock to the clock plus the timeout; no other answer leaves a lease or a
   heap entry behind.
   */
  lemma FetchAnswerMeans(s: State, lid: LeaseId, clock: int, timeout: int, fa: Fault, w: Write, fr: Fault)
    ensures
      var answer, s' := FetchAnswerOf(s, lid, clock, timeout, fa, w, fr),
                        FetchNext(s, lid, clock, timeout, fa, w, fr);
      && (answer.Leased? <==> s'.hist.published != s.hist.published)
      && (answer.Leased? ==>
            Grants(s, s', answer.lease)
            && answer.lease.id == lid && answer.lease.createdAt == clock && answer.lease.expiresAt == clock + timeout)
      && (!answer.Leased? ==> s'.leases == s.leases && s'.heap == s.heap)
      && (answer == InvalidTimeout <==> timeout <= 0)
      && (answer == FetchNotRecovered <==> timeout > 0 && !s.pc.Idle?)
      && (answer == InvalidTimeout || answer == FetchNotRecovered || answer == QueueEmpty ==> s' == s)
      && (answer == QueueEmpty ==> s.store.ready == [])
      && (answer == AcquireFailed ==> fa != Clean && s'.journal == s.journal)
      && (answer.NotJournalled? ==> fa == Clean && w != Durable && (answer.returned <==> fr == Clean))
      && (answer == NotJournalled(true) ==> HandedBack(s, s'))
  {
    if timeout > 0 && s.pc.Idle? && s.store.ready != [] && fa == Clean {
      TakenFetch(s, lid, clock, timeout, w, fr);
    }
  }

  lemma TakenFetch(s: State, lid: LeaseId, clock: int, timeout: int, w: Write, fr: Fault)
    requires timeout > 0 && s.pc.Idle? && s.store.ready != []
    ensures
      var s', l := FetchNext(s, lid, clock, timeout, Clean, w, fr),
                   Lease(lid, s.store.ready[0], clock, clock + timeout);
      && (w == Durable ==> Grants(s, s', l))
      && (w != Durable ==>
            s'.leases == s.leases && s'.heap == s.heap && s'.hist.published == s.hist.published)
      && (w != Durable && fr == Clean ==> HandedBack(s, s'))
  {
  }

  // ---------- Whole histories ----------

  /** The call is an ack of a lease of task `t` that answers success. */
  ghost predicate AnswersDone(s: State, k: Call, t: TaskId) {
    && k.Returns? && k.op.Acks?
    && AckAnswerOf(s, k.op.lid, k.op.fault, k.op.write) == AckDone
    && k.op.lid in s.leases && s.leases[k.op.lid].task.id == t
  }

  /** The call is a fetch that answers a lease of task `t`. */
  ghost predicate AnswersLease(s: State, k: Call, t: TaskId) {
    && k.Returns? && k.op.Fetches?
    && var answer := FetchAnswerOf(s, k.op.lid, k.op.clock, k.op.timeout, k.op.acquire, k.op.write, k.op.requeue);
       answer.Leased? && answer.lease.task.id == t
  }

  ghost function DoneAnswers(c: Config, s: State, calls: seq<Call>, t: TaskId): nat
    requires CanCall(c, s, calls)
    decreases |calls|
  {
    if calls == [] then 0
    else (if AnswersDone(s, calls[0], t) then 1 else 0) + DoneAnswers(c, Following(c, s, calls[0]), calls[1..], t)
  }

  ghost function LeaseAnswers(c: Config, s: State, calls: seq<Call>, t: TaskId): nat
    requires CanCall(c, s, calls)
    decreases |calls|
  {
    if calls == [] then 0
    else (if AnswersLease(s, calls[0], t) then 1 else 0) + LeaseAnswers(c, Following(c, s, calls[0]), calls[1..], t)
  }

  lemma AckAdds(s: State, k: Call, t: TaskId)
    requires AnswersDone(s, k, t)
    ensures AckNext(s, k.op.lid, k.op.fault, k.op.write).hist.acks == s.hist.acks + [t]
  {
  }

  lemma FetchAdds(s: State, k: Call, t: TaskId)
    requires AnswersLease(s, k, t)
    ensures
      var p := FetchNext(s, k.op.lid, k.op.clock, k.op.timeout, k.op.acquire, k.op.write, k.op.requeue).hist.published;
      |p| == |s.hist.published| + 1 && s.hist.published <= p && p[|s.hist.published|].task.id == t
  {
    FetchAnswerMeans(s, k.op.lid, k.op.clock, k.op.timeout, k.op.acquire, k.op.write, k.op.requeue);
  }

  lemma CallGrows(c: Config, s: State, k: Call)
    requires Possible(c, s, k)
    ensures s.hist.acks <= Following(c, s, k).hist.acks && s.hist.published <= Following(c, s, k).hist.published
  {
    hide CanRun, Exec, Possible, Following;
    var acts := CallIsRun(c, s, k);
    C.GrowsOverRuns(c, s, acts);
  }

  lemma PrefixCount(a: seq<TaskId>, b: seq<TaskId>, t: TaskId)
    requires a <= b
    ensures multiset(a)[t] <= multiset(b)[t]
  {
    assert b == a + b[|a|..];
  }

  lemma {:induction false} PrefixDeliveries(a: seq<Lease>, b: seq<Lease>, t: TaskId)
    requires a <= b
    ensures D.Deliveries(a, t) <= D.Deliveries(b, t)
    decreases |b|
  {
    if |a| < |b| {
      PrefixDeliveries(a, b[..|b| - 1], t);
    } else {
      assert a == b;
    }
  }

  lemma DoneStep(c: Config, s: State, k: Call, t: TaskId)
    requires Possible(c, s, k)
    ensures multiset(s.hist.acks)[t] + (if AnswersDone(s, k, t) then 1 else 0)
         <= multiset(Following(c, s, k).hist.acks)[t]
  {
    if AnswersDone(s, k, t) {
      AckAdds(s, k, t);
    } else {
      hide Possible, Following, AnswersDone;
      CallGrows(c, s, k);
      PrefixCount(s.hist.acks, Following(c, s, k).hist.acks, t);
    }
  }

  lemma LeaseStep(c: Config, s: State, k: Call, t: TaskId)
    requires Possible(c, s, k)
    ensures D.Deliveries(s.hist.published, t) + (if AnswersLease(s, k, t) then 1 else 0)
         <= D.Deliveries(Following(c, s, k).hist.published, t)
  {
    if AnswersLease(s, k, t) {
      FetchAdds(s, k, t);
      hide FetchNext;
      var p := Following(c, s, k).hist.published;
      assert p == s.hist.published + [p[|s.hist.published|]];
      D.DeliveriesSnoc(s.hist.published, p[|s.hist.published|], t);
    } else {
      hide Possible, Following, AnswersLease;
      CallGrows(c, s, k);
      PrefixDeliveries(s.hist.published, Following(c, s, k).hist.published, t);
    }
  }

  lemma {:induction false} DoneCounted(c: Config, s: State, calls: seq<Call>, t: TaskId)
    requires CanCall(c, s, calls)
    ensures multiset(s.hist.acks)[t] + DoneAnswers(c, s, calls, t) <= multiset(AfterAll(c, s, calls).hist.acks)[t]
    decreases |calls|
  {
    hide Possible, Following, AnswersDone;
    if calls != [] {
      DoneStep(c, s, calls[0], t);
      DoneCounted(c, Following(c, s, calls[0]), calls[1..], t);
    }
  }

  lemma {:induction false} LeasesCounted(c: Config, s: State, calls: seq<Call>, t: TaskId)
    requires CanCall(c, s, calls)
    ensures D.Deliveries(s.hist.published, t) + LeaseAnswers(c, s, calls, t)
         <= D.Deliveries(AfterAll(c, s, calls).hist.published, t)
    decreases |calls|
  {
    hide Possible, Following, AnswersLease;
    if calls != [] {
      LeaseStep(c, s, calls[0], t);
      LeasesCounted(c, Following(c, s, calls[0]), calls[1..], t);
    }
  }

  lemma {:induction false} DistinctCount(s: seq<TaskId>, t: TaskId)
    requires Distinct(s)
    ensures multiset(s)[t] <= 1
  {
    if s != [] {
      var n := |s| - 1;
      assert s == s[..n] + [s[n]];
      DistinctCount(s[..n], t);
      assert s[n] !in s[..n];
    }
  }

  /** Over every history of calls, with deaths anywhere, at most one ack per task answers success. */
  lemma OneSuccessPerTask(c: Config, calls: seq<Call>, t: TaskId)
    requires c.retryDelay > 0 && CanCall(c, INIT, calls)
    ensures DoneAnswers(c, INIT, calls, t) <= 1
  {
    hide CanCall, DoneAnswers, L.Sound;
    EveryHistory(c, calls);
    DoneCounted(c, INIT, calls, t);
    DistinctCount(AfterAll(c, INIT, calls).hist.acks, t);
  }

  /** Over every such history, at most MaxAttempts fetches answer a lease of one task. */
  lemma BoundedLeaseAnswers(c: Config, calls: seq<Call>, t: TaskId)
    requires c.retryDelay > 0 && c.maxAttempts > 0 && CanCall(c, INIT, calls)
    ensures LeaseAnswers(c, INIT, calls, t) <= c.maxAttempts
  {
    hide CanCall, LeaseAnswers, L.Sound;
    EveryHistory(c, calls);
    LeasesCounted(c, INIT, calls, t);
  }
}
