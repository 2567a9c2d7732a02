/**
 What the journal, the backend and process memory agree on as long as records
 that reached the disk stay there. From it: a published lease is protected by a
 live journal record, and deliveries of one task are bounded.
 */
module Leasing {
  import opened Types
  import opened Protocol
  import opened Conservation
  import Q = Queue
  import J = Journal

  /** `l` is the very lease that its acquisition created. */
  ghost predicate Known(h: History, l: Lease) {
    l.id in h.origin && h.origin[l.id] == l
  }

  ghost predicate LiveKnown(h: History, m: J.LiveMap) {
    forall l :: l in m ==> l in h.origin && m[l] == FetchRecord(h.origin[l])
  }

  ghost predicate StoreGrounded(s: State) {
    && (forall l :: l in s.hist.origin ==>
          s.hist.origin[l].id == l && s.hist.origin[l].task.id in s.hist.accepted)
    && (forall t :: t in s.store.processing ==>
          var e := s.store.processing[t];
          e.fence in s.hist.origin && s.hist.origin[e.fence].task == e.task)
  }

  ghost predicate MemoryGrounded(s: State) {
    && (forall l :: l in s.leases ==> l in s.hist.origin && s.leases[l] == s.hist.origin[l])
    && (forall i :: 0 <= i < |s.hist.published| ==> Known(s.hist, s.hist.published[i]))
    && (forall i, j :: 0 <= i < j < |s.hist.published| ==> s.hist.published[i].id != s.hist.published[j].id)
    && PcKnown(s.hist, s.pc)
  }

  ghost predicate PcKnown(h: History, pc: Pc) {
    match pc
    case Recovering(live) => LiveKnown(h, live)
    case Closing(live, _, _) => LiveKnown(h, live)
    case Acquired(l) => Known(h, l)
    case Refused(l) => Known(h, l)
    case Recorded(l) => Known(h, l)
    case Acking(l, _) => Known(h, l)
    case Acked(l, _) => Known(h, l)
    case Expiring(_, l) => Known(h, l)
    case Expired(_, l, op) => Known(h, l) && !op.Fetch? && !op.Other?
    case Closed(_, l) => Known(h, l)
    case _ => true
  }

  ghost predicate Grounded(s: State) {
    && StoreGrounded(s)
    && MemoryGrounded(s)
    && LiveKnown(s.hist, J.Live(s.journal))
  }

  /** Every published lease that still holds its task has a live journal record. */
  ghost predicate Guarded(s: State) {
    && (forall i :: 0 <= i < |s.hist.published| && HoldsLease(s.store, s.hist.published[i]) ==>
          s.hist.published[i].id in J.Live(s.journal))
    && (match s.pc
        case Recovering(live) => live == J.Live(s.journal)
        case Closing(live, _, pending) =>
          forall l :: l in pending ==> l in live && !HoldsLease(s.store, LeaseOf(live[l]))
        case Acquired(l) => HoldsLease(s.store, l) && l !in s.hist.published
        case Refused(l) => HoldsLease(s.store, l) && l !in s.hist.published
        case Recorded(l) =>
          HoldsLease(s.store, l) && l !in s.hist.published && l.id in J.Live(s.journal)
        case Acking(l, _) => !HoldsLease(s.store, l)
        case Expired(_, l, _) => !HoldsLease(s.store, l)
        case _ => true)
  }

  ghost predicate Tight(s: State) {
    Grounded(s) && Guarded(s)
  }

  ghost predicate Sound(s: State) {
    Conserved(s) && Tight(s)
  }

  /** No published lease gains a hold, which is all a backend step must show. */
  ghost predicate NoNewHold(s: State, s': State) {
    forall i :: 0 <= i < |s.hist.published| && HoldsLease(s'.store, s.hist.published[i]) ==>
      HoldsLease(s.store, s.hist.published[i])
  }

  // ---------- Steps on the backend ----------

  /** Taking entries out of processing leaves everything grounded. */
  lemma GroundedShrink(s: State, s': State)
    requires Grounded(s) && PcKnown(s.hist, s'.pc)
    requires s'.journal == s.journal && s'.leases == s.leases
    requires s'.hist.origin == s.hist.origin && s'.hist.accepted == s.hist.accepted
    requires s'.hist.published == s.hist.published
    requires forall t :: t in s'.store.processing ==>
               t in s.store.processing && s'.store.processing[t] == s.store.processing[t]
    ensures Grounded(s')
  {
    assert PcKnown(s'.hist, s'.pc);
  }

  lemma CompleteKnown(s: State, lid: LeaseId, f: Fault)
    requires Grounded(s) && s.pc.Idle? && lid in s.leases
    ensures PcKnown(s.hist, DoComplete(s, lid, f).pc)
  {
  }

  lemma TightEnqueue(s: State, id: TaskId, payload: seq<Byte>, f: Fault)
    requires Tight(s) && s.pc.Idle?
    ensures Tight(DoEnqueue(s, id, payload, f))
  {
  }

  lemma TightAcquire(s: State, lid: LeaseId, clock: int, timeout: int, f: Fault)
    requires Tight(s) && s.pc.Idle? && FreshLease(s, lid)
    requires s.store.ready != [] ==>
               s.store.ready[0].id !in s.store.processing && s.store.ready[0].id in s.hist.accepted
    ensures Tight(DoAcquire(s, lid, clock, timeout, f))
  {
    hide Grounded, Guarded;
    GroundedAcquire(s, lid, clock, timeout, f);
    GuardedAcquire(s, lid, clock, timeout, f);
  }

  lemma GroundedAcquire(s: State, lid: LeaseId, clock: int, timeout: int, f: Fault)
    requires Grounded(s) && s.pc.Idle? && FreshLease(s, lid)
    requires s.store.ready != [] ==> s.store.ready[0].id in s.hist.accepted
    ensures Grounded(DoAcquire(s, lid, clock, timeout, f))
  {
  }

  lemma GuardedAcquire(s: State, lid: LeaseId, clock: int, timeout: int, f: Fault)
    requires Grounded(s) && Guarded(s) && s.pc.Idle? && FreshLease(s, lid)
    requires s.store.ready != [] ==> s.store.ready[0].id !in s.store.processing
    ensures Guarded(DoAcquire(s, lid, clock, timeout, f))
  {
    assert forall i :: 0 <= i < |s.hist.published| ==> s.hist.published[i].id != lid;
    assert NoNewHold(s, DoAcquire(s, lid, clock, timeout, f));
  }

  lemma TightComplete(s: State, lid: LeaseId, f: Fault)
    requires Tight(s) && s.pc.Idle? && lid in s.leases
    ensures Tight(DoComplete(s, lid, f))
  {
    hide Grounded;
    CompleteKnown(s, lid, f);
    GroundedShrink(s, DoComplete(s, lid, f));
    assert NoNewHold(s, DoComplete(s, lid, f));
  }

  lemma TightCompensate(s: State, f: Fault)
    requires Tight(s) && s.pc.Refused?
    ensures Tight(DoCompensate(s, f))
  {
    hide Grounded;
    GroundedShrink(s, DoCompensate(s, f));
    assert NoNewHold(s, DoCompensate(s, f));
  }

  /** The lease being expired carries the task its fence holds, attempts included. */
  lemma ExpiringTask(s: State)
    requires Tight(s) && s.pc.Expiring? && HoldsLease(s.store, s.pc.lease)
    ensures s.store.processing[s.pc.lease.task.id].task == s.pc.lease.task
  {
  }

  lemma ExpireKnown(c: Config, s: State, f: Fault)
    requires Grounded(s) && s.pc.Expiring?
    ensures PcKnown(s.hist, DoExpire(c, s, f).pc)
  {
  }

  lemma TightExpire(c: Config, s: State, f: Fault)
    requires Tight(s) && s.pc.Expiring?
    ensures Tight(DoExpire(c, s, f))
  {
    hide Grounded;
    ExpireKnown(c, s, f);
    GroundedShrink(s, DoExpire(c, s, f));
    assert NoNewHold(s, DoExpire(c, s, f));
  }

  /** Reconciliation never takes a task from a published lease. */
  lemma PublishedNotOrphan(s: State, t: TaskId)
    requires Tight(s) && Q.Keyed(s.store) && s.pc.Recovering?
    requires t in Q.Orphans(s.store, Fences(s.pc.live))
    ensures forall i :: 0 <= i < |s.hist.published| ==> s.hist.published[i].id != s.store.processing[t].fence
  {
    forall i | 0 <= i < |s.hist.published|
      ensures s.hist.published[i].id != s.store.processing[t].fence
    {
      var l := s.hist.published[i];
      assert l.id in s.pc.live && s.pc.live[l.id].task.id == t ==> Fence(t, l.id) in Fences(s.pc.live);
    }
  }

  lemma TightReconcile(s: State, orphans: seq<TaskId>, f: Fault)
    requires Tight(s) && s.pc.Recovering?
    requires Enumerates(orphans, Q.Orphans(s.store, Fences(s.pc.live)))
    ensures Tight(DoReconcile(s, orphans, f))
  {
    var s' := DoReconcile(s, orphans, f);
    var live, fences := s.pc.live, Fences(s.pc.live);
    assert NoNewHold(s, s');
    if s'.pc.Closing? {
      forall l | l in s'.pc.pending ensures !HoldsLease(s'.store, LeaseOf(live[l])) {
        assert Fence(live[l].task.id, l) in fences;
      }
    }
  }

  // ---------- Steps on the journal ----------

  lemma TightFetchRecord(s: State, w: Write)
    requires Tight(s) && s.pc.Acquired?
    ensures Tight(DoFetchRecord(s, w))
  {
    hide Grounded, Guarded;
    GroundedFetchRecord(s, w);
    GuardedFetchRecord(s, w);
  }

  lemma GroundedFetchRecord(s: State, w: Write)
    requires Grounded(s) && s.pc.Acquired?
    ensures Grounded(DoFetchRecord(s, w))
  {
    hide J.Live;
    J.LiveSnoc(s.journal, FetchRecord(s.pc.lease));
  }

  lemma GuardedFetchRecord(s: State, w: Write)
    requires Guarded(s) && s.pc.Acquired?
    ensures Guarded(DoFetchRecord(s, w))
  {
    hide J.Live;
    J.LiveSnoc(s.journal, FetchRecord(s.pc.lease));
  }

  /** Closing the record of a lease that holds no task keeps every guard. */
  lemma CloseKeepsGuard(s: State, op: Op, l: Lease, w: Write)
    requires Tight(s) && Known(s.hist, l) && !HoldsLease(s.store, l)
    requires !op.Fetch? && !op.Other?
    ensures var j := Logged(s.journal, CloseRecord(op, l.id), w);
      && LiveKnown(s.hist, J.Live(j))
      && (forall i :: 0 <= i < |s.hist.published| && HoldsLease(s.store, s.hist.published[i]) ==>
            s.hist.published[i].id in J.Live(j))
  {
    hide J.Live;
    J.LiveSnoc(s.journal, CloseRecord(op, l.id));
    assert forall i :: 0 <= i < |s.hist.published| && HoldsLease(s.store, s.hist.published[i]) ==>
        s.hist.published[i].id != l.id;
  }

  lemma TightAckRecord(s: State, w: Write)
    requires Tight(s) && s.pc.Acking?
    ensures Tight(DoAckRecord(s, w))
  {
    CloseKeepsGuard(s, if s.pc.completed then Ack else Stale, s.pc.lease, w);
  }

  lemma TightExpireRecord(c: Config, s: State, w: Write)
    requires Tight(s) && s.pc.Expired?
    ensures Tight(DoExpireRecord(c, s, w))
  {
    CloseKeepsGuard(s, s.pc.op, s.pc.lease, w);
  }

  lemma TightCloseStale(s: State, l: LeaseId, w: Write)
    requires Tight(s) && s.pc.Closing? && l in s.pc.pending
    ensures Tight(DoCloseStale(s, l, w))
  {
    CloseKeepsGuard(s, Stale, LeaseOf(s.pc.live[l]), w);
  }

  // ---------- Steps on process memory ----------

  lemma TightPublish(s: State)
    requires Tight(s) && s.pc.Recorded?
    ensures Tight(DoPublish(s))
  {
    forall i | 0 <= i < |s.hist.published| ensures s.hist.published[i].id != s.pc.lease.id {
      assert s.hist.published[i] in s.hist.published;
    }
  }

  lemma TightReinstate(s: State)
    requires Tight(s) && s.pc.Closing?
    ensures Tight(DoReinstate(s))
  {
    var s' := DoReinstate(s);
    forall l | l in s'.leases ensures l in s.hist.origin && s'.leases[l] == s.hist.origin[l] {
      assert s.pc.live[l] == FetchRecord(s.hist.origin[l]);
    }
  }

  /** Forgetting leases, moving the heap or dying changes nothing durable. */
  lemma TightMemory(s: State, s': State)
    requires Tight(s)
    requires s'.store == s.store && s'.hist.origin == s.hist.origin && s'.hist.accepted == s.hist.accepted
    requires s'.hist.published == s.hist.published
    requires J.Live(s'.journal) == J.Live(s.journal)
    requires s'.leases.Keys <= s.leases.Keys && forall l :: l in s'.leases ==> s'.leases[l] == s.leases[l]
    requires s'.pc.Idle? || s'.pc.Down? || s'.pc.Reaping? || s'.pc == Recovering(J.Live(s.journal))
          || (s'.pc.Expiring? && Known(s.hist, s'.pc.lease))
    ensures Tight(s')
  {
  }

  lemma TightPop(s: State, i: Item)
    requires Tight(s) && s.pc.Reaping?
    ensures Tight(DoPop(s, i))
  {
    TightMemory(s, DoPop(s, i));
  }

  lemma TightForget(s: State)
    requires Tight(s) && s.pc.Closed?
    ensures Tight(s.(leases := s.leases - {s.pc.lease.id}, pc := Reaping(s.pc.now)))
  {
    TightMemory(s, s.(leases := s.leases - {s.pc.lease.id}, pc := Reaping(s.pc.now)));
  }

  lemma TightAckForget(s: State)
    requires Tight(s) && s.pc.Acked?
    ensures Tight(DoAckForget(s))
  {
    TightMemory(s, DoAckForget(s));
  }

  lemma SoundStep(c: Config, s: State, a: Action)
    requires Sound(s) && Enabled(c, s, a) && !a.Tamper?
    ensures Sound(Apply(c, s, a))
  {
    hide Tight, Conserved;
    ConservedStep(c, s, a);
    TightStep(c, s, a);
  }

  lemma TightBackend(c: Config, s: State, a: Action)
    requires Tight(s) && Conserved(s) && Enabled(c, s, a) && CallsBackend(a)
    ensures Tight(Apply(c, s, a))
  {
    hide Tight, Conserved;
    match a
    case Enqueue(id, payload, f) => TightEnqueue(s, id, payload, f);
    case FetchAcquire(l, clock, timeout, f) =>
      if s.store.ready != [] { ReadyNotProcessing(s, 0); }
      TightAcquire(s, l, clock, timeout, f);
    case AckComplete(l, f) => TightComplete(s, l, f);
    case FetchCompensate(f) => TightCompensate(s, f);
    case ExpireBackend(f) => TightExpire(c, s, f);
    case Reconcile(orphans, f) => TightReconcile(s, orphans, f);
  }

  lemma TightJournal(c: Config, s: State, a: Action)
    requires Tight(s) && Enabled(c, s, a)
    requires a.FetchRecordStep? || a.AckRecord? || a.ExpireRecord? || a.CloseStale? || a.Compact?
    ensures Tight(Apply(c, s, a))
  {
    hide Tight;
    match a
    case FetchRecordStep(w) => TightFetchRecord(s, w);
    case AckRecord(w) => TightAckRecord(s, w);
    case ExpireRecord(w) => TightExpireRecord(c, s, w);
    case CloseStale(l, w) => TightCloseStale(s, l, w);
    case Compact(order) => TightCompact(c, s, order);
  }

  lemma TightCompact(c: Config, s: State, order: seq<LeaseId>)
    requires Tight(s) && s.pc.Idle? && Enumerates(order, J.Live(s.journal).Keys)
    ensures Tight(s.(journal := J.Compacted(J.Live(s.journal), order)))
  {
    J.CompactLive(s.journal, order);
    TightMemory(s, s.(journal := J.Compacted(J.Live(s.journal), order)));
  }

  lemma TightStep(c: Config, s: State, a: Action)
    requires Tight(s) && Conserved(s) && Enabled(c, s, a) && !a.Tamper?
    ensures Tight(Apply(c, s, a))
  {
    hide Tight, Conserved;
    if CallsBackend(a) {
      TightBackend(c, s, a);
    } else if a.FetchRecordStep? || a.AckRecord? || a.ExpireRecord? || a.CloseStale? || a.Compact? {
      TightJournal(c, s, a);
    } else {
      match a
      case Reinstate => TightReinstate(s);
      case FetchPublish => TightPublish(s);
      case ReapPop(i) => TightPop(s, i);
      case ExpireForget => TightForget(s);
      case AckForget => TightAckForget(s);
      case ReapStart(clock) => TightMemory(s, s.(pc := Reaping(clock)));
      case ReapEnd => TightMemory(s, DoReapEnd(s));
      case Crash => TightMemory(s, DoCrash(s));
      case Start => TightMemory(s, s.(pc := Recovering(J.Live(s.journal))));
    }
  }

  lemma {:induction false} SoundOverRuns(c: Config, s: State, acts: seq<Action>)
    requires Sound(s) && CanRun(c, s, acts) && Intact(acts)
    ensures Sound(Exec(c, s, acts))
    decreases |acts|
  {
    hide Sound;
    if acts != [] {
      SoundStep(c, s, acts[0]);
      SoundOverRuns(c, Apply(c, s, acts[0]), acts[1..]);
    }
  }
}
