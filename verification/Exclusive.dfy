/**
 A published lease owns its task through any number of crashes and restarts,
 until it is acked itself or a reap runs at or past its own deadline; and no
 step made for another lease can take the task away.
 */
module Exclusive {
  import opened Types
  import opened Protocol
  import opened Conservation
  import opened Leasing
  import O = Operations
  import D = Delivery
  import Q = Queue
  import J = Journal

  /** The process serves requests: recovery is over. */
  ghost predicate Up(pc: Pc) {
    !pc.Down? && !pc.Failed? && !pc.Recovering? && !pc.Closing?
  }

  /** Step `a` makes the backend act on behalf of lease `l`. */
  ghost predicate ActsFor(s: State, a: Action, l: LeaseId) {
    || (a.AckComplete? && a.lid == l && a.fault != Before)
    || (a.ExpireBackend? && s.pc.Expiring? && s.pc.lease.id == l && a.fault != Before)
    || (a.FetchCompensate? && s.pc.Refused? && s.pc.lease.id == l && a.fault != Before)
  }

  ghost predicate NeverActsFor(c: Config, s: State, acts: seq<Action>, l: LeaseId)
    requires CanRun(c, s, acts)
    decreases |acts|
  {
    acts == [] || (!ActsFor(s, acts[0], l) && NeverActsFor(c, Apply(c, s, acts[0]), acts[1..], l))
  }

  /** `l` holds its task, its record is live, and every serving process knows it. */
  ghost predicate Protected(s: State, l: Lease) {
    && l in s.hist.published
    && HoldsLease(s.store, l)
    && l.id in J.Live(s.journal)
    && (Up(s.pc) ==> l.id in s.leases && s.leases[l.id] == l)
    && (match s.pc
        case Closing(live, matched, pending) => l.id in live && l.id in matched && l.id !in pending
        case Acking(m, _) => m.id != l.id
        case Acked(m, _) => m.id != l.id
        case Expired(_, m, _) => m.id != l.id
        case Closed(_, m) => m.id != l.id
        case _ => true)
  }

  // ---------- One step ----------

  lemma LeaseKnown(s: State, l: Lease)
    requires Tight(s) && l in s.hist.published
    ensures Known(s.hist, l)
  {
  }

  lemma ProtectedAcquire(s: State, l: Lease, lid: LeaseId, clock: int, timeout: int, f: Fault)
    requires Tight(s) && Conserved(s) && Protected(s, l) && s.pc.Idle? && FreshLease(s, lid)
    ensures Protected(DoAcquire(s, lid, clock, timeout, f), l)
  {
    if s.store.ready != [] {
      ReadyNotProcessing(s, 0);
    }
  }

  lemma ProtectedComplete(s: State, l: Lease, lid: LeaseId, f: Fault)
    requires Tight(s) && Protected(s, l) && s.pc.Idle? && lid in s.leases
    requires lid == l.id ==> f == Before
    ensures Protected(DoComplete(s, lid, f), l)
  {
    LeaseKnown(s, l);
  }

  lemma ProtectedExpire(c: Config, s: State, l: Lease, f: Fault)
    requires Tight(s) && Protected(s, l) && s.pc.Expiring?
    requires s.pc.lease.id == l.id ==> f == Before
    ensures Protected(DoExpire(c, s, f), l)
  {
  }

  lemma ProtectedCompensate(s: State, l: Lease, f: Fault)
    requires Tight(s) && Protected(s, l) && s.pc.Refused?
    ensures Protected(DoCompensate(s, f), l)
  {
    LeaseKnown(s, l);
  }

  lemma ProtectedReconcile(s: State, l: Lease, orphans: seq<TaskId>, f: Fault)
    requires Tight(s) && Protected(s, l) && s.pc.Recovering?
    requires Enumerates(orphans, Q.Orphans(s.store, Fences(s.pc.live)))
    ensures Protected(DoReconcile(s, orphans, f), l)
  {
    LeaseKnown(s, l);
    assert s.pc.live[l.id] == FetchRecord(l);
    assert Fence(l.task.id, l.id) in Fences(s.pc.live);
  }

  /** Recording `r` for another lease leaves the record of `l` live. */
  lemma StillLive(s: State, l: Lease, r: Record, w: Write)
    requires l.id in J.Live(s.journal) && r.lease != l.id
    ensures l.id in J.Live(Logged(s.journal, r, w))
  {
    hide J.Live;
    J.LiveSnoc(s.journal, r);
  }

  lemma ProtectedFetchRecord(s: State, l: Lease, w: Write)
    requires Tight(s) && Protected(s, l) && s.pc.Acquired?
    ensures Protected(DoFetchRecord(s, w), l)
  {
    LeaseKnown(s, l);
    StillLive(s, l, FetchRecord(s.pc.lease), w);
  }

  lemma ProtectedClose(c: Config, s: State, l: Lease, a: Action)
    requires Protected(s, l) && Enabled(c, s, a)
    requires a.AckRecord? || a.ExpireRecord? || a.CloseStale?
    ensures Protected(Apply(c, s, a), l)
  {
    match a
    case AckRecord(w) => StillLive(s, l, CloseRecord(if s.pc.completed then Ack else Stale, s.pc.lease.id), w);
    case ExpireRecord(w) => StillLive(s, l, CloseRecord(s.pc.op, s.pc.lease.id), w);
    case CloseStale(m, w) => StillLive(s, l, CloseRecord(Stale, m), w);
  }

  lemma ProtectedMemory(c: Config, s: State, l: Lease, a: Action)
    requires Tight(s) && Protected(s, l) && Enabled(c, s, a)
    requires a.FetchPublish? || a.AckForget? || a.ReapStart? || a.ReapPop? || a.ExpireForget? || a.ReapEnd?
    ensures Protected(Apply(c, s, a), l)
  {
    hide Tight;
    if a.FetchPublish? {
      PublishingOther(s, l);
    }
  }

  lemma PublishingOther(s: State, l: Lease)
    requires Tight(s) && Protected(s, l) && s.pc.Recorded?
    ensures s.pc.lease.id != l.id
  {
    LeaseKnown(s, l);
  }

  lemma ProtectedReinstate(s: State, l: Lease)
    requires Tight(s) && Protected(s, l) && s.pc.Closing?
    ensures Protected(DoReinstate(s), l)
  {
    LeaseKnown(s, l);
    assert s.pc.live[l.id] == FetchRecord(l);
  }

  lemma ProtectedQuiet(c: Config, s: State, l: Lease, a: Action)
    requires Protected(s, l) && Enabled(c, s, a) && (a.Compact? || a.Enqueue? || a.Crash? || a.Start?)
    ensures Protected(Apply(c, s, a), l)
  {
    if a.Compact? {
      J.CompactLive(s.journal, a.order);
    }
  }

  lemma ProtectedStep(c: Config, s: State, l: Lease, a: Action)
    requires Tight(s) && Conserved(s) && Protected(s, l) && Enabled(c, s, a) && !a.Tamper?
    requires !ActsFor(s, a, l.id)
    ensures Protected(Apply(c, s, a), l)
  {
    hide Tight, Conserved, Protected;
    match a {
      case FetchAcquire(lid, clock, timeout, f) => ProtectedAcquire(s, l, lid, clock, timeout, f);
      case AckComplete(lid, f) => ProtectedComplete(s, l, lid, f);
      case ExpireBackend(f) => ProtectedExpire(c, s, l, f);
      case FetchCompensate(f) => ProtectedCompensate(s, l, f);
      case Reconcile(orphans, f) => ProtectedReconcile(s, l, orphans, f);
      case Compact(order) => ProtectedQuiet(c, s, l, a);
      case Reinstate => ProtectedReinstate(s, l);
      case FetchRecordStep(w) => ProtectedFetchRecord(s, l, w);
      case AckRecord(_) => ProtectedClose(c, s, l, a);
      case ExpireRecord(_) => ProtectedClose(c, s, l, a);
      case CloseStale(_, _) => ProtectedClose(c, s, l, a);
      case Enqueue(_, _, _) => ProtectedQuiet(c, s, l, a);
      case Crash => ProtectedQuiet(c, s, l, a);
      case Start => ProtectedQuiet(c, s, l, a);
      case Tamper(_) =>
      case _ => ProtectedMemory(c, s, l, a);
    }
  }

  /** The task of `l` is not delivered between `s` and `s'`. */
  ghost predicate NoRival(s: State, s': State, l: Lease) {
    D.Deliveries(s'.hist.published, l.task.id) == D.Deliveries(s.hist.published, l.task.id)
  }

  lemma PublishIsNoRival(s: State, l: Lease)
    requires Tight(s) && Protected(s, l) && s.pc.Recorded?
    ensures NoRival(s, DoPublish(s), l)
  {
    LeaseKnown(s, l);
    D.DeliveriesSnoc(s.hist.published, s.pc.lease, l.task.id);
  }

  lemma NoRivalStep(c: Config, s: State, l: Lease, a: Action)
    requires Tight(s) && Protected(s, l) && Enabled(c, s, a)
    ensures NoRival(s, Apply(c, s, a), l)
  {
    if a.FetchPublish? {
      PublishIsNoRival(s, l);
    } else {
      PublishedFrame(c, s, a);
    }
  }

  // ---------- Whole runs ----------

  lemma FencedStep(c: Config, s: State, l: Lease, a: Action)
    requires Sound(s) && Protected(s, l) && Enabled(c, s, a) && !a.Tamper? && !ActsFor(s, a, l.id)
    ensures var s' := Apply(c, s, a); Sound(s') && Protected(s', l) && NoRival(s, s', l)
  {
    hide Tight, Conserved, Protected, NoRival;
    SoundStep(c, s, a);
    ProtectedStep(c, s, l, a);
    NoRivalStep(c, s, l, a);
  }

  /**
   Generation fencing over runs: whatever is done for other leases, including
   acks and reaps of older generations of the same task, `l` keeps the task.
   */
  lemma {:induction false} FencedOverRuns(c: Config, s: State, acts: seq<Action>, l: Lease)
    requires Sound(s) && Protected(s, l) && CanRun(c, s, acts) && Intact(acts)
    requires NeverActsFor(c, s, acts, l.id)
    ensures var s' := Exec(c, s, acts); Sound(s') && Protected(s', l) && NoRival(s, s', l)
    decreases |acts|
  {
    hide Sound, Protected;
    if acts != [] {
      FencedStep(c, s, l, acts[0]);
      FencedOverRuns(c, Apply(c, s, acts[0]), acts[1..], l);
    }
  }

  /** No Ack of `l` takes effect and no reap starts at or past its deadline. */
  ghost predicate Harmless(acts: seq<Action>, l: Lease) {
    forall i :: 0 <= i < |acts| ==>
      && !acts[i].Tamper?
      && !(acts[i].AckComplete? && acts[i].lid == l.id && acts[i].fault != Before)
      && !(acts[i].ReapStart? && acts[i].clock >= l.expiresAt)
  }

  /** The reap in progress, if any, runs before the deadline of `l` and did not pick it. */
  ghost predicate Early(s: State, l: Lease) {
    match s.pc
    case Reaping(now) => now < l.expiresAt
    case Expiring(now, m) => now < l.expiresAt && m.id != l.id
    case Expired(now, _, _) => now < l.expiresAt
    case Closed(now, _) => now < l.expiresAt
    case Refused(m) => m.id != l.id
    case Acquired(m) => m.id != l.id
    case _ => true
  }

  lemma EarlyStep(c: Config, s: State, l: Lease, a: Action)
    requires Tight(s) && Protected(s, l) && Early(s, l) && Enabled(c, s, a)
    requires !(a.ReapStart? && a.clock >= l.expiresAt)
    ensures Early(Apply(c, s, a), l)
  {
    hide Tight, Protected;
    if a.FetchAcquire? {
      EarlyAcquire(s, l, a.lid, a.clock, a.timeout, a.fault);
    } else if a.ReapPop? {
      EarlyPop(s, l, a.item);
    } else {
      EarlyQuiet(c, s, l, a);
    }
  }

  lemma EarlyAcquire(s: State, l: Lease, lid: LeaseId, clock: int, timeout: int, f: Fault)
    requires Tight(s) && Protected(s, l) && s.pc.Idle? && FreshLease(s, lid)
    ensures Early(DoAcquire(s, lid, clock, timeout, f), l)
  {
    LeaseKnown(s, l);
  }

  lemma EarlyPop(s: State, l: Lease, i: Item)
    requires Tight(s) && Protected(s, l) && Early(s, l) && s.pc.Reaping?
    ensures Early(DoPop(s, i), l)
  {
    LeaseKnown(s, l);
  }

  lemma EarlyQuiet(c: Config, s: State, l: Lease, a: Action)
    requires Early(s, l) && Enabled(c, s, a) && !a.FetchAcquire? && !a.ReapPop?
    requires !(a.ReapStart? && a.clock >= l.expiresAt)
    ensures Early(Apply(c, s, a), l)
  {
  }

  lemma HarmlessStep(c: Config, s: State, l: Lease, a: Action)
    requires Sound(s) && Protected(s, l) && Early(s, l) && Enabled(c, s, a) && Harmless([a], l)
    ensures !ActsFor(s, a, l.id)
    ensures var s' := Apply(c, s, a); Sound(s') && Protected(s', l) && Early(s', l)
  {
    hide Tight, Conserved, Protected;
    assert [a][0] == a;
    SoundStep(c, s, a);
    ProtectedStep(c, s, l, a);
    EarlyStep(c, s, l, a);
  }

  lemma {:induction false} HarmlessNeverActs(c: Config, s: State, acts: seq<Action>, l: Lease)
    requires Sound(s) && Protected(s, l) && Early(s, l) && CanRun(c, s, acts) && Harmless(acts, l)
    ensures NeverActsFor(c, s, acts, l.id)
    decreases |acts|
  {
    hide Sound, Protected, Early, ActsFor;
    if acts != [] {
      HarmlessStep(c, s, l, acts[0]);
      HarmlessNeverActs(c, Apply(c, s, acts[0]), acts[1..], l);
    }
  }

  lemma InitSound()
    ensures Sound(INIT)
  {
  }

  lemma PublishProtects(c: Config, s: State)
    requires Sound(s) && s.pc.Recorded?
    ensures Sound(DoPublish(s)) && Protected(DoPublish(s), s.pc.lease) && Early(DoPublish(s), s.pc.lease)
  {
    SoundStep(c, s, FetchPublish);
    assert DoPublish(s).hist.published[|s.hist.published|] == s.pc.lease;
  }

  lemma HarmlessIntact(acts: seq<Action>, l: Lease)
    requires Harmless(acts, l)
    ensures Intact(acts)
  {
  }

  lemma ProtectedMeans(s: State, l: Lease)
    requires Sound(s) && Protected(s, l)
    ensures HoldsLease(s.store, l) && s.store.processing[l.task.id].task == l.task
    ensures Up(s.pc) ==> l.id in s.leases && s.leases[l.id] == l
  {
    LeaseKnown(s, l);
  }

  /**
   Exclusive lease across restarts. `before` is any run from the empty system
   that ends by publishing a lease; `after` is any continuation, crashes
   included, in which that lease is not acked and no reap starts at or past its
   deadline. The task stays in processing under its fence, no other Fetch
   returns it, and every serving process holds the lease with its own deadline.
   */
  lemma ExclusiveLease(c: Config, before: seq<Action>, after: seq<Action>)
    requires CanRun(c, INIT, before) && Intact(before)
    requires Exec(c, INIT, before).pc.Recorded?
    requires CanRun(c, DoPublish(Exec(c, INIT, before)), after)
    requires Harmless(after, Exec(c, INIT, before).pc.lease)
    ensures
      var l, s := Exec(c, INIT, before).pc.lease, DoPublish(Exec(c, INIT, before));
      var s' := Exec(c, s, after);
      && HoldsLease(s'.store, l)
      && s'.store.processing[l.task.id].task == l.task
      && NoRival(s, s', l)
      && (Up(s'.pc) ==> l.id in s'.leases && s'.leases[l.id] == l)
  {
    hide Sound, Protected, CanRun, Exec, DoPublish, NeverActsFor;
    var s0 := Exec(c, INIT, before);
    var l, s := s0.pc.lease, DoPublish(s0);
    InitSound();
    SoundOverRuns(c, INIT, before);
    PublishProtects(c, s0);
    HarmlessNeverActs(c, s, after, l);
    HarmlessIntact(after, l);
    FencedOverRuns(c, s, after, l);
    ProtectedMeans(Exec(c, s, after), l);
  }

  /** An ack that meets no fault: complete, journal, forget. */
  lemma AckEffect(c: Config, s: State, lid: LeaseId)
    requires s.pc.Idle? && lid in s.leases && s.leases[lid].id == lid
    ensures
      var ack, l := [AckComplete(lid, Clean), AckRecord(Durable), AckForget], s.leases[lid];
      var ok := HoldsLease(s.store, l);
      && CanRun(c, s, ack)
      && var s' := Exec(c, s, ack);
         && s'.pc.Idle?
         && s'.store == Q.Complete(s.store, l.task.id, lid)
         && s'.leases == s.leases - {lid}
         && s'.hist.acks == (if ok then s.hist.acks + [l.task.id] else s.hist.acks)
         && s'.hist.completed == (if ok then s.hist.completed + {l.task.id} else s.hist.completed)
         && J.Live(s'.journal) == J.Live(s.journal) - {lid}
  {
    hide CanRun, Exec, J.Live;
    O.AckIsRun(c, s, lid, Clean, Durable);
    J.LiveSnoc(s.journal, CloseRecord(if HoldsLease(s.store, s.leases[lid]) then Ack else Stale, lid));
  }

  /** A protected lease can be acked, once, whenever the process is between operations. */
  lemma ProtectedIsAckable(c: Config, s: State, l: Lease)
    requires Sound(s) && Protected(s, l) && s.pc.Idle?
    ensures
      var ack := [AckComplete(l.id, Clean), AckRecord(Durable), AckForget];
      && CanRun(c, s, ack)
      && var s' := Exec(c, s, ack);
         && s'.pc.Idle?
         && s'.hist.acks == s.hist.acks + [l.task.id]
         && s'.hist.completed == s.hist.completed + {l.task.id}
         && s'.leases == s.leases - {l.id}
         && s'.store == s.store.(processing := s.store.processing - {l.task.id})
         && J.Live(s'.journal) == J.Live(s.journal) - {l.id}
  {
    hide CanRun, Exec, J.Live, Sound;
    AckEffect(c, s, l.id);
  }

  // ---------- Generation fencing, step by step ----------

  /**
   A processing entry changes only by a transition that carries its own task ID
   and fence, or by a reconciliation whose recovered leases do not cover it.
   */
  lemma FenceProtects(c: Config, s: State, a: Action, t: TaskId)
    requires Conserved(s) && Enabled(c, s, a) && t in s.store.processing
    ensures
      var e, s' := s.store.processing[t], Apply(c, s, a);
      || (t in s'.store.processing && s'.store.processing[t] == e)
      || (a.AckComplete? && s.leases[a.lid].task.id == t && s.leases[a.lid].id == e.fence)
      || ((a.ExpireBackend? || a.FetchCompensate?) && s.pc.lease.task.id == t && s.pc.lease.id == e.fence)
      || (a.Reconcile? && Fence(t, e.fence) !in Fences(s.pc.live))
  {
    hide Conserved, Q.Complete, ExpiryStore, Q.Requeue;
    if !CallsBackend(a) {
      StoreFrame(c, s, a);
    } else {
      match a
      case FetchAcquire(_, _, _, _) =>
        if s.store.ready != [] { ReadyNotProcessing(s, 0); }
      case AckComplete(l, _) => FenceKept(c, s.store, t, s.leases[l]);
      case ExpireBackend(_) => FenceKept(c, s.store, t, s.pc.lease);
      case FetchCompensate(_) => FenceKept(c, s.store, t, s.pc.lease);
      case Enqueue(_, _, _) =>
      case Reconcile(_, _) =>
    }
  }

  /** No transition made for `l` touches an entry under another task ID or another fence. */
  lemma FenceKept(c: Config, q: Q.Store, t: TaskId, l: Lease)
    requires t in q.processing
    ensures
      || (l.task.id == t && l.id == q.processing[t].fence)
      || (&& Undisturbed(q, t, Q.Complete(q, l.task.id, l.id))
          && Undisturbed(q, t, Q.Requeue(q, l.task.id, l.id))
          && Undisturbed(q, t, ExpiryStore(c, q, l)))
  {
  }

  ghost predicate Undisturbed(q: Q.Store, t: TaskId, q': Q.Store)
    requires t in q.processing
  {
    t in q'.processing && q'.processing[t] == q.processing[t]
  }

  /**
   Acking an old generation while a newer one holds the task: the backend is
   untouched, only the old lease is dropped, and no success is reported.
   */
  lemma StaleAckIsPrecise(c: Config, s: State, lid: LeaseId)
    requires s.pc.Idle? && lid in s.leases && s.leases[lid].id == lid
    requires !HoldsLease(s.store, s.leases[lid])
    ensures
      var ack := [AckComplete(lid, Clean), AckRecord(Durable), AckForget];
      && CanRun(c, s, ack)
      && var s' := Exec(c, s, ack);
         && s'.store == s.store
         && s'.leases == s.leases - {lid}
         && s'.hist.acks == s.hist.acks
         && J.Live(s'.journal) == J.Live(s.journal) - {lid}
  {
    hide CanRun, Exec, J.Live;
    AckEffect(c, s, lid);
  }
}
