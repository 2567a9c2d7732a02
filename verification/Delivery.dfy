/** With MaxAttempts = M > 0, Fetch publishes any one task at most M times over a whole run. */
module Delivery {
  import opened Types
  import opened Protocol
  import opened Conservation
  import opened Leasing
  import Q = Queue

  /** How many published leases carry task `t`. */
  ghost function Deliveries(published: seq<Lease>, t: TaskId): nat {
    if published == [] then 0
    else
      Deliveries(published[..|published| - 1], t)
      + if published[|published| - 1].task.id == t then 1 else 0
  }

  ghost predicate Published(h: History, l: LeaseId) {
    exists i :: 0 <= i < |h.published| && h.published[i].id == l
  }

  /** Each earlier delivery has been paid for by an attempt; `held` is 1 while one is still open. */
  ghost predicate Paid(c: Config, published: seq<Lease>, t: Task, held: nat) {
    && Deliveries(published, t.id) <= t.attempts + held
    && Deliveries(published, t.id) <= c.maxAttempts - 1 + held
  }

  ghost predicate ReadyPaid(c: Config, s: State) {
    forall i :: 0 <= i < |s.store.ready| ==> Paid(c, s.hist.published, s.store.ready[i], 0)
  }

  ghost predicate ProcessingPaid(c: Config, s: State) {
    forall t :: t in s.store.processing ==>
      var e := s.store.processing[t];
      Paid(c, s.hist.published, e.task, if Published(s.hist, e.fence) then 1 else 0)
  }

  ghost predicate Bounded(c: Config, s: State) {
    && ReadyPaid(c, s)
    && ProcessingPaid(c, s)
    && forall t :: Deliveries(s.hist.published, t) <= c.maxAttempts
  }

  lemma DeliveriesSnoc(p: seq<Lease>, l: Lease, t: TaskId)
    ensures Deliveries(p + [l], t) == Deliveries(p, t) + if l.task.id == t then 1 else 0
  {
    assert (p + [l])[..|p|] == p;
  }

  lemma {:induction false} NoDelivery(p: seq<Lease>, t: TaskId)
    requires forall i :: 0 <= i < |p| ==> p[i].task.id != t
    ensures Deliveries(p, t) == 0
  {
    if p != [] {
      NoDelivery(p[..|p| - 1], t);
    }
  }

  lemma BoundedEnqueue(c: Config, s: State, id: TaskId, payload: seq<Byte>, f: Fault)
    requires c.maxAttempts > 0 && Bounded(c, s) && Tight(s) && id !in s.hist.accepted
    ensures Bounded(c, DoEnqueue(s, id, payload, f))
  {
    NoDelivery(s.hist.published, id);
  }

  lemma BoundedAcquire(c: Config, s: State, lid: LeaseId, clock: int, timeout: int, f: Fault)
    requires c.maxAttempts > 0 && Bounded(c, s) && Tight(s) && FreshLease(s, lid)
    ensures Bounded(c, DoAcquire(s, lid, clock, timeout, f))
  {
    assert !Published(s.hist, lid);
  }

  lemma BoundedComplete(c: Config, s: State, lid: LeaseId, f: Fault)
    requires Bounded(c, s) && lid in s.leases
    ensures Bounded(c, DoComplete(s, lid, f))
  {
  }

  lemma BoundedCompensate(c: Config, s: State, f: Fault)
    requires Bounded(c, s) && Tight(s) && Q.Keyed(s.store) && s.pc.Refused?
    ensures Bounded(c, DoCompensate(s, f))
  {
    assert !Published(s.hist, s.pc.lease.id);
  }

  /** A lease is only requeued by expiry while its task has attempts to spare. */
  lemma BoundedExpire(c: Config, s: State, f: Fault)
    requires c.maxAttempts > 0 && Bounded(c, s) && Tight(s) && Q.Keyed(s.store) && s.pc.Expiring?
    ensures Bounded(c, DoExpire(c, s, f))
  {
    hide Tight;
    if HoldsLease(s.store, s.pc.lease) {
      ExpiringTask(s);
    }
  }

  lemma BoundedReconcile(c: Config, s: State, orphans: seq<TaskId>, f: Fault)
    requires Bounded(c, s) && Tight(s) && Q.Keyed(s.store) && s.pc.Recovering?
    requires Enumerates(orphans, Q.Orphans(s.store, Fences(s.pc.live)))
    ensures Bounded(c, DoReconcile(s, orphans, f))
  {
    forall i | 0 <= i < |orphans|
      ensures Paid(c, s.hist.published, Q.TasksOf(s.store, orphans)[i], 0)
    {
      var t := orphans[i];
      assert t in orphans;
      PublishedNotOrphan(s, t);
      assert !Published(s.hist, s.store.processing[t].fence);
    }
  }

  lemma BoundedPublish(c: Config, s: State)
    requires Bounded(c, s) && Tight(s) && Conserved(s) && s.pc.Recorded?
    ensures Bounded(c, DoPublish(s))
  {
    var l, s' := s.pc.lease, DoPublish(s);
    var t := l.task.id;
    assert !Published(s.hist, l.id);
    assert s'.hist.published[|s.hist.published|].id == l.id;
    forall x ensures Deliveries(s'.hist.published, x) == Deliveries(s.hist.published, x) + if x == t then 1 else 0 {
      DeliveriesSnoc(s.hist.published, l, x);
    }
    forall i | 0 <= i < |s.store.ready| ensures s.store.ready[i].id != t {
      ReadyNotProcessing(s, i);
    }
    forall x | x in s.store.processing && x != t
      ensures Published(s'.hist, s.store.processing[x].fence) ==> Published(s.hist, s.store.processing[x].fence)
    {
    }
    forall x | x in s.store.processing && Published(s.hist, s.store.processing[x].fence)
      ensures Published(s'.hist, s.store.processing[x].fence)
    {
      var i :| 0 <= i < |s.hist.published| && s.hist.published[i].id == s.store.processing[x].fence;
      assert s'.hist.published[i].id == s.store.processing[x].fence;
    }
  }

  lemma BoundedSame(c: Config, s: State, s': State)
    requires Bounded(c, s) && s'.store == s.store && s'.hist.published == s.hist.published
    ensures Bounded(c, s')
  {
    forall l ensures Published(s.hist, l) <==> Published(s'.hist, l) {}
  }

  lemma BoundedStep(c: Config, s: State, a: Action)
    requires c.maxAttempts > 0 && Bounded(c, s) && Sound(s) && Enabled(c, s, a)
    ensures Bounded(c, Apply(c, s, a))
  {
    hide Bounded, Tight, Conserved;
    ConservedKeyed(s);
    if !CallsBackend(a) && !a.FetchPublish? {
      StoreFrame(c, s, a);
      PublishedFrame(c, s, a);
      BoundedSame(c, s, Apply(c, s, a));
    } else {
      match a
      case Enqueue(id, payload, f) => BoundedEnqueue(c, s, id, payload, f);
      case FetchAcquire(l, clock, timeout, f) => BoundedAcquire(c, s, l, clock, timeout, f);
      case AckComplete(l, f) => BoundedComplete(c, s, l, f);
      case FetchCompensate(f) => BoundedCompensate(c, s, f);
      case ExpireBackend(f) => BoundedExpire(c, s, f);
      case Reconcile(orphans, f) => BoundedReconcile(c, s, orphans, f);
      case FetchPublish => BoundedPublish(c, s);
    }
  }

  lemma {:induction false} BoundedOverRuns(c: Config, s: State, acts: seq<Action>)
    requires c.maxAttempts > 0 && Bounded(c, s) && Sound(s) && CanRun(c, s, acts) && Intact(acts)
    ensures Bounded(c, Exec(c, s, acts))
    decreases |acts|
  {
    hide Bounded, Sound;
    if acts != [] {
      SoundStep(c, s, acts[0]);
      BoundedStep(c, s, acts[0]);
      BoundedOverRuns(c, Apply(c, s, acts[0]), acts[1..]);
    }
  }

  /**
   The delivery bound, from the empty system: crashes, restarts, ambiguous
   backend errors, failed appends and uncharged orphan recovery included.
   */
  lemma DeliveryBound(c: Config, acts: seq<Action>, t: TaskId)
    requires c.maxAttempts > 0 && CanRun(c, INIT, acts) && Intact(acts)
    ensures Deliveries(Exec(c, INIT, acts).hist.published, t) <= c.maxAttempts
  {
    BoundedOverRuns(c, INIT, acts);
  }
}
