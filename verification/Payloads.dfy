/** Payloads survive: a task carries what its Enqueue carried, wherever it is, in every run. */
module Payloads {
  import opened Types
  import opened Protocol
  import Q = Queue
  import J = Journal

  /** Payload by task ID, as entered by the Enqueue actions that took effect. */
  type Book = map<TaskId, seq<Byte>>

  function Entered(m: Book, a: Action): Book {
    if a.Enqueue? && a.fault != Before then m[a.id := a.payload] else m
  }

  function BookOf(m: Book, acts: seq<Action>): Book
    decreases |acts|
  {
    if acts == [] then m else BookOf(Entered(m, acts[0]), acts[1..])
  }

  ghost predicate Listed(m: Book, t: Task) { t.id in m && m[t.id] == t.payload }

  ghost predicate StoreListed(m: Book, q: Q.Store) {
    && (forall i :: 0 <= i < |q.ready| ==> Listed(m, q.ready[i]))
    && (forall t :: t in q.processing ==> Listed(m, q.processing[t].task))
    && (forall i :: 0 <= i < |q.dead| ==> Listed(m, q.dead[i].task))
  }

  ghost predicate LeasesListed(m: Book, s: State) {
    && (forall i :: 0 <= i < |s.hist.published| ==> Listed(m, s.hist.published[i].task))
    && (s.pc.Acquired? || s.pc.Recorded? ==> Listed(m, s.pc.lease.task))
  }

  ghost predicate Carries(m: Book, s: State) {
    m.Keys == s.hist.accepted && StoreListed(m, s.store) && LeasesListed(m, s)
  }

  lemma ListedReconcile(m: Book, s: State, orphans: seq<TaskId>, f: Fault)
    requires StoreListed(m, s.store) && s.pc.Recovering?
    requires Enumerates(orphans, Q.Orphans(s.store, Fences(s.pc.live)))
    ensures StoreListed(m, DoReconcile(s, orphans, f).store)
  {
    assert forall i :: 0 <= i < |orphans| ==> orphans[i] in orphans;
  }

  lemma ListedExpire(c: Config, m: Book, q: Q.Store, l: Lease)
    requires StoreListed(m, q)
    ensures StoreListed(m, ExpiryStore(c, q, l)) && StoreListed(m, Q.Requeue(q, l.task.id, l.id))
    ensures StoreListed(m, Q.Complete(q, l.task.id, l.id))
  {
  }

  lemma ListedStore(c: Config, m: Book, s: State, a: Action)
    requires StoreListed(m, s.store) && Enabled(c, s, a) && !a.Enqueue?
    ensures StoreListed(m, Apply(c, s, a).store)
  {
    hide StoreListed, ExpiryStore, Q.Requeue, Q.Complete;
    if !CallsBackend(a) {
      StoreFrame(c, s, a);
    } else {
      match a
      case FetchAcquire(l, clock, timeout, f) => ListedAcquire(m, s.store, l);
      case AckComplete(l, f) => ListedExpire(c, m, s.store, s.leases[l]);
      case FetchCompensate(f) => ListedExpire(c, m, s.store, s.pc.lease);
      case ExpireBackend(f) => ListedExpire(c, m, s.store, s.pc.lease);
      case Reconcile(orphans, f) => ListedReconcile(m, s, orphans, f);
    }
  }

  lemma ListedAcquire(m: Book, q: Q.Store, l: LeaseId)
    requires StoreListed(m, q)
    ensures StoreListed(m, Q.Acquire(q, l))
  {
  }

  lemma ListedLeases(c: Config, m: Book, s: State, a: Action)
    requires LeasesListed(m, s) && StoreListed(m, s.store) && Enabled(c, s, a)
    ensures LeasesListed(m, Apply(c, s, a))
  {
    if !a.FetchPublish? {
      PublishedFrame(c, s, a);
      LeasePc(c, s, a);
    }
  }

  /** The lease of a fetch in progress is for the task just taken, or the one it was. */
  lemma LeasePc(c: Config, s: State, a: Action)
    requires Enabled(c, s, a)
    ensures var s' := Apply(c, s, a);
      s'.pc.Acquired? || s'.pc.Recorded? ==>
        || (a.FetchAcquire? && s.store.ready != [] && s'.pc.lease.task == s.store.ready[0])
        || (s.pc.Acquired? && s'.pc.lease == s.pc.lease)
  {
    if CallsBackend(a) {
      hide DoComplete, DoReconcile, DoExpire, Enumerates, FreshLease;
      match a
      case AckComplete(l, f) => CompletePc(s, l, f);
      case Reconcile(orphans, f) => ReconcilePc(s, orphans, f);
      case ExpireBackend(f) => ExpirePc(c, s, f);
      case _ =>
    } else if a.FetchRecordStep? {
      hide J.Live;
    } else {
      QuietPc(c, s, a);
    }
  }

  lemma CompletePc(s: State, l: LeaseId, f: Fault)
    requires l in s.leases && s.pc.Idle?
    ensures !DoComplete(s, l, f).pc.Acquired? && !DoComplete(s, l, f).pc.Recorded?
  {
  }

  lemma ReconcilePc(s: State, orphans: seq<TaskId>, f: Fault)
    requires s.pc.Recovering? && Enumerates(orphans, Q.Orphans(s.store, Fences(s.pc.live)))
    ensures !DoReconcile(s, orphans, f).pc.Acquired? && !DoReconcile(s, orphans, f).pc.Recorded?
  {
  }

  lemma ExpirePc(c: Config, s: State, f: Fault)
    requires s.pc.Expiring?
    ensures !DoExpire(c, s, f).pc.Acquired? && !DoExpire(c, s, f).pc.Recorded?
  {
  }

  lemma QuietPc(c: Config, s: State, a: Action)
    requires Enabled(c, s, a) && !CallsBackend(a) && !a.FetchRecordStep?
    ensures !Apply(c, s, a).pc.Acquired? && !Apply(c, s, a).pc.Recorded?
  {
    hide Least, NoDue, Enumerates, J.Live, J.Compacted, LeasesOf, ItemsOf;
  }

  /** A new entry changes no other: the ID was fresh. */
  lemma ListedMore(m: Book, s: State, id: TaskId, payload: seq<Byte>)
    requires Carries(m, s) && id !in s.hist.accepted
    ensures StoreListed(m[id := payload], s.store) && LeasesListed(m[id := payload], s)
  {
  }

  lemma CarriesStep(c: Config, m: Book, s: State, a: Action)
    requires Carries(m, s) && Enabled(c, s, a)
    ensures Carries(Entered(m, a), Apply(c, s, a))
  {
    if a.Enqueue? {
      ListedMore(m, s, a.id, a.payload);
    } else {
      hide Apply, Enabled, StoreListed, LeasesListed;
      ListedStore(c, m, s, a);
      ListedLeases(c, m, s, a);
      AcceptedFrame(c, s, a);
    }
  }

  lemma {:induction false} CarriesOverRuns(c: Config, m: Book, s: State, acts: seq<Action>)
    requires Carries(m, s) && CanRun(c, s, acts)
    ensures Carries(BookOf(m, acts), Exec(c, s, acts))
    decreases |acts|
  {
    hide Carries, Enabled, Apply, Entered;
    if acts != [] {
      CarriesStep(c, m, s, acts[0]);
      CarriesOverRuns(c, Entered(m, acts[0]), Apply(c, s, acts[0]), acts[1..]);
    }
  }

  ghost predicate AsEnqueued(acts: seq<Action>, t: Task) { Enqueued(acts, t.id, t.payload) }

  /** Some Enqueue of the run that took effect carried this payload for this ID. */
  ghost predicate Enqueued(acts: seq<Action>, id: TaskId, payload: seq<Byte>) {
    exists i :: 0 <= i < |acts| && EnqueueOf(acts[i], id, payload)
  }

  ghost predicate EnqueueOf(a: Action, id: TaskId, payload: seq<Byte>) {
    a.Enqueue? && a.id == id && a.payload == payload && a.fault != Before
  }

  lemma {:induction false} BookMeans(m: Book, acts: seq<Action>, id: TaskId)
    requires id in BookOf(m, acts)
    ensures Enqueued(acts, id, BookOf(m, acts)[id]) || (id in m && BookOf(m, acts)[id] == m[id])
    decreases |acts|
  {
    if acts != [] {
      var payload := BookOf(m, acts)[id];
      BookMeans(Entered(m, acts[0]), acts[1..], id);
      if i :| 0 <= i < |acts| - 1 && EnqueueOf(acts[1..][i], id, payload) {
        assert acts[i + 1] == acts[1..][i];
      } else if id !in m || payload != m[id] {
        assert EnqueueOf(acts[0], id, payload);
      }
    }
  }

  /**
   Payloads survive whole runs, crashes and foreign journals included: every ready,
   processing and dead task, and every task a Fetch handed out, carries the payload
   its Enqueue carried, through requeue, burial and recovery.
   */
  lemma PayloadsSurvive(c: Config, acts: seq<Action>)
    requires CanRun(c, INIT, acts)
    ensures
      var s := Exec(c, INIT, acts);
      && (forall i :: 0 <= i < |s.store.ready| ==> AsEnqueued(acts, s.store.ready[i]))
      && (forall t :: t in s.store.processing ==> AsEnqueued(acts, s.store.processing[t].task))
      && (forall i :: 0 <= i < |s.store.dead| ==> AsEnqueued(acts, s.store.dead[i].task))
      && (forall i :: 0 <= i < |s.hist.published| ==> AsEnqueued(acts, s.hist.published[i].task))
  {
    hide CanRun, Exec, Enqueued;
    CarriesOverRuns(c, map[], INIT, acts);
    forall t | Listed(BookOf(map[], acts), t) ensures AsEnqueued(acts, t) {
      BookMeans(map[], acts, t.id);
    }
  }
}
