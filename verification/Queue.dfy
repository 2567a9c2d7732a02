/**
 The backend as a value: ready tasks in FIFO order, processing tasks under a
 generation fence, dead tasks in arrival order. Each transition is one atomic
 durable action.
 */
module Queue {
  import opened Types

  datatype Entry = Entry(task: Task, fence: LeaseId)
  datatype DeadTask = DeadTask(task: Task, reason: string)
  datatype Store = Store(ready: seq<Task>, processing: map<TaskId, Entry>, dead: seq<DeadTask>)

  datatype Outcome = Ok | NotProcessing | FenceMismatch

  const EMPTY := Store([], map[], [])

  /** Entries are filed under their own task ID. */
  ghost predicate Keyed(q: Store) {
    forall t :: t in q.processing ==> q.processing[t].task.id == t
  }

  predicate Holds(q: Store, t: TaskId, l: LeaseId) {
    t in q.processing && q.processing[t].fence == l
  }

  /** The fence check shared by Complete, Requeue and DeadLetter. */
  function Check(q: Store, t: TaskId, l: LeaseId): (r: Outcome)
    ensures r.Ok? <==> Holds(q, t, l)
    ensures r.NotProcessing? <==> t !in q.processing
  {
    if t !in q.processing then NotProcessing
    else if q.processing[t].fence != l then FenceMismatch
    else Ok
  }

  function Charged(t: Task): Task { t.(attempts := t.attempts + 1) }

  function Enqueue(q: Store, t: Task): Store { q.(ready := q.ready + [t]) }

  function Acquire(q: Store, l: LeaseId): Store {
    if q.ready == [] then q
    else q.(ready := q.ready[1..],
            processing := q.processing[q.ready[0].id := Entry(q.ready[0], l)])
  }

  function Complete(q: Store, t: TaskId, l: LeaseId): Store {
    if Check(q, t, l).Ok? then q.(processing := q.processing - {t}) else q
  }

  function Requeue(q: Store, t: TaskId, l: LeaseId): Store {
    if Check(q, t, l).Ok?
    then q.(processing := q.processing - {t}, ready := q.ready + [Charged(q.processing[t].task)])
    else q
  }

  function Bury(q: Store, t: TaskId, l: LeaseId, reason: string): Store {
    if Check(q, t, l).Ok?
    then q.(processing := q.processing - {t},
            dead := q.dead + [DeadTask(Charged(q.processing[t].task), reason)])
    else q
  }

  /** Processing tasks that no given fence covers. */
  function Orphans(q: Store, fences: set<Fence>): set<TaskId> {
    set t | t in q.processing && Fence(t, q.processing[t].fence) !in fences
  }

  /** Lease IDs of the processing entries that some given fence covers. */
  function Matched(q: Store, fences: set<Fence>): set<LeaseId> {
    set t | t in q.processing && Fence(t, q.processing[t].fence) in fences :: q.processing[t].fence
  }

  function TasksOf(q: Store, order: seq<TaskId>): (r: seq<Task>)
    requires forall t :: t in order ==> t in q.processing
    ensures |r| == |order|
  {
    seq(|order|, i requires 0 <= i < |order| => q.processing[order[i]].task)
  }

  /** Startup reconciliation: orphans go back to ready, uncharged, in the given order. */
  function Reconcile(q: Store, fences: set<Fence>, order: seq<TaskId>): Store
    requires Enumerates(order, Orphans(q, fences))
  {
    q.(processing := q.processing - Orphans(q, fences), ready := q.ready + TasksOf(q, order))
  }

  // ---------- Where the task IDs are ----------

  function IdSeq(ts: seq<Task>): seq<TaskId> { seq(|ts|, i requires 0 <= i < |ts| => ts[i].id) }

  function DeadIdSeq(ds: seq<DeadTask>): seq<TaskId> {
    seq(|ds|, i requires 0 <= i < |ds| => ds[i].task.id)
  }

  ghost function Ids(ts: seq<Task>): multiset<TaskId> { multiset(IdSeq(ts)) }

  ghost function DeadIds(ds: seq<DeadTask>): multiset<TaskId> { multiset(DeadIdSeq(ds)) }

  /** Every task ID the backend holds, with multiplicity. */
  ghost function Mass(q: Store): multiset<TaskId> {
    Ids(q.ready) + multiset(q.processing.Keys) + DeadIds(q.dead)
  }

  lemma IdsConcat(a: seq<Task>, b: seq<Task>)
    ensures Ids(a + b) == Ids(a) + Ids(b)
  {
    assert IdSeq(a + b) == IdSeq(a) + IdSeq(b);
  }

  lemma IdsSnoc(ts: seq<Task>, t: Task)
    ensures Ids(ts + [t]) == Ids(ts) + multiset{t.id}
  {
    assert IdSeq(ts + [t]) == IdSeq(ts) + [t.id];
  }

  lemma IdsHead(ts: seq<Task>)
    requires ts != []
    ensures Ids(ts) == multiset{ts[0].id} + Ids(ts[1..])
  {
    assert IdSeq(ts) == [ts[0].id] + IdSeq(ts[1..]);
  }

  lemma IdsMember(ts: seq<Task>, i: nat)
    requires i < |ts|
    ensures ts[i].id in Ids(ts)
  {
    assert IdSeq(ts)[i] == ts[i].id;
  }

  lemma DeadIdsSnoc(ds: seq<DeadTask>, d: DeadTask)
    ensures DeadIds(ds + [d]) == DeadIds(ds) + multiset{d.task.id}
  {
    assert DeadIdSeq(ds + [d]) == DeadIdSeq(ds) + [d.task.id];
  }

  // ---------- Every transition moves IDs, none drops or copies one ----------

  lemma EnqueueMass(q: Store, t: Task)
    ensures Mass(Enqueue(q, t)) == Mass(q) + multiset{t.id}
  {
    IdsSnoc(q.ready, t);
  }

  /** The entry that acquiring the oldest ready task would overwrite, if its ID is already processing. */
  ghost function Overwritten(q: Store): multiset<TaskId> {
    if q.ready != [] && q.ready[0].id in q.processing then multiset{q.ready[0].id} else multiset{}
  }

  lemma AcquireMass(q: Store, l: LeaseId)
    ensures Mass(Acquire(q, l)) + Overwritten(q) == Mass(q)
  {
    if q.ready != [] {
      hide Ids, DeadIds;
      IdsHead(q.ready);
      KeysAdded(q, q.ready[0].id, Entry(q.ready[0], l));
    }
  }

  lemma KeysAdded(q: Store, t: TaskId, e: Entry)
    ensures multiset(q.processing[t := e].Keys) ==
            multiset(q.processing.Keys) + if t in q.processing then multiset{} else multiset{t}
  {
    assert q.processing[t := e].Keys == q.processing.Keys + {t};
    if t in q.processing {
      assert q.processing.Keys + {t} == q.processing.Keys;
    } else {
      assert multiset(q.processing.Keys + {t}) == multiset(q.processing.Keys) + multiset{t};
    }
  }

  lemma KeysRemoved(q: Store, t: TaskId)
    requires t in q.processing
    ensures multiset(q.processing.Keys) == multiset((q.processing - {t}).Keys) + multiset{t}
  {
    assert (q.processing - {t}).Keys == q.processing.Keys - {t};
  }

  lemma CompleteMass(q: Store, t: TaskId, l: LeaseId)
    ensures Mass(q) == Mass(Complete(q, t, l)) + if Check(q, t, l).Ok? then multiset{t} else multiset{}
  {
    if Check(q, t, l).Ok? {
      KeysRemoved(q, t);
    }
  }

  lemma RequeueMass(q: Store, t: TaskId, l: LeaseId)
    requires Keyed(q)
    ensures Mass(Requeue(q, t, l)) == Mass(q)
  {
    if Check(q, t, l).Ok? {
      KeysRemoved(q, t);
      IdsSnoc(q.ready, Charged(q.processing[t].task));
    }
  }

  lemma BuryMass(q: Store, t: TaskId, l: LeaseId, reason: string)
    requires Keyed(q)
    ensures Mass(Bury(q, t, l, reason)) == Mass(q)
  {
    if Check(q, t, l).Ok? {
      KeysRemoved(q, t);
      DeadIdsSnoc(q.dead, DeadTask(Charged(q.processing[t].task), reason));
    }
  }

  lemma TasksOfIds(q: Store, order: seq<TaskId>)
    requires Keyed(q)
    requires forall t :: t in order ==> t in q.processing
    ensures Ids(TasksOf(q, order)) == multiset(order)
  {
    assert IdSeq(TasksOf(q, order)) == order;
  }

  lemma {:induction false} EnumerationMultiset<T>(order: seq<T>, all: set<T>)
    requires Enumerates(order, all)
    ensures multiset(order) == multiset(all)
  {
    if order == [] {
      assert all == {} by { assert forall x :: x in all ==> x in order; }
    } else {
      var n := |order| - 1;
      var x := order[n];
      assert order == order[..n] + [x];
      assert Enumerates(order[..n], all - {x}) by {
        forall y ensures y in order[..n] <==> y in all - {x} {
          if y in order[..n] { assert y in order; var i :| 0 <= i < n && order[i] == y; assert y != x; }
          if y in all - {x} { assert y in order; }
        }
      }
      EnumerationMultiset(order[..n], all - {x});
      assert x in order;
      assert multiset(all) == multiset(all - {x}) + multiset{x};
    }
  }

  lemma ReconcileMass(q: Store, fences: set<Fence>, order: seq<TaskId>)
    requires Keyed(q)
    requires Enumerates(order, Orphans(q, fences))
    ensures Mass(Reconcile(q, fences, order)) == Mass(q)
  {
    var gone := Orphans(q, fences);
    IdsConcat(q.ready, TasksOf(q, order));
    TasksOfIds(q, order);
    EnumerationMultiset(order, gone);
    assert (q.processing - gone).Keys == q.processing.Keys - gone;
    assert multiset(q.processing.Keys) == multiset(q.processing.Keys - gone) + multiset(gone);
  }
}
