/**
 The lease protocol as a step system. One step is one durable action, or one
 update of process memory, and a crash may fall between any two steps. An action
 carries every choice the environment makes (IDs, clock, faults, iteration
 order), so `Apply` is a function and a run is a list of actions.
 */
module Protocol {
  import opened Types
  import Q = Queue
  import J = Journal

  datatype Config = Config(maxAttempts: int, retryDelay: int)

  /** Where the process is inside its current operation. */
  datatype Pc =
    | Down
    | Idle
    | Failed                                                        // recovery did not finish
    | Recovering(live: J.LiveMap)                                   // journal replayed
    | Closing(live: J.LiveMap, matched: set<LeaseId>, pending: set<LeaseId>)
    | Acquired(lease: Lease)                                        // fetch: task taken, not journalled
    | Refused(lease: Lease)                                         // fetch: append failed
    | Recorded(lease: Lease)                                        // fetch: journalled, not published
    | Acking(lease: Lease, completed: bool)                         // ack: backend answered
    | Acked(lease: Lease, completed: bool)                          // ack: journalled
    | Reaping(now: int)
    | Expiring(now: int, lease: Lease)                              // reap: item popped
    | Expired(now: int, lease: Lease, op: Op)                       // reap: backend answered
    | Closed(now: int, lease: Lease)                                // reap: journalled

  /** A finished reap: its clock, whether it met no error, whether it left no due lease. */
  datatype ReapMark = ReapMark(now: int, ok: bool, clear: bool)

  /** What has happened so far; no operation reads it except to require fresh IDs. */
  datatype History = History(
    accepted: set<TaskId>,             // task IDs the backend has taken in
    completed: set<TaskId>,            // task IDs whose Complete applied
    origin: map<LeaseId, Lease>,       // the lease each applied Acquire was made for
    published: seq<Lease>,             // leases returned by Fetch
    acks: seq<TaskId>,                 // tasks whose Ack returned success
    doubtful: set<LeaseId>,            // since start: append failed but the frame is on disk
    reaps: seq<ReapMark>)

  datatype State = State(
    store: Q.Store,
    journal: seq<Record>,
    leases: map<LeaseId, Lease>,
    heap: multiset<Item>,
    pc: Pc,
    hist: History)

  datatype Action =
    | Enqueue(id: TaskId, payload: seq<Byte>, fault: Fault)
    | FetchAcquire(lid: LeaseId, clock: int, timeout: int, fault: Fault)
    | FetchRecordStep(write: Write)
    | FetchCompensate(fault: Fault)
    | FetchPublish
    | AckComplete(lid: LeaseId, fault: Fault)
    | AckRecord(write: Write)
    | AckForget
    | ReapStart(clock: int)
    | ReapPop(item: Item)
    | ExpireBackend(fault: Fault)
    | ExpireRecord(write: Write)
    | ExpireForget
    | ReapEnd
    | Compact(order: seq<LeaseId>)
    | Crash
    | Start
    | Reconcile(orphans: seq<TaskId>, fault: Fault)
    | CloseStale(lid: LeaseId, write: Write)
    | Reinstate
    | Tamper(journal: seq<Record>)

  const REASON := "max attempts exceeded"

  predicate ShouldDeadLetter(c: Config, l: Lease) {
    c.maxAttempts > 0 && l.task.attempts + 1 >= c.maxAttempts
  }

  /** A limit is set and the task has reached it. */
  ghost predicate Spent(c: Config, t: Task) { 0 < c.maxAttempts <= t.attempts }

  function Fences(live: J.LiveMap): set<Fence> {
    set l | l in live :: Fence(live[l].task.id, l)
  }

  predicate HoldsLease(q: Q.Store, l: Lease) { Q.Holds(q, l.task.id, l.id) }

  ghost predicate NoDue(leases: map<LeaseId, Lease>, now: int) {
    forall l :: l in leases ==> leases[l].expiresAt > now
  }

  ghost predicate Scheduled(heap: multiset<Item>, l: LeaseId) {
    exists i :: i in heap && i.lease == l
  }

  /** A newly drawn lease ID occurs nowhere yet. */
  ghost predicate FreshLease(s: State, l: LeaseId) {
    && l !in s.hist.origin
    && l !in s.leases
    && !Scheduled(s.heap, l)
    && l !in J.Live(s.journal)
    && forall t :: t in s.store.processing ==> s.store.processing[t].fence != l
  }

  /** `i` is a heap minimum. */
  ghost predicate Least(heap: multiset<Item>, i: Item) {
    i in heap && forall j :: j in heap ==> i.at <= j.at
  }

  function LeasesOf(live: J.LiveMap, matched: set<LeaseId>): map<LeaseId, Lease> {
    map l | l in live && l in matched :: LeaseOf(live[l])
  }

  function ItemsOf(leases: map<LeaseId, Lease>): multiset<Item> {
    multiset(set l | l in leases :: Item(l, leases[l].expiresAt))
  }

  ghost predicate Enabled(c: Config, s: State, a: Action) {
    match a
    case Enqueue(id, _, _) => s.pc.Idle? && id !in s.hist.accepted
    case FetchAcquire(l, _, timeout, _) => s.pc.Idle? && timeout > 0 && FreshLease(s, l)
    case FetchRecordStep(_) => s.pc.Acquired?
    case FetchCompensate(_) => s.pc.Refused?
    case FetchPublish => s.pc.Recorded?
    case AckComplete(l, _) => s.pc.Idle? && l in s.leases
    case AckRecord(_) => s.pc.Acking?
    case AckForget => s.pc.Acked?
    case ReapStart(_) => s.pc.Idle?
    case ReapPop(i) => s.pc.Reaping? && Least(s.heap, i) && i.at <= s.pc.now
    case ExpireBackend(_) => s.pc.Expiring?
    case ExpireRecord(_) => s.pc.Expired?
    case ExpireForget => s.pc.Closed?
    case ReapEnd => s.pc.Reaping? && forall i :: i in s.heap ==> i.at > s.pc.now
    case Compact(order) => s.pc.Idle? && Enumerates(order, J.Live(s.journal).Keys)
    case Crash => !s.pc.Down?
    case Start => s.pc.Down?
    case Reconcile(orphans, _) =>
      s.pc.Recovering? && Enumerates(orphans, Q.Orphans(s.store, Fences(s.pc.live)))
    case CloseStale(l, _) => s.pc.Closing? && l in s.pc.pending
    case Reinstate => s.pc.Closing? && s.pc.pending == {}
    case Tamper(_) => s.pc.Down?
  }

  function Doubt(h: History, l: LeaseId, w: Write): History {
    if w == Unsynced then h.(doubtful := h.doubtful + {l}) else h
  }

  /** Expiry met an error: schedule one retry and end the reap. */
  function Retry(c: Config, s: State, now: int, l: Lease): State {
    s.(heap := s.heap + multiset{Item(l.id, now + c.retryDelay)}, pc := Idle,
       hist := s.hist.(reaps := s.hist.reaps + [ReapMark(now, false, false)]))
  }

  function DoEnqueue(s: State, id: TaskId, payload: seq<Byte>, f: Fault): State {
    if f == Before then s
    else s.(store := Q.Enqueue(s.store, Task(id, payload, 0)),
            hist := s.hist.(accepted := s.hist.accepted + {id}))
  }

  function DoAcquire(s: State, lid: LeaseId, clock: int, timeout: int, f: Fault): State {
    if f == Before || s.store.ready == [] then s
    else
      var l := Lease(lid, s.store.ready[0], clock, clock + timeout);
      s.(store := Q.Acquire(s.store, lid),
         hist := s.hist.(origin := s.hist.origin[lid := l]),
         pc := if f == After then Idle else Acquired(l))
  }

  function DoFetchRecord(s: State, w: Write): State
    requires s.pc.Acquired?
  {
    var l := s.pc.lease;
    s.(journal := Logged(s.journal, FetchRecord(l), w),
       hist := Doubt(s.hist, l.id, w),
       pc := if w == Durable then Recorded(l) else Refused(l))
  }

  function DoCompensate(s: State, f: Fault): State
    requires s.pc.Refused?
  {
    var l := s.pc.lease;
    s.(store := if f == Before then s.store else Q.Requeue(s.store, l.task.id, l.id), pc := Idle)
  }

  function DoPublish(s: State): State
    requires s.pc.Recorded?
  {
    var l := s.pc.lease;
    s.(leases := s.leases[l.id := l],
       heap := s.heap + multiset{Item(l.id, l.expiresAt)},
       hist := s.hist.(published := s.hist.published + [l]),
       pc := Idle)
  }

  function DoComplete(s: State, lid: LeaseId, f: Fault): State
    requires lid in s.leases
  {
    var l := s.leases[lid];
    var ok := Q.Check(s.store, l.task.id, l.id).Ok?;
    if f == Before then s
    else s.(store := Q.Complete(s.store, l.task.id, l.id),
            hist := if ok then s.hist.(completed := s.hist.completed + {l.task.id}) else s.hist,
            pc := if f == After then Idle else Acking(l, ok))
  }

  function DoAckRecord(s: State, w: Write): State
    requires s.pc.Acking?
  {
    var l := s.pc.lease;
    s.(journal := Logged(s.journal, CloseRecord(if s.pc.completed then Ack else Stale, l.id), w),
       hist := Doubt(s.hist, l.id, w),
       pc := if w == Durable then Acked(l, s.pc.completed) else Idle)
  }

  function DoAckForget(s: State): State
    requires s.pc.Acked?
  {
    var l := s.pc.lease;
    s.(leases := s.leases - {l.id},
       hist := if s.pc.completed then s.hist.(acks := s.hist.acks + [l.task.id]) else s.hist,
       pc := Idle)
  }

  function DoPop(s: State, i: Item): State
    requires s.pc.Reaping?
  {
    s.(heap := s.heap - multiset{i},
       pc := if i.lease !in s.leases || s.leases[i.lease].expiresAt > s.pc.now
             then s.pc else Expiring(s.pc.now, s.leases[i.lease]))
  }

  function ExpiryStore(c: Config, q: Q.Store, l: Lease): Q.Store {
    if ShouldDeadLetter(c, l) then Q.Bury(q, l.task.id, l.id, REASON)
    else Q.Requeue(q, l.task.id, l.id)
  }

  function ExpiryOp(c: Config, q: Q.Store, l: Lease): Op {
    if !Q.Check(q, l.task.id, l.id).Ok? then Stale
    else if ShouldDeadLetter(c, l) then DeadLetter
    else Expire
  }

  function DoExpire(c: Config, s: State, f: Fault): State
    requires s.pc.Expiring?
  {
    var l, now := s.pc.lease, s.pc.now;
    var s1 := s.(store := if f == Before then s.store else ExpiryStore(c, s.store, l));
    if f == Clean then s1.(pc := Expired(now, l, ExpiryOp(c, s.store, l)))
    else Retry(c, s1, now, l)
  }

  function DoExpireRecord(c: Config, s: State, w: Write): State
    requires s.pc.Expired?
  {
    var l, now := s.pc.lease, s.pc.now;
    var s1 := s.(journal := Logged(s.journal, CloseRecord(s.pc.op, l.id), w),
                 hist := Doubt(s.hist, l.id, w));
    if w == Durable then s1.(pc := Closed(now, l)) else Retry(c, s1, now, l)
  }

  ghost function DoReapEnd(s: State): State
    requires s.pc.Reaping?
  {
    s.(pc := Idle,
       hist := s.hist.(reaps := s.hist.reaps + [ReapMark(s.pc.now, true, NoDue(s.leases, s.pc.now))]))
  }

  function DoCrash(s: State): State {
    s.(leases := map[], heap := multiset{}, pc := Down, hist := s.hist.(doubtful := {}))
  }

  ghost function DoReconcile(s: State, orphans: seq<TaskId>, f: Fault): State
    requires s.pc.Recovering?
    requires Enumerates(orphans, Q.Orphans(s.store, Fences(s.pc.live)))
  {
    var live, fences := s.pc.live, Fences(s.pc.live);
    var matched := Q.Matched(s.store, fences);
    if f == Before then s.(pc := Failed)
    else s.(store := Q.Reconcile(s.store, fences, orphans),
            pc := if f == After then Failed else Closing(live, matched, live.Keys - matched))
  }

  function DoCloseStale(s: State, l: LeaseId, w: Write): State
    requires s.pc.Closing?
  {
    s.(journal := Logged(s.journal, CloseRecord(Stale, l), w),
       pc := if w == Durable then s.pc.(pending := s.pc.pending - {l}) else Failed)
  }

  function DoReinstate(s: State): State
    requires s.pc.Closing?
  {
    var leases := LeasesOf(s.pc.live, s.pc.matched);
    s.(leases := leases, heap := ItemsOf(leases), pc := Idle)
  }

  ghost function Apply(c: Config, s: State, a: Action): State
    requires Enabled(c, s, a)
  {
    match a
    case Enqueue(id, payload, f) => DoEnqueue(s, id, payload, f)
    case FetchAcquire(l, clock, timeout, f) => DoAcquire(s, l, clock, timeout, f)
    case FetchRecordStep(w) => DoFetchRecord(s, w)
    case FetchCompensate(f) => DoCompensate(s, f)
    case FetchPublish => DoPublish(s)
    case AckComplete(l, f) => DoComplete(s, l, f)
    case AckRecord(w) => DoAckRecord(s, w)
    case AckForget => DoAckForget(s)
    case ReapStart(clock) => s.(pc := Reaping(clock))
    case ReapPop(i) => DoPop(s, i)
    case ExpireBackend(f) => DoExpire(c, s, f)
    case ExpireRecord(w) => DoExpireRecord(c, s, w)
    case ExpireForget => s.(leases := s.leases - {s.pc.lease.id}, pc := Reaping(s.pc.now))
    case ReapEnd => DoReapEnd(s)
    case Compact(order) => s.(journal := J.Compacted(J.Live(s.journal), order))
    case Crash => DoCrash(s)
    case Start => s.(pc := Recovering(J.Live(s.journal)))
    case Reconcile(orphans, f) => DoReconcile(s, orphans, f)
    case CloseStale(l, w) => DoCloseStale(s, l, w)
    case Reinstate => DoReinstate(s)
    case Tamper(j) => s.(journal := j)
  }

  /**
   What a fault does to a backend call: an error before leaves the backend as it
   was, an error after leaves it as the call without error would.
   */
  lemma FaultMeans(c: Config, s: State, a: Action, b: Action)
    requires Enabled(c, s, a) && Enabled(c, s, b) && CallsBackend(a) && b == a.(fault := Clean)
    ensures
      var s', clean := Apply(c, s, a), Apply(c, s, b);
      if a.fault == Before then s'.store == s.store && s'.hist == s.hist.(reaps := s'.hist.reaps)
      else s'.store == clean.store && s'.hist == clean.hist.(reaps := s'.hist.reaps)
  {
  }

  // ---------- What most steps leave alone ----------

  /** Steps that call the backend. */
  ghost predicate CallsBackend(a: Action) {
    a.Enqueue? || a.FetchAcquire? || a.FetchCompensate? || a.AckComplete? || a.ExpireBackend? || a.Reconcile?
  }

  lemma StoreFrame(c: Config, s: State, a: Action)
    requires Enabled(c, s, a) && !CallsBackend(a)
    ensures Apply(c, s, a).store == s.store
  {
    hide Enumerates, FreshLease, Least, NoDue, LeasesOf, ItemsOf;
    hide J.Live, J.Compacted, Q.Orphans, Q.Matched, Q.Reconcile;
  }

  ghost predicate SameIds(s: State, s': State) {
    s'.hist.accepted == s.hist.accepted && s'.hist.completed == s.hist.completed
  }

  lemma IdsAppend(c: Config, s: State, w: Write)
    ensures s.pc.Acquired? ==> SameIds(s, DoFetchRecord(s, w))
    ensures s.pc.Acking? ==> SameIds(s, DoAckRecord(s, w))
    ensures s.pc.Expired? ==> SameIds(s, DoExpireRecord(c, s, w))
  {
  }

  lemma IdsHandBack(c: Config, s: State, f: Fault)
    ensures s.pc.Refused? ==> SameIds(s, DoCompensate(s, f))
    ensures s.pc.Expiring? ==> SameIds(s, DoExpire(c, s, f))
  {
  }

  lemma IdsAcquire(s: State, lid: LeaseId, clock: int, timeout: int, f: Fault)
    ensures SameIds(s, DoAcquire(s, lid, clock, timeout, f))
  {
  }

  lemma IdsReconcile(s: State, orphans: seq<TaskId>, f: Fault)
    requires s.pc.Recovering? && Enumerates(orphans, Q.Orphans(s.store, Fences(s.pc.live)))
    ensures SameIds(s, DoReconcile(s, orphans, f))
  {
    hide Q.Orphans, Q.Matched, Q.Reconcile;
  }

  ghost predicate WritesJournal(a: Action) {
    a.FetchRecordStep? || a.AckRecord? || a.ExpireRecord? || a.CloseStale? || a.Compact? || a.Tamper?
  }

  lemma IdsMemory(c: Config, s: State, a: Action)
    requires Enabled(c, s, a) && !CallsBackend(a) && !WritesJournal(a)
    ensures SameIds(s, Apply(c, s, a))
  {
    hide Least, NoDue, J.Live, LeasesOf, ItemsOf;
  }

  lemma IdsFrame(c: Config, s: State, a: Action)
    requires Enabled(c, s, a) && !a.Enqueue? && !a.AckComplete?
    ensures SameIds(s, Apply(c, s, a))
  {
    if !CallsBackend(a) && !WritesJournal(a) {
      IdsMemory(c, s, a);
    } else {
      hide SameIds, DoFetchRecord, DoAckRecord, DoExpireRecord, DoCompensate, DoExpire, DoAcquire, DoReconcile;
      match a
      case FetchRecordStep(w) => IdsAppend(c, s, w);
      case AckRecord(w) => IdsAppend(c, s, w);
      case ExpireRecord(w) => IdsAppend(c, s, w);
      case FetchCompensate(f) => IdsHandBack(c, s, f);
      case ExpireBackend(f) => IdsHandBack(c, s, f);
      case FetchAcquire(l, clock, timeout, f) => IdsAcquire(s, l, clock, timeout, f);
      case Reconcile(orphans, f) => IdsReconcile(s, orphans, f);
      case CloseStale(l, w) => IdsKept(s, DoCloseStale(s, l, w));
      case Compact(order) => IdsKept(s, s.(journal := J.Compacted(J.Live(s.journal), order)));
      case Tamper(j) => IdsKept(s, s.(journal := j));
    }
  }

  lemma IdsKept(s: State, s': State)
    requires s'.hist == s.hist
    ensures SameIds(s, s')
  {
  }

  lemma AcceptedFrame(c: Config, s: State, a: Action)
    requires Enabled(c, s, a) && !a.Enqueue?
    ensures Apply(c, s, a).hist.accepted == s.hist.accepted
  {
    if !a.AckComplete? {
      hide Enabled, Apply;
      IdsFrame(c, s, a);
    }
  }

  lemma CompletedFrame(c: Config, s: State, a: Action)
    requires Enabled(c, s, a) && !a.AckComplete?
    ensures Apply(c, s, a).hist.completed == s.hist.completed
  {
    if !a.Enqueue? {
      hide Enabled, Apply;
      IdsFrame(c, s, a);
    }
  }

  lemma PublishedFrame(c: Config, s: State, a: Action)
    requires Enabled(c, s, a) && !a.FetchPublish?
    ensures Apply(c, s, a).hist.published == s.hist.published
  {
    hide Enumerates, FreshLease, Least, NoDue, LeasesOf, ItemsOf;
    hide J.Live, J.Compacted, Q.Orphans, Q.Matched, Q.Reconcile;
  }

  lemma AcksFrame(c: Config, s: State, a: Action)
    requires Enabled(c, s, a) && !a.AckForget?
    ensures Apply(c, s, a).hist.acks == s.hist.acks
  {
    hide Enumerates, FreshLease, Least, NoDue, LeasesOf, ItemsOf;
    hide J.Live, J.Compacted, Q.Orphans, Q.Matched, Q.Reconcile;
  }

  lemma ReapsFrame(c: Config, s: State, a: Action)
    requires Enabled(c, s, a) && !a.ReapEnd? && !a.ExpireBackend? && !a.ExpireRecord?
    ensures Apply(c, s, a).hist.reaps == s.hist.reaps
  {
    hide Enumerates, FreshLease, Least, NoDue, LeasesOf, ItemsOf;
    hide J.Live, J.Compacted, Q.Orphans, Q.Matched, Q.Reconcile;
  }

  // ---------- Runs ----------

  ghost predicate CanRun(c: Config, s: State, acts: seq<Action>)
    decreases |acts|
  {
    acts == [] || (Enabled(c, s, acts[0]) && CanRun(c, Apply(c, s, acts[0]), acts[1..]))
  }

  ghost function Exec(c: Config, s: State, acts: seq<Action>): State
    requires CanRun(c, s, acts)
    decreases |acts|
  {
    if acts == [] then s else Exec(c, Apply(c, s, acts[0]), acts[1..])
  }

  lemma {:induction false} RunConcat(c: Config, s: State, a: seq<Action>, b: seq<Action>)
    requires CanRun(c, s, a)
    requires CanRun(c, Exec(c, s, a), b)
    ensures CanRun(c, s, a + b) && Exec(c, s, a + b) == Exec(c, Exec(c, s, a), b)
    decreases |a|
  {
    hide Enabled, Apply;
    if a == [] {
      assert a + b == b;
    } else {
      RunConcat(c, Apply(c, s, a[0]), a[1..], b);
      assert (a + b)[1..] == a[1..] + b;
    }
  }

  lemma RunSnoc(c: Config, s: State, acts: seq<Action>, a: Action)
    requires CanRun(c, s, acts) && Enabled(c, Exec(c, s, acts), a)
    ensures CanRun(c, s, acts + [a]) && Exec(c, s, acts + [a]) == Apply(c, Exec(c, s, acts), a)
  {
    hide CanRun, Exec, Apply, Enabled;
    RunOne(c, Exec(c, s, acts), a);
    RunConcat(c, s, acts, [a]);
  }

  lemma RunOne(c: Config, s: State, a: Action)
    requires Enabled(c, s, a)
    ensures CanRun(c, s, [a]) && Exec(c, s, [a]) == Apply(c, s, a)
  {
    var s' := Apply(c, s, a);
    assert [a][1..] == [];
    assert CanRun(c, s', []) && Exec(c, s', []) == s';
  }

  lemma RunTwo(c: Config, s: State, a0: Action, a1: Action)
    requires Enabled(c, s, a0) && Enabled(c, Apply(c, s, a0), a1)
    ensures CanRun(c, s, [a0, a1]) && Exec(c, s, [a0, a1]) == Apply(c, Apply(c, s, a0), a1)
  {
    hide CanRun, Exec, Apply, Enabled;
    RunOne(c, s, a0);
    RunSnoc(c, s, [a0], a1);
    assert [a0] + [a1] == [a0, a1];
  }

  lemma RunThree(c: Config, s: State, a0: Action, a1: Action, a2: Action)
    requires Enabled(c, s, a0) && Enabled(c, Apply(c, s, a0), a1)
    requires Enabled(c, Apply(c, Apply(c, s, a0), a1), a2)
    ensures CanRun(c, s, [a0, a1, a2])
    ensures Exec(c, s, [a0, a1, a2]) == Apply(c, Apply(c, Apply(c, s, a0), a1), a2)
  {
    hide CanRun, Exec, Apply, Enabled;
    RunTwo(c, s, a0, a1);
    RunSnoc(c, s, [a0, a1], a2);
    assert [a0, a1] + [a2] == [a0, a1, a2];
  }

  /** Nobody replaced the journal: every record that reached the disk is still there. */
  ghost predicate Intact(acts: seq<Action>) {
    forall i :: 0 <= i < |acts| ==> !acts[i].Tamper?
  }

  const FRESH_HISTORY := History({}, {}, map[], [], [], {}, [])

  const INIT := State(Q.EMPTY, [], map[], multiset{}, Down, FRESH_HISTORY)
}
