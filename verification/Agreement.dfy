/**
 Between operations of a recovered engine the journal folds to exactly the
 leases in memory, apart from leases whose append failed after the frame had
 reached the disk. This holds in every run, for any journal found at startup.
 */
module Agreement {
  import opened Types
  import opened Protocol
  import opened Exclusive
  import opened Schedule
  import Q = Queue
  import J = Journal

  /** The current operation has changed one of journal and memory but not yet the other. */
  ghost predicate Transit(pc: Pc, l: LeaseId) {
    (pc.Recorded? || pc.Acked? || pc.Closed?) && pc.lease.id == l
  }

  ghost predicate Excused(s: State, l: LeaseId) {
    l in s.hist.doubtful || Transit(s.pc, l)
  }

  ghost predicate Agrees(s: State, live: J.LiveMap) {
    && (forall l :: l in live ==> Excused(s, l) || (l in s.leases && live[l] == FetchRecord(s.leases[l])))
    && (forall l :: l in s.leases ==> Excused(s, l) || l in live)
  }

  ghost predicate PcAgrees(s: State, live: J.LiveMap) {
    match s.pc
    case Recovering(m) => m == live
    case Closing(m, matched, pending) =>
      && matched !! pending
      && (forall l :: l in live <==> l in m && (l in matched || l in pending))
      && (forall l :: l in live ==> live[l] == m[l])
    case Acquired(l) => l.id !in live
    case Recorded(l) => l.id in live && live[l.id] == FetchRecord(l)
    case Acked(l, _) => l.id !in live
    case Closed(_, l) => l.id !in live
    case _ => true
  }

  ghost predicate Agree(s: State) {
    PcAgrees(s, J.Live(s.journal)) && (Up(s.pc) ==> Agrees(s, J.Live(s.journal)))
  }

  /** The lease map is filed by lease ID, and the pc names leases it holds. */
  ghost predicate Filing(s: State) {
    && PcSound(s)
    && (Up(s.pc) ==> forall l :: l in s.leases ==> s.leases[l].id == l)
  }

  lemma AgreeFetchRecord(s: State, w: Write)
    requires Agree(s) && Filing(s) && s.pc.Acquired?
    ensures Agree(DoFetchRecord(s, w))
  {
    hide J.Live;
    J.LiveSnoc(s.journal, FetchRecord(s.pc.lease));
  }

  lemma AgreeAckRecord(s: State, w: Write)
    requires Agree(s) && Filing(s) && s.pc.Acking?
    ensures Agree(DoAckRecord(s, w))
  {
    hide J.Live;
    J.LiveSnoc(s.journal, CloseRecord(if s.pc.completed then Ack else Stale, s.pc.lease.id));
  }

  lemma AgreeExpireRecord(c: Config, s: State, w: Write)
    requires Agree(s) && Filing(s) && s.pc.Expired?
    ensures Agree(DoExpireRecord(c, s, w))
  {
    hide J.Live;
    J.LiveSnoc(s.journal, CloseRecord(s.pc.op, s.pc.lease.id));
  }

  lemma AgreeReconcile(s: State, orphans: seq<TaskId>, f: Fault)
    requires Agree(s) && s.pc.Recovering?
    requires Enumerates(orphans, Q.Orphans(s.store, Fences(s.pc.live)))
    ensures Agree(DoReconcile(s, orphans, f))
  {
  }

  lemma AgreeCloseStale(s: State, l: LeaseId, w: Write)
    requires Agree(s) && s.pc.Closing? && l in s.pc.pending
    ensures Agree(DoCloseStale(s, l, w))
  {
    hide J.Live;
    J.LiveSnoc(s.journal, CloseRecord(Stale, l));
  }

  lemma AgreeReinstate(s: State)
    requires Agree(s) && Filing(s) && s.pc.Closing? && s.pc.pending == {}
    ensures Agree(DoReinstate(s))
  {
  }

  /** Steps on memory that settle or keep the difference between the two. */
  lemma AgreeMemory(c: Config, s: State, a: Action)
    requires Agree(s) && Filing(s) && Enabled(c, s, a)
    requires a.FetchPublish? || a.AckForget? || a.ExpireForget?
    ensures Agree(Apply(c, s, a))
  {
  }

  ghost predicate Between(pc: Pc) { pc.Recorded? || pc.Acked? || pc.Closed? }

  /** A step that leaves both sides alone and is not between two of them. */
  lemma AgreeKept(s: State, s': State)
    requires Agree(s) && s'.journal == s.journal
    requires s'.leases == s.leases && s'.hist.doubtful == s.hist.doubtful
    requires Up(s.pc) && !Between(s.pc) && !Between(s'.pc) && !s'.pc.Recovering? && !s'.pc.Closing?
    requires s'.pc.Acquired? ==> s'.pc.lease.id !in J.Live(s.journal)
    ensures Agree(s')
  {
  }

  lemma AgreeQuiet(c: Config, s: State, a: Action)
    requires Agree(s) && Enabled(c, s, a) && (a.Enqueue? || a.FetchAcquire? || a.FetchCompensate? || a.AckComplete?)
    ensures Agree(Apply(c, s, a))
  {
    hide Agree;
    match a
    case Enqueue(id, payload, f) => AgreeKept(s, DoEnqueue(s, id, payload, f));
    case FetchAcquire(l, clock, timeout, f) => AgreeKept(s, DoAcquire(s, l, clock, timeout, f));
    case FetchCompensate(f) => AgreeKept(s, DoCompensate(s, f));
    case AckComplete(l, f) => AgreeKept(s, DoComplete(s, l, f));
  }

  lemma AgreeReap(c: Config, s: State, a: Action)
    requires Agree(s) && Enabled(c, s, a) && (a.ReapStart? || a.ReapPop? || a.ExpireBackend? || a.ReapEnd?)
    ensures Agree(Apply(c, s, a))
  {
    hide Agree;
    match a
    case ReapStart(now) => AgreeKept(s, s.(pc := Reaping(now)));
    case ReapPop(i) => AgreeKept(s, DoPop(s, i));
    case ExpireBackend(f) => AgreeKept(s, DoExpire(c, s, f));
    case ReapEnd => AgreeKept(s, DoReapEnd(s));
  }

  lemma AgreeStep(c: Config, s: State, a: Action)
    requires Agree(s) && Filing(s) && Enabled(c, s, a)
    ensures Agree(Apply(c, s, a))
  {
    hide Filing;
    if a.Enqueue? || a.FetchAcquire? || a.FetchCompensate? || a.AckComplete? {
      AgreeQuiet(c, s, a);
    } else if a.ReapStart? || a.ReapPop? || a.ExpireBackend? || a.ReapEnd? {
      AgreeReap(c, s, a);
    } else {
      match a
      case FetchRecordStep(w) => AgreeFetchRecord(s, w);
      case AckRecord(w) => AgreeAckRecord(s, w);
      case ExpireRecord(w) => AgreeExpireRecord(c, s, w);
      case CloseStale(l, w) => AgreeCloseStale(s, l, w);
      case Reconcile(orphans, f) => AgreeReconcile(s, orphans, f);
      case Reinstate => AgreeReinstate(s);
      case Compact(order) => J.CompactLive(s.journal, order);
      case FetchPublish => AgreeMemory(c, s, a);
      case AckForget => AgreeMemory(c, s, a);
      case ExpireForget => AgreeMemory(c, s, a);
      case Crash =>
      case Start =>
      case Tamper(_) =>
    }
  }

  lemma {:induction false} AgreeOverRuns(c: Config, s: State, acts: seq<Action>)
    requires c.retryDelay > 0 && Agree(s) && Scheduling(c, s) && CanRun(c, s, acts)
    ensures Agree(Exec(c, s, acts))
    decreases |acts|
  {
    if acts != [] {
      AgreeStep(c, s, acts[0]);
      SchedulingStep(c, s, acts[0]);
      AgreeOverRuns(c, Apply(c, s, acts[0]), acts[1..]);
    }
  }

  /**
   Journal and memory agree, in IDs, tasks and deadlines, at every idle point of
   every run; without a doubtful append they are the same map.
   */
  lemma JournalMatchesMemory(c: Config, acts: seq<Action>)
    requires c.retryDelay > 0 && CanRun(c, INIT, acts) && Exec(c, INIT, acts).pc.Idle?
    ensures
      var s := Exec(c, INIT, acts);
      var live := J.Live(s.journal);
      && (forall l :: l !in s.hist.doubtful ==> (l in live <==> l in s.leases))
      && (forall l :: l in live && l !in s.hist.doubtful ==> live[l] == FetchRecord(s.leases[l]))
      && (s.hist.doubtful == {} ==> live == map l | l in s.leases :: FetchRecord(s.leases[l]))
  {
    AgreeOverRuns(c, INIT, acts);
  }
}
