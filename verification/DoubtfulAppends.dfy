/**
 When the journal and the lease map of an idle engine are the same map. An append
 that failed after its frame reached the disk leaves the two apart; how long they
 stay apart is read off the leases it happened to.
 */
module DoubtfulAppends {
  import opened Types
  import opened Protocol
  import opened Leasing
  import opened Exclusive
  import opened Schedule
  import opened Agreement
  import A = Attained
  import J = Journal

  /** A doubtful lease is on one side at most, and is never the lease being fetched. */
  ghost predicate OneSided(s: State, live: J.LiveMap) {
    && s.hist.doubtful <= s.hist.origin.Keys
    && (forall l :: l in s.hist.doubtful ==> l !in live || l !in s.leases)
    && (!Up(s.pc) ==> s.hist.doubtful == {})
    && (s.pc.Acquired? || s.pc.Recorded? ==> s.pc.lease.id !in s.hist.doubtful)
  }

  ghost predicate Doubts(s: State) { OneSided(s, J.Live(s.journal)) }

  lemma DoubtsFetchRecord(s: State, w: Write)
    requires Doubts(s) && PcSound(s) && PcKnown(s.hist, s.pc) && s.pc.Acquired?
    ensures Doubts(DoFetchRecord(s, w))
  {
    hide J.Live;
    J.LiveSnoc(s.journal, FetchRecord(s.pc.lease));
  }

  /** Closing a record, whatever comes of the append. */
  lemma DoubtsClose(s: State, s': State, op: Op, l: LeaseId, w: Write)
    requires Doubts(s) && Up(s.pc) && Up(s'.pc) && l in s.hist.origin && !op.Fetch? && !op.Other?
    requires s'.journal == Logged(s.journal, CloseRecord(op, l), w) && s'.leases == s.leases
    requires s'.hist.origin == s.hist.origin && s'.hist.doubtful == Doubt(s.hist, l, w).doubtful
    requires !s'.pc.Acquired? && !s'.pc.Recorded?
    ensures Doubts(s')
  {
    hide J.Live;
    J.LiveSnoc(s.journal, CloseRecord(op, l));
  }

  lemma DoubtsJournal(c: Config, s: State, a: Action)
    requires Doubts(s) && PcSound(s) && PcKnown(s.hist, s.pc) && Enabled(c, s, a)
    requires a.FetchRecordStep? || a.AckRecord? || a.ExpireRecord? || a.CloseStale? || a.Compact?
    ensures Doubts(Apply(c, s, a))
  {
    hide Doubts;
    match a
    case FetchRecordStep(w) => DoubtsFetchRecord(s, w);
    case AckRecord(w) =>
      DoubtsClose(s, DoAckRecord(s, w), if s.pc.completed then Ack else Stale, s.pc.lease.id, w);
    case ExpireRecord(w) => DoubtsClose(s, DoExpireRecord(c, s, w), s.pc.op, s.pc.lease.id, w);
    case CloseStale(l, w) => DoubtsNone(s, DoCloseStale(s, l, w));
    case Compact(order) => DoubtsCompact(s, order);
  }

  lemma DoubtsCompact(s: State, order: seq<LeaseId>)
    requires Doubts(s) && s.pc.Idle? && Enumerates(order, J.Live(s.journal).Keys)
    ensures Doubts(s.(journal := J.Compacted(J.Live(s.journal), order)))
  {
    J.CompactLive(s.journal, order);
  }

  lemma DoubtsNone(s: State, s': State)
    requires Doubts(s) && !Up(s.pc) && s'.hist.doubtful == s.hist.doubtful
    requires !s'.pc.Acquired? && !s'.pc.Recorded?
    ensures Doubts(s')
  {
  }

  /** Steps that leave the journal alone add no lease to memory, except one that is not doubtful. */
  lemma DoubtsMemory(c: Config, s: State, a: Action)
    requires Doubts(s) && Enabled(c, s, a)
    requires a.FetchPublish? || a.AckForget? || a.ExpireForget? || a.Reinstate? || a.Crash? || a.Start? || a.Reconcile?
    ensures Doubts(Apply(c, s, a))
  {
    hide J.Live;
  }

  lemma DoubtsKept(s: State, s': State)
    requires Doubts(s) && Up(s.pc) && Up(s'.pc) && s'.journal == s.journal && s'.leases == s.leases
    requires s'.hist.doubtful == s.hist.doubtful && s.hist.origin.Keys <= s'.hist.origin.Keys
    requires !s'.pc.Recorded? && (s'.pc.Acquired? ==> s'.pc.lease.id !in s.hist.origin)
    ensures Doubts(s')
  {
    hide J.Live;
  }

  lemma DoubtsRequest(c: Config, s: State, a: Action)
    requires Doubts(s) && Enabled(c, s, a) && (a.Enqueue? || a.FetchAcquire? || a.FetchCompensate? || a.AckComplete?)
    ensures Doubts(Apply(c, s, a))
  {
    hide Doubts;
    match a
    case Enqueue(id, payload, f) => DoubtsKept(s, DoEnqueue(s, id, payload, f));
    case FetchAcquire(l, clock, timeout, f) => DoubtsKept(s, DoAcquire(s, l, clock, timeout, f));
    case FetchCompensate(f) => DoubtsKept(s, DoCompensate(s, f));
    case AckComplete(l, f) => DoubtsKept(s, DoComplete(s, l, f));
  }

  lemma DoubtsReap(c: Config, s: State, a: Action)
    requires Doubts(s) && Enabled(c, s, a) && (a.ReapStart? || a.ReapPop? || a.ExpireBackend? || a.ReapEnd?)
    ensures Doubts(Apply(c, s, a))
  {
    hide Doubts;
    match a
    case ReapStart(now) => DoubtsKept(s, s.(pc := Reaping(now)));
    case ReapPop(i) => DoubtsKept(s, DoPop(s, i));
    case ExpireBackend(f) => DoubtsKept(s, DoExpire(c, s, f));
    case ReapEnd => DoubtsKept(s, DoReapEnd(s));
  }

  lemma DoubtsStep(c: Config, s: State, a: Action)
    requires Doubts(s) && PcSound(s) && PcKnown(s.hist, s.pc) && Enabled(c, s, a) && !a.Tamper?
    ensures Doubts(Apply(c, s, a))
  {
    hide Doubts, PcSound, PcKnown;
    if a.FetchRecordStep? || a.AckRecord? || a.ExpireRecord? || a.CloseStale? || a.Compact? {
      DoubtsJournal(c, s, a);
    } else if a.Enqueue? || a.FetchAcquire? || a.FetchCompensate? || a.AckComplete? {
      DoubtsRequest(c, s, a);
    } else if a.ReapStart? || a.ReapPop? || a.ExpireBackend? || a.ReapEnd? {
      DoubtsReap(c, s, a);
    } else {
      DoubtsMemory(c, s, a);
    }
  }

  lemma {:induction false} DoubtsOverRuns(c: Config, s: State, acts: seq<Action>)
    requires c.retryDelay > 0 && Sound(s) && Scheduling(c, s) && Doubts(s) && CanRun(c, s, acts) && Intact(acts)
    ensures Doubts(Exec(c, s, acts))
    decreases |acts|
  {
    hide Sound, Scheduling, Doubts;
    if acts != [] {
      PcFacts(c, s);
      DoubtsStep(c, s, acts[0]);
      SoundStep(c, s, acts[0]);
      SchedulingStep(c, s, acts[0]);
      DoubtsOverRuns(c, Apply(c, s, acts[0]), acts[1..]);
    }
  }

  lemma PcFacts(c: Config, s: State)
    requires Sound(s) && Scheduling(c, s)
    ensures PcSound(s) && PcKnown(s.hist, s.pc)
  {
  }

  /** What the journal holds when it agrees with memory completely. */
  ghost function Mirror(leases: map<LeaseId, Lease>): J.LiveMap {
    map l | l in leases :: FetchRecord(leases[l])
  }

  /**
   The exact condition. At every idle point of every intact run, the journal folds
   to the lease map if and only if every lease with a doubtful append is by now
   gone from both.
   */
  lemma MirrorExactly(c: Config, acts: seq<Action>)
    requires c.retryDelay > 0 && CanRun(c, INIT, acts) && Intact(acts) && Exec(c, INIT, acts).pc.Idle?
    ensures
      var s := Exec(c, INIT, acts);
      var live := J.Live(s.journal);
      live == Mirror(s.leases) <==> forall l :: l in s.hist.doubtful ==> l !in live && l !in s.leases
  {
    hide CanRun, Exec, Sound, Scheduling, J.Live, Agree;
    InitSound();
    InitDoubts(c);
    JournalMatchesMemory(c, acts);
    DoubtsOverRuns(c, INIT, acts);
  }

  lemma InitDoubts(c: Config)
    ensures Scheduling(c, INIT) && Doubts(INIT)
  {
  }

  /** A fetch whose append failed after the frame reached the disk leaves its lease in the journal only. */
  lemma UnsyncedFetchStays(c: Config, s: State, lid: LeaseId, clock: int, timeout: int)
    requires s.pc.Idle? && timeout > 0 && FreshLease(s, lid) && s.store.ready != []
    ensures
      var fetch := [FetchAcquire(lid, clock, timeout, Clean), FetchRecordStep(Unsynced), FetchCompensate(Clean)];
      && CanRun(c, s, fetch)
      && var s' := Exec(c, s, fetch);
         s'.pc.Idle? && lid in J.Live(s'.journal) && lid !in s'.leases && J.Live(s'.journal) != Mirror(s'.leases)
  {
    hide J.Live;
    var l := Lease(lid, s.store.ready[0], clock, clock + timeout);
    RunThree(c, s, FetchAcquire(lid, clock, timeout, Clean), FetchRecordStep(Unsynced), FetchCompensate(Clean));
    J.LiveSnoc(s.journal, FetchRecord(l));
  }

  /** From the empty system, with one task and one fetch, journal and memory come apart. */
  lemma JournalCanDiffer(c: Config) returns (acts: seq<Action>)
    ensures CanRun(c, INIT, acts) && Intact(acts) && Exec(c, INIT, acts).pc.Idle?
    ensures var s := Exec(c, INIT, acts); J.Live(s.journal) != Mirror(s.leases)
  {
    hide CanRun, Exec, J.Live;
    acts := A.FirstTask(c);
    var s := Exec(c, INIT, acts);
    A.NameIsFresh(s, 0);
    UnsyncedFetchStays(c, s, A.LeaseName(0), 0, 1);
    var fetch := [FetchAcquire(A.LeaseName(0), 0, 1, Clean), FetchRecordStep(Unsynced), FetchCompensate(Clean)];
    RunConcat(c, INIT, acts, fetch);
    acts := acts + fetch;
  }
}
