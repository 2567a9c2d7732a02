/**
 The expiration heap against the lease map, in every run and for any journal: no
 active lease loses its schedule, and retries are bounded.
 */
module Schedule {
  import opened Types
  import opened Protocol
  import opened Exclusive
  import J = Journal

  // ---------- One heap entry per lease ----------

  ghost predicate OneEntry(heap: multiset<Item>) {
    && (forall i :: i in heap ==> heap[i] == 1)
    && (forall i, j :: i in heap && j in heap && i.lease == j.lease ==> i == j)
  }

  /** An earlier reap failed and scheduled a retry at `at`. */
  ghost predicate RetryAt(c: Config, reaps: seq<ReapMark>, at: int) {
    exists i :: 0 <= i < |reaps| && !reaps[i].ok && reaps[i].now + c.retryDelay == at
  }

  ghost predicate Popped(pc: Pc, l: LeaseId) {
    (pc.Expiring? || pc.Expired? || pc.Closed?) && pc.lease.id == l
  }

  ghost predicate HeapSound(c: Config, s: State) {
    && OneEntry(s.heap)
    && (forall l :: l in s.leases ==> s.leases[l].id == l)
    && (forall l :: l in s.leases && !Popped(s.pc, l) ==> Scheduled(s.heap, l))
    && (forall i :: i in s.heap && i.lease in s.leases ==>
          && s.leases[i.lease].expiresAt <= i.at
          && (i.at == s.leases[i.lease].expiresAt || RetryAt(c, s.hist.reaps, i.at)))
  }

  ghost predicate PcSound(s: State) {
    match s.pc
    case Recovering(live) => J.Filed(live)
    case Closing(live, _, _) => J.Filed(live)
    case Acquired(l) => l.id !in s.leases && !Scheduled(s.heap, l.id)
    case Refused(l) => l.id !in s.leases && !Scheduled(s.heap, l.id)
    case Recorded(l) => l.id !in s.leases && !Scheduled(s.heap, l.id)
    case Acking(l, _) => l.id in s.leases && s.leases[l.id] == l
    case Acked(l, _) => l.id in s.leases && s.leases[l.id] == l
    case Expiring(now, l) => Due(s, now, l)
    case Expired(now, l, op) => Due(s, now, l) && !op.Fetch? && !op.Other?
    case Closed(now, l) => Due(s, now, l)
    case _ => true
  }

  /** `l` is the lease being expired: active, due, and out of the heap. */
  ghost predicate Due(s: State, now: int, l: Lease) {
    l.id in s.leases && s.leases[l.id] == l && l.expiresAt <= now && !Scheduled(s.heap, l.id)
  }

  /** Every active lease has exactly one heap entry, never earlier than its deadline. */
  ghost predicate Scheduling(c: Config, s: State) {
    PcSound(s) && (Up(s.pc) ==> HeapSound(c, s))
  }

  lemma ScheduledAfterPush(heap: multiset<Item>, i: Item)
    requires OneEntry(heap) && !Scheduled(heap, i.lease)
    ensures OneEntry(heap + multiset{i})
    ensures forall l :: Scheduled(heap + multiset{i}, l) <==> Scheduled(heap, l) || l == i.lease
  {
    var h := heap + multiset{i};
    assert i !in heap;
    assert i in h;
    forall l | Scheduled(heap, l) ensures Scheduled(h, l) {
      var j :| j in heap && j.lease == l;
      assert j in h;
    }
  }

  lemma ScheduledAfterPop(heap: multiset<Item>, i: Item)
    requires OneEntry(heap) && i in heap
    ensures OneEntry(heap - multiset{i})
    ensures forall l :: Scheduled(heap - multiset{i}, l) <==> Scheduled(heap, l) && l != i.lease
  {
    var h := heap - multiset{i};
    forall l | Scheduled(heap, l) && l != i.lease ensures Scheduled(h, l) {
      var j :| j in heap && j.lease == l;
      assert j in h;
    }
  }

  lemma ScheduleGrow(c: Config, reaps: seq<ReapMark>, m: ReapMark)
    ensures forall at :: RetryAt(c, reaps, at) ==> RetryAt(c, reaps + [m], at)
    ensures !m.ok ==> RetryAt(c, reaps + [m], m.now + c.retryDelay)
  {
    var more := reaps + [m];
    forall at | RetryAt(c, reaps, at) ensures RetryAt(c, more, at) {
      var i :| 0 <= i < |reaps| && !reaps[i].ok && reaps[i].now + c.retryDelay == at;
      assert more[i] == reaps[i];
    }
    assert more[|reaps|] == m;
  }

  lemma SchedulingPublish(c: Config, s: State)
    requires Scheduling(c, s) && s.pc.Recorded?
    ensures Scheduling(c, DoPublish(s))
  {
    ScheduledAfterPush(s.heap, Item(s.pc.lease.id, s.pc.lease.expiresAt));
  }

  lemma SchedulingAckForget(c: Config, s: State)
    requires Scheduling(c, s) && s.pc.Acked?
    ensures Scheduling(c, DoAckForget(s))
  {
  }

  lemma SchedulingPop(c: Config, s: State, i: Item)
    requires Scheduling(c, s) && s.pc.Reaping? && i in s.heap && i.at <= s.pc.now
    ensures Scheduling(c, DoPop(s, i))
    ensures i.lease in s.leases ==> DoPop(s, i).pc == Expiring(s.pc.now, s.leases[i.lease])
  {
    ScheduledAfterPop(s.heap, i);
  }

  lemma SchedulingRetry(c: Config, s: State, s': State, now: int, l: Lease)
    requires c.retryDelay > 0
    requires HeapSound(c, s) && Due(s, now, l) && Popped(s.pc, l.id)
    requires s'.leases == s.leases
    requires s'.heap == s.heap + multiset{Item(l.id, now + c.retryDelay)}
    requires s'.pc.Idle? && s'.hist.reaps == s.hist.reaps + [ReapMark(now, false, false)]
    ensures Scheduling(c, s')
  {
    ScheduledAfterPush(s.heap, Item(l.id, now + c.retryDelay));
    ScheduleGrow(c, s.hist.reaps, ReapMark(now, false, false));
  }

  lemma SchedulingExpire(c: Config, s: State, f: Fault)
    requires c.retryDelay > 0 && Scheduling(c, s) && s.pc.Expiring?
    ensures Scheduling(c, DoExpire(c, s, f))
  {
    if f != Clean {
      SchedulingRetry(c, s, DoExpire(c, s, f), s.pc.now, s.pc.lease);
    }
  }

  lemma SchedulingExpireRecord(c: Config, s: State, w: Write)
    requires c.retryDelay > 0 && Scheduling(c, s) && s.pc.Expired?
    ensures Scheduling(c, DoExpireRecord(c, s, w))
  {
    if w != Durable {
      SchedulingRetry(c, s, DoExpireRecord(c, s, w), s.pc.now, s.pc.lease);
    }
  }

  lemma SchedulingReapEnd(c: Config, s: State)
    requires Scheduling(c, s) && s.pc.Reaping?
    ensures Scheduling(c, DoReapEnd(s))
  {
    ScheduleGrow(c, s.hist.reaps, ReapMark(s.pc.now, true, NoDue(s.leases, s.pc.now)));
  }

  lemma SchedulingReinstate(c: Config, s: State)
    requires Scheduling(c, s) && s.pc.Closing?
    ensures Scheduling(c, DoReinstate(s))
  {
    var s' := DoReinstate(s);
    forall l | l in s'.leases ensures Scheduled(s'.heap, l) {
      assert Item(l, s'.leases[l].expiresAt) in s'.heap;
    }
  }

  ghost predicate MovesLeases(a: Action) {
    || a.FetchPublish? || a.AckForget? || a.ReapPop? || a.ExpireBackend? || a.ExpireRecord?
    || a.ExpireForget? || a.ReapEnd? || a.Reinstate?
  }

  lemma QuietFrame(c: Config, s: State, a: Action)
    requires Enabled(c, s, a) && !MovesLeases(a)
    ensures var s' := Apply(c, s, a);
      && (Up(s'.pc) ==>
            Up(s.pc) && s'.leases == s.leases && s'.heap == s.heap && s'.hist.reaps == s.hist.reaps)
      && (Up(s'.pc) ==> forall l :: !Popped(s.pc, l))
  {
  }

  lemma QuietPc(c: Config, s: State, a: Action)
    requires Enabled(c, s, a) && !MovesLeases(a) && PcSound(s)
    requires Up(s.pc) ==> forall l :: l in s.leases ==> s.leases[l].id == l
    ensures PcSound(Apply(c, s, a))
  {
    J.LiveFiled(s.journal);
  }

  /** Steps that leave the lease map, the heap and the list of reaps alone. */
  lemma SchedulingQuiet(c: Config, s: State, a: Action)
    requires Scheduling(c, s) && Enabled(c, s, a) && !MovesLeases(a)
    ensures Scheduling(c, Apply(c, s, a))
  {
    QuietFrame(c, s, a);
    QuietPc(c, s, a);
  }

  lemma SchedulingStep(c: Config, s: State, a: Action)
    requires c.retryDelay > 0 && Scheduling(c, s) && Enabled(c, s, a)
    ensures Scheduling(c, Apply(c, s, a))
  {
    if !MovesLeases(a) {
      SchedulingQuiet(c, s, a);
    } else {
      match a
      case FetchPublish => SchedulingPublish(c, s);
      case AckForget => SchedulingAckForget(c, s);
      case ReapPop(i) => SchedulingPop(c, s, i);
      case ExpireBackend(f) => SchedulingExpire(c, s, f);
      case ExpireRecord(w) => SchedulingExpireRecord(c, s, w);
      case ExpireForget =>
      case ReapEnd => SchedulingReapEnd(c, s);
      case Reinstate => SchedulingReinstate(c, s);
    }
  }

  /**
   No lease loses its schedule. In particular the reaper's branch that drops
   an entry whose lease is not yet due is never taken: see `SchedulingPop`.
   */
  lemma {:induction false} SchedulingOverRuns(c: Config, s: State, acts: seq<Action>)
    requires c.retryDelay > 0 && Scheduling(c, s) && CanRun(c, s, acts)
    ensures Scheduling(c, Exec(c, s, acts))
    decreases |acts|
  {
    if acts != [] {
      SchedulingStep(c, s, acts[0]);
      SchedulingOverRuns(c, Apply(c, s, acts[0]), acts[1..]);
    }
  }

  // ---------- Bounded retry ----------

  /** Every retry scheduled by the first `n` reaps is due by `now`. */
  ghost predicate RetriesDue(c: Config, reaps: seq<ReapMark>, n: nat, now: int)
    requires n <= |reaps|
  {
    forall j :: 0 <= j < n && !reaps[j].ok ==> reaps[j].now + c.retryDelay <= now
  }

  /** An error-free reap that comes after all scheduled retries are due leaves no due lease. */
  ghost predicate RetryLedger(c: Config, s: State) {
    forall i :: 0 <= i < |s.hist.reaps| ==>
      s.hist.reaps[i].ok && RetriesDue(c, s.hist.reaps, i, s.hist.reaps[i].now) ==> s.hist.reaps[i].clear
  }

  lemma LedgerGrow(c: Config, s: State, s': State, m: ReapMark)
    requires RetryLedger(c, s) && s'.hist.reaps == s.hist.reaps + [m]
    requires m.ok && RetriesDue(c, s.hist.reaps, |s.hist.reaps|, m.now) ==> m.clear
    ensures RetryLedger(c, s')
  {
    var n := |s.hist.reaps|;
    forall i | 0 <= i < n && RetriesDue(c, s'.hist.reaps, i, s.hist.reaps[i].now)
      ensures RetriesDue(c, s.hist.reaps, i, s.hist.reaps[i].now)
    {
      assert forall j :: 0 <= j < i ==> s'.hist.reaps[j] == s.hist.reaps[j];
    }
    if RetriesDue(c, s'.hist.reaps, n, m.now) {
      assert forall j :: 0 <= j < n ==> s'.hist.reaps[j] == s.hist.reaps[j];
    }
  }

  lemma ReapEndClears(c: Config, s: State)
    requires Scheduling(c, s) && s.pc.Reaping? && forall i :: i in s.heap ==> i.at > s.pc.now
    requires RetriesDue(c, s.hist.reaps, |s.hist.reaps|, s.pc.now)
    ensures NoDue(s.leases, s.pc.now)
  {
    forall l | l in s.leases ensures s.leases[l].expiresAt > s.pc.now {
      var i :| i in s.heap && i.lease == l;
    }
  }

  lemma OnlyReapsMark(c: Config, s: State, a: Action)
    requires Enabled(c, s, a) && !a.ReapEnd?
    ensures var s' := Apply(c, s, a);
      s'.hist.reaps == s.hist.reaps || exists now :: s'.hist.reaps == s.hist.reaps + [ReapMark(now, false, false)]
  {
  }

  lemma LedgerStep(c: Config, s: State, a: Action)
    requires Scheduling(c, s) && RetryLedger(c, s) && Enabled(c, s, a)
    ensures RetryLedger(c, Apply(c, s, a))
  {
    var s' := Apply(c, s, a);
    if a.ReapEnd? {
      if RetriesDue(c, s.hist.reaps, |s.hist.reaps|, s.pc.now) {
        ReapEndClears(c, s);
      }
      LedgerGrow(c, s, s', ReapMark(s.pc.now, true, NoDue(s.leases, s.pc.now)));
    } else {
      OnlyReapsMark(c, s, a);
      if s'.hist.reaps != s.hist.reaps {
        var now :| s'.hist.reaps == s.hist.reaps + [ReapMark(now, false, false)];
        LedgerGrow(c, s, s', ReapMark(now, false, false));
      }
    }
  }

  lemma {:induction false} LedgerOverRuns(c: Config, s: State, acts: seq<Action>)
    requires c.retryDelay > 0 && Scheduling(c, s) && RetryLedger(c, s) && CanRun(c, s, acts)
    ensures RetryLedger(c, Exec(c, s, acts))
    decreases |acts|
  {
    if acts != [] {
      SchedulingStep(c, s, acts[0]);
      LedgerStep(c, s, acts[0]);
      LedgerOverRuns(c, Apply(c, s, acts[0]), acts[1..]);
    }
  }

  ghost function Failures(reaps: seq<ReapMark>): nat {
    if reaps == [] then 0 else Failures(reaps[1..]) + if reaps[0].ok then 0 else 1
  }

  lemma {:induction false} SomeSuccess(reaps: seq<ReapMark>) returns (i: nat)
    requires Failures(reaps) < |reaps|
    ensures i < |reaps| && reaps[i].ok
  {
    if reaps[0].ok {
      i := 0;
    } else {
      i := SomeSuccess(reaps[1..]);
      i := i + 1;
    }
  }

  /** Reaps run at least one retry delay apart. */
  ghost predicate Spaced(c: Config, reaps: seq<ReapMark>) {
    forall i, j :: 0 <= i < j < |reaps| ==> reaps[i].now + c.retryDelay <= reaps[j].now
  }

  /**
   Bounded retry: if reaps are spaced at least one retry delay apart and the
   window of finished reaps from `from` on holds fewer failures than reaps, then
   one reap in the window left no active lease past its deadline.
   */
  lemma BoundedRetry(c: Config, acts: seq<Action>, from: nat, k: nat)
    requires c.retryDelay > 0 && CanRun(c, INIT, acts)
    requires Spaced(c, Exec(c, INIT, acts).hist.reaps)
    requires from + k + 1 <= |Exec(c, INIT, acts).hist.reaps|
    requires Failures(Exec(c, INIT, acts).hist.reaps[from..from + k + 1]) <= k
    ensures exists i :: from <= i <= from + k && Exec(c, INIT, acts).hist.reaps[i].clear
  {
    var s := Exec(c, INIT, acts);
    LedgerOverRuns(c, INIT, acts);
    var w := SomeSuccess(s.hist.reaps[from..from + k + 1]);
    var i := from + w;
    assert s.hist.reaps[i].ok;
    assert RetriesDue(c, s.hist.reaps, i, s.hist.reaps[i].now);
    assert s.hist.reaps[i].clear;
  }
}
