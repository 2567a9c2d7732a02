/**
 Charging attempts. Expiry keeps every waiting task below MaxAttempts; handing a
 task back after a failed fetch append can take it there, and is the only step
 that can.
 */
module Attempts {
  import opened Types
  import opened Protocol
  import opened Conservation
  import opened Leasing
  import E = Exclusive
  import A = Attained
  import Q = Queue

  ghost predicate AllBelow(c: Config, q: Q.Store) {
    && (forall i :: 0 <= i < |q.ready| ==> q.ready[i].attempts < c.maxAttempts)
    && (forall t :: t in q.processing ==> q.processing[t].task.attempts < c.maxAttempts)
  }

  /** Hands back, with one more attempt charged, a task that had none to spare. */
  ghost predicate Overcharges(c: Config, s: State, a: Action) {
    a.FetchCompensate? && s.pc.Refused? && a.fault != Before && s.pc.lease.task.attempts + 1 >= c.maxAttempts
  }

  lemma BelowReconcile(c: Config, s: State, orphans: seq<TaskId>, f: Fault)
    requires AllBelow(c, s.store) && s.pc.Recovering?
    requires Enumerates(orphans, Q.Orphans(s.store, Fences(s.pc.live)))
    ensures AllBelow(c, DoReconcile(s, orphans, f).store)
  {
    assert forall i :: 0 <= i < |orphans| ==> orphans[i] in orphans;
  }

  lemma BelowExpire(c: Config, s: State, f: Fault)
    requires c.maxAttempts > 0 && Tight(s) && AllBelow(c, s.store) && s.pc.Expiring?
    ensures AllBelow(c, DoExpire(c, s, f).store)
  {
    hide Tight;
    if HoldsLease(s.store, s.pc.lease) {
      ExpiringTask(s);
    }
  }

  lemma BelowCompensate(c: Config, s: State, f: Fault)
    requires Tight(s) && AllBelow(c, s.store) && s.pc.Refused?
    ensures AllBelow(c, DoCompensate(s, f).store) <==> !(f != Before && s.pc.lease.task.attempts + 1 >= c.maxAttempts)
  {
    var l, q := s.pc.lease, s.store;
    assert HoldsLease(q, l) && q.processing[l.task.id].task == l.task;
    if f != Before {
      var q' := DoCompensate(s, f).store;
      assert q'.ready[|q.ready|] == Q.Charged(l.task);
      assert forall i :: 0 <= i < |q.ready| ==> q'.ready[i] == q.ready[i];
    }
  }

  /** A step keeps every waiting task below the limit exactly when it is not an overcharging hand-back. */
  lemma AttemptsStayBelow(c: Config, s: State, a: Action)
    requires c.maxAttempts > 0 && Sound(s) && AllBelow(c, s.store) && Enabled(c, s, a)
    ensures AllBelow(c, Apply(c, s, a).store) <==> !Overcharges(c, s, a)
  {
    hide Tight, Conserved;
    if !CallsBackend(a) {
      StoreFrame(c, s, a);
    } else {
      match a
      case FetchCompensate(f) => BelowCompensate(c, s, f);
      case ExpireBackend(f) => BelowExpire(c, s, f);
      case Reconcile(orphans, f) => BelowReconcile(c, s, orphans, f);
      case Enqueue(_, _, _) =>
      case FetchAcquire(_, _, _, _) =>
      case AckComplete(_, _) =>
    }
  }

  /** Every state the run passes through keeps all waiting tasks below the limit. */
  ghost predicate AlwaysBelow(c: Config, s: State, acts: seq<Action>)
    requires CanRun(c, s, acts)
    decreases |acts|
  {
    AllBelow(c, s.store) && (acts == [] || AlwaysBelow(c, Apply(c, s, acts[0]), acts[1..]))
  }

  ghost predicate NeverOvercharges(c: Config, s: State, acts: seq<Action>)
    requires CanRun(c, s, acts)
    decreases |acts|
  {
    acts == [] || (!Overcharges(c, s, acts[0]) && NeverOvercharges(c, Apply(c, s, acts[0]), acts[1..]))
  }

  lemma {:induction false} BelowOverRuns(c: Config, s: State, acts: seq<Action>)
    requires c.maxAttempts > 0 && Sound(s) && AllBelow(c, s.store) && CanRun(c, s, acts) && Intact(acts)
    ensures AlwaysBelow(c, s, acts) <==> NeverOvercharges(c, s, acts)
    decreases |acts|
  {
    hide Sound, AllBelow, Overcharges;
    if acts != [] {
      var s' := Apply(c, s, acts[0]);
      SoundStep(c, s, acts[0]);
      AttemptsStayBelow(c, s, acts[0]);
      if AllBelow(c, s'.store) {
        BelowOverRuns(c, s', acts[1..]);
      }
    }
  }

  /** The exact condition over whole runs: the limit is kept throughout unless some hand-back overcharges. */
  lemma BelowExactly(c: Config, acts: seq<Action>)
    requires c.maxAttempts > 0 && CanRun(c, INIT, acts) && Intact(acts)
    ensures AlwaysBelow(c, INIT, acts) <==> NeverOvercharges(c, INIT, acts)
  {
    E.InitSound();
    BelowOverRuns(c, INIT, acts);
  }

  /** From any idle state whose oldest ready task is one attempt short, one failed fetch append suffices. */
  lemma HandBackReachesLimit(c: Config, s: State, lid: LeaseId, clock: int, timeout: int)
    requires s.pc.Idle? && timeout > 0 && FreshLease(s, lid)
    requires s.store.ready != [] && s.store.ready[0].attempts == c.maxAttempts - 1
    ensures
      var fetch := [FetchAcquire(lid, clock, timeout, Clean), FetchRecordStep(Lost), FetchCompensate(Clean)];
      && CanRun(c, s, fetch)
      && Exec(c, s, fetch).store.ready == s.store.ready[1..] + [Q.Charged(s.store.ready[0])]
      && !AllBelow(c, Exec(c, s, fetch).store)
  {
    RunThree(c, s, FetchAcquire(lid, clock, timeout, Clean), FetchRecordStep(Lost), FetchCompensate(Clean));
    var after := s.store.ready[1..] + [Q.Charged(s.store.ready[0])];
    assert after[|s.store.ready| - 1].attempts == c.maxAttempts;
  }

  /** For every MaxAttempts = M > 0, some run from the empty system leaves a ready task with M attempts. */
  lemma LimitIsReached(c: Config) returns (acts: seq<Action>)
    requires c.maxAttempts > 0
    ensures CanRun(c, INIT, acts) && Intact(acts)
    ensures Exec(c, INIT, acts).store.ready == [Task(A.ID, [], c.maxAttempts)]
    ensures !AllBelow(c, Exec(c, INIT, acts).store)
  {
    hide CanRun, Exec;
    var k := c.maxAttempts - 1;
    acts := A.RestedAfter(c, k);
    var s, lid := Exec(c, INIT, acts), A.LeaseName(k);
    A.NameIsFresh(s, k);
    HandBackReachesLimit(c, s, lid, 0, 1);
    var fetch := [FetchAcquire(lid, 0, 1, Clean), FetchRecordStep(Lost), FetchCompensate(Clean)];
    RunConcat(c, INIT, acts, fetch);
    acts := acts + fetch;
  }

  // ---------- Dead tasks and the limit ----------

  /** Only expiry buries. */
  lemma DeadFrame(c: Config, s: State, a: Action)
    requires Enabled(c, s, a) && !a.ExpireBackend?
    ensures Apply(c, s, a).store.dead == s.store.dead
  {
    if !CallsBackend(a) {
      StoreFrame(c, s, a);
    }
  }

  lemma UnlimitedStep(c: Config, s: State, a: Action)
    requires c.maxAttempts <= 0 && Enabled(c, s, a)
    ensures Apply(c, s, a).store.dead == s.store.dead
  {
    if !a.ExpireBackend? {
      DeadFrame(c, s, a);
    }
  }

  lemma {:induction false} UnlimitedOverRuns(c: Config, s: State, acts: seq<Action>)
    requires c.maxAttempts <= 0 && CanRun(c, s, acts)
    ensures Exec(c, s, acts).store.dead == s.store.dead
    decreases |acts|
  {
    hide Enabled, Apply;
    if acts != [] {
      UnlimitedStep(c, s, acts[0]);
      UnlimitedOverRuns(c, Apply(c, s, acts[0]), acts[1..]);
    }
  }

  /** Without a limit no run buries anything. */
  lemma UnlimitedNeverBuries(c: Config, acts: seq<Action>)
    requires c.maxAttempts <= 0 && CanRun(c, INIT, acts)
    ensures Exec(c, INIT, acts).store.dead == []
  {
    UnlimitedOverRuns(c, INIT, acts);
  }

  ghost predicate DeadSpent(c: Config, q: Q.Store) {
    forall i :: 0 <= i < |q.dead| ==> Spent(c, q.dead[i].task)
  }

  lemma SpentSame(c: Config, q: Q.Store, q': Q.Store)
    requires DeadSpent(c, q) && q'.dead == q.dead
    ensures DeadSpent(c, q')
  {
  }

  lemma SpentExpire(c: Config, s: State, f: Fault)
    requires Tight(s) && s.pc.Expiring? && DeadSpent(c, s.store)
    ensures DeadSpent(c, DoExpire(c, s, f).store)
  {
    hide Tight;
    var l, q' := s.pc.lease, DoExpire(c, s, f).store;
    if f != Before && HoldsLease(s.store, l) && ShouldDeadLetter(c, l) {
      ExpiringTask(s);
      assert q'.dead == s.store.dead + [Q.DeadTask(Q.Charged(l.task), REASON)];
    } else {
      SpentSame(c, s.store, q');
    }
  }

  lemma DeadSpentStep(c: Config, s: State, a: Action)
    requires Sound(s) && DeadSpent(c, s.store) && Enabled(c, s, a)
    ensures DeadSpent(c, Apply(c, s, a).store)
  {
    hide Tight, Conserved, DeadSpent;
    if a.ExpireBackend? {
      SpentExpire(c, s, a.fault);
    } else {
      DeadFrame(c, s, a);
      SpentSame(c, s.store, Apply(c, s, a).store);
    }
  }

  lemma {:induction false} DeadSpentOverRuns(c: Config, s: State, acts: seq<Action>)
    requires Sound(s) && DeadSpent(c, s.store) && CanRun(c, s, acts) && Intact(acts)
    ensures DeadSpent(c, Exec(c, s, acts).store)
    decreases |acts|
  {
    hide Enabled, Apply, Sound, DeadSpent;
    if acts != [] {
      SoundStep(c, s, acts[0]);
      DeadSpentStep(c, s, acts[0]);
      DeadSpentOverRuns(c, Apply(c, s, acts[0]), acts[1..]);
    }
  }

  /** With one, every buried task has used up its attempts. */
  lemma DeadHaveReachedLimit(c: Config, acts: seq<Action>)
    requires CanRun(c, INIT, acts) && Intact(acts)
    ensures DeadSpent(c, Exec(c, INIT, acts).store)
  {
    E.InitSound();
    DeadSpentOverRuns(c, INIT, acts);
  }
}
