/**
 Recovery is exact and restartable. What a restart will produce is a function of
 the backend and the journal's live set; every step of recovery, faulty or not,
 and every crash leaves that function's value unchanged.
 */
module Recovery {
  import opened Types
  import opened Protocol
  import Q = Queue
  import J = Journal

  /** The end of recovery: active leases, processing entries, ready tasks. */
  datatype Target = Target(
    leases: map<LeaseId, Lease>,
    processing: map<TaskId, Q.Entry>,
    ready: multiset<Task>,
    dead: seq<Q.DeadTask>)

  ghost function TasksIn(q: Q.Store, ids: set<TaskId>): multiset<Task>
    requires ids <= q.processing.Keys
  {
    multiset(set t | t in ids :: q.processing[t].task)
  }

  ghost function TargetOf(q: Q.Store, live: J.LiveMap): Target {
    var fences := Fences(live);
    var orphans := Q.Orphans(q, fences);
    Target(
      LeasesOf(live, Q.Matched(q, fences)),
      q.processing - orphans,
      multiset(q.ready) + TasksIn(q, orphans),
      q.dead)
  }

  ghost function Goal(s: State): Target { TargetOf(s.store, J.Live(s.journal)) }

  lemma {:induction false} TasksOfOrder(q: Q.Store, order: seq<TaskId>, ids: set<TaskId>)
    requires Q.Keyed(q) && Enumerates(order, ids) && ids <= q.processing.Keys
    ensures multiset(Q.TasksOf(q, order)) == TasksIn(q, ids)
  {
    var ts := Q.TasksOf(q, order);
    var all := set t | t in ids :: q.processing[t].task;
    assert Enumerates(ts, all) by {
      forall i, j | 0 <= i < j < |ts| ensures ts[i] != ts[j] {
        assert order[i] in order && order[j] in order;
        assert ts[i].id == order[i] && ts[j].id == order[j];
      }
      forall x | x in ts ensures x in all {
        var i :| 0 <= i < |ts| && ts[i] == x;
        assert order[i] in order;
      }
      forall x | x in all ensures x in ts {
        var t :| t in ids && q.processing[t].task == x;
        var i :| 0 <= i < |order| && order[i] == t;
        assert ts[i] == x;
      }
    }
    Q.EnumerationMultiset(ts, all);
  }

  lemma ReconcileReaches(q: Q.Store, live: J.LiveMap, order: seq<TaskId>)
    requires Q.Keyed(q) && Enumerates(order, Q.Orphans(q, Fences(live)))
    ensures
      var q' := Q.Reconcile(q, Fences(live), order);
      && Q.Keyed(q')
      && Q.Orphans(q', Fences(live)) == {}
      && Q.Matched(q', Fences(live)) == Q.Matched(q, Fences(live))
      && TargetOf(q', live) == TargetOf(q, live)
  {
    var fences := Fences(live);
    var q' := Q.Reconcile(q, fences, order);
    var orphans := Q.Orphans(q, fences);
    TasksOfOrder(q, order, orphans);
    assert Q.Orphans(q', fences) == {};
    assert TasksIn(q', {}) == multiset{};
    assert Q.Matched(q', fences) == Q.Matched(q, fences) by {
      forall l | l in Q.Matched(q, fences) ensures l in Q.Matched(q', fences) {
        var t :| t in q.processing && Fence(t, q.processing[t].fence) in fences && q.processing[t].fence == l;
        assert t in q'.processing && q'.processing[t] == q.processing[t];
      }
    }
    assert q'.processing - {} == q'.processing;
  }

  /** Closing a lease that matched nothing changes no outcome. */
  lemma CloseReaches(q: Q.Store, live: J.LiveMap, l: LeaseId)
    requires l !in Q.Matched(q, Fences(live))
    ensures TargetOf(q, live - {l}) == TargetOf(q, live)
    ensures Q.Orphans(q, Fences(live - {l})) == Q.Orphans(q, Fences(live))
    ensures Q.Matched(q, Fences(live - {l})) == Q.Matched(q, Fences(live))
  {
    var fences, fewer := Fences(live), Fences(live - {l});
    forall t | t in q.processing
      ensures Fence(t, q.processing[t].fence) in fences <==> Fence(t, q.processing[t].fence) in fewer
    {
      var m := q.processing[t].fence;
      if Fence(t, m) in fences {
        assert m in Q.Matched(q, fences);
        assert m in live && live[m].task.id == t;
        assert m in live - {l} && (live - {l})[m] == live[m];
      }
    }
    assert Q.Orphans(q, fewer) == Q.Orphans(q, fences);
    assert Q.Matched(q, fewer) == Q.Matched(q, fences);
  }

  /** What holds at every point of a recovery that set out from `goal`. */
  ghost predicate OnCourse(s: State, goal: Target) {
    && Q.Keyed(s.store)
    && Goal(s) == goal
    && (match s.pc
        case Down => true
        case Failed => true
        case Recovering(live) => live == J.Live(s.journal)
        case Closing(live, matched, pending) =>
          var now := J.Live(s.journal);
          && Q.Orphans(s.store, Fences(now)) == {}
          && Q.Matched(s.store, Fences(now)) == matched
          && pending !! matched
          && (forall l :: l in now <==> l in live && (l in matched || l in pending))
          && (forall l :: l in now ==> now[l] == live[l])
        case Idle =>
          && Q.Orphans(s.store, Fences(J.Live(s.journal))) == {}
          && s.leases == goal.leases && s.heap == ItemsOf(s.leases)
        case _ => false)
  }

  ghost predicate RecoveryAction(a: Action) {
    a.Start? || a.Reconcile? || a.CloseStale? || a.Reinstate? || a.Crash?
  }

  lemma OnCourseReconcile(s: State, goal: Target, orphans: seq<TaskId>, f: Fault)
    requires OnCourse(s, goal) && s.pc.Recovering?
    requires Enumerates(orphans, Q.Orphans(s.store, Fences(s.pc.live)))
    ensures OnCourse(DoReconcile(s, orphans, f), goal)
  {
    ReconcileReaches(s.store, s.pc.live, orphans);
    var live := s.pc.live;
    forall l | l in Q.Matched(s.store, Fences(live)) ensures l in live {}
  }

  lemma OnCourseClose(s: State, goal: Target, l: LeaseId, w: Write)
    requires OnCourse(s, goal) && s.pc.Closing? && l in s.pc.pending
    ensures OnCourse(DoCloseStale(s, l, w), goal)
  {
    hide J.Live;
    J.LiveSnoc(s.journal, CloseRecord(Stale, l));
    CloseReaches(s.store, J.Live(s.journal), l);
  }

  lemma OnCourseReinstate(s: State, goal: Target)
    requires OnCourse(s, goal) && s.pc.Closing? && s.pc.pending == {}
    ensures OnCourse(DoReinstate(s), goal)
  {
    assert LeasesOf(s.pc.live, s.pc.matched) == LeasesOf(J.Live(s.journal), s.pc.matched);
  }

  lemma OnCourseStep(c: Config, s: State, goal: Target, a: Action)
    requires OnCourse(s, goal) && Enabled(c, s, a) && RecoveryAction(a)
    ensures OnCourse(Apply(c, s, a), goal)
  {
    match a
    case Reconcile(orphans, f) => OnCourseReconcile(s, goal, orphans, f);
    case CloseStale(l, w) => OnCourseClose(s, goal, l, w);
    case Reinstate => OnCourseReinstate(s, goal);
    case Start =>
    case Crash =>
  }

  lemma {:induction false} OnCourseOverRuns(c: Config, s: State, goal: Target, acts: seq<Action>)
    requires OnCourse(s, goal) && CanRun(c, s, acts)
    requires forall i :: 0 <= i < |acts| ==> RecoveryAction(acts[i])
    ensures OnCourse(Exec(c, s, acts), goal)
    decreases |acts|
  {
    if acts != [] {
      OnCourseStep(c, s, goal, acts[0]);
      OnCourseOverRuns(c, Apply(c, s, acts[0]), goal, acts[1..]);
    }
  }

  /** Recovery adds to the end of the ready queue and moves nothing in it. */
  lemma {:induction false} ReadyKeepsPlace(c: Config, s: State, acts: seq<Action>)
    requires CanRun(c, s, acts) && forall i :: 0 <= i < |acts| ==> RecoveryAction(acts[i])
    ensures s.store.ready <= Exec(c, s, acts).store.ready
    decreases |acts|
  {
    if acts != [] {
      var s' := Apply(c, s, acts[0]);
      assert s.store.ready <= s'.store.ready by {
        if !acts[0].Reconcile? { StoreFrame(c, s, acts[0]); }
      }
      hide Apply, Enabled;
      ReadyKeepsPlace(c, s', acts[1..]);
    }
  }

  /** Active leases and processing fences correspond one to one. */
  ghost predicate OneToOne(s: State) {
    && (forall t :: t in s.store.processing ==>
          var l := s.store.processing[t].fence; l in s.leases && s.leases[l].task.id == t)
    && (forall l :: l in s.leases ==> s.leases[l].id == l && HoldsLease(s.store, s.leases[l]))
  }

  /**
   Recovery is exact and restartable: from any backend and any journal, take any
   list of recovery steps, with backend errors before or after they applied,
   failed appends and crashes anywhere. If it ends with a recovered engine, the
   result is the one fixed by the starting state: same leases with their
   original deadlines, same processing entries, same ready tasks with no attempt
   charged, those that were ready before still first and in order, dead list
   untouched, leases one to one with processing fences, and each lease scheduled
   once, at its deadline.
   */
  lemma RecoveryIsRestartable(c: Config, s: State, acts: seq<Action>)
    requires s.pc.Down? && Q.Keyed(s.store) && CanRun(c, s, acts)
    requires forall i :: 0 <= i < |acts| ==> RecoveryAction(acts[i])
    requires Exec(c, s, acts).pc.Idle?
    ensures
      var s' := Exec(c, s, acts);
      && Target(s'.leases, s'.store.processing, multiset(s'.store.ready), s'.store.dead) == Goal(s)
      && OneToOne(s')
      && s'.heap == ItemsOf(s'.leases)
      && s.store.ready <= s'.store.ready
  {
    var s' := Exec(c, s, acts);
    ReadyKeepsPlace(c, s, acts);
    OnCourseOverRuns(c, s, Goal(s), acts);
    var live := J.Live(s'.journal);
    J.LiveFiled(s'.journal);
    assert TasksIn(s'.store, {}) == multiset{};
    assert s'.store.processing - {} == s'.store.processing;
    forall t | t in s'.store.processing
      ensures var l := s'.store.processing[t].fence; l in s'.leases && s'.leases[l].task.id == t
    {
      assert t !in Q.Orphans(s'.store, Fences(live));
    }
    forall l | l in s'.leases ensures s'.leases[l].id == l && HoldsLease(s'.store, s'.leases[l]) {
      assert l in Q.Matched(s'.store, Fences(live));
    }
  }

  // ---------- Recovery can always finish ----------

  lemma {:induction false} EnumerationExists<T>(all: set<T>) returns (order: seq<T>)
    ensures Enumerates(order, all)
    decreases all
  {
    if all == {} {
      order := [];
    } else {
      var x :| x in all;
      order := EnumerationExists(all - {x});
      order := order + [x];
    }
  }

  lemma {:induction false} CloseAll(c: Config, s: State) returns (acts: seq<Action>)
    requires s.pc.Closing?
    ensures CanRun(c, s, acts) && Exec(c, s, acts).pc.Idle?
    ensures forall i :: 0 <= i < |acts| ==> RecoveryAction(acts[i])
    decreases s.pc.pending
  {
    if s.pc.pending == {} {
      acts := [Reinstate];
      RunOne(c, s, Reinstate);
    } else {
      var l :| l in s.pc.pending;
      var a := CloseStale(l, Durable);
      var rest := CloseAll(c, Apply(c, s, a));
      acts := [a] + rest;
      assert acts[1..] == rest;
    }
  }

  /** A restart without faults always recovers, whatever the backend and the journal hold. */
  lemma RecoveryCompletes(c: Config, s: State) returns (acts: seq<Action>)
    requires s.pc.Down?
    ensures CanRun(c, s, acts) && Exec(c, s, acts).pc.Idle?
    ensures forall i :: 0 <= i < |acts| ==> RecoveryAction(acts[i])
  {
    var s1 := Apply(c, s, Start);
    var order := EnumerationExists(Q.Orphans(s1.store, Fences(s1.pc.live)));
    var a := Reconcile(order, Clean);
    var rest := CloseAll(c, Apply(c, s1, a));
    RunOne(c, s, Start);
    RunSnoc(c, s, [Start], a);
    RunConcat(c, s, [Start] + [a], rest);
    acts := [Start] + [a] + rest;
  }
}
