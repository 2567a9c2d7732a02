/**
 Reaping through the heap is the same as scanning every lease, and the tasks of
 the reaped leases end up in ready or in dead storage.
 */
module Reaping {
  import opened Types
  import opened Protocol
  import opened Schedule
  import opened Operations
  import opened Conservation
  import opened Leasing
  import R = Recovery
  import Q = Queue
  import J = Journal

  /** What an error-free stretch of turns leaves: fewer leases, all removed ones due, the rest untouched. */
  ghost predicate Shrunk(s: State, s': State, now: int) {
    && s'.heap <= s.heap
    && (forall l :: l in s'.leases ==> l in s.leases && s'.leases[l] == s.leases[l])
    && (forall l :: l in s.leases && l !in s'.leases ==> s.leases[l].expiresAt <= now && Sooner(s, l, now))
    && (forall t :: t in s.store.processing && Kept(s, s', s.store.processing[t].fence) ==>
          t in s'.store.processing && s'.store.processing[t] == s.store.processing[t])
  }

  /** Some entry for `l` is due by `now`. */
  ghost predicate Sooner(s: State, l: LeaseId, now: int) {
    exists i :: i in s.heap && i.lease == l && i.at <= now
  }

  /** `l` was not reaped between `s` and `s'`. */
  ghost predicate Kept(s: State, s': State, l: LeaseId) { l !in s.leases || l in s'.leases }

  ghost predicate Filed(s: State) { forall l :: l in s.leases ==> s.leases[l].id == l }

  lemma TurnShrinks(c: Config, s: State, t: Turn)
    requires s.pc.Reaping? && Filed(s) && t.item in s.heap && t.item.at <= s.pc.now
    requires TurnNext(c, s, t).pc.Reaping?
    ensures TurnNext(c, s, t).pc == s.pc && Filed(TurnNext(c, s, t))
    ensures Shrunk(s, TurnNext(c, s, t), s.pc.now)
  {
    hide TurnNext, Shrunk;
    var s', s1 := TurnNext(c, s, t), DoPop(s, t.item);
    TurnParts(c, s, t);
    if s1.pc.Expiring? {
      ExpiredShrinks(c, s, s', s1.pc.lease);
      assert Sooner(s, t.item.lease, s.pc.now);
    }
    TurnShrunk(c, s, s', s1);
  }

  lemma TurnParts(c: Config, s: State, t: Turn)
    requires s.pc.Reaping? && TurnNext(c, s, t).pc.Reaping?
    ensures
      var s', s1 := TurnNext(c, s, t), DoPop(s, t.item);
      && s'.pc == s.pc && s'.heap == s1.heap
      && (!s1.pc.Expiring? ==> s'.leases == s.leases && s'.store == s.store)
      && (s1.pc.Expiring? ==>
            s'.leases == s.leases - {s1.pc.lease.id} && s'.store == ExpiryStore(c, s.store, s1.pc.lease))
  {
  }

  lemma ExpiredShrinks(c: Config, s: State, s': State, l: Lease)
    requires s'.store == ExpiryStore(c, s.store, l)
    ensures forall t :: t in s.store.processing && s.store.processing[t].fence != l.id ==>
              t in s'.store.processing && s'.store.processing[t] == s.store.processing[t]
  {
  }

  lemma TurnShrunk(c: Config, s: State, s': State, s1: State)
    requires s.pc.Reaping? && Filed(s) && s'.heap == s1.heap && s1.heap <= s.heap
    requires !s1.pc.Expiring? ==> s'.leases == s.leases && s'.store == s.store
    requires s1.pc.Expiring? ==>
      var l := s1.pc.lease;
      && s'.leases == s.leases - {l.id} && l.id in s.leases && s.leases[l.id].expiresAt <= s.pc.now
      && Sooner(s, l.id, s.pc.now)
      && forall t :: t in s.store.processing && s.store.processing[t].fence != l.id ==>
           t in s'.store.processing && s'.store.processing[t] == s.store.processing[t]
    ensures Shrunk(s, s', s.pc.now)
  {
  }

  lemma ShrunkTrans(a: State, b: State, d: State, now: int)
    requires Shrunk(a, b, now) && Shrunk(b, d, now)
    ensures Shrunk(a, d, now)
  {
    forall l | l in b.leases && Sooner(b, l, now) ensures Sooner(a, l, now) {
      var i :| i in b.heap && i.lease == l && i.at <= now;
      assert i in a.heap;
    }
    forall t | t in a.store.processing && Kept(a, d, a.store.processing[t].fence)
      ensures t in d.store.processing && d.store.processing[t] == a.store.processing[t]
    {
      var l := a.store.processing[t].fence;
      assert Kept(a, b, l) && Kept(b, d, l);
    }
  }

  lemma {:induction false} TurnsShrink(c: Config, s: State, turns: seq<Turn>)
    requires s.pc.Reaping? && Filed(s) && TurnsOk(c, s, turns) && TurnsNext(c, s, turns).pc.Reaping?
    ensures TurnsNext(c, s, turns).pc == s.pc && Filed(TurnsNext(c, s, turns))
    ensures Shrunk(s, TurnsNext(c, s, turns), s.pc.now)
  {
    if turns != [] {
      var n := |turns| - 1;
      var p := TurnsNext(c, s, turns[..n]);
      TurnsShrink(c, s, turns[..n]);
      TurnShrinks(c, p, turns[n]);
      ShrunkTrans(s, p, TurnNext(c, p, turns[n]), s.pc.now);
    }
  }

  // ---------- Where the tasks went ----------

  /** `l` was reaped between `s` and `s'` and held its task until then. */
  ghost predicate Took(s: State, s': State, l: LeaseId) {
    l in s.leases && l !in s'.leases && HoldsLease(s.store, s.leases[l])
  }

  ghost function TaskHeld(s: State, l: LeaseId): Task
    requires l in s.leases && HoldsLease(s.store, s.leases[l])
  {
    s.store.processing[s.leases[l].task.id].task
  }

  /** A limit is set and the next attempt would reach it. */
  ghost predicate AtLimit(c: Config, l: Lease) { 0 < c.maxAttempts <= l.task.attempts + 1 }

  /** The task of `l` has left processing with one more attempt, for ready or, at the limit, for dead storage. */
  ghost predicate Moved(c: Config, s: State, q: Q.Store, l: LeaseId)
    requires l in s.leases && HoldsLease(s.store, s.leases[l])
  {
    var t := Q.Charged(TaskHeld(s, l));
    && s.leases[l].task.id !in q.processing
    && if AtLimit(c, s.leases[l]) then Q.DeadTask(t, "max attempts exceeded") in q.dead else t in q.ready
  }

  ghost predicate ReadyFrom(c: Config, s: State, s': State, t: Task) {
    exists l :: Took(s, s', l) && !AtLimit(c, s.leases[l]) && t == Q.Charged(TaskHeld(s, l))
  }

  ghost function BuriedAs(t: Task): Q.DeadTask { Q.DeadTask(Q.Charged(t), "max attempts exceeded") }

  ghost predicate DeadFrom(c: Config, s: State, s': State, d: Q.DeadTask) {
    exists l :: Took(s, s', l) && AtLimit(c, s.leases[l]) && d == BuriedAs(TaskHeld(s, l))
  }

  /** Processing lost exactly the entries of the reaped leases that held them. */
  ghost predicate Emptied(s: State, s': State) {
    && (forall t :: t in s'.store.processing ==>
          t in s.store.processing && s'.store.processing[t] == s.store.processing[t])
    && (forall t :: t in s.store.processing && t !in s'.store.processing ==>
          var l := s.store.processing[t].fence; Took(s, s', l) && s.leases[l].task.id == t)
  }

  /** Ready and dead storage grew by exactly what the reaped leases gave up. */
  ghost predicate Filled(c: Config, s: State, s': State) {
    && s.store.ready <= s'.store.ready && s.store.dead <= s'.store.dead
    && (forall i :: |s.store.ready| <= i < |s'.store.ready| ==> ReadyFrom(c, s, s', s'.store.ready[i]))
    && (forall i :: |s.store.dead| <= i < |s'.store.dead| ==> DeadFrom(c, s, s', s'.store.dead[i]))
    && (forall l :: Took(s, s', l) ==> Moved(c, s, s'.store, l))
  }

  ghost predicate Settled(c: Config, s: State, s': State) { Emptied(s, s') && Filled(c, s, s') }

  ghost predicate FewerLeases(s: State, s': State) {
    forall l :: l in s'.leases ==> l in s.leases && s'.leases[l] == s.leases[l]
  }

  lemma TurnSettles(c: Config, s: State, s': State, l: Lease)
    requires Filed(s) && l.id in s.leases && s.leases[l.id] == l
    requires s'.leases == s.leases - {l.id} && s'.store == ExpiryStore(c, s.store, l)
    ensures Settled(c, s, s')
  {
    var q, q' := s.store, s'.store;
    assert forall k :: Took(s, s', k) ==> k == l.id;
    if HoldsLease(q, l) {
      assert Took(s, s', l.id);
      var t := Q.Charged(TaskHeld(s, l.id));
      if AtLimit(c, l) {
        assert q'.dead[|q.dead|] == BuriedAs(TaskHeld(s, l.id));
      } else {
        assert q'.ready[|q.ready|] == t;
      }
    }
  }

  lemma SameSettles(c: Config, s: State, s': State)
    requires s'.leases == s.leases && s'.store == s.store
    ensures Settled(c, s, s')
  {
  }

  /** What was held at `b` was held at `a`, by the same lease, with the same task. */
  lemma TookBack(a: State, b: State, d: State, l: LeaseId)
    requires FewerLeases(a, b) && FewerLeases(b, d) && Emptied(a, b) && Took(b, d, l)
    ensures Took(a, d, l) && a.leases[l] == b.leases[l] && TaskHeld(a, l) == TaskHeld(b, l)
  {
  }

  /** A reaped lease was reaped in the first stretch or in the second. */
  lemma TookWhen(a: State, b: State, d: State, l: LeaseId)
    requires Filed(a) && FewerLeases(a, b) && FewerLeases(b, d) && Emptied(a, b) && Took(a, d, l)
    ensures Took(a, b, l) || (Took(b, d, l) && a.leases[l] == b.leases[l] && TaskHeld(a, l) == TaskHeld(b, l))
  {
  }

  lemma EmptiedTrans(a: State, b: State, d: State)
    requires FewerLeases(a, b) && FewerLeases(b, d) && Emptied(a, b) && Emptied(b, d)
    ensures Emptied(a, d)
  {
    forall t | t in a.store.processing && t !in d.store.processing
      ensures var l := a.store.processing[t].fence; Took(a, d, l) && a.leases[l].task.id == t
    {
      if t in b.store.processing {
        TookBack(a, b, d, a.store.processing[t].fence);
      }
    }
  }

  lemma ReadyFromLater(c: Config, a: State, b: State, d: State, t: Task)
    requires FewerLeases(a, b) && FewerLeases(b, d) && Emptied(a, b)
    requires ReadyFrom(c, a, b, t) || ReadyFrom(c, b, d, t)
    ensures ReadyFrom(c, a, d, t)
  {
    if ReadyFrom(c, a, b, t) {
      var l :| Took(a, b, l) && !AtLimit(c, a.leases[l]) && t == Q.Charged(TaskHeld(a, l));
      assert Took(a, d, l);
    } else {
      var l :| Took(b, d, l) && !AtLimit(c, b.leases[l]) && t == Q.Charged(TaskHeld(b, l));
      TookBack(a, b, d, l);
    }
  }

  lemma DeadFromLater(c: Config, a: State, b: State, d: State, x: Q.DeadTask)
    requires FewerLeases(a, b) && FewerLeases(b, d) && Emptied(a, b)
    requires DeadFrom(c, a, b, x) || DeadFrom(c, b, d, x)
    ensures DeadFrom(c, a, d, x)
  {
    if DeadFrom(c, a, b, x) {
      var l :| Took(a, b, l) && AtLimit(c, a.leases[l]) && x == BuriedAs(TaskHeld(a, l));
      assert Took(a, d, l);
    } else {
      var l :| Took(b, d, l) && AtLimit(c, b.leases[l]) && x == BuriedAs(TaskHeld(b, l));
      TookBack(a, b, d, l);
    }
  }

  lemma MovedLater(c: Config, a: State, b: State, d: State, l: LeaseId)
    requires Filed(a) && FewerLeases(a, b) && FewerLeases(b, d) && Took(a, d, l)
    requires Settled(c, a, b) && Settled(c, b, d)
    ensures Moved(c, a, d.store, l)
  {
    TookWhen(a, b, d, l);
    if Took(a, b, l) {
      assert Moved(c, a, b.store, l);
      assert forall i :: 0 <= i < |b.store.ready| ==> b.store.ready[i] == d.store.ready[i];
      assert forall i :: 0 <= i < |b.store.dead| ==> b.store.dead[i] == d.store.dead[i];
    } else {
      assert Moved(c, b, d.store, l);
    }
  }

  lemma SettledTrans(c: Config, a: State, b: State, d: State)
    requires Filed(a) && FewerLeases(a, b) && FewerLeases(b, d) && Settled(c, a, b) && Settled(c, b, d)
    ensures Settled(c, a, d)
  {
    hide Moved, Emptied, ReadyFrom, DeadFrom;
    EmptiedTrans(a, b, d);
    forall i | |a.store.ready| <= i < |d.store.ready| ensures ReadyFrom(c, a, d, d.store.ready[i]) {
      ReadyFromLater(c, a, b, d, d.store.ready[i]);
    }
    forall i | |a.store.dead| <= i < |d.store.dead| ensures DeadFrom(c, a, d, d.store.dead[i]) {
      DeadFromLater(c, a, b, d, d.store.dead[i]);
    }
    forall l | Took(a, d, l) ensures Moved(c, a, d.store, l) {
      MovedLater(c, a, b, d, l);
    }
  }

  lemma TurnSettled(c: Config, s: State, t: Turn)
    requires s.pc.Reaping? && Filed(s) && TurnNext(c, s, t).pc.Reaping?
    ensures FewerLeases(s, TurnNext(c, s, t)) && Settled(c, s, TurnNext(c, s, t))
  {
    hide TurnNext, Settled;
    TurnParts(c, s, t);
    var s', s1 := TurnNext(c, s, t), DoPop(s, t.item);
    if s1.pc.Expiring? {
      TurnSettles(c, s, s', s1.pc.lease);
    } else {
      SameSettles(c, s, s');
    }
  }

  lemma {:induction false} TurnsSettle(c: Config, s: State, turns: seq<Turn>)
    requires s.pc.Reaping? && Filed(s) && TurnsOk(c, s, turns) && TurnsNext(c, s, turns).pc.Reaping?
    ensures FewerLeases(s, TurnsNext(c, s, turns)) && Settled(c, s, TurnsNext(c, s, turns))
  {
    hide Settled, TurnNext;
    if turns == [] {
      SameSettles(c, s, s);
    } else {
      var n := |turns| - 1;
      var p := TurnsNext(c, s, turns[..n]);
      TurnsShrink(c, s, turns[..n]);
      TurnsSettle(c, s, turns[..n]);
      TurnSettled(c, p, turns[n]);
      SettledTrans(c, s, p, TurnNext(c, p, turns[n]));
    }
  }

  /** Every active lease is scheduled at its own deadline: no retry is pending. */
  ghost predicate NoPendingRetry(s: State) {
    forall i :: i in s.heap && i.lease in s.leases ==> i.at == s.leases[i.lease].expiresAt
  }

  function NotDue(leases: map<LeaseId, Lease>, now: int): map<LeaseId, Lease> {
    map l | l in leases && leases[l].expiresAt > now :: leases[l]
  }

  /** The entry that schedules `l` comes after `now`. */
  ghost predicate Later(s: State, l: LeaseId, now: int) {
    exists i :: i in s.heap && i.lease == l && i.at > now
  }

  /**
   Heap reaping equals a full scan. A reap that met no error keeps exactly the
   leases scheduled after `now`, and leaves them and their processing entries
   untouched; with no retry pending those are exactly the leases not yet due. The
   task of each reaped lease that still held it leaves processing with one more
   attempt, for ready storage or, exactly at the limit, for dead storage, and
   nothing else moves.
   */
  lemma ReapEqualsScan(c: Config, s: State, now: int, turns: seq<Turn>)
    requires c.retryDelay > 0 && Scheduling(c, s) && s.pc.Idle? && ReapOk(c, s, now, turns)
    requires TurnsNext(c, s.(pc := Pc.Reaping(now)), turns).pc.Reaping?
    ensures
      var s' := ReapNext(c, s, now, turns);
      && s'.pc.Idle?
      && (forall l :: l in s.leases ==> (l in s'.leases <==> Later(s, l, now)))
      && Shrunk(s, s', now)
      && Settled(c, s, s')
      && (NoPendingRetry(s) ==> s'.leases == NotDue(s.leases, now))
  {
    hide TurnsNext, TurnsOk, Shrunk, Settled, Scheduling, CanRun, Exec, Apply;
    var s0 := s.(pc := Pc.Reaping(now));
    var s1 := TurnsNext(c, s0, turns);
    FiledFrom(c, s, now);
    TurnsShrink(c, s0, turns);
    ShrunkSame(s0, s1, s, DoReapEnd(s1), now);
    TurnsSettle(c, s0, turns);
    SettledSame(c, s0, s1, s, DoReapEnd(s1));
    ScheduledThrough(c, s, now, turns);
    StillScheduled(c, s, s1, now);
  }

  lemma FiledFrom(c: Config, s: State, now: int)
    requires Scheduling(c, s) && s.pc.Idle?
    ensures Filed(s.(pc := Pc.Reaping(now)))
  {
  }

  lemma ScheduledThrough(c: Config, s: State, now: int, turns: seq<Turn>)
    requires c.retryDelay > 0 && Scheduling(c, s) && s.pc.Idle? && TurnsOk(c, s.(pc := Pc.Reaping(now)), turns)
    ensures Scheduling(c, TurnsNext(c, s.(pc := Pc.Reaping(now)), turns))
  {
    hide Scheduling, TurnsNext, TurnsOk;
    SchedulingStep(c, s, ReapStart(now));
    TurnsAreRun(c, s.(pc := Pc.Reaping(now)), turns);
    SchedulingOverRuns(c, s.(pc := Pc.Reaping(now)), TurnsActs(c, s.(pc := Pc.Reaping(now)), turns));
  }

  lemma ShrunkSame(a: State, b: State, a': State, b': State, now: int)
    requires Shrunk(a, b, now) && a'.heap == a.heap && a'.leases == a.leases && a'.store == a.store
    requires b'.heap == b.heap && b'.leases == b.leases && b'.store == b.store
    ensures Shrunk(a', b', now)
  {
    forall l ensures Kept(a', b', l) <==> Kept(a, b, l) {}
    forall l ensures Sooner(a', l, now) <==> Sooner(a, l, now) {}
  }

  lemma SettledSame(c: Config, a: State, b: State, a': State, b': State)
    requires Settled(c, a, b) && a'.leases == a.leases && a'.store == a.store
    requires b'.leases == b.leases && b'.store == b.store
    ensures Settled(c, a', b')
  {
    assert forall l :: Took(a', b', l) <==> Took(a, b, l);
    forall t | ReadyFrom(c, a, b, t) ensures ReadyFrom(c, a', b', t) {}
    forall d | DeadFrom(c, a, b, d) ensures DeadFrom(c, a', b', d) {}
  }

  /** What `StillScheduled` takes from the invariant. */
  lemma HeapFacts(c: Config, s: State)
    requires Scheduling(c, s) && (s.pc.Idle? || s.pc.Reaping?)
    ensures OneEntry(s.heap) && forall l :: l in s.leases ==> Scheduled(s.heap, l)
  {
  }

  lemma StillScheduled(c: Config, s: State, s1: State, now: int)
    requires s.pc.Idle? && s1.pc == Pc.Reaping(now) && Scheduling(c, s) && Scheduling(c, s1)
    requires Shrunk(s.(pc := s1.pc), s1, now) && forall i :: i in s1.heap ==> i.at > now
    ensures forall l :: l in s.leases ==> (l in s1.leases <==> Later(s, l, now))
    ensures NoPendingRetry(s) ==> s1.leases == NotDue(s.leases, now)
  {
    hide Scheduling, OneEntry, Scheduled, Sooner, Later, Kept;
    HeapFacts(c, s);
    HeapFacts(c, s1);
    ReapedSooner(s, s1, now);
    KeptLater(s, s1, now);
  }

  lemma ReapedSooner(s: State, s1: State, now: int)
    requires OneEntry(s.heap) && Shrunk(s.(pc := s1.pc), s1, now)
    ensures forall l :: l in s.leases && l !in s1.leases ==> !Later(s, l, now) && s.leases[l].expiresAt <= now
  {
    forall l | l in s.leases && l !in s1.leases ensures !Later(s, l, now) {
      assert Sooner(s.(pc := s1.pc), l, now);
    }
  }

  lemma KeptLater(s: State, s1: State, now: int)
    requires s1.heap <= s.heap && forall i :: i in s1.heap ==> i.at > now
    requires forall l :: l in s1.leases ==> l in s.leases && s1.leases[l] == s.leases[l] && Scheduled(s1.heap, l)
    ensures forall l :: l in s1.leases ==> Later(s, l, now)
    ensures NoPendingRetry(s) ==> forall l :: l in s1.leases ==> s.leases[l].expiresAt > now
  {
    forall l | l in s1.leases ensures Later(s, l, now) && (NoPendingRetry(s) ==> s.leases[l].expiresAt > now) {
      var i :| i in s1.heap && i.lease == l;
      assert i in s.heap;
    }
  }

  // ---------- By attempts ----------

  /**
   Which storage a reaped task goes to is decided by its charged attempts: ready
   while they are below the limit or there is no limit, dead once they reach it.
   */
  lemma ReapSplitsByAttempts(c: Config, s: State, s': State)
    requires Sound(s) && Settled(c, s, s')
    ensures forall i :: |s.store.ready| <= i < |s'.store.ready| ==> !Spent(c, s'.store.ready[i])
    ensures forall i :: |s.store.dead| <= i < |s'.store.dead| ==> Spent(c, s'.store.dead[i].task)
  {
    hide Sound;
    forall i | |s.store.ready| <= i < |s'.store.ready| ensures !Spent(c, s'.store.ready[i]) {
      assert ReadyFrom(c, s, s', s'.store.ready[i]);
      var l :| Took(s, s', l) && !AtLimit(c, s.leases[l]) && s'.store.ready[i] == Q.Charged(TaskHeld(s, l));
      HeldIsLeased(s, l);
    }
    forall i | |s.store.dead| <= i < |s'.store.dead| ensures Spent(c, s'.store.dead[i].task) {
      assert DeadFrom(c, s, s', s'.store.dead[i]);
      var l :| Took(s, s', l) && AtLimit(c, s.leases[l]) && s'.store.dead[i] == BuriedAs(TaskHeld(s, l));
      HeldIsLeased(s, l);
    }
  }

  lemma HeldIsLeased(s: State, l: LeaseId)
    requires Sound(s) && l in s.leases && HoldsLease(s.store, s.leases[l])
    ensures TaskHeld(s, l) == s.leases[l].task
  {
    hide Conserved;
  }

  /** Without a limit, a reap takes every held task of a due lease back to ready, charged. */
  lemma UnlimitedReapRequeues(c: Config, s: State, s': State, l: LeaseId)
    requires c.maxAttempts <= 0 && Settled(c, s, s') && Took(s, s', l)
    ensures Q.Charged(TaskHeld(s, l)) in s'.store.ready && s'.store.dead == s.store.dead
  {
    assert Moved(c, s, s'.store, l);
    var n := |s'.store.dead|;
    assert n > |s.store.dead| ==> DeadFrom(c, s, s', s'.store.dead[n - 1]);
  }

  /** The closing record of an expiry says where the task went. */
  lemma RecordTellsWhere(c: Config, s: State) returns (op: Op)
    requires s.pc.Expiring?
    ensures
      var s' := ExpireNext(c, s, Clean, Durable);
      && s'.journal == s.journal + [CloseRecord(op, s.pc.lease.id)]
      && (op == DeadLetter || op == Expire || op == Stale)
      && (op == DeadLetter <==> |s'.store.dead| == |s.store.dead| + 1)
      && (op == Expire <==> |s'.store.ready| == |s.store.ready| + 1)
      && (op == Stale <==> s'.store == s.store)
  {
    op := ExpiryOp(c, s.store, s.pc.lease);
  }

  /** A finished reap is entered in the list of reaps as what it was. */
  lemma ReapIsMarked(c: Config, s: State, now: int, turns: seq<Turn>)
    requires s.pc.Idle? && TurnsOk(c, s.(pc := Pc.Reaping(now)), turns)
    ensures
      var s0, s' := s.(pc := Pc.Reaping(now)), ReapNext(c, s, now, turns);
      var ok := TurnsNext(c, s0, turns).pc.Reaping?;
      && s'.pc.Idle? && |s'.hist.reaps| == |s.hist.reaps| + 1 && s.hist.reaps <= s'.hist.reaps
      && var mark := s'.hist.reaps[|s.hist.reaps|];
         && mark.now == now && mark.ok == ok
         && (mark.clear <==> ok && forall l :: l in s'.leases ==> s'.leases[l].expiresAt > now)
  {
    TurnsMark(c, s.(pc := Pc.Reaping(now)), turns);
  }

  lemma ExpireMark(c: Config, s: State, f: Fault, w: Write)
    requires s.pc.Expiring?
    ensures
      var s' := ExpireNext(c, s, f, w);
      if s'.pc.Reaping? then s'.pc.now == s.pc.now && s'.hist.reaps == s.hist.reaps
      else s'.pc.Idle? && s'.hist.reaps == s.hist.reaps + [ReapMark(s.pc.now, false, false)]
  {
    hide ExpiryStore, ExpiryOp;
  }

  lemma TurnMark(c: Config, s: State, t: Turn)
    requires s.pc.Reaping?
    ensures
      var s' := TurnNext(c, s, t);
      if s'.pc.Reaping? then s'.pc == s.pc && s'.hist.reaps == s.hist.reaps
      else s'.pc.Idle? && s'.hist.reaps == s.hist.reaps + [ReapMark(s.pc.now, false, false)]
  {
    hide ExpireNext;
    var s1 := DoPop(s, t.item);
    if s1.pc.Expiring? {
      ExpireMark(c, s1, t.fault, t.write);
    }
  }

  lemma {:induction false} TurnsMark(c: Config, s: State, turns: seq<Turn>)
    requires s.pc.Reaping? && TurnsOk(c, s, turns)
    ensures
      var s' := TurnsNext(c, s, turns);
      if s'.pc.Reaping? then s'.pc == s.pc && s'.hist.reaps == s.hist.reaps
      else s'.pc.Idle? && s'.hist.reaps == s.hist.reaps + [ReapMark(s.pc.now, false, false)]
  {
    if turns != [] {
      var n := |turns| - 1;
      hide TurnNext;
      TurnsMark(c, s, turns[..n]);
      TurnMark(c, TurnsNext(c, s, turns[..n]), turns[n]);
    }
  }

  /** Turns that meet no fault leave the reap running. */
  lemma {:induction false} CleanTurns(c: Config, s: State, turns: seq<Turn>)
    requires s.pc.Reaping? && TurnsOk(c, s, turns)
    requires forall i :: 0 <= i < |turns| ==> turns[i].fault == Clean && turns[i].write == Durable
    ensures TurnsNext(c, s, turns).pc == s.pc
  {
    if turns != [] {
      CleanTurns(c, s, turns[..|turns| - 1]);
    }
  }

  // ---------- No task is stranded ----------

  ghost predicate AllDue(s: State, now: int) {
    forall l :: l in s.leases ==> s.leases[l].expiresAt <= now
  }

  ghost predicate Waiting(q: Q.Store, t: TaskId) {
    || (exists i :: 0 <= i < |q.ready| && q.ready[i].id == t)
    || (exists i :: 0 <= i < |q.dead| && q.dead[i].task.id == t)
  }

  lemma ItemsOnTime(s: State)
    requires s.heap == ItemsOf(s.leases)
    ensures NoPendingRetry(s)
  {
  }

  /** With leases one to one with fences, reaping every lease empties processing. */
  lemma ReapEmpties(c: Config, s: State, s': State)
    requires R.OneToOne(s) && Settled(c, s, s') && s'.leases == map[]
    ensures s'.store.processing == map[]
  {
    forall t | t in s.store.processing ensures t !in s'.store.processing {
      var l := s.store.processing[t].fence;
      assert Took(s, s', l);
      assert Moved(c, s, s'.store, l);
    }
  }

  /** A task that left processing between the two is waiting. */
  lemma EmptiedWaits(c: Config, s: State, s': State, t: TaskId)
    requires Q.Keyed(s.store) && Settled(c, s, s') && t in s.store.processing && t !in s'.store.processing
    ensures Waiting(s'.store, t)
  {
    var l := s.store.processing[t].fence;
    assert Took(s, s', l) && Moved(c, s, s'.store, l);
    var x := Q.Charged(TaskHeld(s, l));
    if AtLimit(c, s.leases[l]) {
      var i :| 0 <= i < |s'.store.dead| && s'.store.dead[i] == BuriedAs(TaskHeld(s, l));
    } else {
      var i :| 0 <= i < |s'.store.ready| && s'.store.ready[i] == x;
    }
  }

  lemma WaitingStays(c: Config, s: State, s': State, t: TaskId)
    requires Settled(c, s, s') && Waiting(s.store, t)
    ensures Waiting(s'.store, t)
  {
    if i :| 0 <= i < |s.store.ready| && s.store.ready[i].id == t {
      assert s'.store.ready[i] == s.store.ready[i];
    } else {
      var i :| 0 <= i < |s.store.dead| && s.store.dead[i].task.id == t;
      assert s'.store.dead[i] == s.store.dead[i];
    }
  }

  /** After a recovery every task that was processing is still processing, or ready again. */
  lemma RecoveredSomewhere(s: State, s1: State, t: TaskId)
    requires Q.Keyed(s.store) && t in s.store.processing
    requires R.Target(s1.leases, s1.store.processing, multiset(s1.store.ready), s1.store.dead) == R.Goal(s)
    ensures (t in s1.store.processing && s1.store.processing[t] == s.store.processing[t]) || Waiting(s1.store, t)
  {
    if t !in s1.store.processing {
      var orphans := Q.Orphans(s.store, Fences(J.Live(s.journal)));
      assert t in orphans;
      var x := s.store.processing[t].task;
      assert x in R.TasksIn(s.store, orphans);
      assert x in multiset(s1.store.ready);
      var i :| 0 <= i < |s1.store.ready| && s1.store.ready[i] == x;
    }
  }

  /**
   No task is stranded. Whatever backend and journal a dead process left, and
   however often recovery was interrupted, one error-free reap at or past every
   recovered deadline leaves nothing in processing: each task that was there is
   ready or dead.
   */
  lemma NothingStranded(c: Config, s: State, acts: seq<Action>, now: int, turns: seq<Turn>)
    requires c.retryDelay > 0 && s.pc.Down? && Q.Keyed(s.store) && CanRun(c, s, acts)
    requires forall i :: 0 <= i < |acts| ==> R.RecoveryAction(acts[i])
    requires Exec(c, s, acts).pc.Idle? && AllDue(Exec(c, s, acts), now)
    requires ReapOk(c, Exec(c, s, acts), now, turns)
    requires TurnsNext(c, Exec(c, s, acts).(pc := Pc.Reaping(now)), turns).pc.Reaping?
    ensures
      var s' := ReapNext(c, Exec(c, s, acts), now, turns);
      && s'.leases == map[] && s'.store.processing == map[]
      && forall t :: t in s.store.processing ==> Waiting(s'.store, t)
  {
    hide CanRun, Exec, ReapOk, ReapNext, TurnsNext, Scheduling, Settled, Shrunk, Waiting, R.Goal, R.OneToOne;
    var s1 := Exec(c, s, acts);
    R.RecoveryIsRestartable(c, s, acts);
    DownIsScheduled(c, s);
    SchedulingOverRuns(c, s, acts);
    ReapEqualsScan(c, s1, now, turns);
    ItemsOnTime(s1);
    var s' := ReapNext(c, s1, now, turns);
    assert s'.leases == map[];
    ReapEmpties(c, s1, s');
    forall t | t in s.store.processing ensures Waiting(s'.store, t) {
      RecoveredSomewhere(s, s1, t);
      if t in s1.store.processing {
        assert Q.Keyed(s1.store) by { TargetKeyed(s, s1); }
        EmptiedWaits(c, s1, s', t);
      } else {
        WaitingStays(c, s1, s', t);
      }
    }
  }

  lemma DownIsScheduled(c: Config, s: State)
    requires s.pc.Down?
    ensures Scheduling(c, s)
  {
  }

  lemma TargetKeyed(s: State, s1: State)
    requires Q.Keyed(s.store) && s1.store.processing == R.Goal(s).processing
    ensures Q.Keyed(s1.store)
  {
  }
}
