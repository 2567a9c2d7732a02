/**
 No task is lost, copied or revived: in every run, whatever the journal says,
 each accepted task ID is in exactly one of ready, processing, dead, completed.
 */
module Conservation {
  import opened Types
  import opened Protocol
  import Q = Queue

  ghost predicate Conserved(s: State) {
    && Q.Keyed(s.store)
    && Q.Mass(s.store) + multiset(s.hist.completed) == multiset(s.hist.accepted)
  }

  ghost predicate AckOnce(s: State) {
    && Distinct(s.hist.acks)
    && (forall t :: t in s.hist.acks ==> t in s.hist.completed)
    && ((s.pc.Acking? || s.pc.Acked?) && s.pc.completed ==>
          s.pc.lease.task.id in s.hist.completed && s.pc.lease.task.id !in s.hist.acks)
  }

  /** How many times a task ID occurs in each of the four places. */
  ghost function Ready(s: State, t: TaskId): nat { Q.Ids(s.store.ready)[t] }
  ghost function Processing(s: State, t: TaskId): nat { if t in s.store.processing then 1 else 0 }
  ghost function Dead(s: State, t: TaskId): nat { Q.DeadIds(s.store.dead)[t] }
  ghost function Completed(s: State, t: TaskId): nat { if t in s.hist.completed then 1 else 0 }

  lemma OnePlace(s: State, t: TaskId)
    requires Conserved(s)
    ensures Ready(s, t) + Processing(s, t) + Dead(s, t) + Completed(s, t)
         == if t in s.hist.accepted then 1 else 0
  {
    var m := Q.Mass(s.store) + multiset(s.hist.completed);
    assert m[t] == multiset(s.hist.accepted)[t];
    assert multiset(s.store.processing.Keys)[t] == Processing(s, t);
  }

  lemma ConservedKeyed(s: State)
    requires Conserved(s)
    ensures Q.Keyed(s.store)
  {
  }

  lemma ReadyNotProcessing(s: State, i: nat)
    requires Conserved(s) && i < |s.store.ready|
    ensures s.store.ready[i].id !in s.store.processing
    ensures s.store.ready[i].id in s.hist.accepted
    ensures forall j :: 0 <= j < |s.store.ready| && j != i ==> s.store.ready[j].id != s.store.ready[i].id
  {
    var t := s.store.ready[i].id;
    Q.IdsMember(s.store.ready, i);
    OnePlace(s, t);
    forall j | 0 <= j < |s.store.ready| && j != i ensures s.store.ready[j].id != t {
      if s.store.ready[j].id == t {
        TwiceInSeq(Q.IdSeq(s.store.ready), i, j);
      }
    }
  }

  lemma TwiceInSeq<T>(s: seq<T>, i: int, j: int)
    requires 0 <= i < |s| && 0 <= j < |s| && i != j && s[i] == s[j]
    ensures multiset(s)[s[i]] >= 2
  {
    var lo, hi := if i < j then i else j, if i < j then j else i;
    assert s == s[..lo] + [s[lo]] + s[lo + 1..hi] + [s[hi]] + s[hi + 1..];
  }

  lemma ConservedEnqueue(s: State, id: TaskId, payload: seq<Byte>, f: Fault)
    requires Conserved(s) && id !in s.hist.accepted
    ensures Conserved(DoEnqueue(s, id, payload, f))
  {
    Q.EnqueueMass(s.store, Task(id, payload, 0));
    assert multiset(s.hist.accepted + {id}) == multiset(s.hist.accepted) + multiset{id};
  }

  lemma ConservedAcquire(s: State, l: LeaseId, clock: int, timeout: int, f: Fault)
    requires Conserved(s)
    ensures Conserved(DoAcquire(s, l, clock, timeout, f))
  {
    hide Q.Mass;
    if s.store.ready != [] {
      ReadyNotProcessing(s, 0);
      Q.AcquireMass(s.store, l);
    }
  }

  lemma ConservedComplete(s: State, lid: LeaseId, f: Fault)
    requires Conserved(s) && lid in s.leases
    ensures Conserved(DoComplete(s, lid, f))
  {
    var l := s.leases[lid];
    var t := l.task.id;
    hide Q.Mass, Ready, Dead, Q.Complete;
    Q.CompleteMass(s.store, t, l.id);
    CompleteKeyed(s.store, t, l.id);
    OnePlace(s, t);
    if Q.Check(s.store, t, l.id).Ok? {
      CompletedMass(Q.Mass(s.store), Q.Mass(Q.Complete(s.store, t, l.id)), s.hist.completed, s.hist.accepted, t);
    }
  }

  lemma CompleteKeyed(q: Q.Store, t: TaskId, l: LeaseId)
    requires Q.Keyed(q)
    ensures Q.Keyed(Q.Complete(q, t, l))
  {
  }

  lemma CompletedMass(m: multiset<TaskId>, m': multiset<TaskId>, done: set<TaskId>, all: set<TaskId>, t: TaskId)
    requires m == m' + multiset{t} && m + multiset(done) == multiset(all) && t !in done
    ensures m' + multiset(done + {t}) == multiset(all)
  {
    assert multiset(done + {t}) == multiset(done) + multiset{t};
  }

  lemma ConservedCompensate(s: State, f: Fault)
    requires Conserved(s) && s.pc.Refused?
    ensures Conserved(DoCompensate(s, f))
  {
    Q.RequeueMass(s.store, s.pc.lease.task.id, s.pc.lease.id);
  }

  lemma ConservedExpire(c: Config, s: State, f: Fault)
    requires Conserved(s) && s.pc.Expiring?
    ensures Conserved(DoExpire(c, s, f))
  {
    hide Q.Mass, ExpiryStore;
    ExpiryMass(c, s.store, s.pc.lease);
  }

  lemma ExpiryMass(c: Config, q: Q.Store, l: Lease)
    requires Q.Keyed(q)
    ensures Q.Keyed(ExpiryStore(c, q, l)) && Q.Mass(ExpiryStore(c, q, l)) == Q.Mass(q)
  {
    if ShouldDeadLetter(c, l) {
      Q.BuryMass(q, l.task.id, l.id, REASON);
    } else {
      Q.RequeueMass(q, l.task.id, l.id);
    }
  }

  lemma ConservedReconcile(s: State, orphans: seq<TaskId>, f: Fault)
    requires Conserved(s) && s.pc.Recovering?
    requires Enumerates(orphans, Q.Orphans(s.store, Fences(s.pc.live)))
    ensures Conserved(DoReconcile(s, orphans, f))
  {
    Q.ReconcileMass(s.store, Fences(s.pc.live), orphans);
  }

  /** Steps that touch neither the backend nor the two ID sets. */
  lemma ConservedSame(s: State, s': State)
    requires Conserved(s) && s'.store == s.store
    requires s'.hist.completed == s.hist.completed && s'.hist.accepted == s.hist.accepted
    ensures Conserved(s')
  {
  }

  lemma ConservedStep(c: Config, s: State, a: Action)
    requires Conserved(s) && Enabled(c, s, a)
    ensures Conserved(Apply(c, s, a))
  {
    hide Conserved;
    if !CallsBackend(a) {
      StoreFrame(c, s, a);
      AcceptedFrame(c, s, a);
      CompletedFrame(c, s, a);
      ConservedSame(s, Apply(c, s, a));
    } else {
      match a
      case Enqueue(id, payload, f) => ConservedEnqueue(s, id, payload, f);
      case FetchAcquire(l, clock, timeout, f) => ConservedAcquire(s, l, clock, timeout, f);
      case AckComplete(l, f) => ConservedComplete(s, l, f);
      case FetchCompensate(f) => ConservedCompensate(s, f);
      case ExpireBackend(f) => ConservedExpire(c, s, f);
      case Reconcile(orphans, f) => ConservedReconcile(s, orphans, f);
    }
  }

  lemma AckOnceComplete(s: State, lid: LeaseId, f: Fault)
    requires Conserved(s) && AckOnce(s) && s.pc.Idle? && lid in s.leases
    ensures AckOnce(DoComplete(s, lid, f))
  {
    OnePlace(s, s.leases[lid].task.id);
  }

  lemma CompletedGrows(c: Config, s: State, a: Action)
    requires Enabled(c, s, a)
    ensures s.hist.completed <= Apply(c, s, a).hist.completed
    ensures s.hist.accepted <= Apply(c, s, a).hist.accepted
  {
    if !a.Enqueue? { AcceptedFrame(c, s, a); }
    if !a.AckComplete? { CompletedFrame(c, s, a); }
  }

  lemma AckPc(c: Config, s: State, a: Action)
    requires Enabled(c, s, a) && !a.AckComplete? && !a.AckRecord?
    ensures !Apply(c, s, a).pc.Acking? && !Apply(c, s, a).pc.Acked?
  {
    if CallsBackend(a) {
      BackendPc(c, s, a);
    } else if a.ReapPop? || a.ExpireRecord? || a.ReapEnd? || a.ReapStart? || a.ExpireForget? {
      ReapPc(c, s, a);
    } else {
      OtherPc(c, s, a);
    }
  }

  lemma BackendPc(c: Config, s: State, a: Action)
    requires Enabled(c, s, a) && CallsBackend(a) && !a.AckComplete?
    ensures !Apply(c, s, a).pc.Acking? && !Apply(c, s, a).pc.Acked?
  {
  }

  lemma ReapPc(c: Config, s: State, a: Action)
    requires Enabled(c, s, a) && (a.ReapPop? || a.ExpireRecord? || a.ReapEnd? || a.ReapStart? || a.ExpireForget?)
    ensures !Apply(c, s, a).pc.Acking? && !Apply(c, s, a).pc.Acked?
  {
  }

  lemma OtherPc(c: Config, s: State, a: Action)
    requires Enabled(c, s, a) && !CallsBackend(a) && !a.AckRecord?
    requires !(a.ReapPop? || a.ExpireRecord? || a.ReapEnd? || a.ReapStart? || a.ExpireForget?)
    ensures !Apply(c, s, a).pc.Acking? && !Apply(c, s, a).pc.Acked?
  {
  }

  lemma AckOnceStep(c: Config, s: State, a: Action)
    requires Conserved(s) && AckOnce(s) && Enabled(c, s, a)
    ensures AckOnce(Apply(c, s, a))
  {
    hide Conserved, AckOnce;
    if a.AckComplete? {
      AckOnceComplete(s, a.lid, a.fault);
    } else if a.AckRecord? || a.AckForget? {
      AckOnceClose(c, s, a);
    } else {
      AckPc(c, s, a);
      AcksFrame(c, s, a);
      CompletedGrows(c, s, a);
      AckOnceKept(s, Apply(c, s, a));
    }
  }

  lemma AckOnceClose(c: Config, s: State, a: Action)
    requires AckOnce(s) && Enabled(c, s, a) && (a.AckRecord? || a.AckForget?)
    ensures AckOnce(Apply(c, s, a))
  {
  }

  lemma AckOnceKept(s: State, s': State)
    requires AckOnce(s) && s'.hist.acks == s.hist.acks && s.hist.completed <= s'.hist.completed
    requires !s'.pc.Acking? && !s'.pc.Acked?
    ensures AckOnce(s')
  {
  }

  /**
   Conservation under crashes, for any journal handed to any restart, and at
   most one successful Ack per task.
   */
  lemma {:induction false} ConservationOverRuns(c: Config, s: State, acts: seq<Action>)
    requires Conserved(s) && AckOnce(s) && CanRun(c, s, acts)
    ensures Conserved(Exec(c, s, acts)) && AckOnce(Exec(c, s, acts))
    decreases |acts|
  {
    hide Conserved, AckOnce;
    if acts != [] {
      ConservedStep(c, s, acts[0]);
      AckOnceStep(c, s, acts[0]);
      ConservationOverRuns(c, Apply(c, s, acts[0]), acts[1..]);
    }
  }

  /** Completed tasks, the dead list and the acks only grow. */
  ghost predicate Grows(s: State, s': State) {
    && s.hist.accepted <= s'.hist.accepted
    && s.hist.completed <= s'.hist.completed
    && s.store.dead <= s'.store.dead
    && s.hist.acks <= s'.hist.acks
    && s.hist.published <= s'.hist.published
    && s.hist.reaps <= s'.hist.reaps
  }

  lemma DeadGrows(c: Config, s: State, a: Action)
    requires Enabled(c, s, a)
    ensures s.store.dead <= Apply(c, s, a).store.dead
  {
    if !CallsBackend(a) {
      StoreFrame(c, s, a);
    }
  }

  lemma GrowsStep(c: Config, s: State, a: Action)
    requires Enabled(c, s, a)
    ensures Grows(s, Apply(c, s, a))
  {
    CompletedGrows(c, s, a);
    DeadGrows(c, s, a);
    if !a.AckForget? { AcksFrame(c, s, a); }
    if !a.FetchPublish? { PublishedFrame(c, s, a); }
    if !a.ReapEnd? && !a.ExpireBackend? && !a.ExpireRecord? { ReapsFrame(c, s, a); }
  }

  lemma {:induction false} GrowsOverRuns(c: Config, s: State, acts: seq<Action>)
    requires CanRun(c, s, acts)
    ensures Grows(s, Exec(c, s, acts))
    decreases |acts|
  {
    if acts != [] {
      GrowsStep(c, s, acts[0]);
      GrowsOverRuns(c, Apply(c, s, acts[0]), acts[1..]);
    }
  }

  lemma DeadIdsGrow(ds: seq<Q.DeadTask>, more: seq<Q.DeadTask>)
    requires ds <= more
    ensures Q.DeadIds(ds) <= Q.DeadIds(more)
  {
    assert Q.DeadIdSeq(more) == Q.DeadIdSeq(ds) + Q.DeadIdSeq(more[|ds|..]);
  }

  /** A completed or dead task is never ready, processing or delivered again. */
  lemma TerminalForever(c: Config, s: State, acts: seq<Action>, t: TaskId)
    requires Conserved(s) && AckOnce(s) && CanRun(c, s, acts)
    requires Completed(s, t) == 1 || Dead(s, t) == 1
    ensures var s' := Exec(c, s, acts);
      && Completed(s', t) >= Completed(s, t) && Dead(s', t) >= Dead(s, t)
      && Ready(s', t) == 0 && Processing(s', t) == 0
  {
    var s' := Exec(c, s, acts);
    ConservationOverRuns(c, s, acts);
    GrowsOverRuns(c, s, acts);
    DeadIdsGrow(s.store.dead, s'.store.dead);
    OnePlace(s', t);
  }
}
