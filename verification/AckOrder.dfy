/** Why Ack completes in the backend before it journals. */
module AckOrder {
  import opened Types
  import opened Protocol
  import opened Fetching
  import opened Recovery
  import Q = Queue
  import J = Journal

  /** A process that journalled the ack first and died before the backend heard of it. */
  ghost function JournalFirstCrash(s: State, l: LeaseId): State {
    DoCrash(s.(journal := s.journal + [CloseRecord(Ack, l)]))
  }

  /**
   Journal-first redelivers finished work: for every backend and journal, any
   recovery that succeeds puts the acked task back in ready storage, with the
   attempts it had, so no attempt limit bounds the repetition; and fetches after
   it hand the task out again.
   */
  lemma JournalFirstRedelivers(c: Config, s: State, t: TaskId, acts: seq<Action>)
    returns (fetches: seq<Action>, lease: Lease)
    requires Q.Keyed(s.store) && t in s.store.processing
    requires var d := JournalFirstCrash(s, s.store.processing[t].fence);
      && CanRun(c, d, acts)
      && (forall i :: 0 <= i < |acts| ==> RecoveryAction(acts[i]))
      && Exec(c, d, acts).pc.Idle?
    ensures
      var s' := Exec(c, JournalFirstCrash(s, s.store.processing[t].fence), acts);
      && s.store.processing[t].task in s'.store.ready && t !in s'.store.processing
      && (forall k :: 0 <= k < |fetches| ==> FetchAction(fetches[k]))
      && CanRun(c, s', fetches)
      && var all := Exec(c, s', fetches).hist.published;
         && s.hist.published < all
         && all[|all| - 1] == lease && lease.task == s.store.processing[t].task
  {
    hide CanRun, Exec;
    var d := JournalFirstCrash(s, s.store.processing[t].fence);
    var s' := Exec(c, d, acts);
    BackInReady(c, s, t, acts);
    var i :| 0 <= i < |s'.store.ready| && s'.store.ready[i] == s.store.processing[t].task;
    RecoveryPublishesNone(c, d, acts);
    fetches, lease := FetchesReach(c, s', i);
  }

  lemma BackInReady(c: Config, s: State, t: TaskId, acts: seq<Action>)
    requires Q.Keyed(s.store) && t in s.store.processing
    requires var d := JournalFirstCrash(s, s.store.processing[t].fence);
      && CanRun(c, d, acts)
      && (forall i :: 0 <= i < |acts| ==> RecoveryAction(acts[i]))
      && Exec(c, d, acts).pc.Idle?
    ensures
      var s' := Exec(c, JournalFirstCrash(s, s.store.processing[t].fence), acts);
      s.store.processing[t].task in s'.store.ready && t !in s'.store.processing
  {
    hide CanRun, Exec;
    var l := s.store.processing[t].fence;
    var d := JournalFirstCrash(s, l);
    J.LiveSnoc(s.journal, CloseRecord(Ack, l));
    RecoveryIsRestartable(c, d, acts);
    var orphans := Q.Orphans(d.store, Fences(J.Live(d.journal)));
    assert t in orphans;
    assert s.store.processing[t].task in TasksIn(d.store, orphans);
    assert s.store.processing[t].task in multiset(Exec(c, d, acts).store.ready);
  }

  lemma {:induction false} RecoveryPublishesNone(c: Config, s: State, acts: seq<Action>)
    requires CanRun(c, s, acts) && forall i :: 0 <= i < |acts| ==> RecoveryAction(acts[i])
    ensures Exec(c, s, acts).hist.published == s.hist.published
    decreases |acts|
  {
    if acts != [] {
      PublishedFrame(c, s, acts[0]);
      RecoveryPublishesNone(c, Apply(c, s, acts[0]), acts[1..]);
    }
  }
}
