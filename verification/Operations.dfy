/**
 The engine's operations as whole-state functions, each the composition of the
 protocol steps it takes, and proofs that each is a run of the protocol.
 */
module Operations {
  import opened Types
  import opened Protocol
  import Q = Queue
  import J = Journal

  datatype FetchAnswer =
    | InvalidTimeout | FetchNotRecovered | QueueEmpty | AcquireFailed | NotJournalled(returned: bool)
    | Leased(lease: Lease)

  datatype AckAnswer = AckNotRecovered | LeaseNotFound | CompleteFailed | AckNotJournalled | AckDone

  // ---------- Enqueue ----------

  function EnqueueNext(s: State, id: TaskId, payload: seq<Byte>, f: Fault): State {
    if s.pc.Idle? then DoEnqueue(s, id, payload, f) else s
  }

  // ---------- Fetch ----------

  function FetchNext(s: State, lid: LeaseId, clock: int, timeout: int, fa: Fault, w: Write, fr: Fault): State {
    if timeout <= 0 || !s.pc.Idle? then s else
    var s1 := DoAcquire(s, lid, clock, timeout, fa);
    if !s1.pc.Acquired? then s1 else
    var s2 := DoFetchRecord(s1, w);
    if s2.pc.Recorded? then DoPublish(s2) else DoCompensate(s2, fr)
  }

  /** A fetch on an idle engine that got no task from the backend. */
  lemma FetchStops(s: State, lid: LeaseId, clock: int, timeout: int, fa: Fault, w: Write, fr: Fault, s': State)
    requires s.pc.Idle? && timeout > 0 && (fa != Clean || s.store.ready == [])
    requires s' == s.(store := if fa == Before then s.store else Q.Acquire(s.store, lid), hist := s'.hist)
    requires s'.hist == FetchNext(s, lid, clock, timeout, fa, w, fr).hist
    ensures s' == FetchNext(s, lid, clock, timeout, fa, w, fr)
    ensures FetchAnswerOf(s, lid, clock, timeout, fa, w, fr) == if fa != Clean then AcquireFailed else QueueEmpty
  {
  }

  /** A fetch on an idle engine that did. */
  lemma FetchEnds(s: State, lid: LeaseId, clock: int, timeout: int, w: Write, fr: Fault, l: Lease, s': State)
    requires s.pc.Idle? && timeout > 0 && s.store.ready != []
    requires l == Lease(lid, s.store.ready[0], clock, clock + timeout)
    requires s'.pc.Idle? && s'.hist == FetchNext(s, lid, clock, timeout, Clean, w, fr).hist
    requires s'.journal == Logged(s.journal, FetchRecord(l), w)
    requires var taken := Q.Acquire(s.store, lid);
      s'.store == if w == Durable || fr == Before then taken else Q.Requeue(taken, l.task.id, lid)
    requires s'.leases == if w == Durable then s.leases[lid := l] else s.leases
    requires s'.heap == s.heap + if w == Durable then multiset{Item(lid, l.expiresAt)} else multiset{}
    ensures s' == FetchNext(s, lid, clock, timeout, Clean, w, fr)
    ensures FetchAnswerOf(s, lid, clock, timeout, Clean, w, fr) ==
            if w == Durable then Leased(l) else NotJournalled(fr == Clean)
  {
  }

  function FetchAnswerOf(s: State, lid: LeaseId, clock: int, timeout: int, fa: Fault, w: Write, fr: Fault)
    : FetchAnswer
  {
    if timeout <= 0 then InvalidTimeout
    else if !s.pc.Idle? then FetchNotRecovered
    else if fa != Clean then AcquireFailed
    else if s.store.ready == [] then QueueEmpty
    else if w != Durable then NotJournalled(fr == Clean)
    else Leased(Lease(lid, s.store.ready[0], clock, clock + timeout))
  }

  ghost function FetchActs(s: State, lid: LeaseId, clock: int, timeout: int, fa: Fault, w: Write, fr: Fault)
    : seq<Action>
  {
    if timeout <= 0 || !s.pc.Idle? then []
    else if fa != Clean || s.store.ready == [] then [FetchAcquire(lid, clock, timeout, fa)]
    else [FetchAcquire(lid, clock, timeout, fa), FetchRecordStep(w),
          if w == Durable then FetchPublish else FetchCompensate(fr)]
  }

  lemma FetchIsRun(c: Config, s: State, lid: LeaseId, clock: int, timeout: int, fa: Fault, w: Write, fr: Fault)
    requires FreshLease(s, lid)
    ensures
      var acts := FetchActs(s, lid, clock, timeout, fa, w, fr);
      CanRun(c, s, acts) && Exec(c, s, acts) == FetchNext(s, lid, clock, timeout, fa, w, fr)
  {
    var acts := FetchActs(s, lid, clock, timeout, fa, w, fr);
    if |acts| == 1 {
      RunOne(c, s, acts[0]);
    } else if |acts| == 3 {
      RunThree(c, s, acts[0], acts[1], acts[2]);
    }
  }

  // ---------- Ack ----------

  function AckNext(s: State, lid: LeaseId, f: Fault, w: Write): State {
    if !s.pc.Idle? || lid !in s.leases then s else
    var s1 := DoComplete(s, lid, f);
    if !s1.pc.Acking? then s1 else
    var s2 := DoAckRecord(s1, w);
    if s2.pc.Acked? then DoAckForget(s2) else s2
  }

  function AckAnswerOf(s: State, lid: LeaseId, f: Fault, w: Write): AckAnswer {
    if !s.pc.Idle? then AckNotRecovered
    else if lid !in s.leases then LeaseNotFound
    else if f != Clean then CompleteFailed
    else if w != Durable then AckNotJournalled
    else if HoldsLease(s.store, s.leases[lid]) then AckDone
    else LeaseNotFound
  }

  ghost function AckActs(s: State, lid: LeaseId, f: Fault, w: Write): seq<Action> {
    if !s.pc.Idle? || lid !in s.leases then []
    else if f != Clean then [AckComplete(lid, f)]
    else if w != Durable then [AckComplete(lid, f), AckRecord(w)]
    else [AckComplete(lid, f), AckRecord(w), AckForget]
  }

  lemma AckIsRun(c: Config, s: State, lid: LeaseId, f: Fault, w: Write)
    ensures
      var acts := AckActs(s, lid, f, w);
      CanRun(c, s, acts) && Exec(c, s, acts) == AckNext(s, lid, f, w)
  {
    var acts := AckActs(s, lid, f, w);
    if |acts| == 1 {
      RunOne(c, s, acts[0]);
    } else if |acts| == 2 {
      RunTwo(c, s, acts[0], acts[1]);
    } else if |acts| == 3 {
      RunThree(c, s, acts[0], acts[1], acts[2]);
    }
  }

  // ---------- Reap ----------

  /** One turn of the reaper's loop: the item it popped and what its calls met. */
  datatype Turn = Turn(item: Item, fault: Fault, write: Write)

  function ExpireNext(c: Config, s: State, f: Fault, w: Write): State
    requires s.pc.Expiring?
  {
    var s1 := DoExpire(c, s, f);
    if !s1.pc.Expired? then s1 else
    var s2 := DoExpireRecord(c, s1, w);
    if !s2.pc.Closed? then s2 else
    s2.(leases := s2.leases - {s2.pc.lease.id}, pc := Reaping(s2.pc.now))
  }

  function TurnNext(c: Config, s: State, t: Turn): State {
    if !s.pc.Reaping? then s else
    var s1 := DoPop(s, t.item);
    if s1.pc.Expiring? then ExpireNext(c, s1, t.fault, t.write) else s1
  }

  lemma TurnSkips(c: Config, s: State, t: Turn)
    requires s.pc.Reaping?
    requires t.item.lease in s.leases ==> s.leases[t.item.lease].expiresAt > s.pc.now
    ensures TurnNext(c, s, t) == s.(heap := s.heap - multiset{t.item})
  {
  }

  lemma TurnExpires(c: Config, s: State, t: Turn, l: Lease)
    requires s.pc.Reaping? && t.item.lease in s.leases && s.leases[t.item.lease] == l && l.expiresAt <= s.pc.now
    ensures TurnNext(c, s, t) ==
            ExpireNext(c, s.(heap := s.heap - multiset{t.item}, pc := Expiring(s.pc.now, l)), t.fault, t.write)
  {
  }

  function TurnsNext(c: Config, s: State, turns: seq<Turn>): State {
    if turns == [] then s else TurnNext(c, TurnsNext(c, s, turns[..|turns| - 1]), turns[|turns| - 1])
  }

  /** Each turn found the loop running and popped a due heap minimum. */
  ghost predicate TurnsOk(c: Config, s: State, turns: seq<Turn>) {
    turns == [] ||
    var n := |turns| - 1;
    var p := TurnsNext(c, s, turns[..n]);
    && TurnsOk(c, s, turns[..n])
    && p.pc.Reaping? && Least(p.heap, turns[n].item) && turns[n].item.at <= p.pc.now
  }

  lemma TurnsNil(c: Config, s: State)
    ensures TurnsNext(c, s, []) == s && TurnsOk(c, s, [])
  {
  }

  lemma TurnsSnoc(c: Config, s: State, turns: seq<Turn>, t: Turn)
    ensures TurnsNext(c, s, turns + [t]) == TurnNext(c, TurnsNext(c, s, turns), t)
    ensures var p := TurnsNext(c, s, turns);
      TurnsOk(c, s, turns) && p.pc.Reaping? && Least(p.heap, t.item) && t.item.at <= p.pc.now ==>
      TurnsOk(c, s, turns + [t])
  {
    assert (turns + [t])[..|turns|] == turns;
  }

  ghost predicate ReapAction(a: Action) {
    a.ReapPop? || a.ExpireBackend? || a.ExpireRecord? || a.ExpireForget?
  }

  function ExpireActs(f: Fault, w: Write): seq<Action> {
    if f != Clean then [ExpireBackend(f)]
    else if w != Durable then [ExpireBackend(f), ExpireRecord(w)]
    else [ExpireBackend(f), ExpireRecord(w), ExpireForget]
  }

  lemma ExpireIsRun(c: Config, s: State, f: Fault, w: Write)
    requires s.pc.Expiring?
    ensures CanRun(c, s, ExpireActs(f, w)) && Exec(c, s, ExpireActs(f, w)) == ExpireNext(c, s, f, w)
  {
    hide CanRun, Exec;
    if f != Clean {
      RunOne(c, s, ExpireBackend(f));
    } else if w != Durable {
      RunTwo(c, s, ExpireBackend(f), ExpireRecord(w));
    } else {
      RunThree(c, s, ExpireBackend(f), ExpireRecord(w), ExpireForget);
    }
  }

  function TurnActs(c: Config, s: State, t: Turn): (acts: seq<Action>)
    ensures forall i :: 0 <= i < |acts| ==> ReapAction(acts[i])
  {
    if s.pc.Reaping? && DoPop(s, t.item).pc.Expiring? then [ReapPop(t.item)] + ExpireActs(t.fault, t.write)
    else [ReapPop(t.item)]
  }

  lemma TurnIsRun(c: Config, s: State, t: Turn)
    requires s.pc.Reaping? && Least(s.heap, t.item) && t.item.at <= s.pc.now
    ensures CanRun(c, s, TurnActs(c, s, t)) && Exec(c, s, TurnActs(c, s, t)) == TurnNext(c, s, t)
  {
    hide CanRun, Exec, ExpireNext, ExpireActs;
    var s1 := DoPop(s, t.item);
    RunOne(c, s, ReapPop(t.item));
    if s1.pc.Expiring? {
      ExpireIsRun(c, s1, t.fault, t.write);
      RunConcat(c, s, [ReapPop(t.item)], ExpireActs(t.fault, t.write));
    }
  }

  function TurnsActs(c: Config, s: State, turns: seq<Turn>): (acts: seq<Action>)
    ensures forall i :: 0 <= i < |acts| ==> ReapAction(acts[i])
  {
    if turns == [] then [] else
    var n := |turns| - 1;
    TurnsActs(c, s, turns[..n]) + TurnActs(c, TurnsNext(c, s, turns[..n]), turns[n])
  }

  lemma {:induction false} TurnsAreRun(c: Config, s: State, turns: seq<Turn>)
    requires TurnsOk(c, s, turns)
    ensures CanRun(c, s, TurnsActs(c, s, turns)) && Exec(c, s, TurnsActs(c, s, turns)) == TurnsNext(c, s, turns)
  {
    hide TurnNext, TurnActs;
    if turns != [] {
      var n := |turns| - 1;
      var p := TurnsNext(c, s, turns[..n]);
      TurnsAreRun(c, s, turns[..n]);
      TurnIsRun(c, p, turns[n]);
      RunConcat(c, s, TurnsActs(c, s, turns[..n]), TurnActs(c, p, turns[n]));
    }
  }

  /** The state after a whole reap that took `turns` and met an error, or not, in the last. */
  ghost function ReapNext(c: Config, s: State, now: int, turns: seq<Turn>): State {
    var s' := TurnsNext(c, s.(pc := Reaping(now)), turns);
    if s'.pc.Reaping? then DoReapEnd(s') else s'
  }

  /** The turns are all the reap had to take: nothing due is left, unless the last one failed. */
  ghost predicate ReapOk(c: Config, s: State, now: int, turns: seq<Turn>) {
    var s' := TurnsNext(c, s.(pc := Reaping(now)), turns);
    && TurnsOk(c, s.(pc := Reaping(now)), turns)
    && (s'.pc.Reaping? ==> forall i :: i in s'.heap ==> i.at > s'.pc.now)
  }

  function ReapActs(c: Config, s: State, now: int, turns: seq<Turn>): seq<Action> {
    var s1 := s.(pc := Reaping(now));
    [ReapStart(now)] + (TurnsActs(c, s1, turns) + if TurnsNext(c, s1, turns).pc.Reaping? then [ReapEnd] else [])
  }

  lemma ReapIsRun(c: Config, s: State, now: int, turns: seq<Turn>)
    requires s.pc.Idle? && ReapOk(c, s, now, turns)
    ensures CanRun(c, s, ReapActs(c, s, now, turns))
    ensures Exec(c, s, ReapActs(c, s, now, turns)) == ReapNext(c, s, now, turns)
  {
    hide CanRun, Exec, TurnsNext, TurnsActs;
    var s1 := s.(pc := Reaping(now));
    var s2, acts := TurnsNext(c, s1, turns), TurnsActs(c, s1, turns);
    TurnsAreRun(c, s1, turns);
    RunOne(c, s, ReapStart(now));
    if s2.pc.Reaping? {
      RunSnoc(c, s1, acts, ReapEnd);
      RunConcat(c, s, [ReapStart(now)], acts + [ReapEnd]);
    } else {
      assert acts + [] == acts;
      RunConcat(c, s, [ReapStart(now)], acts);
    }
  }

  // ---------- Restart ----------

  /** Appends the stale records of `closes` until one fails. */
  function ClosesNext(s: State, closes: seq<(LeaseId, Write)>): State {
    if closes == [] then s else
    var n := |closes| - 1;
    var p := ClosesNext(s, closes[..n]);
    if p.pc.Closing? then DoCloseStale(p, closes[n].0, closes[n].1) else p
  }

  ghost predicate ClosesOk(s: State, closes: seq<(LeaseId, Write)>) {
    closes == [] ||
    var n := |closes| - 1;
    var p := ClosesNext(s, closes[..n]);
    ClosesOk(s, closes[..n]) && p.pc.Closing? && closes[n].0 in p.pc.pending
  }

  lemma ClosesNil(s: State)
    ensures ClosesNext(s, []) == s && ClosesOk(s, [])
  {
  }

  lemma ClosesSnoc(s: State, closes: seq<(LeaseId, Write)>, l: LeaseId, w: Write)
    requires ClosesOk(s, closes) && ClosesNext(s, closes).pc.Closing?
    requires l in ClosesNext(s, closes).pc.pending
    ensures ClosesOk(s, closes + [(l, w)])
    ensures ClosesNext(s, closes + [(l, w)]) == DoCloseStale(ClosesNext(s, closes), l, w)
  {
    assert (closes + [(l, w)])[..|closes|] == closes;
  }

  ghost function RestoreNext(s: State, orphans: seq<TaskId>, f: Fault, closes: seq<(LeaseId, Write)>): State
    requires s.pc.Down? && Enumerates(orphans, Q.Orphans(s.store, Fences(J.Live(s.journal))))
  {
    var s1 := s.(pc := Recovering(J.Live(s.journal)));
    var s2 := ClosesNext(DoReconcile(s1, orphans, f), closes);
    if s2.pc.Closing? && s2.pc.pending == {} then DoReinstate(s2) else s2
  }

  ghost predicate RestoreOk(s: State, orphans: seq<TaskId>, f: Fault, closes: seq<(LeaseId, Write)>) {
    && s.pc.Down? && Enumerates(orphans, Q.Orphans(s.store, Fences(J.Live(s.journal))))
    && ClosesOk(DoReconcile(s.(pc := Recovering(J.Live(s.journal))), orphans, f), closes)
    && !RestoreNext(s, orphans, f, closes).pc.Closing?
  }

  ghost predicate RestoreAction(a: Action) {
    a.Start? || a.Reconcile? || a.CloseStale? || a.Reinstate?
  }

  function ClosesActs(closes: seq<(LeaseId, Write)>): (acts: seq<Action>)
    ensures forall i :: 0 <= i < |acts| ==> RestoreAction(acts[i])
  {
    if closes == [] then [] else
    var n := |closes| - 1;
    ClosesActs(closes[..n]) + [CloseStale(closes[n].0, closes[n].1)]
  }

  lemma {:induction false} ClosesAreRun(c: Config, s: State, closes: seq<(LeaseId, Write)>)
    requires ClosesOk(s, closes)
    ensures CanRun(c, s, ClosesActs(closes)) && Exec(c, s, ClosesActs(closes)) == ClosesNext(s, closes)
  {
    if closes != [] {
      var n := |closes| - 1;
      ClosesAreRun(c, s, closes[..n]);
      RunSnoc(c, s, ClosesActs(closes[..n]), CloseStale(closes[n].0, closes[n].1));
    }
  }

  ghost function RestoreActs(s: State, orphans: seq<TaskId>, f: Fault, closes: seq<(LeaseId, Write)>): seq<Action>
    requires s.pc.Down? && Enumerates(orphans, Q.Orphans(s.store, Fences(J.Live(s.journal))))
  {
    var s2 := DoReconcile(s.(pc := Recovering(J.Live(s.journal))), orphans, f);
    var acts := [Start, Reconcile(orphans, f)] + ClosesActs(closes);
    if ClosesNext(s2, closes).pc.Closing? then acts + [Reinstate] else acts
  }

  /** The first two steps of a restart, and the last. */
  lemma RestoreSteps(c: Config, s: State, orphans: seq<TaskId>, f: Fault)
    requires s.pc.Down? && Enumerates(orphans, Q.Orphans(s.store, Fences(J.Live(s.journal))))
    ensures
      var s1 := s.(pc := Recovering(J.Live(s.journal)));
      && Enabled(c, s, Start) && Apply(c, s, Start) == s1
      && Enabled(c, s1, Reconcile(orphans, f)) && Apply(c, s1, Reconcile(orphans, f)) == DoReconcile(s1, orphans, f)
  {
  }

  lemma ReinstateStep(c: Config, s: State)
    requires s.pc.Closing? && s.pc.pending == {}
    ensures Enabled(c, s, Reinstate) && Apply(c, s, Reinstate) == DoReinstate(s)
  {
  }

  lemma RestoreIsRun(c: Config, s: State, orphans: seq<TaskId>, f: Fault, closes: seq<(LeaseId, Write)>)
    requires RestoreOk(s, orphans, f, closes)
    ensures CanRun(c, s, RestoreActs(s, orphans, f, closes))
    ensures Exec(c, s, RestoreActs(s, orphans, f, closes)) == RestoreNext(s, orphans, f, closes)
  {
    hide CanRun, Exec, Apply, Enabled, ClosesNext, ClosesOk, ClosesActs, DoReconcile, DoReinstate, J.Live, Q.Orphans;
    var s1 := s.(pc := Recovering(J.Live(s.journal)));
    var s2 := DoReconcile(s1, orphans, f);
    RestoreSteps(c, s, orphans, f);
    RunTwo(c, s, Start, Reconcile(orphans, f));
    ClosesAreRun(c, s2, closes);
    var acts := [Start, Reconcile(orphans, f)];
    RunConcat(c, s, acts, ClosesActs(closes));
    if ClosesNext(s2, closes).pc.Closing? {
      ReinstateStep(c, ClosesNext(s2, closes));
      RunSnoc(c, s, acts + ClosesActs(closes), Reinstate);
    }
  }
}
