/**
 The lease engine as an object over a backend, a journal and an expiration heap.
 Every method is proved equal to one of the whole-state functions of
 `Operations`, each of which is a run of the protocol. Arguments stand for the
 environment: fresh IDs, the clock, and the fault met by each call.
 */
module EngineModel {
  import opened Types
  import opened Protocol
  import opened Operations
  import Q = Queue
  import J = Journal
  import MB = MemoryBackend
  import H = ExpirationHeap
  import W = Wal
  import R = Recovery
  import F = Frames
  import S = Schedule
  import G = Reaping

  const DEFAULT_RETRY_DELAY := 1_000_000_000

  /** The record an ack writes, which depends on whether the backend still has the fence. */
  function AckRecordOf(s: State, lid: LeaseId): Record {
    CloseRecord(if lid in s.leases && HoldsLease(s.store, s.leases[lid]) then Op.Ack else Stale, lid)
  }

  lemma ItemsOfSnoc(leases: map<LeaseId, Lease>, l: LeaseId, x: Lease)
    requires l !in leases
    ensures ItemsOf(leases[l := x]) == ItemsOf(leases) + multiset{Item(l, x.expiresAt)}
  {
    var more := leases[l := x];
    var a := set k | k in leases :: Item(k, leases[k].expiresAt);
    var b := set k | k in more :: Item(k, more[k].expiresAt);
    var i := Item(l, x.expiresAt);
    assert i !in a;
    forall y ensures y in b <==> y in a || y == i {
      if y in a {
        assert y.lease in leases && y.lease in more;
      }
      if y == i {
        assert l in more;
      }
    }
    assert b == a + {i};
    SetSnoc(a, i);
  }

  lemma ReinstateNone(live: J.LiveMap, matched: set<LeaseId>)
    ensures LeasesOf(live, matched - live.Keys) == map[] && ItemsOf(map[]) == multiset{}
  {
  }

  /** One turn of the loop that puts matched leases back. */
  lemma ReinstateOne(live: J.LiveMap, matched: set<LeaseId>, todo: set<LeaseId>, l: LeaseId)
    requires J.Filed(live) && l in todo && todo <= live.Keys
    ensures
      var was, now, x := LeasesOf(live, matched - todo), LeasesOf(live, matched - (todo - {l})), LeaseOf(live[l]);
      && x.id == l
      && (l !in matched ==> now == was)
      && (l in matched ==> now == was[l := x] && ItemsOf(now) == ItemsOf(was) + multiset{Item(l, x.expiresAt)})
  {
    var was := LeasesOf(live, matched - todo);
    if l in matched {
      ItemsOfSnoc(was, l, LeaseOf(live[l]));
    }
  }

  lemma SetSnoc(a: set<Item>, i: Item)
    requires i !in a
    ensures multiset(a + {i}) == multiset(a) + multiset{i}
  {
  }

  /** Stale records fit in a frame, whatever the lease. */
  ghost predicate StalesFit(codec: F.Codec) { forall l :: codec.Fits(CloseRecord(Stale, l)) }

  /** The writes recorded for the stale records are those the journal made of `writes`. */
  ghost predicate ClosesFollow(closes: seq<(LeaseId, Write)>, writes: LeaseId -> Write, open: bool, codec: F.Codec) {
    forall i :: 0 <= i < |closes| ==>
      closes[i].1 == if open && codec.Fits(CloseRecord(Stale, closes[i].0)) then writes(closes[i].0) else Lost
  }

  lemma ClosesFollowNil(writes: LeaseId -> Write, open: bool, codec: F.Codec)
    ensures ClosesFollow([], writes, open, codec)
  {
  }

  lemma ClosesFollowSnoc(closes: seq<(LeaseId, Write)>, l: LeaseId, w: Write, writes: LeaseId -> Write, open: bool,
                         codec: F.Codec)
    requires ClosesFollow(closes, writes, open, codec)
    requires w == if open && codec.Fits(CloseRecord(Stale, l)) then writes(l) else Lost
    ensures ClosesFollow(closes + [(l, w)], writes, open, codec)
  {
  }

  /** The journal is open and has room for whatever record closes `l`. */
  ghost predicate RoomFor(l: LeaseId, open: bool, codec: F.Codec) {
    && open
    && codec.Fits(CloseRecord(Op.Expire, l))
    && codec.Fits(CloseRecord(Op.DeadLetter, l))
    && codec.Fits(CloseRecord(Stale, l))
  }

  ghost predicate Room(leases: set<LeaseId>, open: bool, codec: F.Codec) {
    forall l :: l in leases ==> RoomFor(l, open, codec)
  }

  lemma FollowNil(faults: nat -> Fault, writes: nat -> Write, room: bool)
    ensures Engine.TurnsFollow([], faults, writes, room)
  {
  }

  lemma FollowSnoc(turns: seq<Turn>, t: Turn, faults: nat -> Fault, writes: nat -> Write, room: bool)
    requires Engine.TurnsFollow(turns, faults, writes, room) && t.fault == faults(|turns|)
    requires t.write == writes(|turns|) || (t.write == Lost && !room)
    ensures Engine.TurnsFollow(turns + [t], faults, writes, room)
  {
  }

  /** What an error-free reap means, without its turns. */
  lemma ReapMeans(c: Config, s: State, now: int, turns: seq<Turn>, faults: nat -> Fault, writes: nat -> Write,
                  room: bool)
    requires s.pc.Idle? && ReapOk(c, s, now, turns) && Engine.TurnsFollow(turns, faults, writes, room)
    ensures
      var ok, s' := TurnsNext(c, s.(pc := Reaping(now)), turns).pc.Reaping?, ReapNext(c, s, now, turns);
      && (Engine.NoFaults(faults, writes) && room ==> ok)
      && (ok && c.retryDelay > 0 && S.Scheduling(c, s) ==> G.Settled(c, s, s'))
      && (ok && c.retryDelay > 0 && S.Scheduling(c, s) && G.NoPendingRetry(s) ==>
            && s'.leases == (map l | l in s.leases && s.leases[l].expiresAt > now :: s.leases[l])
            && |s.leases| - |s'.leases| == |set l | l in s.leases && s.leases[l].expiresAt <= now|)
  {
    hide TurnsNext, TurnsOk, S.Scheduling, G.Settled, G.NoPendingRetry, G.Shrunk;
    if Engine.NoFaults(faults, writes) && room {
      G.CleanTurns(c, s.(pc := Reaping(now)), turns);
    }
    if TurnsNext(c, s.(pc := Reaping(now)), turns).pc.Reaping? && c.retryDelay > 0 && S.Scheduling(c, s) {
      G.ReapEqualsScan(c, s, now, turns);
      DueAndNot(s.leases, now);
    }
  }

  lemma DueAndNot(leases: map<LeaseId, Lease>, now: int)
    ensures |leases| == |G.NotDue(leases, now)| + |set l | l in leases && leases[l].expiresAt <= now|
  {
    var due := set l | l in leases && leases[l].expiresAt <= now;
    assert leases.Keys == G.NotDue(leases, now).Keys + due;
  }

  class Engine {
    const config: Config
    const backend: MB.MemoryQueue
    const journal: W.Log
    const expirations: H.Heap
    var leases: map<LeaseId, Lease>
    var recoveryErr: bool
    ghost var hist: History
    ghost var orphans: seq<TaskId>                 // order in which recovery returned orphans
    ghost var closes: seq<(LeaseId, Write)>        // stale records recovery wrote

    /** Leases are filed under their IDs, and the parts are well formed. */
    ghost predicate Valid() reads this, journal, expirations {
      && journal.Valid() && expirations.Valid()
      && forall l :: l in leases ==> leases[l].id == l
    }

    /** The protocol state this object is in, at the given point of an operation. */
    ghost function At(pc: Pc): State reads this, backend, journal, expirations {
      State(backend.Contents(), journal.records, leases, multiset(expirations.items), pc, hist)
    }

    /** The protocol state between operations. */
    ghost function Abs(): State reads this, backend, journal, expirations {
      At(if recoveryErr then Failed else Idle)
    }

    /** The state a restarted process finds: durable parts only. */
    static ghost function Boot(backend: MB.MemoryQueue, journal: W.Log, hist: History): State
      reads backend, journal
    {
      State(backend.Contents(), journal.records, map[], multiset{}, Down, hist)
    }

    /** Builds an engine over what an earlier process left behind, and recovers its leases. */
    constructor (maxAttempts: int, retryDelay: int, backend: MB.MemoryQueue, journal: W.Log,
                 recovered: seq<Record>, f: Fault, writes: LeaseId -> Write, ghost hist: History)
      requires journal.Valid() && recovered == journal.records
      modifies backend, journal
      ensures Valid() && this.backend == backend && this.journal == journal
      ensures config == Config(maxAttempts, if retryDelay <= 0 then 1_000_000_000 else retryDelay)
      ensures RestoreOk(old(Boot(backend, journal, hist)), orphans, f, closes)
      ensures Abs() == RestoreNext(old(Boot(backend, journal, hist)), orphans, f, closes)
      ensures f == Clean && old(journal.open) && (forall l :: writes(l) == Durable) && StalesFit(journal.codec) ==>
        !recoveryErr
    {
      config := Config(maxAttempts, if retryDelay <= 0 then DEFAULT_RETRY_DELAY else retryDelay);
      this.backend, this.journal := backend, journal;
      expirations := new H.Heap();
      leases, recoveryErr := map[], false;
      this.hist, orphans, closes := hist, [], [];
      new;
      Restore(recovered, f, writes);
    }

    /** Reconciles the backend with the journal's open leases, then closes or reinstates each lease. */
    method Restore(records: seq<Record>, f: Fault, writes: LeaseId -> Write)
      requires Valid() && !recoveryErr && leases == map[] && expirations.items == [] && records == journal.records
      modifies this, backend, journal, expirations
      ensures Valid()
      ensures RestoreOk(old(At(Down)), orphans, f, closes)
      ensures Abs() == RestoreNext(old(At(Down)), orphans, f, closes)
      ensures journal.open == old(journal.open) && ClosesFollow(closes, writes, journal.open, journal.codec)
      ensures f == Clean && journal.open && (forall l :: writes(l) == Durable) && StalesFit(journal.codec) ==>
        !recoveryErr
    {
      hide F.Replay, ClosesNext, ClosesOk, H.Ordered, Q.Orphans, Q.Matched, Q.Reconcile, DoReinstate, J.Live;
      hide StalesFit, ClosesFollow;
      ghost var s := At(Down);
      var live := J.ComputeLive(records);
      var fences := FencesOf(live);
      closes := [];
      ClosesFollowNil(writes, journal.open, journal.codec);
      if f == Before {
        orphans := R.EnumerationExists(Q.Orphans(s.store, Fences(live)));
        recoveryErr := true;
        ClosesNil(DoReconcile(s.(pc := Recovering(live)), orphans, f));
        return;
      }
      var moved, matched, order := backend.RecoverOrphanedProcessing(fences);
      orphans := order;
      ghost var s1 := DoReconcile(s.(pc := Recovering(live)), orphans, f);
      ClosesNil(s1);
      if f == After {
        recoveryErr := true;
        return;
      }
      var ok := CloseUnmatched(live, matched, writes);
      if !ok {
        recoveryErr := true;
        return;
      }
      J.LiveFiled(records);
      ReinstateMatched(live, matched);
    }

    method FencesOf(live: J.LiveMap) returns (fences: seq<Fence>)
      ensures MB.FenceSet(fences) == Fences(live)
    {
      fences := [];
      var todo := live.Keys;
      while todo != {}
        invariant todo <= live.Keys
        invariant forall x :: x in fences <==> exists l :: l in live && l !in todo && x == Fence(live[l].task.id, l)
        decreases todo
      {
        var l :| l in todo;
        todo := todo - {l};
        fences := fences + [Fence(live[l].task.id, l)];
      }
    }

    /** Journals a stale record for each open lease that matched nothing, until one fails. */
    method CloseUnmatched(live: J.LiveMap, matched: set<LeaseId>, writes: LeaseId -> Write) returns (ok: bool)
      requires Valid() && closes == []
      modifies this`closes, journal
      ensures Valid()
      ensures
        var s := old(At(Closing(live, matched, live.Keys - matched)));
        ClosesOk(s, closes) && ClosesNext(s, closes) == At(if ok then Closing(live, matched, {}) else Failed)
      ensures journal.open == old(journal.open) && ClosesFollow(closes, writes, journal.open, journal.codec)
      ensures ok <==> forall i :: 0 <= i < |closes| ==> closes[i].1 == Durable
      ensures journal.open && (forall l :: writes(l) == Durable) && StalesFit(journal.codec) ==> ok
    {
      hide F.Replay, ClosesNext, ClosesOk, H.Ordered, ClosesFollow;
      ClosesFollowNil(writes, journal.open, journal.codec);
      var todo := live.Keys - matched;
      ghost var s := At(Closing(live, matched, todo));
      ClosesNil(s);
      while todo != {}
        invariant Valid()
        invariant ClosesOk(s, closes) && ClosesNext(s, closes) == At(Closing(live, matched, todo))
        invariant journal.open == old(journal.open) && ClosesFollow(closes, writes, journal.open, journal.codec)
        invariant forall i :: 0 <= i < |closes| ==> closes[i].1 == Durable
        decreases todo
      {
        var l :| l in todo;
        ghost var w := journal.Outcome(CloseRecord(Stale, l), writes(l));
        ClosesSnoc(s, closes, l, w);
        ClosesFollowSnoc(closes, l, w, writes, journal.open, journal.codec);
        ok := journal.Append(CloseRecord(Stale, l), writes(l));
        closes := closes + [(l, w)];
        if !ok {
          return false;
        }
        todo := todo - {l};
      }
      return true;
    }

    /** Puts each matched lease back in memory, scheduled at its original deadline. */
    method ReinstateMatched(live: J.LiveMap, matched: set<LeaseId>)
      requires Valid() && leases == map[] && expirations.items == [] && J.Filed(live)
      modifies this`leases, expirations
      ensures Valid()
      ensures At(Idle) == DoReinstate(old(At(Closing(live, matched, {}))))
    {
      hide F.Replay, H.Ordered, ItemsOf, LeasesOf;
      var todo := live.Keys;
      ReinstateNone(live, matched);
      while todo != {}
        invariant todo <= live.Keys && Valid()
        invariant leases == LeasesOf(live, matched - todo)
        invariant multiset(expirations.items) == ItemsOf(leases)
        decreases todo
      {
        var l :| l in todo;
        ReinstateOne(live, matched, todo, l);
        todo := todo - {l};
        if l in matched {
          var lease := LeaseOf(live[l]);
          leases := leases[lease.id := lease];
          expirations.Push(Item(lease.id, lease.expiresAt));
        }
      }
      assert matched - todo == matched;
    }

    method Enqueue(payload: seq<Byte>, id: TaskId, f: Fault) returns (r: Option<Task>)
      requires Valid()
      modifies this`hist, backend
      ensures Valid() && Abs() == EnqueueNext(old(Abs()), id, payload, f)
      ensures r == if recoveryErr || f != Clean then None else Some(Task(id, payload, 0))
    {
      if recoveryErr {
        return None;
      }
      hist := EnqueueNext(Abs(), id, payload, f).hist;
      var task := Task(id, payload, 0);
      if f != Before {
        backend.Enqueue(task);
      }
      return if f != Clean then None else Some(task);
    }

    /** What the journal makes of the fetch record for the head of the ready queue. */
    function FetchWrite(lid: LeaseId, clock: int, timeout: int, w: Write): Write
      reads backend, journal
    {
      if backend.ready == [] then w
      else journal.Outcome(FetchRecord(Lease(lid, backend.ready[0], clock, clock + timeout)), w)
    }

    method Fetch(timeout: int, clock: int, lid: LeaseId, fa: Fault, w: Write, fr: Fault) returns (r: FetchAnswer)
      requires Valid()
      modifies this`leases, this`hist, backend, journal, expirations
      ensures Valid()
      ensures
        var s, w' := old(Abs()), old(FetchWrite(lid, clock, timeout, w));
        && Abs() == FetchNext(s, lid, clock, timeout, fa, w', fr)
        && r == FetchAnswerOf(s, lid, clock, timeout, fa, w', fr)
    {
      if timeout <= 0 {
        return InvalidTimeout;
      }
      if recoveryErr {
        return FetchNotRecovered;
      }
      r := Grant(timeout, clock, lid, fa, w, fr, Abs(), FetchWrite(lid, clock, timeout, w));
    }

    /** Fetch on a recovered engine: acquire, then journal, then publish. */
    method Grant(timeout: int, clock: int, lid: LeaseId, fa: Fault, w: Write, fr: Fault,
                 ghost s: State, ghost w': Write)
      returns (r: FetchAnswer)
      requires Valid() && timeout > 0 && !recoveryErr
      requires s == Abs() && w' == FetchWrite(lid, clock, timeout, w)
      modifies this`leases, this`hist, backend, journal, expirations
      ensures Valid()
      ensures Abs() == FetchNext(s, lid, clock, timeout, fa, w', fr)
      ensures r == FetchAnswerOf(s, lid, clock, timeout, fa, w', fr)
    {
      hide F.Replay, FetchNext, FetchAnswerOf, Q.Acquire, Q.Requeue, H.Ordered;
      hist := FetchNext(s, lid, clock, timeout, fa, w', fr).hist;
      var acquired := TakeTask(lid, fa);
      if fa != Clean {
        FetchStops(s, lid, clock, timeout, fa, w', fr, Abs());
        return AcquireFailed;
      }
      if acquired.None? {
        FetchStops(s, lid, clock, timeout, fa, w', fr, Abs());
        return QueueEmpty;
      }
      var lease := Lease(lid, acquired.value, clock, clock + timeout);
      var ok := Publish(lease, w, fr);
      FetchEnds(s, lid, clock, timeout, w', fr, lease, Abs());
      return if ok then Leased(lease) else NotJournalled(fr == Clean);
    }

    /** Journals the lease, then makes it visible; a failed append hands the task back instead. */
    method Publish(lease: Lease, w: Write, fr: Fault) returns (ok: bool)
      requires Valid()
      modifies this`leases, backend, journal, expirations
      ensures Valid()
      ensures ok == (old(journal.Outcome(FetchRecord(lease), w)) == Durable)
      ensures journal.records ==
              Logged(old(journal.records), FetchRecord(lease), old(journal.Outcome(FetchRecord(lease), w)))
      ensures backend.Contents() ==
              if ok || fr == Before then old(backend.Contents())
              else Q.Requeue(old(backend.Contents()), lease.task.id, lease.id)
      ensures leases == if ok then old(leases)[lease.id := lease] else old(leases)
      ensures multiset(expirations.items) ==
              multiset(old(expirations.items)) + if ok then multiset{Item(lease.id, lease.expiresAt)} else multiset{}
    {
      hide F.Replay, Q.Requeue, H.Ordered;
      ok := journal.Append(FetchRecord(lease), w);
      if !ok {
        if fr != Before {
          var out := backend.Requeue(lease.task.id, lease.id);
        }
        return;
      }
      leases := leases[lease.id := lease];
      expirations.Push(Item(lease.id, lease.expiresAt));
    }

    /** The backend call of a fetch, which may fail before or after it applied. */
    method TakeTask(lid: LeaseId, fa: Fault) returns (r: Option<Task>)
      modifies backend
      ensures r == if fa == Before || old(backend.ready) == [] then None else Some(old(backend.ready)[0])
      ensures backend.Contents() ==
              if fa == Before then old(backend.Contents()) else Q.Acquire(old(backend.Contents()), lid)
    {
      if fa == Before {
        return None;
      }
      r := backend.Acquire(lid);
    }

    method Ack(lid: LeaseId, f: Fault, w: Write) returns (r: AckAnswer)
      requires Valid()
      modifies this`leases, this`hist, backend, journal
      ensures Valid()
      ensures
        var s, w' := old(Abs()), old(journal.Outcome(AckRecordOf(Abs(), lid), w));
        Abs() == AckNext(s, lid, f, w') && r == AckAnswerOf(s, lid, f, w')
    {
      if recoveryErr {
        return AckNotRecovered;
      }
      if lid !in leases {
        return LeaseNotFound;
      }
      r := Settle(lid, f, w, Abs(), journal.Outcome(AckRecordOf(Abs(), lid), w));
    }

    /** Ack of an active lease: complete, then journal, then forget. */
    method Settle(lid: LeaseId, f: Fault, w: Write, ghost s: State, ghost w': Write) returns (r: AckAnswer)
      requires Valid() && !recoveryErr && lid in leases
      requires s == Abs() && w' == journal.Outcome(AckRecordOf(s, lid), w)
      modifies this`leases, this`hist, backend, journal
      ensures Valid()
      ensures Abs() == AckNext(s, lid, f, w') && r == AckAnswerOf(s, lid, f, w')
    {
      hide F.Replay, H.Ordered;
      hist := AckNext(s, lid, f, w').hist;
      var lease := leases[lid];
      var out := FinishTask(lease, f);
      if f != Clean {
        return CompleteFailed;
      }
      var ok := journal.Append(CloseRecord(if out.Ok? then Op.Ack else Stale, lid), w);
      if !ok {
        return AckNotJournalled;
      }
      leases := leases - {lid};
      return if out.Ok? then AckDone else LeaseNotFound;
    }

    /** The backend call of an ack, which may fail before or after it applied. */
    method FinishTask(lease: Lease, f: Fault) returns (r: Q.Outcome)
      modifies backend
      ensures f != Before ==> r == Q.Check(old(backend.Contents()), lease.task.id, lease.id)
      ensures backend.Contents() ==
              if f == Before then old(backend.Contents())
              else Q.Complete(old(backend.Contents()), lease.task.id, lease.id)
    {
      if f == Before {
        return Q.Outcome.Ok;
      }
      r := backend.Complete(lease.task.id, lease.id);
    }

    /** What the journal makes of the record that closes an expired lease. */
    function ExpireWrite(lease: Lease, w: Write): (r: Write)
      reads backend, journal
      ensures r == w || (r == Lost && !RoomFor(lease.id, journal.open, journal.codec))
    {
      journal.Outcome(CloseRecord(ExpiryOp(config, backend.Contents(), lease), lease.id), w)
    }

    /** Expires one due lease whose entry has just left the heap; on error, schedules one retry. */
    method ExpireLease(now: int, lease: Lease, f: Fault, w: Write) returns (ok: bool)
      requires Valid() && lease.id in leases && leases[lease.id] == lease
      modifies this`leases, this`hist, backend, journal, expirations
      ensures Valid()
      ensures At(if ok then Reaping(now) else Idle) ==
              ExpireNext(config, old(At(Expiring(now, lease))), f, old(ExpireWrite(lease, w)))
      ensures leases == if ok then old(leases) - {lease.id} else old(leases)
      ensures ok ==> expirations.items == old(expirations.items)
      ensures journal.open == old(journal.open)
    {
      hide F.Replay;
      hist := ExpireNext(config, At(Expiring(now, lease)), f, ExpireWrite(lease, w)).hist;
      ok := Transition(lease, f, w);
      if !ok {
        expirations.Push(Item(lease.id, now + config.retryDelay));
        return;
      }
      leases := leases - {lease.id};
    }

    /** Requeues or buries the task, then closes the journal record. */
    method Transition(lease: Lease, f: Fault, w: Write) returns (ok: bool)
      requires journal.Valid()
      modifies backend, journal
      ensures journal.Valid() && journal.open == old(journal.open)
      ensures ok == (f == Clean && old(ExpireWrite(lease, w)) == Durable)
      ensures backend.Contents() ==
              if f == Before then old(backend.Contents()) else ExpiryStore(config, old(backend.Contents()), lease)
      ensures journal.records ==
              if f != Clean then old(journal.records)
              else Logged(old(journal.records),
                          CloseRecord(ExpiryOp(config, old(backend.Contents()), lease), lease.id),
                          old(ExpireWrite(lease, w)))
    {
      hide F.Replay;
      if f == Before {
        return false;
      }
      var op, out := Op.Expire, Q.Outcome.Ok;
      if ShouldDeadLetter(config, lease) {
        op := Op.DeadLetter;
        out := backend.DeadLetter(lease.task.id, lease.id, REASON);
      } else {
        out := backend.Requeue(lease.task.id, lease.id);
      }
      if f == After {
        return false;
      }
      if !out.Ok? {
        op := Stale;
      }
      ok := journal.Append(CloseRecord(op, lease.id), w);
    }

    /** The journal has room for the closing record of every active lease. */
    ghost predicate CanCloseAll() reads this, journal { Room(leases.Keys, journal.open, journal.codec) }

    /** The turns met the given faults, in order, and the journal did as told, or could not take the record. */
    static ghost predicate TurnsFollow(turns: seq<Turn>, faults: nat -> Fault, writes: nat -> Write, room: bool) {
      forall i :: 0 <= i < |turns| ==>
        && turns[i].fault == faults(i)
        && (turns[i].write == writes(i) || (turns[i].write == Lost && !room))
    }

    static ghost predicate NoFaults(faults: nat -> Fault, writes: nat -> Write) {
      (forall i :: faults(i) == Clean) && (forall i :: writes(i) == Durable)
    }

    /** Reaps due leases in heap order until none is due or one fails. */
    method ReapExpired(now: int, faults: nat -> Fault, writes: nat -> Write)
      returns (requeued: nat, ok: bool, ghost turns: seq<Turn>)
      requires Valid()
      modifies this`leases, this`hist, backend, journal, expirations
      ensures Valid()
      ensures recoveryErr ==> Abs() == old(Abs()) && !ok && requeued == 0
      ensures !recoveryErr ==>
        && ReapOk(config, old(Abs()), now, turns)
        && Abs() == ReapNext(config, old(Abs()), now, turns)
        && ok == TurnsNext(config, old(At(Reaping(now))), turns).pc.Reaping?
      ensures requeued == |old(leases)| - |leases|
      ensures TurnsFollow(turns, faults, writes, old(CanCloseAll()))
      ensures !recoveryErr && NoFaults(faults, writes) && old(CanCloseAll()) ==> ok
      ensures !recoveryErr && ok && config.retryDelay > 0 && S.Scheduling(config, old(Abs())) ==>
        G.Settled(config, old(Abs()), Abs())
      ensures !recoveryErr && ok && config.retryDelay > 0 && S.Scheduling(config, old(Abs()))
              && G.NoPendingRetry(old(Abs())) ==>
        && leases == (map l | l in old(leases) && old(leases)[l].expiresAt > now :: old(leases)[l])
        && requeued == |set l | l in old(leases) && old(leases)[l].expiresAt <= now|
    {
      hide F.Replay, H.Ordered, TurnsNext, TurnsOk, S.Scheduling, G.Settled, G.NoPendingRetry;
      turns, requeued := [], 0;
      if recoveryErr {
        return 0, false, turns;
      }
      ghost var s := Abs();
      requeued, ok, turns := ReapLoop(now, faults, writes, At(Reaping(now)), CanCloseAll());
      if ok {
        hist := DoReapEnd(At(Reaping(now))).hist;
      }
      ReapMeans(config, s, now, turns, faults, writes, old(CanCloseAll()));
    }

    /** The reaper's loop. */
    method ReapLoop(now: int, faults: nat -> Fault, writes: nat -> Write, ghost s: State, ghost room: bool)
      returns (requeued: nat, ok: bool, ghost turns: seq<Turn>)
      requires Valid() && s == At(Reaping(now)) && (room ==> CanCloseAll())
      modifies this`leases, this`hist, backend, journal, expirations
      ensures Valid()
      ensures TurnsOk(config, s, turns) && TurnsNext(config, s, turns) == At(if ok then Reaping(now) else Idle)
      ensures ok ==> forall i :: i in expirations.items ==> i.at > now
      ensures requeued == |s.leases| - |leases|
      ensures TurnsFollow(turns, faults, writes, room)
    {
      hide F.Replay, H.Ordered, TurnNext, TurnsNext, TurnsOk, Room, TurnsFollow;
      turns, requeued := [], 0;
      FollowNil(faults, writes, room);
      TurnsNil(config, s);
      var turn: nat := 0;
      while true
        invariant Valid()
        invariant TurnsOk(config, s, turns) && TurnsNext(config, s, turns) == At(Reaping(now))
        invariant requeued == |s.leases| - |leases|
        invariant turn == |turns| && TurnsFollow(turns, faults, writes, room)
        invariant room ==> CanCloseAll()
        decreases |expirations.items|
      {
        var next := expirations.Peek();
        if next.None? || next.value.at > now {
          return requeued, true, turns;
        }
        ghost var t;
        var more;
        more, ok, t := TakeTurn(now, faults(turn), writes(turn), next.value, At(Reaping(now)), room);
        TurnsSnoc(config, s, turns, t);
        FollowSnoc(turns, t, faults, writes, room);
        turns := turns + [t];
        turn := turn + 1;
        requeued := requeued + more;
        if !ok {
          return requeued, false, turns;
        }
      }
    }

    /** Pops the next entry and expires its lease, unless the lease is gone. */
    method TakeTurn(now: int, f: Fault, w: Write, top: Item, ghost s: State, ghost room: bool)
      returns (requeued: nat, ok: bool, ghost t: Turn)
      requires Valid() && s == At(Reaping(now)) && (room ==> CanCloseAll())
      requires expirations.items != [] && expirations.items[0] == top && top.at <= now
      modifies this`leases, this`hist, backend, journal, expirations
      ensures Valid()
      ensures t.item == top && At(if ok then Reaping(now) else Idle) == TurnNext(config, s, t)
      ensures requeued == |s.leases| - |leases|
      ensures ok ==> |expirations.items| < |old(expirations.items)|
      ensures t.fault == f && (t.write == w || (t.write == Lost && !room)) && (room ==> CanCloseAll())
    {
      hide F.Replay, H.Ordered, TurnNext, ExpireNext, Room;
      var item := expirations.Pop();
      t := Turn(item, f, w);
      assert At(Reaping(now)) == s.(heap := s.heap - multiset{item});
      if item.lease !in leases || leases[item.lease].expiresAt > now {
        TurnSkips(config, s, t);
        return 0, true, t;
      }
      var lease := leases[item.lease];
      ghost var w' := ExpireWrite(lease, w);
      t := Turn(item, f, w');
      TurnExpires(config, s, t, lease);
      ok := ExpireInRoom(now, lease, f, w, At(Expiring(now, lease)), w', room);
      requeued := if ok then 1 else 0;
    }

    /** Expiry, and the room it leaves in the journal. */
    method ExpireInRoom(now: int, lease: Lease, f: Fault, w: Write, ghost s: State, ghost w': Write, ghost room: bool)
      returns (ok: bool)
      requires Valid() && lease.id in leases && leases[lease.id] == lease
      requires s == At(Expiring(now, lease)) && w' == ExpireWrite(lease, w) && (room ==> CanCloseAll())
      modifies this`leases, this`hist, backend, journal, expirations
      ensures Valid() && At(if ok then Reaping(now) else Idle) == ExpireNext(config, s, f, w')
      ensures leases == if ok then s.leases - {lease.id} else s.leases
      ensures ok ==> expirations.items == old(expirations.items)
      ensures (w' == w || (w' == Lost && !room)) && (room ==> CanCloseAll())
    {
      hide F.Replay, H.Ordered, ExpireNext;
      ok := ExpireLease(now, lease, f, w);
    }
  }
}
