/**
 Whole histories of calls on the engine: every list of public operations and
 restarts, with process deaths between them and inside them, is a run of the
 protocol, so every run theorem speaks about the engine.
 */
module Calls {
  import opened Types
  import opened Protocol
  import opened Operations
  import opened Conservation
  import opened Leasing
  import opened Schedule
  import opened Agreement
  import D = Delivery

  datatype Operation =
    | Enqueues(id: TaskId, payload: seq<Byte>, fault: Fault)
    | Fetches(lid: LeaseId, clock: int, timeout: int, acquire: Fault, write: Write, requeue: Fault)
    | Acks(lid: LeaseId, fault: Fault, write: Write)
    | Reaps(clock: int, turns: seq<Turn>)
    | Restarts(orphans: seq<TaskId>, fault: Fault, closes: seq<(LeaseId, Write)>)

  /** An operation that returns, one whose process dies after some of its steps, or a death between operations. */
  datatype Call = Returns(op: Operation) | DiesIn(op: Operation, steps: nat) | Dies

  /** The operation can start: IDs are fresh, the process is alive or down as it needs. */
  ghost predicate CanStart(c: Config, s: State, op: Operation) {
    match op
    case Enqueues(id, _, _) => id !in s.hist.accepted
    case Fetches(lid, _, _, _, _, _) => FreshLease(s, lid)
    case Acks(_, _, _) => true
    case Reaps(clock, turns) => s.pc.Idle? && ReapOk(c, s, clock, turns)
    case Restarts(orphans, f, closes) => RestoreOk(s, orphans, f, closes)
  }

  /** The steps of an operation that runs to its end. */
  ghost function Steps(c: Config, s: State, op: Operation): seq<Action>
    requires CanStart(c, s, op)
  {
    match op
    case Enqueues(id, payload, f) => if s.pc.Idle? then [Enqueue(id, payload, f)] else []
    case Fetches(lid, clock, timeout, fa, w, fr) => FetchActs(s, lid, clock, timeout, fa, w, fr)
    case Acks(lid, f, w) => AckActs(s, lid, f, w)
    case Reaps(clock, turns) => ReapActs(c, s, clock, turns)
    case Restarts(orphans, f, closes) => RestoreActs(s, orphans, f, closes)
  }

  /** The state in which a finished operation returns. */
  ghost function Outcome(c: Config, s: State, op: Operation): State
    requires CanStart(c, s, op)
  {
    match op
    case Enqueues(id, payload, f) => EnqueueNext(s, id, payload, f)
    case Fetches(lid, clock, timeout, fa, w, fr) => FetchNext(s, lid, clock, timeout, fa, w, fr)
    case Acks(lid, f, w) => AckNext(s, lid, f, w)
    case Reaps(clock, turns) => ReapNext(c, s, clock, turns)
    case Restarts(orphans, f, closes) => RestoreNext(s, orphans, f, closes)
  }

  /** Each operation is a run of the protocol that does not touch journal records already on disk. */
  lemma OperationIsRun(c: Config, s: State, op: Operation)
    requires CanStart(c, s, op)
    ensures CanRun(c, s, Steps(c, s, op)) && Exec(c, s, Steps(c, s, op)) == Outcome(c, s, op)
    ensures Intact(Steps(c, s, op))
  {
    hide CanRun, Exec, Apply, Enabled, TurnsNext, TurnsOk, ClosesNext, ClosesOk, FetchNext, AckNext;
    match op
    case Enqueues(id, payload, f) => EnqueueIsRun(c, s, id, payload, f);
    case Fetches(lid, clock, timeout, fa, w, fr) => FetchIsRun(c, s, lid, clock, timeout, fa, w, fr);
    case Acks(lid, f, w) => AckIsRun(c, s, lid, f, w);
    case Reaps(clock, turns) => ReapIsRun(c, s, clock, turns);
    case Restarts(orphans, f, closes) => RestoreIsRun(c, s, orphans, f, closes);
  }

  lemma EnqueueIsRun(c: Config, s: State, id: TaskId, payload: seq<Byte>, f: Fault)
    requires id !in s.hist.accepted
    ensures var acts := if s.pc.Idle? then [Enqueue(id, payload, f)] else [];
      CanRun(c, s, acts) && Exec(c, s, acts) == EnqueueNext(s, id, payload, f)
  {
    if s.pc.Idle? {
      RunOne(c, s, Enqueue(id, payload, f));
    }
  }

  lemma {:induction false} RunPrefix(c: Config, s: State, acts: seq<Action>, k: nat)
    requires CanRun(c, s, acts) && k <= |acts|
    ensures CanRun(c, s, acts[..k])
    decreases k
  {
    if k > 0 {
      RunPrefix(c, Apply(c, s, acts[0]), acts[1..], k - 1);
      assert acts[..k][1..] == acts[1..][..k - 1];
    }
  }

  /** Where the process is after the first `k` steps of an operation. */
  ghost function Partway(c: Config, s: State, op: Operation, k: nat): State
    requires CanStart(c, s, op) && k <= |Steps(c, s, op)|
  {
    OperationIsRun(c, s, op);
    RunPrefix(c, s, Steps(c, s, op), k);
    Exec(c, s, Steps(c, s, op)[..k])
  }

  ghost predicate Possible(c: Config, s: State, k: Call) {
    match k
    case Returns(op) => CanStart(c, s, op)
    case DiesIn(op, n) => CanStart(c, s, op) && n <= |Steps(c, s, op)| && !Partway(c, s, op, n).pc.Down?
    case Dies => !s.pc.Down?
  }

  ghost function Following(c: Config, s: State, k: Call): State
    requires Possible(c, s, k)
  {
    match k
    case Returns(op) => Outcome(c, s, op)
    case DiesIn(op, n) => DoCrash(Partway(c, s, op, n))
    case Dies => DoCrash(s)
  }

  lemma CallIsRun(c: Config, s: State, k: Call) returns (acts: seq<Action>)
    requires Possible(c, s, k)
    ensures CanRun(c, s, acts) && Exec(c, s, acts) == Following(c, s, k) && Intact(acts)
  {
    hide CanRun, Exec, Steps, CanStart, Outcome;
    match k
    case Returns(op) =>
      OperationIsRun(c, s, op);
      acts := Steps(c, s, op);
    case DiesIn(op, n) =>
      OperationIsRun(c, s, op);
      acts := Steps(c, s, op)[..n];
      RunPrefix(c, s, Steps(c, s, op), n);
      RunSnoc(c, s, acts, Crash);
      acts := acts + [Crash];
    case Dies =>
      RunOne(c, s, Crash);
      acts := [Crash];
  }

  ghost predicate CanCall(c: Config, s: State, calls: seq<Call>)
    decreases |calls|
  {
    calls == [] || (Possible(c, s, calls[0]) && CanCall(c, Following(c, s, calls[0]), calls[1..]))
  }

  ghost function AfterAll(c: Config, s: State, calls: seq<Call>): State
    requires CanCall(c, s, calls)
    decreases |calls|
  {
    if calls == [] then s else AfterAll(c, Following(c, s, calls[0]), calls[1..])
  }

  lemma {:induction false} HistoryIsRun(c: Config, s: State, calls: seq<Call>) returns (acts: seq<Action>)
    requires CanCall(c, s, calls)
    ensures CanRun(c, s, acts) && Exec(c, s, acts) == AfterAll(c, s, calls) && Intact(acts)
    decreases |calls|
  {
    hide CanRun, Exec, Possible, Following;
    if calls == [] {
      acts := [];
      RunNone(c, s);
    } else {
      acts := CallIsRun(c, s, calls[0]);
      var rest := HistoryIsRun(c, Following(c, s, calls[0]), calls[1..]);
      RunConcat(c, s, acts, rest);
      acts := acts + rest;
    }
  }

  lemma RunNone(c: Config, s: State)
    ensures CanRun(c, s, []) && Exec(c, s, []) == s
  {
  }

  /**
   What every history of calls from the empty system keeps: tasks are conserved,
   acks are at most one per task, journal and backend support every published
   lease, every active lease is scheduled once, and journal and memory agree.
   */
  lemma EveryHistory(c: Config, calls: seq<Call>)
    requires c.retryDelay > 0 && CanCall(c, INIT, calls)
    ensures var s := AfterAll(c, INIT, calls);
      && Sound(s) && AckOnce(s) && Scheduling(c, s) && Agree(s)
      && (c.maxAttempts > 0 ==> forall t :: D.Deliveries(s.hist.published, t) <= c.maxAttempts)
  {
    var acts := HistoryIsRun(c, INIT, calls);
    InitKeeps(c);
    RunKeeps(c, acts);
  }

  lemma InitKeeps(c: Config)
    ensures Sound(INIT) && AckOnce(INIT) && Scheduling(c, INIT) && Agree(INIT)
  {
  }

  lemma RunKeeps(c: Config, acts: seq<Action>)
    requires c.retryDelay > 0 && CanRun(c, INIT, acts) && Intact(acts)
    requires Sound(INIT) && AckOnce(INIT) && Scheduling(c, INIT) && Agree(INIT)
    ensures var s := Exec(c, INIT, acts);
      && Sound(s) && AckOnce(s) && Scheduling(c, s) && Agree(s)
      && (c.maxAttempts > 0 ==> forall t :: D.Deliveries(s.hist.published, t) <= c.maxAttempts)
  {
    hide CanRun, Exec, Sound, AckOnce, Scheduling, Agree;
    SoundOverRuns(c, INIT, acts);
    assert Conserved(INIT) by { SoundIsConserved(INIT); }
    ConservationOverRuns(c, INIT, acts);
    SchedulingOverRuns(c, INIT, acts);
    AgreeOverRuns(c, INIT, acts);
    if c.maxAttempts > 0 {
      forall t ensures D.Deliveries(Exec(c, INIT, acts).hist.published, t) <= c.maxAttempts {
        D.DeliveryBound(c, acts, t);
      }
    }
  }

  lemma SoundIsConserved(s: State)
    requires Sound(s)
    ensures Conserved(s)
  {
  }
}
