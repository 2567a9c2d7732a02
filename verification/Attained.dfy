/** The delivery bound is exact: some run delivers one task MaxAttempts times. */
module Attained {
  import opened Types
  import opened Protocol
  import opened Operations
  import opened Delivery
  import Q = Queue
  import J = Journal

  const ID: TaskId := "t"

  function LeaseName(k: nat): LeaseId { seq(k, i => 'l') }

  /** After `k` deliveries that all expired: the task is ready again and nothing else is going on. */
  ghost predicate Rested(s: State, k: nat) {
    && s.pc.Idle? && s.store == Q.Store([Task(ID, [], k)], map[], [])
    && s.leases == map[] && s.heap == multiset{} && J.Live(s.journal) == map[]
    && Deliveries(s.hist.published, ID) == k
    && forall l :: l in s.hist.origin ==> |l| < k
  }

  function TheLease(k: nat): Lease { Lease(LeaseName(k), Task(ID, [], k), 0, 1) }

  ghost function Fetched(s: State, k: nat): State {
    FetchNext(s, LeaseName(k), 0, 1, Clean, Durable, Clean)
  }

  lemma NameIsFresh(s: State, k: nat)
    requires Rested(s, k)
    ensures FreshLease(s, LeaseName(k))
  {
  }

  /** The task is out under its `k`th lease. */
  ghost predicate Held(s: State, k: nat) {
    var l := TheLease(k);
    && s.pc.Idle? && s.store == Q.Store([], map[ID := Q.Entry(l.task, l.id)], [])
    && s.leases == map[l.id := l] && s.heap == multiset{Item(l.id, 1)}
    && J.Live(s.journal) == map[l.id := FetchRecord(l)]
    && Deliveries(s.hist.published, ID) == k + 1
    && forall m :: m in s.hist.origin ==> |m| < k + 1
  }

  lemma FetchedFields(s: State, k: nat)
    requires Rested(s, k)
    ensures
      var s', l := Fetched(s, k), TheLease(k);
      && s'.pc.Idle? && s'.store == Q.Store([], map[ID := Q.Entry(l.task, l.id)], [])
      && s'.journal == s.journal + [FetchRecord(l)]
      && s'.leases == map[l.id := l] && s'.heap == multiset{Item(l.id, 1)}
      && s'.hist.published == s.hist.published + [l]
      && s'.hist.origin == s.hist.origin[l.id := l]
  {
    hide Deliveries, J.Live;
    var l, s1 := TheLease(k), DoAcquire(s, LeaseName(k), 0, 1, Clean);
    assert s1.pc == Acquired(l);
    assert s.store.ready[1..] == [];
  }

  lemma FetchOnce(s: State, k: nat)
    requires Rested(s, k)
    ensures Held(Fetched(s, k), k)
  {
    hide FetchNext;
    FetchedFields(s, k);
    J.LiveSnoc(s.journal, FetchRecord(TheLease(k)));
    DeliveriesSnoc(s.hist.published, TheLease(k), ID);
    assert |LeaseName(k)| == k;
  }

  function TheTurn(k: nat): Turn { Turn(Item(LeaseName(k), 1), Clean, Durable) }

  /** The only turn of a reap at time 1. */
  lemma TurnOnce(c: Config, s: State, k: nat)
    requires Held(s, k) && k + 1 < c.maxAttempts
    ensures
      var s' := TurnNext(c, s.(pc := Reaping(1)), TheTurn(k));
      && s' == s.(store := Q.Store([Task(ID, [], k + 1)], map[], []),
                  journal := s.journal + [CloseRecord(Expire, LeaseName(k))],
                  leases := map[], heap := multiset{}, pc := Reaping(1))
  {
    hide Deliveries, J.Live;
    var l, t := TheLease(k), TheTurn(k);
    assert s.heap - multiset{t.item} == multiset{};
    assert s.store.processing - {ID} == map[];
    assert s.leases - {l.id} == map[];
    assert ExpiryStore(c, s.store, l) == Q.Store([Task(ID, [], k + 1)], map[], []);
  }

  lemma ReapOnce(c: Config, s: State, k: nat)
    requires Held(s, k) && k + 1 < c.maxAttempts
    ensures ReapOk(c, s, 1, [TheTurn(k)]) && Rested(ReapNext(c, s, 1, [TheTurn(k)]), k + 1)
  {
    hide TurnNext, TurnsNext, TurnsOk;
    var s1, t := s.(pc := Reaping(1)), TheTurn(k);
    TurnsNil(c, s1);
    TurnsSnoc(c, s1, [], t);
    assert [] + [t] == [t];
    TurnOnce(c, s, k);
    J.LiveSnoc(s.journal, CloseRecord(Expire, LeaseName(k)));
  }

  lemma {:induction false} RestedAfter(c: Config, k: nat) returns (acts: seq<Action>)
    requires 0 <= k < c.maxAttempts
    ensures CanRun(c, INIT, acts) && Intact(acts) && Rested(Exec(c, INIT, acts), k)
    decreases k
  {
    hide CanRun, Exec, Rested, Held, FetchNext, ReapOk, ReapNext;
    if k == 0 {
      acts := FirstTask(c);
    } else {
      acts := RestedAfter(c, k - 1);
      var more := OneRound(c, Exec(c, INIT, acts), k - 1);
      RunConcat(c, INIT, acts, more);
      acts := acts + more;
    }
  }

  lemma OneRound(c: Config, s: State, k: nat) returns (acts: seq<Action>)
    requires Rested(s, k) && k + 1 < c.maxAttempts
    ensures CanRun(c, s, acts) && Intact(acts) && Rested(Exec(c, s, acts), k + 1)
  {
    hide CanRun, Exec, Held, Rested, FetchNext, ReapOk, ReapNext;
    RestedIdle(s, k);
    var fetch := FetchActs(s, LeaseName(k), 0, 1, Clean, Durable, Clean);
    NameIsFresh(s, k);
    FetchOnce(s, k);
    FetchIsRun(c, s, LeaseName(k), 0, 1, Clean, Durable, Clean);
    HeldIdle(Fetched(s, k), k);
    ReapOnce(c, Fetched(s, k), k);
    ReapIsRun(c, Fetched(s, k), 1, [TheTurn(k)]);
    var reap := ReapActs(c, Fetched(s, k), 1, [TheTurn(k)]);
    RunConcat(c, s, fetch, reap);
    acts := fetch + reap;
  }

  lemma RestedIdle(s: State, k: nat)
    requires Rested(s, k)
    ensures s.pc.Idle? && s.store.ready != []
  {
  }

  lemma HeldIdle(s: State, k: nat)
    requires Held(s, k)
    ensures s.pc.Idle?
  {
  }

  lemma FirstTask(c: Config) returns (acts: seq<Action>)
    ensures CanRun(c, INIT, acts) && Intact(acts) && Rested(Exec(c, INIT, acts), 0)
  {
    hide CanRun, Exec, RestoreOk, RestoreNext, Rested, ClosesNext;
    EmptyRestart();
    assert RestoreOk(INIT, [], Clean, []);
    RestoreIsRun(c, INIT, [], Clean, []);
    acts := RestoreActs(INIT, [], Clean, []);
    RunSnoc(c, INIT, acts, Enqueue(ID, [], Clean));
    acts := acts + [Enqueue(ID, [], Clean)];
    RestedFirst();
  }

  lemma RestedFirst()
    ensures Rested(DoEnqueue(INIT.(pc := Idle), ID, [], Clean), 0)
  {
  }

  lemma EmptyRestart()
    ensures RestoreOk(INIT, [], Clean, []) && RestoreNext(INIT, [], Clean, []) == INIT.(pc := Idle)
  {
    assert J.Live([]) == map[] && Fences(map[]) == {};
    assert Q.Orphans(Q.EMPTY, {}) == {} && Q.Matched(Q.EMPTY, {}) == {};
    assert Q.TasksOf(Q.EMPTY, []) == [];
    ClosesNil(DoReconcile(INIT.(pc := Recovering(map[])), [], Clean));
    assert LeasesOf(map[], {}) == map[];
  }

  /** For every MaxAttempts = M > 0, some run publishes one task M times. */
  lemma BoundAttained(c: Config) returns (acts: seq<Action>)
    requires c.maxAttempts > 0
    ensures CanRun(c, INIT, acts) && Intact(acts)
    ensures Deliveries(Exec(c, INIT, acts).hist.published, ID) == c.maxAttempts
  {
    hide CanRun, Exec, FetchNext;
    var k := c.maxAttempts - 1;
    acts := RestedAfter(c, k);
    var s := Exec(c, INIT, acts);
    var fetch := FetchActs(s, LeaseName(k), 0, 1, Clean, Durable, Clean);
    NameIsFresh(s, k);
    FetchOnce(s, k);
    FetchIsRun(c, s, LeaseName(k), 0, 1, Clean, Durable, Clean);
    RunConcat(c, INIT, acts, fetch);
    acts := acts + fetch;
  }
}
