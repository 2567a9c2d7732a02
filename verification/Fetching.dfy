/** What fetches hand out: ready tasks, unchanged, in the order in which they became ready. */
module Fetching {
  import opened Types
  import opened Protocol
  import opened Operations
  import J = Journal

  lemma {:induction false} LengthBound(all: set<LeaseId>) returns (n: nat)
    ensures forall x :: x in all ==> |x| < n
    decreases all
  {
    n := 0;
    if all != {} {
      var x :| x in all;
      var m := LengthBound(all - {x});
      n := if |x| < m then m else |x| + 1;
    }
  }

  lemma FreshExists(s: State) returns (lid: LeaseId)
    ensures FreshLease(s, lid)
  {
    var inHeap := set i | i in s.heap :: i.lease;
    var held := set t | t in s.store.processing :: s.store.processing[t].fence;
    var live := J.Live(s.journal).Keys;
    var n := LengthBound(s.hist.origin.Keys + s.leases.Keys + live + inHeap + held);
    lid := seq(n, i => 'l');
    assert |lid| == n;
    assert forall i :: i in s.heap ==> i.lease in inHeap;
    assert forall t :: t in s.store.processing ==> s.store.processing[t].fence in held;
  }

  /** One fetch without faults hands out the oldest ready task. */
  lemma FetchHead(s: State, lid: LeaseId)
    requires s.pc.Idle? && s.store.ready != []
    ensures
      var s' := FetchNext(s, lid, 0, 1, Clean, Durable, Clean);
      && s'.pc.Idle? && s'.store.ready == s.store.ready[1..]
      && s'.hist.published == s.hist.published + [Lease(lid, s.store.ready[0], 0, 1)]
  {
  }

  ghost predicate FetchAction(a: Action) { a.FetchAcquire? || a.FetchRecordStep? || a.FetchPublish? }

  /** `after` is `before` and then one lease for each of `tasks`, in order. */
  ghost predicate HandsOut(before: seq<Lease>, after: seq<Lease>, tasks: seq<Task>) {
    && before <= after && |after| == |before| + |tasks|
    && forall k :: 0 <= k < |tasks| ==> after[|before| + k].task == tasks[k]
  }

  /** The first `n` ready tasks are handed out by `n` fetches without faults, in order and unchanged. */
  lemma {:induction false} FetchesInOrder(c: Config, s: State, n: nat) returns (acts: seq<Action>)
    requires s.pc.Idle? && n <= |s.store.ready|
    ensures forall k :: 0 <= k < |acts| ==> FetchAction(acts[k])
    ensures CanRun(c, s, acts) && Exec(c, s, acts).pc.Idle?
    ensures HandsOut(s.hist.published, Exec(c, s, acts).hist.published, s.store.ready[..n])
    decreases n
  {
    hide Enabled, Apply, FetchNext;
    acts := [];
    if n > 0 {
      var lid := FreshExists(s);
      acts := FetchActs(s, lid, 0, 1, Clean, Durable, Clean);
      FetchIsRun(c, s, lid, 0, 1, Clean, Durable, Clean);
      FetchHead(s, lid);
      var s' := FetchNext(s, lid, 0, 1, Clean, Durable, Clean);
      var more := FetchesInOrder(c, s', n - 1);
      assert s.store.ready[..n][1..] == s'.store.ready[..n - 1];
      HandsOutCons(s.hist.published, s'.hist.published, Exec(c, s', more).hist.published, s.store.ready[..n]);
      RunConcat(c, s, acts, more);
      acts := acts + more;
    }
  }

  lemma HandsOutCons(a: seq<Lease>, b: seq<Lease>, d: seq<Lease>, tasks: seq<Task>)
    requires tasks != [] && |b| == |a| + 1 && a <= b && b[|a|].task == tasks[0] && HandsOut(b, d, tasks[1..])
    ensures HandsOut(a, d, tasks)
  {
    forall k | 0 <= k < |tasks| ensures d[|a| + k].task == tasks[k] {
      if k > 0 { assert d[|b| + (k - 1)].task == tasks[1..][k - 1]; }
    }
  }

  /** Fetches without faults reach every ready task, as it is. */
  lemma FetchesReach(c: Config, s: State, i: nat) returns (acts: seq<Action>, lease: Lease)
    requires s.pc.Idle? && i < |s.store.ready|
    ensures forall k :: 0 <= k < |acts| ==> FetchAction(acts[k])
    ensures CanRun(c, s, acts) && s.hist.published < Exec(c, s, acts).hist.published
    ensures var all := Exec(c, s, acts).hist.published; all[|all| - 1] == lease && lease.task == s.store.ready[i]
  {
    hide CanRun, Exec;
    acts := FetchesInOrder(c, s, i + 1);
    var all := Exec(c, s, acts).hist.published;
    lease := all[|all| - 1];
    assert lease == all[|s.hist.published| + i];
  }

  lemma EnqueueRun(c: Config, s: State, id: TaskId, payload: seq<Byte>)
    requires s.pc.Idle? && id !in s.hist.accepted
    ensures
      var acts := [Enqueue(id, payload, Clean)];
      && CanRun(c, s, acts)
      && var s' := Exec(c, s, acts);
         && s'.pc.Idle? && s'.store.ready == s.store.ready + [Task(id, payload, 0)]
         && s'.hist.published == s.hist.published && s'.hist.accepted == s.hist.accepted + {id}
  {
    RunOne(c, s, Enqueue(id, payload, Clean));
  }

  /** What was enqueued is what a worker gets: the payload as given, and no attempt charged. */
  lemma EnqueuedIsFetched(c: Config, s: State, id: TaskId, payload: seq<Byte>)
    returns (fetches: seq<Action>, lease: Lease)
    requires s.pc.Idle? && id !in s.hist.accepted
    ensures forall k :: 0 <= k < |fetches| ==> FetchAction(fetches[k])
    ensures
      var acts := [Enqueue(id, payload, Clean)] + fetches;
      && CanRun(c, s, acts)
      && var all := Exec(c, s, acts).hist.published;
         && s.hist.published < all && all[|all| - 1] == lease && lease.task == Task(id, payload, 0)
  {
    hide CanRun, Exec;
    EnqueueRun(c, s, id, payload);
    var s' := Exec(c, s, [Enqueue(id, payload, Clean)]);
    fetches, lease := FetchesReach(c, s', |s.store.ready|);
    RunConcat(c, s, [Enqueue(id, payload, Clean)], fetches);
  }

  /** First in, first out: tasks ready before come first, then the two enqueued ones in their order. */
  lemma FirstInFirstOut(c: Config, s: State, a: TaskId, x: seq<Byte>, b: TaskId, y: seq<Byte>)
    returns (fetches: seq<Action>)
    requires s.pc.Idle? && a !in s.hist.accepted && b !in s.hist.accepted && a != b
    ensures forall k :: 0 <= k < |fetches| ==> FetchAction(fetches[k])
    ensures
      var acts := [Enqueue(a, x, Clean)] + [Enqueue(b, y, Clean)] + fetches;
      && CanRun(c, s, acts)
      && HandsOut(s.hist.published, Exec(c, s, acts).hist.published,
                  s.store.ready + [Task(a, x, 0), Task(b, y, 0)])
  {
    hide CanRun, Exec;
    var one, two := [Enqueue(a, x, Clean)], [Enqueue(b, y, Clean)];
    EnqueueRun(c, s, a, x);
    var s1 := Exec(c, s, one);
    EnqueueRun(c, s1, b, y);
    var s2 := Exec(c, s1, two);
    RunConcat(c, s, one, two);
    fetches := FetchesInOrder(c, s2, |s2.store.ready|);
    RunConcat(c, s, one + two, fetches);
    assert s2.store.ready[..|s2.store.ready|] == s.store.ready + [Task(a, x, 0), Task(b, y, 0)];
  }
}
