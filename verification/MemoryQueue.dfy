/** The in-memory backend: three fields changed in place, against the transitions of `Queue`. */
module MemoryBackend {
  import opened Types
  import opened Queue

  function FenceSet(fences: seq<Fence>): set<Fence> { set f | f in fences }

  class MemoryQueue {
    var ready: seq<Task>
    var processing: map<TaskId, Entry>
    var dead: seq<DeadTask>

    function Contents(): Store reads this { Store(ready, processing, dead) }

    constructor ()
      ensures Contents() == EMPTY
    {
      ready, processing, dead := [], map[], [];
    }

    method Enqueue(t: Task)
      modifies this
      ensures Contents() == Queue.Enqueue(old(Contents()), t)
    {
      ready := ready + [t];
    }

    method Acquire(lease: LeaseId) returns (r: Option<Task>)
      modifies this
      ensures r == if old(ready) == [] then None else Some(old(ready)[0])
      ensures Contents() == Queue.Acquire(old(Contents()), lease)
    {
      if |ready| == 0 {
        return None;
      }
      var next := ready[0];
      ready := ready[1..];
      processing := processing[next.id := Entry(next, lease)];
      return Some(next);
    }

    method Complete(t: TaskId, lease: LeaseId) returns (r: Outcome)
      modifies this
      ensures r == Check(old(Contents()), t, lease)
      ensures Contents() == Queue.Complete(old(Contents()), t, lease)
    {
      if t !in processing {
        return NotProcessing;
      }
      if processing[t].fence != lease {
        return FenceMismatch;
      }
      processing := processing - {t};
      return Ok;
    }

    method Requeue(t: TaskId, lease: LeaseId) returns (r: Outcome)
      modifies this
      ensures r == Check(old(Contents()), t, lease)
      ensures Contents() == Queue.Requeue(old(Contents()), t, lease)
    {
      if t !in processing {
        return NotProcessing;
      }
      var entry := processing[t];
      if entry.fence != lease {
        return FenceMismatch;
      }
      processing := processing - {t};
      ready := ready + [entry.task.(attempts := entry.task.attempts + 1)];
      return Ok;
    }

    method DeadLetter(t: TaskId, lease: LeaseId, reason: string) returns (r: Outcome)
      modifies this
      ensures r == Check(old(Contents()), t, lease)
      ensures Contents() == Bury(old(Contents()), t, lease, reason)
    {
      if t !in processing {
        return NotProcessing;
      }
      var entry := processing[t];
      if entry.fence != lease {
        return FenceMismatch;
      }
      processing := processing - {t};
      dead := dead + [DeadTask(entry.task.(attempts := entry.task.attempts + 1), reason)];
      return Ok;
    }

    /** Visits the processing entries in some order, deleting the uncovered ones as it goes. */
    method RecoverOrphanedProcessing(leases: seq<Fence>)
      returns (moved: nat, matched: set<LeaseId>, ghost order: seq<TaskId>)
      modifies this
      ensures Enumerates(order, Orphans(old(Contents()), FenceSet(leases)))
      ensures Contents() == Reconcile(old(Contents()), FenceSet(leases), order)
      ensures matched == Matched(old(Contents()), FenceSet(leases))
      ensures moved == |order|
    {
      ghost var q := Contents();
      var active: set<Fence> := {};
      for i := 0 to |leases|
        invariant active == FenceSet(leases[..i])
      {
        assert leases[..i + 1] == leases[..i] + [leases[i]];
        active := active + {leases[i]};
      }
      assert leases[..|leases|] == leases;

      moved, matched, order := 0, {}, [];
      var todo := processing.Keys;
      while todo != {}
        invariant todo <= q.processing.Keys && todo <= processing.Keys && dead == q.dead
        invariant Enumerates(order, Orphans(q, active) - todo)
        invariant processing == q.processing - (Orphans(q, active) - todo)
        invariant ready == q.ready + TasksOf(q, order)
        invariant matched == set t | t in q.processing && t !in todo && Fence(t, q.processing[t].fence) in active
                                     :: q.processing[t].fence
        invariant moved == |order|
        decreases todo
      {
        var t :| t in todo;
        var entry := processing[t];
        ghost var before := todo;
        todo := todo - {t};
        if Fence(t, entry.fence) in active {
          matched := matched + {entry.fence};
          assert Orphans(q, active) - todo == Orphans(q, active) - before;
        } else {
          processing := processing - {t};
          ready := ready + [entry.task];
          moved := moved + 1;
          order := OrderSnoc(q, order, Orphans(q, active) - before, t);
          assert Orphans(q, active) - todo == Orphans(q, active) - before + {t};
        }
      }
      assert Orphans(q, active) - todo == Orphans(q, active);
    }
  }

  ghost function OrderSnoc(q: Store, order: seq<TaskId>, done: set<TaskId>, t: TaskId): (r: seq<TaskId>)
    requires Enumerates(order, done) && t !in done && t in q.processing && done <= q.processing.Keys
    ensures Enumerates(r, done + {t}) && |r| == |order| + 1
    ensures TasksOf(q, r) == TasksOf(q, order) + [q.processing[t].task]
  {
    order + [t]
  }
}
