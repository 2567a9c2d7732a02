/**
 The Redis backend: five scripts over two lists and two hashes. Each is proved to
 do to the queue what the matching in-memory transition does.
 */
module Redis {
  import opened Types
  import Q = Queue
  import MB = MemoryBackend

  /**
   The two JSON libraries, left abstract: what Go or Lua encodes, either side
   decodes to the same value.
   */
  datatype Json = Json(
    go: Task -> string,
    lua: Task -> string,
    task: string -> Option<Task>,
    luaDead: (Task, string) -> string,
    dead: string -> Option<Q.DeadTask>)
  {
    ghost predicate Valid() {
      && (forall t :: task(go(t)) == Some(t) && task(lua(t)) == Some(t))
      && (forall t, reason :: dead(luaDead(t, reason)) == Some(Q.DeadTask(t, reason)))
    }
  }

  // ---------- Script replies ----------

  datatype Transition = Applied | NotProcessing | FenceMismatch | Unexpected(code: int)

  /** The Go side's reading of a script's integer reply. */
  function TransitionResult(code: int): Transition {
    match code
    case 1 => Applied
    case 0 => NotProcessing
    case -1 => FenceMismatch
    case _ => Unexpected(code)
  }

  function TransitionOf(o: Q.Outcome): Transition {
    match o
    case Ok => Applied
    case NotProcessing => Transition.NotProcessing
    case FenceMismatch => Transition.FenceMismatch
  }

  datatype Reply = Int(n: int) | Str(s: string)

  datatype RecoveryReply = Recovered(moved: int, matched: set<LeaseId>) | Malformed

  ghost predicate WellFormedReply(items: seq<Reply>) {
    items != [] && items[0].Int? && forall i :: 1 <= i < |items| ==> items[i].Str?
  }

  function Strings(items: seq<Reply>): set<string> { set r | r in items && r.Str? :: r.s }

  /** A reply decodes exactly when it is a count followed by lease IDs, and then to those. */
  method DecodeRecoveryResult(items: seq<Reply>) returns (r: RecoveryReply)
    ensures r == if WellFormedReply(items) then Recovered(items[0].n, Strings(items[1..])) else Malformed
  {
    if |items| == 0 {
      return Malformed;
    }
    if !items[0].Int? {
      return Malformed;
    }
    var matched: set<string> := {};
    for i := 1 to |items|
      invariant forall j :: 1 <= j < i ==> items[j].Str?
      invariant matched == Strings(items[1..i])
    {
      if !items[i].Str? {
        return Malformed;
      }
      assert items[1..i + 1] == items[1..i] + [items[i]];
      matched := matched + {items[i].s};
    }
    assert items[1..|items|] == items[1..];
    return Recovered(items[0].n, matched);
  }

  // ---------- The joined key ----------

  const NUL := 0 as char

  /** How the recovery script joins a task ID and a lease ID into one table key. */
  function Joined(id: TaskId, lease: LeaseId): string { id + [NUL] + lease }

  predicate NulFree(s: string) { '\0' !in s }

  /** `b` is `a`, a NUL and something more, and `x` starts with that something and a NUL before `y`. */
  ghost predicate Overlaps(a: TaskId, x: LeaseId, b: TaskId, y: LeaseId) {
    |a| < |b| && b[..|a|] == a && b[|a|] == NUL && x == b[|a| + 1..] + [NUL] + y
  }

  lemma JoinedCases(a: TaskId, x: LeaseId, b: TaskId, y: LeaseId)
    requires |a| < |b|
    ensures Joined(a, x) == Joined(b, y) <==> Overlaps(a, x, b, y)
  {
    var j, k := Joined(a, x), Joined(b, y);
    if j == k {
      assert b == k[..|b|] == j[..|b|];
      assert b[..|a|] == j[..|a|] == a;
      assert b[|a|] == j[|a|];
      assert x == j[|a| + 1..] == k[|a| + 1..];
    }
    if Overlaps(a, x, b, y) {
      assert b == a + [NUL] + b[|a| + 1..];
    }
  }

  /** The joined key names one pair, except when one task ID extends the other past a NUL. */
  lemma JoinedMeaning(a: TaskId, x: LeaseId, b: TaskId, y: LeaseId)
    ensures Joined(a, x) == Joined(b, y) <==>
            (a == b && x == y) || Overlaps(a, x, b, y) || Overlaps(b, y, a, x)
  {
    if |a| < |b| {
      JoinedCases(a, x, b, y);
    } else if |b| < |a| {
      JoinedCases(b, y, a, x);
    } else if Joined(a, x) == Joined(b, y) {
      assert a == Joined(a, x)[..|a|] && b == Joined(b, y)[..|a|];
      assert x == Joined(a, x)[|a| + 1..] && y == Joined(b, y)[|a| + 1..];
    }
  }

  // ---------- The queue ----------

  function TaskIn(json: Json, s: string): Task { if json.task(s).Some? then json.task(s).value else NO_TASK }

  function DeadIn(json: Json, s: string): Q.DeadTask {
    if json.dead(s).Some? then json.dead(s).value else Q.DeadTask(NO_TASK, "")
  }

  /** A list read from its right end, decoded. */
  ghost function ReadyOf(json: Json, list: seq<string>): seq<Task> {
    seq(|list|, i requires 0 <= i < |list| => TaskIn(json, list[|list| - 1 - i]))
  }

  ghost function DeadOf(json: Json, list: seq<string>): seq<Q.DeadTask> {
    seq(|list|, i requires 0 <= i < |list| => DeadIn(json, list[|list| - 1 - i]))
  }

  /** The two hashes, zipped. */
  ghost function Zipped(json: Json, processing: map<string, string>, fences: map<string, string>): map<TaskId, Q.Entry>
    requires processing.Keys == fences.Keys
  {
    map id | id in processing :: Q.Entry(TaskIn(json, processing[id]), fences[id])
  }

  lemma PushReady(json: Json, list: seq<string>, x: string)
    ensures ReadyOf(json, [x] + list) == ReadyOf(json, list) + [TaskIn(json, x)]
  {
  }

  lemma PushDead(json: Json, list: seq<string>, x: string)
    ensures DeadOf(json, [x] + list) == DeadOf(json, list) + [DeadIn(json, x)]
  {
  }

  lemma PopReady(json: Json, list: seq<string>)
    requires list != []
    ensures ReadyOf(json, list)[0] == TaskIn(json, list[|list| - 1])
    ensures ReadyOf(json, list[..|list| - 1]) == ReadyOf(json, list)[1..]
  {
  }

  lemma ZippedSet(json: Json, processing: map<string, string>, fences: map<string, string>,
                  id: string, x: string, l: string)
    requires processing.Keys == fences.Keys
    ensures processing[id := x].Keys == fences[id := l].Keys
    ensures Zipped(json, processing[id := x], fences[id := l]) ==
            Zipped(json, processing, fences)[id := Q.Entry(TaskIn(json, x), l)]
  {
  }

  lemma ZippedDelete(json: Json, processing: map<string, string>, fences: map<string, string>, id: string)
    requires processing.Keys == fences.Keys
    ensures (processing - {id}).Keys == (fences - {id}).Keys
    ensures Zipped(json, processing - {id}, fences - {id}) == Zipped(json, processing, fences) - {id}
  {
  }

  // ---------- Startup reconciliation ----------

  function Flat(leases: seq<Fence>): seq<string> {
    if leases == [] then []
    else Flat(leases[..|leases| - 1]) + [leases[|leases| - 1].task, leases[|leases| - 1].lease]
  }

  lemma {:induction false} FlatAt(leases: seq<Fence>, i: nat)
    requires i < |leases|
    ensures |Flat(leases)| == 2 * |leases|
    ensures Flat(leases)[2 * i] == leases[i].task && Flat(leases)[2 * i + 1] == leases[i].lease
  {
    var n := |leases| - 1;
    if n > 0 {
      FlatAt(leases[..n], if i < n then i else 0);
    }
  }

  lemma FlatLength(leases: seq<Fence>)
    ensures |Flat(leases)| == 2 * |leases|
  {
    if leases != [] {
      FlatAt(leases, 0);
    }
  }

  ghost predicate IsActive(leases: seq<Fence>, n: nat, key: string)
    requires n <= |leases|
  {
    exists i :: 0 <= i < n && key == Joined(leases[i].task, leases[i].lease)
  }

  /** The script's first loop: one joined key per argument pair. */
  method ActiveKeys(args: seq<string>, ghost leases: seq<Fence>) returns (active: set<string>)
    requires args == Flat(leases)
    ensures forall key :: key in active <==> IsActive(leases, |leases|, key)
  {
    FlatLength(leases);
    active := {};
    var i := 0;
    while i + 1 < |args|
      invariant 0 <= i <= |args| && i % 2 == 0
      invariant forall key :: key in active <==> IsActive(leases, i / 2, key)
    {
      FlatAt(leases, i / 2);
      active := active + {Joined(args[i], args[i + 1])};
      i := i + 2;
    }
  }

  /** The processing fences that the script takes for recovered ones. */
  ghost function Effective(q: Q.Store, leases: seq<Fence>): set<Fence> {
    set t | t in q.processing && IsActive(leases, |leases|, Joined(t, q.processing[t].fence)) ::
      Fence(t, q.processing[t].fence)
  }

  /** Some recovered fence that is not `(id, lease)` joins to the same key. */
  ghost predicate Confused(leases: seq<Fence>, id: TaskId, lease: LeaseId) {
    exists i :: 0 <= i < |leases| && (Overlaps(leases[i].task, leases[i].lease, id, lease)
                                   || Overlaps(id, lease, leases[i].task, leases[i].lease))
  }

  lemma ActiveMeaning(leases: seq<Fence>, id: TaskId, lease: LeaseId)
    ensures IsActive(leases, |leases|, Joined(id, lease)) <==>
            Fence(id, lease) in MB.FenceSet(leases) || Confused(leases, id, lease)
  {
    forall i | 0 <= i < |leases|
      ensures Joined(id, lease) == Joined(leases[i].task, leases[i].lease) <==>
              leases[i] == Fence(id, lease)
              || Overlaps(leases[i].task, leases[i].lease, id, lease)
              || Overlaps(id, lease, leases[i].task, leases[i].lease)
    {
      JoinedMeaning(leases[i].task, leases[i].lease, id, lease);
    }
  }

  /**
   The script's key match is the exact pair match if and only if no uncovered
   entry is confused with a recovered fence; NUL-free task IDs rule that out.
   */
  lemma ScriptMatchesPairs(q: Q.Store, leases: seq<Fence>)
    ensures Q.Orphans(q, Effective(q, leases)) == Q.Orphans(q, MB.FenceSet(leases)) <==>
            forall t :: t in q.processing && Confused(leases, t, q.processing[t].fence) ==>
              Fence(t, q.processing[t].fence) in leases
  {
    forall t | t in q.processing
      ensures Fence(t, q.processing[t].fence) in Effective(q, leases) <==>
              Fence(t, q.processing[t].fence) in leases || Confused(leases, t, q.processing[t].fence)
    {
      ActiveMeaning(leases, t, q.processing[t].fence);
    }
    var script, pairs := Q.Orphans(q, Effective(q, leases)), Q.Orphans(q, MB.FenceSet(leases));
    if script == pairs {
      forall t | t in q.processing && Confused(leases, t, q.processing[t].fence)
        ensures Fence(t, q.processing[t].fence) in leases
      {
        assert t !in script;
      }
    }
    assert script <= pairs;
    if forall t :: t in q.processing && Confused(leases, t, q.processing[t].fence) ==>
         Fence(t, q.processing[t].fence) in leases {
      assert pairs <= script;
    }
  }

  ghost predicate AllNulFree(q: Q.Store, leases: seq<Fence>) {
    (forall f :: f in leases ==> NulFree(f.task)) && (forall t :: t in q.processing ==> NulFree(t))
  }

  lemma NulFreeMatchesPairs(q: Q.Store, leases: seq<Fence>)
    requires AllNulFree(q, leases)
    ensures Q.Orphans(q, Effective(q, leases)) == Q.Orphans(q, MB.FenceSet(leases))
    ensures Q.Matched(q, Effective(q, leases)) == Q.Matched(q, MB.FenceSet(leases))
  {
    forall t | t in q.processing
      ensures Fence(t, q.processing[t].fence) in Effective(q, leases) <==> Fence(t, q.processing[t].fence) in leases
    {
      ActiveMeaning(leases, t, q.processing[t].fence);
      assert forall i :: 0 <= i < |leases| ==> leases[i] in leases;
      assert !Confused(leases, t, q.processing[t].fence);
    }
  }

  /**
   Without that condition the script mistakes one pair for another: the only
   processing entry has no recovered lease, yet the script leaves it where it is
   and reports its fence as matched.
   */
  lemma JoinedKeysCollide()
    ensures
      var id, leases := "a" + [NUL] + "b", [Fence("a", "b" + [NUL] + "c")];
      var q := Q.Store([], map[id := Q.Entry(Task(id, [], 0), "c")], []);
      && Q.Orphans(q, MB.FenceSet(leases)) == {id}
      && Q.Orphans(q, Effective(q, leases)) == {}
      && Q.Reconcile(q, Effective(q, leases), []) == q
      && Q.Matched(q, Effective(q, leases)) == {"c"}
  {
    var id, leases := "a" + [NUL] + "b", [Fence("a", "b" + [NUL] + "c")];
    var q := Q.Store([], map[id := Q.Entry(Task(id, [], 0), "c")], []);
    assert Overlaps(leases[0].task, leases[0].lease, id, "c");
    ActiveMeaning(leases, id, "c");
    assert IsActive(leases, |leases|, Joined(id, q.processing[id].fence));
    assert Fence(id, "c") in Effective(q, leases);
    assert Q.Orphans(q, Effective(q, leases)) == {};
    assert Q.TasksOf(q, []) == [];
  }

  /** The second loop has visited all entries but `todo`, returning `order` to ready. */
  ghost predicate Midway(q: Q.Store, fs: set<Fence>, now: Q.Store, todo: set<TaskId>, order: seq<TaskId>) {
    && Enumerates(order, Q.Orphans(q, fs) - todo)
    && now.processing == q.processing - (Q.Orphans(q, fs) - todo)
    && now.ready == q.ready + Q.TasksOf(q, order)
    && now.dead == q.dead
  }

  ghost function MatchedOutside(q: Q.Store, fs: set<Fence>, todo: set<TaskId>): set<LeaseId> {
    set t | t in q.processing && t !in todo && Fence(t, q.processing[t].fence) in fs :: q.processing[t].fence
  }

  lemma MidwayStart(q: Q.Store, fs: set<Fence>)
    ensures Midway(q, fs, q, q.processing.Keys, []) && MatchedOutside(q, fs, q.processing.Keys) == {}
  {
    assert Q.Orphans(q, fs) - q.processing.Keys == {};
  }

  lemma NoStrings()
    ensures Strings([]) == {}
  {
  }

  lemma StringsSnoc(items: seq<Reply>, l: string)
    ensures Strings(items + [Str(l)]) == Strings(items) + {l}
  {
  }

  lemma MidwayStep(q: Q.Store, fs: set<Fence>, now: Q.Store, todo: set<TaskId>, order: seq<TaskId>, id: TaskId)
    requires Midway(q, fs, now, todo, order) && id in todo && todo <= q.processing.Keys
    ensures id in now.processing && now.processing[id] == q.processing[id]
    ensures
      var l := q.processing[id].fence;
      if Fence(id, l) in fs then
        && Midway(q, fs, now, todo - {id}, order)
        && MatchedOutside(q, fs, todo - {id}) == MatchedOutside(q, fs, todo) + {l}
      else
        && Midway(q, fs, now.(processing := now.processing - {id}, ready := now.ready + [q.processing[id].task]),
                  todo - {id}, order + [id])
        && MatchedOutside(q, fs, todo - {id}) == MatchedOutside(q, fs, todo)
  {
    var all := Q.Orphans(q, fs);
    if Fence(id, q.processing[id].fence) in fs {
      assert all - (todo - {id}) == all - todo;
    } else {
      assert all - (todo - {id}) == (all - todo) + {id};
      assert Q.TasksOf(q, order + [id]) == Q.TasksOf(q, order) + [q.processing[id].task];
    }
  }

  lemma MidwayEnd(q: Q.Store, fs: set<Fence>, now: Q.Store, order: seq<TaskId>)
    requires Midway(q, fs, now, {}, order)
    ensures Enumerates(order, Q.Orphans(q, fs)) && now == Q.Reconcile(q, fs, order)
    ensures MatchedOutside(q, fs, {}) == Q.Matched(q, fs)
  {
    assert Q.Orphans(q, fs) - {} == Q.Orphans(q, fs);
  }

  class RedisQueue {
    const json: Json
    var ready: seq<string>                  // list; index 0 is the left end
    var processing: map<string, string>     // hash: task ID to encoded task
    var fences: map<string, string>         // hash: task ID to lease ID
    var dead: seq<string>                   // list

    /** Both hashes have the same fields, and every value that a script will decode does decode. */
    ghost predicate Valid() reads this {
      && json.Valid()
      && processing.Keys == fences.Keys
      && (forall x :: x in ready ==> json.task(x).Some?)
      && (forall id :: id in processing ==> json.task(processing[id]).Some?)
    }

    /** The queue these keys represent: lists read from the right, hashes zipped. */
    ghost function Contents(): Q.Store
      reads this
      requires Valid()
    {
      Q.Store(ReadyOf(json, ready), Zipped(json, processing, fences), DeadOf(json, dead))
    }

    constructor (json: Json)
      requires json.Valid()
      ensures Valid() && Contents() == Q.EMPTY
    {
      this.json := json;
      ready, processing, fences, dead := [], map[], map[], [];
    }

    method Enqueue(t: Task)
      requires Valid()
      modifies this
      ensures Valid() && Contents() == Q.Enqueue(old(Contents()), t)
      ensures ready == [json.go(t)] + old(ready)
    {
      PushReady(json, ready, json.go(t));
      ready := [json.go(t)] + ready;
    }

    /** Pops the oldest task and writes both hashes. */
    method Acquire(lease: LeaseId) returns (r: Option<Task>)
      requires Valid()
      modifies this
      ensures Valid() && Contents() == Q.Acquire(old(Contents()), lease)
      ensures old(ready) != [] ==> ready == old(ready)[..|old(ready)| - 1]
      ensures r == if old(ready) == [] then None else Some(old(Contents()).ready[0])
    {
      if |ready| == 0 {
        return None;
      }
      var encoded := ready[|ready| - 1];
      var task := json.task(encoded).value;
      PopReady(json, ready);
      ZippedSet(json, processing, fences, task.id, encoded, lease);
      ready := ready[..|ready| - 1];
      processing := processing[task.id := encoded];
      fences := fences[task.id := lease];
      return Some(task);
    }

    method Complete(id: TaskId, lease: LeaseId) returns (r: Transition)
      requires Valid()
      modifies this
      ensures Valid() && Contents() == Q.Complete(old(Contents()), id, lease)
      ensures r == TransitionOf(Q.Check(old(Contents()), id, lease))
      ensures r.NotProcessing? <==> id !in old(processing)
      ensures r.Applied? <==> id in old(processing) && old(fences)[id] == lease
    {
      if id !in processing {
        return TransitionResult(0);
      }
      if !(id in fences && fences[id] == lease) {
        return TransitionResult(-1);
      }
      ZippedDelete(json, processing, fences, id);
      processing := processing - {id};
      fences := fences - {id};
      return TransitionResult(1);
    }

    method Requeue(id: TaskId, lease: LeaseId) returns (r: Transition)
      requires Valid()
      modifies this
      ensures Valid() && Contents() == Q.Requeue(old(Contents()), id, lease)
      ensures r.Applied? ==> |ready| == |old(ready)| + 1 && ready[1..] == old(ready)
      ensures r == TransitionOf(Q.Check(old(Contents()), id, lease))
      ensures r.NotProcessing? <==> id !in old(processing)
      ensures r.Applied? <==> id in old(processing) && old(fences)[id] == lease
    {
      if id !in processing {
        return TransitionResult(0);
      }
      var encoded := processing[id];
      if !(id in fences && fences[id] == lease) {
        return TransitionResult(-1);
      }
      ZippedDelete(json, processing, fences, id);
      processing := processing - {id};
      fences := fences - {id};
      var task := json.task(encoded).value;
      PushReady(json, ready, json.lua(task.(attempts := task.attempts + 1)));
      ready := [json.lua(task.(attempts := task.attempts + 1))] + ready;
      return TransitionResult(1);
    }

    method DeadLetter(id: TaskId, lease: LeaseId, reason: string) returns (r: Transition)
      requires Valid()
      modifies this
      ensures Valid() && Contents() == Q.Bury(old(Contents()), id, lease, reason)
      ensures r.Applied? ==> |dead| == |old(dead)| + 1 && dead[1..] == old(dead)
      ensures r == TransitionOf(Q.Check(old(Contents()), id, lease))
      ensures r.NotProcessing? <==> id !in old(processing)
      ensures r.Applied? <==> id in old(processing) && old(fences)[id] == lease
    {
      if id !in processing {
        return TransitionResult(0);
      }
      var encoded := processing[id];
      if !(id in fences && fences[id] == lease) {
        return TransitionResult(-1);
      }
      ZippedDelete(json, processing, fences, id);
      processing := processing - {id};
      fences := fences - {id};
      var task := json.task(encoded).value;
      PushDead(json, dead, json.luaDead(task.(attempts := task.attempts + 1), reason));
      dead := [json.luaDead(task.(attempts := task.attempts + 1), reason)] + dead;
      return TransitionResult(1);
    }

    /** One entry of the recovery loop: keep it if its joined key is active, else return it to ready. */
    method RecoverEntry(id: TaskId, active: set<string>) returns (kept: bool)
      requires Valid() && id in processing
      modifies this
      ensures Valid() && dead == old(dead)
      ensures !kept ==> |ready| == |old(ready)| + 1 && ready[1..] == old(ready)
      ensures kept == (Joined(id, old(fences)[id]) in active)
      ensures kept ==> Contents() == old(Contents())
      ensures !kept ==>
        Contents() == old(Contents()).(processing := old(Contents()).processing - {id},
                                       ready := old(Contents()).ready + [old(Contents()).processing[id].task])
    {
      var encoded := processing[id];
      if id in fences && Joined(id, fences[id]) in active {
        return true;
      }
      ZippedDelete(json, processing, fences, id);
      PushReady(json, ready, encoded);
      processing := processing - {id};
      fences := fences - {id};
      ready := [encoded] + ready;
      return false;
    }

    /** The recovery script, on its flat argument list. */
    method RecoverScript(args: seq<string>, ghost leases: seq<Fence>)
      returns (reply: seq<Reply>, ghost order: seq<TaskId>)
      requires Valid() && args == Flat(leases)
      modifies this
      ensures Valid()
      ensures Enumerates(order, Q.Orphans(old(Contents()), Effective(old(Contents()), leases)))
      ensures Contents() == Q.Reconcile(old(Contents()), Effective(old(Contents()), leases), order)
      ensures WellFormedReply(reply) && reply[0].n == |order|
      ensures Strings(reply[1..]) == Q.Matched(old(Contents()), Effective(old(Contents()), leases))
    {
      hide Midway, MatchedOutside, Strings, Q.Orphans, Q.Matched, Q.Reconcile, ReadyOf, DeadOf, Joined;
      ghost var q, fs := Contents(), Effective(Contents(), leases);
      var active := ActiveKeys(args, leases);
      MidwayStart(q, fs);
      var moved, matched: seq<Reply> := 0, [];
      order := [];
      assert Strings(matched) == {} by { NoStrings(); }
      var todo := processing.Keys;
      assert todo == q.processing.Keys;
      while todo != {}
        invariant Valid() && todo <= q.processing.Keys
        invariant Midway(q, fs, Contents(), todo, order)
        invariant forall i :: 0 <= i < |matched| ==> matched[i].Str?
        invariant Strings(matched) == MatchedOutside(q, fs, todo)
        invariant moved == |order|
        decreases todo
      {
        var id :| id in todo;
        MidwayStep(q, fs, Contents(), todo, order, id);
        var lease := fences[id];
        var kept := RecoverEntry(id, active);
        todo := todo - {id};
        if kept {
          StringsSnoc(matched, lease);
          matched := matched + [Str(lease)];
        } else {
          moved := moved + 1;
          order := order + [id];
        }
      }
      reply := [Int(moved)] + matched;
      assert reply[1..] == matched;
      MidwayEnd(q, fs, Contents(), order);
    }

    /** Flattens the fences into arguments, runs the script and decodes its reply. */
    method RecoverOrphanedProcessing(leases: seq<Fence>) returns (r: RecoveryReply, ghost order: seq<TaskId>)
      requires Valid()
      modifies this
      ensures Valid()
      ensures
        var q := old(Contents());
        var fs := if AllNulFree(q, leases) then MB.FenceSet(leases) else Effective(q, leases);
        && Enumerates(order, Q.Orphans(q, fs))
        && Contents() == Q.Reconcile(q, fs, order)
        && r == Recovered(|order|, Q.Matched(q, fs))
    {
      ghost var q := Contents();
      var args: seq<string> := [];
      for i := 0 to |leases|
        invariant args == Flat(leases[..i])
      {
        assert leases[..i + 1][..i] == leases[..i];
        args := args + [leases[i].task, leases[i].lease];
      }
      assert leases[..|leases|] == leases;
      var reply;
      reply, order := RecoverScript(args, leases);
      if AllNulFree(q, leases) {
        NulFreeMatchesPairs(q, leases);
      }
      r := DecodeRecoveryResult(reply);
    }
  }
}
