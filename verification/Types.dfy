/** Values shared by the queue backends, the journal and the lease engine. */
module Types {
  type TaskId = string
  type LeaseId = string
  type Byte = b: int | 0 <= b < 256

  datatype Option<+T> = None | Some(value: T)

  datatype Task = Task(id: TaskId, payload: seq<Byte>, attempts: int)

  /** Temporary ownership of a task. Instants are integers. */
  datatype Lease = Lease(id: LeaseId, task: Task, createdAt: int, expiresAt: int)

  /** The task and generation that a recovered lease claims to own. */
  datatype Fence = Fence(task: TaskId, lease: LeaseId)

  /** One entry of the expiration heap. */
  datatype Item = Item(lease: LeaseId, at: int)

  /** Journal operations; `Other` is any operation name the fold does not know. */
  datatype Op = Fetch | Ack | Expire | DeadLetter | Stale | Other(name: string)

  datatype Record = Record(op: Op, lease: LeaseId, task: Task, createdAt: int, expiresAt: int)

  /** Backend fault: none, an error before the transition applied, an error after it applied. */
  datatype Fault = Clean | Before | After

  /** Journal append: on disk, error with nothing written, error with the whole frame written. */
  datatype Write = Durable | Lost | Unsynced

  /** The journal after an append with the given outcome. */
  function Logged(j: seq<Record>, r: Record, w: Write): seq<Record> {
    if w == Lost then j else j + [r]
  }

  const NO_TASK := Task("", [], 0)

  function FetchRecord(l: Lease): Record {
    Record(Fetch, l.id, l.task, l.createdAt, l.expiresAt)
  }

  function CloseRecord(op: Op, lease: LeaseId): Record {
    Record(op, lease, NO_TASK, 0, 0)
  }

  function LeaseOf(r: Record): Lease {
    Lease(r.lease, r.task, r.createdAt, r.expiresAt)
  }

  ghost predicate Distinct<T>(s: seq<T>) {
    forall i, j :: 0 <= i < j < |s| ==> s[i] != s[j]
  }

  /** `order` lists every element of `all` exactly once. */
  ghost predicate Enumerates<T>(order: seq<T>, all: set<T>) {
    && Distinct(order)
    && (forall x :: x in order ==> x in all)
    && (forall x :: x in all ==> x in order)
  }
}
