/** The fields of a protocol thread that both clients read. */
module Threads {
  import opened StableSort

  type ThreadId = string

  datatype ThreadStatus = Active | WaitingApproval | Interrupted | Completed | Failed | Archived

  /** `updatedAt` stands for the timestamp text: only its total order matters. */
  datatype Thread = Thread(id: ThreadId, updatedAt: int, status: ThreadStatus)

  function IdOf(t: Thread): ThreadId {
    t.id
  }

  /** Sorting by this key puts the most recently updated thread first. */
  function Staleness(t: Thread): int {
    -t.updatedAt
  }

  /** The index of the first thread with this id, or the length. */
  function Position(threads: seq<Thread>, id: ThreadId): (i: nat)
    ensures i <= |threads|
    ensures i < |threads| ==> threads[i].id == id
    ensures forall k | 0 <= k < i :: threads[k].id != id
  {
    if threads == [] || threads[0].id == id then 0 else 1 + Position(threads[1..], id)
  }

  predicate HasId(threads: seq<Thread>, id: ThreadId) {
    exists t <- threads :: t.id == id
  }
}
