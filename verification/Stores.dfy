/** Everything the transaction engine can change: the refs, index and files of one
    repository, its objects, its private recovery refs, and the on-disk journal. */
module Stores {
  import opened Options
  import opened Trees
  import opened Workspace
  import opened Graphs

  datatype Head = OnBranch(name: string) | Detached(oid: Oid)

  /** What `capture_workspace` records. */
  datatype Snapshot = Snapshot(head: Oid, indexTree: Tree, workingTree: Tree)

  datatype Candidate = Candidate(
    workingCommit: Oid, indexCommit: Oid, realHead: Oid, workingTree: Tree, indexTree: Tree)

  datatype Phase = Preparing | Installing | Completed | RolledBack | Conflicted | Retry

  datatype Record = Record(snapshot: Snapshot, headRef: string, phase: Phase, candidate: Option<Candidate>)

  datatype Slot = HeadSlot | IndexSlot | WorkingSlot | CandidateSlot

  /** `refs/resync/recovery/<id>/<slot>` */
  datatype RecoveryRef = RecoveryRef(id: string, slot: Slot)

  datatype Store = Store(
    head: Head,
    heads: map<string, Oid>,
    index: Tree,
    unmerged: bool,
    files: Tree,
    graph: Graph<Tree>,
    next: Oid,
    refs: map<RecoveryRef, Oid>,
    journal: map<string, Record>)

  function HeadOid(s: Store): Option<Oid> {
    match s.head
    case Detached(oid) => Some(oid)
    case OnBranch(name) => Lookup(s.heads, name)
  }

  function Capture(s: Store): Option<Snapshot> {
    match HeadOid(s)
    case None => None
    case Some(oid) => Some(Snapshot(oid, s.index, WorkingTree(s.index, s.files)))
  }

  /** The part of a store a user sees: HEAD, the index and every file, tracked or not. */
  datatype Visible = Visible(head: Head, headOid: Option<Oid>, index: Tree, files: Tree)

  function Seen(s: Store): Visible {
    Visible(s.head, HeadOid(s), s.index, s.files)
  }

  ghost predicate ValidStore(s: Store) {
    && Valid(s.graph) && Below(s.graph, s.next)
    && (forall b :: b in s.heads ==> s.heads[b] in s.graph)
    && (s.head.Detached? ==> s.head.oid in s.graph)
    && Coherent(s.files) && ProperPaths(s.files)
  }

  function Ref(id: string, slot: Slot): RecoveryRef { RecoveryRef(id, slot) }

  function WithRef(s: Store, id: string, slot: Slot, oid: Oid): Store {
    s.(refs := s.refs[Ref(id, slot) := oid])
  }

  function WithRecord(s: Store, id: string, record: Record): Store {
    s.(journal := s.journal[id := record])
  }

  /** The recovery refs of one transaction, in the order in which they are deleted. */
  const SLOTS: seq<Slot> := [HeadSlot, IndexSlot, WorkingSlot, CandidateSlot]

  /** `remove_transaction_artifacts` stopped after `steps` durable steps: the four refs go
      first, the journal record last. */
  function RemoveAfter(s: Store, id: string, steps: nat): Store {
    var gone := set k | 0 <= k < 4 && k < steps :: Ref(id, SLOTS[k]);
    s.(refs := s.refs - gone, journal := if steps >= 5 then s.journal - {id} else s.journal)
  }

  /** `finalize_recovered_transaction` stopped after `steps` durable steps. */
  function FinalizeAfter(s: Store, id: string, record: Record, debug: bool, steps: nat): Store {
    if !debug then RemoveAfter(s, id, steps)
    else if steps == 0 then s
    else WithRecord(s, id, record)
  }
}
