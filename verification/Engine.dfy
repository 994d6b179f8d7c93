/** The transaction engine as an object over one repository and its journal, and whole
    reconciliations from preparation to installation. */
module Engines {
  import opened Options
  import opened Trees
  import opened Workspace
  import opened Graphs
  import opened Stores
  import opened Preparation
  import opened Installation

  datatype Outcome =
    | Applied
    | Conflict(collisions: set<Path>)
    | RetryLater
    | Failed
    | Crashed

  ghost predicate HasCollisions(s: Store, emptyDirectories: set<Path>, tree: Tree) {
    !NoCollisions(s.files, emptyDirectories, s.index, tree)
  }

  /** `install_prepared_reconciliation`, uninterrupted. */
  ghost function InstallPrepared(
    s: Store, id: string, record: Record, emptyDirectories: set<Path>, debug: bool): Store
    requires record.candidate.Some?
  {
    if Capture(s) != Some(record.snapshot) then FinalizeAfter(s, id, record.(phase := Retry), debug, ALL)
    else if HasCollisions(s, emptyDirectories, record.candidate.value.workingTree)
    then WithRecord(s, id, record.(phase := Conflicted))
    else if Lookup(s.heads, record.headRef) != Some(record.snapshot.head)
    then InstallAfter(s, id, record, debug, 3)
    else InstallAfter(s, id, record, debug, ALL)
  }

  /** A record needs no person exactly when its phase asks for nothing or for tidying, or when
      its installation was interrupted with HEAD on one of the two preserved commits. */
  predicate RecoversAlone(s: Store, record: Record) {
    match record.phase
    case Retry => false
    case Installing =>
      && record.candidate.Some?
      && HeadOid(s) in {Some(record.candidate.value.realHead), Some(record.snapshot.head)}
    case _ => true
  }

  class Engine {
    var head: Head
    var heads: map<string, Oid>
    var index: Tree
    var unmerged: bool
    var files: Tree
    var graph: Graph<Tree>
    var next: Oid
    var refs: map<RecoveryRef, Oid>
    var journal: map<string, Record>

    ghost function State(): Store
      reads this
    {
      Store(head, heads, index, unmerged, files, graph, next, refs, journal)
    }

    constructor (s: Store)
      ensures State() == s
    {
      head, heads, index, unmerged, files := s.head, s.heads, s.index, s.unmerged, s.files;
      graph, next, refs, journal := s.graph, s.next, s.refs, s.journal;
    }

    /** `rev-parse HEAD`, then `write-tree`, then the index with tracked changes added. */
    method CaptureWorkspace() returns (snapshot: Option<Snapshot>)
      ensures snapshot == Capture(State())
    {
      var oid := if head.Detached? then Some(head.oid) else Lookup(heads, head.name);
      if oid.None? {
        return None;
      }
      snapshot := Some(Snapshot(oid.value, index, WorkingTree(index, files)));
    }

    /** `create_synthetic_chain` and `write_recovery_refs`. */
    method WriteSyntheticChain(id: string, snapshot: Snapshot)
      requires Capture(State()) == Some(snapshot)
      modifies this`graph, this`next, this`refs
      ensures State() == WithSyntheticChain(old(State()), id)
    {
      var indexCommit, workingCommit := next, next + 1;
      graph := Replay(graph, snapshot.head, next, [snapshot.indexTree, snapshot.workingTree]);
      next := next + 2;
      refs := refs[Ref(id, HeadSlot) := snapshot.head];
      refs := refs[Ref(id, IndexSlot) := indexCommit];
      refs := refs[Ref(id, WorkingSlot) := workingCommit];
    }

    /** `prepare_reconciliation_with_retention`: it writes objects, recovery refs and perhaps
        a journal record, never HEAD, the index or a file. */
    method PrepareReconciliation(previous: Oid, target: Oid, id: string, debug: bool) returns (preparation: Preparation)
      requires ValidStore(State())
      modifies this`graph, this`next, this`refs, this`journal
      ensures (State(), preparation) == Prepare(old(State()), previous, target, id, debug)
    {
      var current := Store(head, heads, index, unmerged, files, graph, next, refs, journal);
      var refusal := Refuse(current, previous, target);
      if refusal.Some? {
        return Refused(refusal.value);
      }
      var snapshot := CaptureWorkspace();
      if previous == target {
        return Current(snapshot.value.head);
      }
      var trees := Rebased(current, previous, target);
      WriteSyntheticChain(id, snapshot.value);
      preparation := ConcludePreparation(Record(snapshot.value, head.name, Preparing, None), target, trees, id, debug);
    }

    method ConcludePreparation(record: Record, target: Oid, trees: Option<seq<Tree>>, id: string, debug: bool)
      returns (preparation: Preparation)
      requires trees.Some? ==> |trees.value| >= 2
      modifies this`graph, this`next, this`refs, this`journal
      ensures (State(), preparation) == Conclude(old(State()), record, target, trees, id, debug)
    {
      if debug {
        journal := journal[id := record];
      }
      if trees.None? {
        journal := journal[id := record.(phase := Conflicted)];
        return ContentConflict;
      }
      var candidate := CandidateOf(next, target, trees.value);
      var ready := record.(candidate := Some(candidate));
      graph := Replay(graph, target, next, trees.value);
      next := next + |trees.value|;
      if debug {
        journal := journal[id := ready];
      }
      refs := refs[Ref(id, CandidateSlot) := candidate.workingCommit];
      return Ready(ready);
    }

    /** `remove_transaction_artifacts`, able to stop after any durable step. */
    method RemoveArtifacts(id: string, crashAfter: nat)
      modifies this`refs, this`journal
      ensures State() == RemoveAfter(old(State()), id, crashAfter)
    {
      var k := 0;
      while k < 4 && k < crashAfter
        invariant k <= 4 && k <= crashAfter
        invariant State() == RemoveAfter(old(State()), id, k)
      {
        OneRefMore(old(State()), id, k);
        refs := refs - {Ref(id, SLOTS[k])};
        k := k + 1;
      }
      if crashAfter >= 5 {
        journal := journal - {id};
      }
      assert State() == RemoveAfter(old(State()), id, crashAfter);
    }

    method FinalizeTransaction(id: string, record: Record, debug: bool, crashAfter: nat)
      modifies this`refs, this`journal
      ensures State() == FinalizeAfter(old(State()), id, record, debug, crashAfter)
    {
      if !debug {
        RemoveArtifacts(id, crashAfter);
      } else if crashAfter > 0 {
        journal := journal[id := record];
      }
    }

    /** The overwriting `read-tree --reset -u`. */
    method ReadTreeReset(tree: Tree)
      modifies this`index, this`files
      ensures State() == WithReset(old(State()), tree)
    {
      files := ResetFiles(index, files, tree);
      index := tree;
    }

    /** The journalled steps of `install_candidate`, stopped by a crash after `crashAfter` of
        them.  It fails, leaving INSTALLING in the journal, when the compare-and-swap of the
        recorded branch does. */
    method RunInstallation(id: string, prepared: Record, debug: bool, crashAfter: nat) returns (outcome: Outcome)
      requires prepared.candidate.Some?
      modifies this
      ensures outcome in {Applied, Failed, Crashed}
      ensures outcome == Crashed ==> crashAfter < ALL && State() == InstallAfter(old(State()), id, prepared, debug, crashAfter)
      ensures outcome == Failed ==> Lookup(old(heads), prepared.headRef) != Some(prepared.snapshot.head)
                                    && State() == InstallAfter(old(State()), id, prepared, debug, 3)
      ensures outcome == Applied ==> Lookup(old(heads), prepared.headRef) == Some(prepared.snapshot.head)
                                     && State() == InstallAfter(old(State()), id, prepared, debug, ALL)
    {
      ghost var before := State();
      if crashAfter == 0 {
        return Crashed;
      }
      WriteStages(id, prepared, crashAfter);
      if crashAfter <= 3 {
        return Crashed;
      }
      if Lookup(heads, prepared.headRef) != Some(prepared.snapshot.head) {
        return Failed;
      }
      heads := heads[prepared.headRef := prepared.candidate.value.realHead];
      assert State() == Moved(before, id, prepared);
      FinalizeTransaction(id, prepared.(phase := Completed), debug, crashAfter - 4);
      if crashAfter < ALL {
        return Crashed;
      }
      FinalizeBeyondAll(Moved(before, id, prepared), id, prepared.(phase := Completed), debug, crashAfter - 4);
      return Applied;
    }

    /** The journal write and the two tree reads. */
    method WriteStages(id: string, prepared: Record, crashAfter: nat)
      requires prepared.candidate.Some? && crashAfter > 0
      modifies this
      ensures State() == if crashAfter == 1 then Journalled(old(State()), id, prepared)
                         else if crashAfter == 2 then Written(old(State()), id, prepared)
                         else Indexed(old(State()), id, prepared)
    {
      journal := journal[id := prepared.(phase := Installing)];
      if crashAfter == 1 {
        return;
      }
      ReadTreeReset(prepared.candidate.value.workingTree);
      if crashAfter == 2 {
        return;
      }
      index := prepared.candidate.value.indexTree;
    }

    /** `install_prepared_reconciliation`: verify the snapshot, search for collisions, install. */
    method InstallPreparedReconciliation(
      id: string, prepared: Record, emptyDirectories: set<Path>, debug: bool, crashAfter: nat)
      returns (outcome: Outcome)
      requires prepared.candidate.Some?
      modifies this
      ensures outcome != Crashed ==> State() == InstallPrepared(old(State()), id, prepared, emptyDirectories, debug)
      ensures outcome == Crashed ==> crashAfter < ALL && State() == InstallAfter(old(State()), id, prepared, debug, crashAfter)
      ensures outcome == RetryLater <==> Capture(old(State())) != Some(prepared.snapshot)
      ensures outcome.Conflict? ==> outcome.collisions != {}
      ensures outcome.Conflict? ==> forall p ::
                p in outcome.collisions <==> exists c ::
                  c in prepared.candidate.value.workingTree
                  && Collision(old(files), emptyDirectories, old(index.Keys), c) == Some(p)
      ensures outcome in {Applied, Failed, Crashed} ==>
                !HasCollisions(old(State()), emptyDirectories, prepared.candidate.value.workingTree)
      ensures outcome in {Applied, Failed, Crashed, RetryLater} || outcome.Conflict?
    {
      var latest := CaptureWorkspace();
      if latest != Some(prepared.snapshot) {
        FinalizeTransaction(id, prepared.(phase := Retry), debug, ALL);
        return RetryLater;
      }
      var collisions := CollisionsWith(prepared.candidate.value.workingTree, emptyDirectories);
      if p :| p in collisions {
        journal := journal[id := prepared.(phase := Conflicted)];
        return Conflict(collisions);
      }
      outcome := RunInstallation(id, prepared, debug, crashAfter);
    }

    method CollisionsWith(tree: Tree, emptyDirectories: set<Path>) returns (collisions: set<Path>)
      ensures forall p :: p in collisions <==> exists c ::
                c in tree && Collision(files, emptyDirectories, index.Keys, c) == Some(p)
      ensures collisions == {} <==> !HasCollisions(State(), emptyDirectories, tree)
    {
      var tracked := PathsOf(tree);
      collisions := FindUntrackedCollisions(files, emptyDirectories, index.Keys, tracked);
      forall p
        ensures Reported(files, emptyDirectories, index.Keys, tracked, p)
           <==> exists c :: c in tree && Collision(files, emptyDirectories, index.Keys, c) == Some(p)
      {
      }
      if c :| c in tree && Collision(files, emptyDirectories, index.Keys, c).Some? {
        assert Collision(files, emptyDirectories, index.Keys, c).value in collisions;
      }
    }

    /** `recover_transaction_with_retention`, stopped after `crashAfter` durable steps; the
        answer says whether it returned without an error. */
    method RecoverTransaction(id: string, debug: bool, crashAfter: nat) returns (ok: bool)
      modifies this
      ensures State() == RecoverAfter(old(State()), id, debug, crashAfter)
      ensures ok <==> id in old(journal) && RecoversAlone(old(State()), old(journal)[id])
    {
      if id !in journal {
        return false;
      }
      var record := journal[id];
      if record.phase == Preparing || record.phase == Conflicted {
        return true;
      }
      if record.phase == Completed || record.phase == RolledBack {
        FinalizeTransaction(id, record, debug, crashAfter);
        return true;
      }
      if record.phase != Installing {
        return false;
      }
      var current := CaptureWorkspace();
      if current.None? || record.candidate.None? {
        return false;
      }
      if current.value.head == record.candidate.value.realHead {
        FinalizeTransaction(id, record.(phase := Completed), debug, crashAfter);
        return true;
      }
      if current.value.head == record.snapshot.head {
        if crashAfter == 0 {
          return true;
        }
        ReadTreeReset(record.snapshot.workingTree);
        if crashAfter == 1 {
          return true;
        }
        index := record.snapshot.indexTree;
        FinalizeTransaction(id, record.(phase := RolledBack), debug, crashAfter - 2);
        return true;
      }
      return false;
    }
  }

  lemma OneRefMore(s: Store, id: string, k: nat)
    requires k < 4
    ensures RemoveAfter(s, id, k + 1) == RemoveAfter(s, id, k).(refs := RemoveAfter(s, id, k).refs - {Ref(id, SLOTS[k])})
  {
    assert (set i | 0 <= i < 4 && i < k + 1 :: Ref(id, SLOTS[i])) == (set i | 0 <= i < 4 && i < k :: Ref(id, SLOTS[i])) + {Ref(id, SLOTS[k])};
  }

  lemma FinalizeBeyondAll(s: Store, id: string, record: Record, debug: bool, steps: nat)
    requires steps >= 5
    ensures FinalizeAfter(s, id, record, debug, steps) == FinalizeAfter(s, id, record, debug, 5)
  {
    assert (set k | 0 <= k < 4 && k < steps :: Ref(id, SLOTS[k])) == (set k | 0 <= k < 4 && k < 5 :: Ref(id, SLOTS[k]));
  }

  /** `ls-tree -r --name-only`: the paths of a tree in some order. */
  method PathsOf(tree: Tree) returns (paths: seq<Path>)
    ensures forall p :: p in paths <==> p in tree
  {
    paths := [];
    var rest := tree.Keys;
    while rest != {}
      invariant rest <= tree.Keys
      invariant forall p :: p in paths <==> p in tree && p !in rest
      decreases |rest|
    {
      var p :| p in rest;
      paths := paths + [p];
      rest := rest - {p};
    }
  }
}
