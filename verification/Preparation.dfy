/** `prepare_reconciliation_with_retention`: the private half of a reconciliation. */
module Preparation {
  import opened Options
  import opened Trees
  import opened Workspace
  import opened Graphs
  import opened Stores

  datatype Refusal = DetachedOrUnborn | UnmergedIndex | NotDescended | RemoteRewritten | MergeCommits

  datatype Preparation =
    | Refused(reason: Refusal)
    | Current(head: Oid)
    | ContentConflict
    | Ready(record: Record)

  function Bodies(g: Graph<Tree>, chain: seq<Oid>): (trees: seq<Tree>)
    requires forall c :: c in chain ==> c in g
    ensures |trees| == |chain| && forall i :: 0 <= i < |chain| ==> trees[i] == g[chain[i]].body
  {
    seq(|chain|, i requires 0 <= i < |chain| => g[chain[i]].body)
  }

  /** The checks made before anything is written. */
  function Refuse(s: Store, previous: Oid, target: Oid): Option<Refusal> {
    if !s.head.OnBranch? || HeadOid(s).None? then Some(DetachedOrUnborn)
    else if s.unmerged then Some(UnmergedIndex)
    else if previous == target then None
    else if !IsAncestor(s.graph, previous, HeadOid(s).value) then Some(NotDescended)
    else if !IsAncestor(s.graph, previous, target) then Some(RemoteRewritten)
    else if !NoMerges(s.graph, previous, HeadOid(s).value) then Some(MergeCommits)
    else None
  }

  ghost predicate Admissible(s: Store, previous: Oid, target: Oid) {
    ValidStore(s) && previous != target && Refuse(s, previous, target).None?
  }

  /** The trees of the unpublished commits, then the index, then the working tree. */
  function Layers(s: Store, previous: Oid, target: Oid): (layers: seq<Tree>)
    requires Admissible(s, previous, target)
    ensures |layers| >= 2
  {
    Bodies(s.graph, Chain(s.graph, previous, HeadOid(s).value)) + [s.index, WorkingTree(s.index, s.files)]
  }

  function Rebased(s: Store, previous: Oid, target: Oid): (trees: Option<seq<Tree>>)
    requires Admissible(s, previous, target)
    ensures trees.Some? ==> |trees.value| == |Layers(s, previous, target)|
  {
    RebaseLength(s.graph[previous].body, s.graph[target].body, Layers(s, previous, target));
    Rebase(s.graph[previous].body, s.graph[target].body, Layers(s, previous, target))
  }

  /** The two synthetic commits and the three refs that keep them and HEAD alive. */
  function WithSyntheticChain(s: Store, id: string): Store
    requires HeadOid(s).Some?
  {
    var head := HeadOid(s).value;
    var s1 := s.(graph := Replay(s.graph, head, s.next, [s.index, WorkingTree(s.index, s.files)]), next := s.next + 2);
    WithRef(WithRef(WithRef(s1, id, HeadSlot, head), id, IndexSlot, s.next), id, WorkingSlot, s.next + 1)
  }

  function NewRecord(s: Store): Record
    requires Capture(s).Some? && s.head.OnBranch?
  {
    Record(Capture(s).value, s.head.name, Preparing, None)
  }

  /** The rebased chain read by position: working, index, and the real head below them,
      which is the target itself when nothing local is unpublished. */
  function CandidateOf(next: Oid, target: Oid, trees: seq<Tree>): Candidate
    requires |trees| >= 2
  {
    var n := |trees|;
    Candidate(next + n - 1, next + n - 2, if n == 2 then target else next + n - 3, trees[n - 1], trees[n - 2])
  }

  /** The end of a preparation, once the private rebase has run. */
  function Conclude(
    s: Store, record: Record, target: Oid, trees: Option<seq<Tree>>, id: string, debug: bool): (Store, Preparation)
    requires trees.Some? ==> |trees.value| >= 2
  {
    var s1 := if debug then WithRecord(s, id, record) else s;
    match trees
    case None => (WithRecord(s1, id, record.(phase := Conflicted)), ContentConflict)
    case Some(trees) =>
      var candidate := CandidateOf(s.next, target, trees);
      var ready := record.(candidate := Some(candidate));
      var s2 := s1.(graph := Replay(s.graph, target, s.next, trees), next := s.next + |trees|);
      var s3 := if debug then WithRecord(s2, id, ready) else s2;
      (WithRef(s3, id, CandidateSlot, candidate.workingCommit), Ready(ready))
  }

  function Prepare(s: Store, previous: Oid, target: Oid, id: string, debug: bool): (Store, Preparation)
    requires ValidStore(s)
  {
    if Refuse(s, previous, target).Some? then (s, Refused(Refuse(s, previous, target).value))
    else if previous == target then (s, Current(HeadOid(s).value))
    else Conclude(WithSyntheticChain(s, id), NewRecord(s), target, Rebased(s, previous, target), id, debug)
  }

  /** The local branch or the hosted one left `previous` behind, or the range to replay holds a merge. */
  ghost predicate Unrelated(s: Store, previous: Oid, target: Oid)
    requires HeadOid(s).Some?
  {
    var head := HeadOid(s).value;
    || !(previous in s.graph && head in s.graph && Reaches(s.graph, head, previous))
    || !(target in s.graph && Reaches(s.graph, target, previous))
    || exists c :: c in s.graph && Reaches(s.graph, head, c) && !Reaches(s.graph, previous, c) && |s.graph[c].parents| > 1
  }

  /** When a preparation is refused, which reason it gives, and that it then writes nothing. */
  lemma PrepareRefusesIff(s: Store, previous: Oid, target: Oid, id: string, debug: bool)
    requires ValidStore(s)
    ensures var (s', r) := Prepare(s, previous, target, id, debug);
            && (r.Refused? <==> s.head.Detached? || HeadOid(s).None? || s.unmerged
                                || (previous != target && Unrelated(s, previous, target)))
            && (r.Refused? ==> s' == s)
            && (r == Refused(DetachedOrUnborn) <==> s.head.Detached? || HeadOid(s).None?)
            && (r == Refused(UnmergedIndex) <==> s.head.OnBranch? && HeadOid(s).Some? && s.unmerged)
            && (r == Refused(NotDescended) <==>
                  && s.head.OnBranch? && HeadOid(s).Some? && !s.unmerged && previous != target
                  && !IsAncestor(s.graph, previous, HeadOid(s).value))
            && (r == Refused(RemoteRewritten) <==>
                  && s.head.OnBranch? && HeadOid(s).Some? && !s.unmerged && previous != target
                  && IsAncestor(s.graph, previous, HeadOid(s).value) && !IsAncestor(s.graph, previous, target))
  {
    if s.head.OnBranch? && HeadOid(s).Some? {
      assert NoMerges(s.graph, previous, HeadOid(s).value)
        <==> !exists c :: c in s.graph && Reaches(s.graph, HeadOid(s).value, c) && !Reaches(s.graph, previous, c)
                          && |s.graph[c].parents| > 1;
    }
  }

  /** How a preparation that is not refused ends. */
  lemma PrepareEndsIff(s: Store, previous: Oid, target: Oid, id: string, debug: bool)
    requires ValidStore(s) && !Prepare(s, previous, target, id, debug).1.Refused?
    ensures var (s', r) := Prepare(s, previous, target, id, debug);
            && (r.Current? <==> previous == target)
            && (r.Current? ==> s' == s && Some(r.head) == HeadOid(s))
            && (previous != target ==>
                  && Admissible(s, previous, target)
                  && (r.Ready? <==> Compatible(s.graph[previous].body, s.graph[target].body, Layers(s, previous, target)))
                  && (r.ContentConflict? <==> !r.Ready?))
  {
    if previous != target {
      RebaseSucceedsIff(s.graph[previous].body, s.graph[target].body, Layers(s, previous, target));
    }
  }

  /** What a preparation writes to the journal: a conflict always, a candidate only with a
      debug history, both with the captured workspace and the branch they belong to. */
  lemma PreparationJournals(s: Store, previous: Oid, target: Oid, id: string, debug: bool)
    requires ValidStore(s)
    ensures var (s', r) := Prepare(s, previous, target, id, debug);
            match r
            case Refused(_) => s'.journal == s.journal
            case Current(_) => s'.journal == s.journal
            case ContentConflict =>
              && s.head.OnBranch? && Capture(s).Some?
              && s'.journal == s.journal[id := Record(Capture(s).value, s.head.name, Conflicted, None)]
            case Ready(record) =>
              && s.head.OnBranch? && Some(record.snapshot) == Capture(s) && record.headRef == s.head.name
              && record.phase == Preparing && record.candidate.Some?
              && s'.journal == if debug then s.journal[id := record] else s.journal
  {
    if Refuse(s, previous, target).None? && previous != target {
      ConcludeJournals(WithSyntheticChain(s, id), NewRecord(s), target, Rebased(s, previous, target), id, debug);
    }
  }

  lemma ConcludeJournals(s: Store, record: Record, target: Oid, trees: Option<seq<Tree>>, id: string, debug: bool)
    requires trees.Some? ==> |trees.value| >= 2
    ensures var (s', r) := Conclude(s, record, target, trees, id, debug);
            if trees.None? then r == ContentConflict && s'.journal == s.journal[id := record.(phase := Conflicted)]
            else
              && r.Ready? && r.record.candidate.Some? && r.record == record.(candidate := r.record.candidate)
              && s'.journal == if debug then s.journal[id := r.record] else s.journal
  {
    match trees
    case None => JournalTwice(s.journal, id, record, record.(phase := Conflicted));
    case Some(trees) =>
      JournalTwice(s.journal, id, record, record.(candidate := Some(CandidateOf(s.next, target, trees))));
  }

  lemma JournalTwice(journal: map<string, Record>, id: string, first: Record, second: Record)
    ensures journal[id := first][id := second] == journal[id := second]
  {
  }

  /** Preparation never touches what the user sees, whatever it decides. */
  lemma PrepareIsInvisible(s: Store, previous: Oid, target: Oid, id: string, debug: bool)
    requires ValidStore(s)
    ensures Seen(Prepare(s, previous, target, id, debug).0) == Seen(s)
  {
  }

  /** What installation relies on in a prepared record. */
  ghost predicate WellPrepared(record: Record) {
    && record.candidate.Some?
    && var c := record.candidate.value;
    && CleanLastMerge(record.snapshot.indexTree, c.indexTree, record.snapshot.workingTree, c.workingTree)
    && record.snapshot.workingTree.Keys <= record.snapshot.indexTree.Keys
    && Coherent(c.workingTree)
    && c.realHead != record.snapshot.head
  }

  /** A prepared candidate is well formed as soon as the target is new to the local branch. */
  lemma PreparedRecordIsWellPrepared(s: Store, previous: Oid, target: Oid, id: string, debug: bool)
    requires ValidStore(s) && Prepare(s, previous, target, id, debug).1.Ready?
    requires !IsAncestor(s.graph, target, HeadOid(s).value)
    ensures WellPrepared(Prepare(s, previous, target, id, debug).1.record)
    ensures Some(Prepare(s, previous, target, id, debug).1.record.snapshot) == Capture(s)
    ensures OnBranch(Prepare(s, previous, target, id, debug).1.record.headRef) == s.head
  {
    var layers := Layers(s, previous, target);
    var n := |layers|;
    RebaseLink(s.graph[previous].body, s.graph[target].body, layers, n - 1);
    assert layers[n - 2] == s.index && layers[n - 1] == WorkingTree(s.index, s.files);
    assert Reaches(s.graph, HeadOid(s).value, HeadOid(s).value);
  }

  /** The content of a prepared candidate, path by path: where the local chain edited a path
      the candidate keeps the local content of that layer, elsewhere it has the target's. */
  lemma CandidateContent(s: Store, previous: Oid, target: Oid, id: string, debug: bool, p: Path)
    requires ValidStore(s) && Prepare(s, previous, target, id, debug).1.Ready?
    ensures var c := Prepare(s, previous, target, id, debug).1.record.candidate.value;
            var layers := Layers(s, previous, target);
            var base := s.graph[previous].body;
            && Lookup(c.workingTree, p)
               == (if Edited(base, layers, |layers| - 1, p) then Lookup(WorkingTree(s.index, s.files), p)
                   else Lookup(s.graph[target].body, p))
            && Lookup(c.indexTree, p)
               == (if Edited(base, layers, |layers| - 2, p) then Lookup(s.index, p)
                   else Lookup(s.graph[target].body, p))
  {
    var layers := Layers(s, previous, target);
    RebaseClosedForm(s.graph[previous].body, s.graph[target].body, layers, |layers| - 1, p);
    RebaseClosedForm(s.graph[previous].body, s.graph[target].body, layers, |layers| - 2, p);
    assert layers[|layers| - 2] == s.index && layers[|layers| - 1] == WorkingTree(s.index, s.files);
  }

  /** The synthetic commits: every earlier object is kept, and the three recovery refs name
      HEAD and commits whose trees are the captured index and working tree. */
  ghost predicate Recoverable(s: Store, id: string, s': Store) {
    && (forall c :: c in s.graph ==> c in s'.graph && s'.graph[c] == s.graph[c])
    && Ref(id, HeadSlot) in s'.refs && Some(s'.refs[Ref(id, HeadSlot)]) == HeadOid(s)
    && Ref(id, IndexSlot) in s'.refs && s'.refs[Ref(id, IndexSlot)] in s'.graph
    && s'.graph[s'.refs[Ref(id, IndexSlot)]].body == s.index
    && Ref(id, WorkingSlot) in s'.refs && s'.refs[Ref(id, WorkingSlot)] in s'.graph
    && s'.graph[s'.refs[Ref(id, WorkingSlot)]].body == WorkingTree(s.index, s.files)
  }

  lemma SyntheticChainIsValid(s: Store, id: string)
    requires ValidStore(s) && HeadOid(s).Some?
    ensures ValidStore(WithSyntheticChain(s, id))
  {
    ReplayAppends(s.graph, HeadOid(s).value, s.next, [s.index, WorkingTree(s.index, s.files)]);
  }

  lemma SyntheticChainIsRecoverable(s: Store, id: string)
    requires ValidStore(s) && HeadOid(s).Some?
    ensures Recoverable(s, id, WithSyntheticChain(s, id))
  {
    ReplayAppends(s.graph, HeadOid(s).value, s.next, [s.index, WorkingTree(s.index, s.files)]);
    assert WithSyntheticChain(s, id).graph[s.next].body == s.index;
  }

  /** The store a successful preparation leaves, apart from the journal. */
  lemma ReadyShape(s: Store, previous: Oid, target: Oid, id: string, debug: bool)
    requires ValidStore(s) && Prepare(s, previous, target, id, debug).1.Ready?
    ensures Admissible(s, previous, target) && Rebased(s, previous, target).Some?
    ensures var (s', r) := Prepare(s, previous, target, id, debug);
            var s1 := WithSyntheticChain(s, id);
            var trees := Rebased(s, previous, target).value;
            var candidate := CandidateOf(s1.next, target, trees);
            && s' == s1.(graph := Replay(s1.graph, target, s1.next, trees), next := s1.next + |trees|,
                         refs := s1.refs[Ref(id, CandidateSlot) := candidate.workingCommit], journal := s'.journal)
            && (!debug ==> s'.journal == s.journal)
            && r.record.candidate == Some(candidate)
  {
  }

  lemma ConflictShape(s: Store, previous: Oid, target: Oid, id: string)
    requires ValidStore(s) && Prepare(s, previous, target, id, false).1.ContentConflict?
    ensures Prepare(s, previous, target, id, false).0
         == WithRecord(WithSyntheticChain(s, id), id, NewRecord(s).(phase := Conflicted))
  {
  }

  lemma ReadyStoreIsValid(s: Store, previous: Oid, target: Oid, id: string, debug: bool)
    requires ValidStore(s) && Prepare(s, previous, target, id, debug).1.Ready?
    ensures ValidStore(Prepare(s, previous, target, id, debug).0)
  {
    ReadyShape(s, previous, target, id, debug);
    SyntheticChainIsValid(s, id);
    SyntheticChainIsRecoverable(s, id);
    var s1 := WithSyntheticChain(s, id);
    ReplayAppends(s1.graph, target, s1.next, Rebased(s, previous, target).value);
  }

  /** The commit HEAD will move to descends from the target, and holds the last local commit
      rebased; it is the target itself when nothing was unpublished. */
  lemma CandidateHead(s: Store, previous: Oid, target: Oid, id: string, debug: bool)
    requires ValidStore(s) && Prepare(s, previous, target, id, debug).1.Ready?
    ensures var (s', r) := Prepare(s, previous, target, id, debug);
            var top := r.record.candidate.value.realHead;
            var trees := Rebased(s, previous, target).value;
            && top in s'.graph && Reaches(s'.graph, top, target)
            && (if HeadOid(s) == Some(previous) then top == target
                else |trees| >= 3 && s'.graph[top].body == trees[|trees| - 3])
  {
    ReadyShape(s, previous, target, id, debug);
    SyntheticChainIsValid(s, id);
    var s1 := WithSyntheticChain(s, id);
    assert target in s1.graph by {
      SyntheticChainIsRecoverable(s, id);
    }
    HeadOfReplay(s1.graph, target, s1.next, Rebased(s, previous, target).value);
    if HeadOid(s) != Some(previous) {
      assert Chain(s.graph, previous, HeadOid(s).value) != [];
    }
  }

  /** The real head below the two synthetic commits of a rebased chain. */
  lemma HeadOfReplay(g: Graph<Tree>, target: Oid, next: Oid, trees: seq<Tree>)
    requires Valid(g) && Below(g, next) && target in g && |trees| >= 2
    ensures var g', top := Replay(g, target, next, trees), CandidateOf(next, target, trees).realHead;
            && top in g' && Reaches(g', top, target)
            && (if |trees| == 2 then top == target else g'[top].body == trees[|trees| - 3])
  {
    ReplayAppends(g, target, next, trees);
  }

  /** A candidate is only ever prepared on a branch with a merged index, and its head descends
      from the commit that was hosted before as well as from the one that is hosted now. */
  lemma CandidateContinuesBoth(s: Store, previous: Oid, target: Oid, id: string, debug: bool)
    requires ValidStore(s) && Prepare(s, previous, target, id, debug).1.Ready?
    ensures !s.unmerged && s.head.OnBranch? && previous != target
    ensures var (s', r) := Prepare(s, previous, target, id, debug);
            var top := r.record.candidate.value.realHead;
            Reaches(s'.graph, top, target) && Reaches(s'.graph, top, previous)
  {
    PrepareRefusesIff(s, previous, target, id, debug);
    PrepareEndsIff(s, previous, target, id, debug);
    CandidateHead(s, previous, target, id, debug);
    PreparationKeepsObjects(s, previous, target, id, debug);
    var (s', r) := Prepare(s, previous, target, id, debug);
    ReachesInLarger(s.graph, s'.graph, target, previous);
    ReachesTransitive(s'.graph, r.record.candidate.value.realHead, target, previous);
  }

  lemma PreparationKeepsObjects(s: Store, previous: Oid, target: Oid, id: string, debug: bool)
    requires ValidStore(s) && Prepare(s, previous, target, id, debug).1.Ready?
    ensures forall c :: c in s.graph ==>
              c in Prepare(s, previous, target, id, debug).0.graph && Prepare(s, previous, target, id, debug).0.graph[c] == s.graph[c]
  {
    CapturedLayersStayRecoverable(s, previous, target, id, debug);
  }

  /** Captured work stays recoverable after a conflict and after a success. */
  lemma CapturedLayersStayRecoverable(s: Store, previous: Oid, target: Oid, id: string, debug: bool)
    requires ValidStore(s)
    requires Prepare(s, previous, target, id, debug).1.ContentConflict? || Prepare(s, previous, target, id, debug).1.Ready?
    ensures Recoverable(s, id, Prepare(s, previous, target, id, debug).0)
  {
    SyntheticChainIsRecoverable(s, id);
    if Prepare(s, previous, target, id, debug).1.Ready? {
      ReadyStaysRecoverable(s, previous, target, id, debug);
    }
  }

  lemma ReadyStaysRecoverable(s: Store, previous: Oid, target: Oid, id: string, debug: bool)
    requires ValidStore(s) && Prepare(s, previous, target, id, debug).1.Ready?
    ensures Recoverable(s, id, Prepare(s, previous, target, id, debug).0)
  {
    ReadyShape(s, previous, target, id, debug);
    ReplayedStaysRecoverable(s, id, target, Rebased(s, previous, target).value, Prepare(s, previous, target, id, debug).0);
  }

  lemma ReplayedStaysRecoverable(s: Store, id: string, target: Oid, trees: seq<Tree>, s2: Store)
    requires ValidStore(s) && HeadOid(s).Some? && target in s.graph
    requires var s1 := WithSyntheticChain(s, id);
             && s2.graph == Replay(s1.graph, target, s1.next, trees)
             && forall slot: Slot | slot != CandidateSlot :: Lookup(s2.refs, Ref(id, slot)) == Lookup(s1.refs, Ref(id, slot))
    ensures Recoverable(s, id, s2)
  {
    var s1 := WithSyntheticChain(s, id);
    SyntheticChainIsRecoverable(s, id);
    SyntheticChainIsValid(s, id);
    ReplayAppends(s1.graph, target, s1.next, trees);
    MoreObjectsKeepRecoverable(s, id, s1, s2);
  }

  lemma MoreObjectsKeepRecoverable(s: Store, id: string, s1: Store, s2: Store)
    requires Recoverable(s, id, s1) && forall c :: c in s1.graph ==> c in s2.graph && s2.graph[c] == s1.graph[c]
    requires forall slot: Slot | slot != CandidateSlot :: Lookup(s2.refs, Ref(id, slot)) == Lookup(s1.refs, Ref(id, slot))
    ensures Recoverable(s, id, s2)
  {
    assert forall slot: Slot | slot != CandidateSlot && Ref(id, slot) in s1.refs ::
             Lookup(s2.refs, Ref(id, slot)) == Some(s1.refs[Ref(id, slot)]);
  }
}
