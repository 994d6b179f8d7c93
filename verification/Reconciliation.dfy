/** Whole reconciliations: prepare at one moment, install at a later one, with anything the
    user did in between. */
module Reconciliation {
  import opened Options
  import opened Trees
  import opened Workspace
  import opened Graphs
  import opened Stores
  import opened Preparation
  import opened Installation
  import opened Engines
  import GC = GarbageCollection

  /** The install attempt ends without writing to the workspace. */
  ghost predicate TurnsBack(s: Store, record: Record, emptyDirectories: set<Path>) {
    || Capture(s) != Some(record.snapshot)
    || (record.candidate.Some? && HasCollisions(s, emptyDirectories, record.candidate.value.workingTree))
  }

  /** A prepared candidate that is turned back at installation, as stale or as colliding,
      leaves HEAD, the index and every file, tracked or not, as they were.  Together with
      `PrepareIsInvisible` this covers every ending but a started installation. */
  lemma TurningBackIsInvisible(s: Store, id: string, record: Record, emptyDirectories: set<Path>, debug: bool)
    requires record.candidate.Some? && TurnsBack(s, record, emptyDirectories)
    ensures Seen(InstallPrepared(s, id, record, emptyDirectories, debug)) == Seen(s)
    ensures InstallPrepared(s, id, record, emptyDirectories, debug).heads == s.heads
  {
    FinalizeOnlyTidies(s, id, record.(phase := Retry), debug, ALL);
  }

  ghost predicate KeepsLayers(s: Store, id: string) {
    Ref(id, HeadSlot) in s.refs && Ref(id, IndexSlot) in s.refs && Ref(id, WorkingSlot) in s.refs
  }

  /** Under ordinary retention the journal holds only interrupted installations and
      conflicts, and every conflict still has its three recovery refs. */
  ghost predicate TidyJournal(s: Store) {
    forall id :: id in s.journal ==>
      || s.journal[id].phase == Installing
      || (s.journal[id].phase == Conflicted && KeepsLayers(s, id))
  }

  /** What an ordinary preparation does to the recovery refs and the journal. */
  lemma PreparationJournal(s: Store, previous: Oid, target: Oid, id: string)
    requires ValidStore(s)
    requires Prepare(s, previous, target, id, false).1.ContentConflict? || Prepare(s, previous, target, id, false).1.Ready?
    ensures var (s', r) := Prepare(s, previous, target, id, false);
            && s.refs.Keys <= s'.refs.Keys && KeepsLayers(s', id)
            && (if r.Ready? then s'.journal == s.journal
                else id in s'.journal && s'.journal[id].phase == Conflicted && s'.journal == s.journal[id := s'.journal[id]])
  {
    SyntheticChainRefs(s, id);
    if Prepare(s, previous, target, id, false).1.Ready? {
      ReadyShape(s, previous, target, id, false);
    } else {
      ConflictShape(s, previous, target, id);
    }
  }

  lemma SyntheticChainRefs(s: Store, id: string)
    requires HeadOid(s).Some?
    ensures var s' := WithSyntheticChain(s, id);
            s.refs.Keys <= s'.refs.Keys && KeepsLayers(s', id) && s'.journal == s.journal
  {
  }

  lemma PreparationKeepsJournalTidy(s: Store, previous: Oid, target: Oid, id: string)
    requires ValidStore(s) && TidyJournal(s)
    ensures TidyJournal(Prepare(s, previous, target, id, false).0)
    ensures Prepare(s, previous, target, id, false).1.Ready? ==> KeepsLayers(Prepare(s, previous, target, id, false).0, id)
  {
    if Prepare(s, previous, target, id, false).1.ContentConflict? || Prepare(s, previous, target, id, false).1.Ready? {
      PreparationJournal(s, previous, target, id);
      MoreRefsKeepJournalTidy(s, Prepare(s, previous, target, id, false).0, id);
    }
  }

  /** The install attempt ends by writing a conflict record. */
  ghost predicate EndsInConflict(s: Store, record: Record, emptyDirectories: set<Path>)
    requires record.candidate.Some?
  {
    Capture(s) == Some(record.snapshot) && HasCollisions(s, emptyDirectories, record.candidate.value.workingTree)
  }

  /** An installation keeps the journal tidy exactly when it does not end in a conflict after
      the layer refs of its candidate were taken away. */
  lemma InstallationKeepsJournalTidyIff(s: Store, id: string, record: Record, emptyDirectories: set<Path>)
    requires record.candidate.Some? && TidyJournal(s)
    ensures TidyJournal(InstallPrepared(s, id, record, emptyDirectories, false))
       <==> KeepsLayers(s, id) || !EndsInConflict(s, record, emptyDirectories)
  {
    if EndsInConflict(s, record, emptyDirectories) {
      var s' := WithRecord(s, id, record.(phase := Conflicted));
      assert s'.journal[id].phase == Conflicted;
      if KeepsLayers(s, id) {
        MoreRefsKeepJournalTidy(s, s', id);
      }
    } else {
      OtherEndingsKeepJournalTidy(s, id, record, emptyDirectories);
    }
  }

  lemma OtherEndingsKeepJournalTidy(s: Store, id: string, record: Record, emptyDirectories: set<Path>)
    requires record.candidate.Some? && TidyJournal(s) && !EndsInConflict(s, record, emptyDirectories)
    ensures TidyJournal(InstallPrepared(s, id, record, emptyDirectories, false))
  {
    OneMoreInstalling(s, Indexed(s, id, record), id);
    OneMoreInstalling(s, Moved(s, id, record), id);
    RemovalKeepsJournalTidy(s, id);
    RemovalKeepsJournalTidy(Moved(s, id, record), id);
    InstallPreparedCases(s, id, record, emptyDirectories);
  }

  lemma OneMoreInstalling(s: Store, s': Store, id: string)
    requires TidyJournal(s) && s'.refs == s.refs && id in s'.journal
    requires s'.journal == s.journal[id := s'.journal[id]] && s'.journal[id].phase == Installing
    ensures TidyJournal(s')
  {
    forall other | other in s'.journal && s'.journal[other].phase == Conflicted
      ensures KeepsLayers(s', other)
    {
      assert KeepsLayers(s, other);
    }
  }

  lemma InstallPreparedCases(s: Store, id: string, record: Record, emptyDirectories: set<Path>)
    requires record.candidate.Some?
    ensures var s' := InstallPrepared(s, id, record, emptyDirectories, false);
            || s' == RemoveAfter(s, id, ALL)
            || (EndsInConflict(s, record, emptyDirectories) && s' == WithRecord(s, id, record.(phase := Conflicted)))
            || s' == Indexed(s, id, record)
            || s' == RemoveAfter(Moved(s, id, record), id, ALL)
  {
    RemovalBeyondAll(Moved(s, id, record), id);
  }

  lemma RemovalBeyondAll(s: Store, id: string)
    ensures RemoveAfter(s, id, 5) == RemoveAfter(s, id, ALL)
  {
    assert (set k | 0 <= k < 4 && k < 5 :: Ref(id, SLOTS[k])) == (set k | 0 <= k < 4 && k < ALL :: Ref(id, SLOTS[k]));
  }

  lemma MoreRefsKeepJournalTidy(s: Store, s': Store, id: string)
    requires TidyJournal(s) && s.refs.Keys <= s'.refs.Keys
    requires || s'.journal == s.journal
             || (&& KeepsLayers(s', id) && id in s'.journal && s'.journal == s.journal[id := s'.journal[id]]
                 && s'.journal[id].phase in {Installing, Conflicted})
    ensures TidyJournal(s')
  {
    forall other | other in s'.journal && s'.journal[other].phase == Conflicted
      ensures KeepsLayers(s', other)
    {
      if other != id {
        assert KeepsLayers(s, other);
      }
    }
  }

  lemma RemovalKeepsJournalTidy(s: Store, id: string)
    requires TidyJournal(s)
    ensures TidyJournal(RemoveAfter(s, id, ALL))
  {
    var s' := RemoveAfter(s, id, ALL);
    forall other | other in s'.journal && s'.journal[other].phase == Conflicted
      ensures KeepsLayers(s', other)
    {
      assert KeepsLayers(s, other);
    }
  }

  // ---- a collection between preparation and installation ----

  function SlotName(slot: Slot): string {
    match slot
    case HeadSlot => "/head"
    case IndexSlot => "/index"
    case WorkingSlot => "/working"
    case CandidateSlot => "/candidate"
  }

  function RefName(r: RecoveryRef): string { GC.RECOVERY + r.id + SlotName(r.slot) }

  function RefNames(s: Store): set<string> { set r | r in s.refs :: RefName(r) }

  /** What a collection sees of one repository: its ref names, and among the records of the
      shared directory those of its journal. */
  ghost predicate SeenBy(j: GC.Journal, project: string, s: Store) {
    && project in j.refs && j.refs[project] == RefNames(s)
    && forall f | f in j.files && f.contents.Readable? && f.contents.t.project == project ::
         f.contents.t.id in s.journal && f.contents.t.recoveryRef == GC.RECOVERY + f.contents.t.id
  }

  /** A ref name needed by a transaction carries that transaction's ID. */
  lemma NamesTellIds(id: string, slot: Slot, t: GC.Transaction)
    requires RefName(Ref(id, slot)) in GC.Needed(t) && t.recoveryRef == GC.RECOVERY + t.id
    ensures id == t.id
  {
    var name := RefName(Ref(id, slot));
    assert SlotName(HeadSlot) == "/head" && SlotName(IndexSlot) == "/index" && SlotName(WorkingSlot) == "/working"
           && SlotName(CandidateSlot) == "/candidate";
    var other: Slot :| name == t.recoveryRef + SlotName(other);
    SlotsDiffer(t.recoveryRef, GC.RECOVERY + id, other, slot);
    SameSuffix(GC.RECOVERY + id, t.recoveryRef, SlotName(slot));
    SamePrefix(GC.RECOVERY, id, t.id);
  }

  lemma SlotsDiffer(a: string, b: string, slot: Slot, other: Slot)
    requires a + SlotName(slot) == b + SlotName(other)
    ensures slot == other
  {
    var name := a + SlotName(slot);
    assert name[|name| - 1] == SlotName(slot)[|SlotName(slot)| - 1];
    assert name[|name| - 1] == SlotName(other)[|SlotName(other)| - 1];
  }

  lemma SameSuffix(a: string, b: string, suffix: string)
    requires a + suffix == b + suffix
    ensures a == b
  {
    assert (a + suffix)[..|a|] == a && (b + suffix)[..|b|] == b;
  }

  lemma SamePrefix(prefix: string, a: string, b: string)
    requires prefix + a == prefix + b
    ensures a == b
  {
    assert (prefix + a)[|prefix|..] == a && (prefix + b)[|prefix|..] == b;
  }

  /** A collection that can read every record takes all refs of a transaction without one,
      which is how a prepared candidate stands under ordinary retention. */
  lemma UnrecordedRefsArePruned(
    j: GC.Journal, managed: set<string>, active: set<string>, debug: bool, project: string, s: Store, id: string, slot: Slot)
    requires SeenBy(j, project, s) && GC.AllReadable(j.files) && project in managed && id !in s.journal
    ensures RefName(Ref(id, slot)) !in GC.Collected(j, managed, active, debug).refs[project]
  {
    var chosen := GC.Chosen(j.files, active, debug);
    var name := RefName(Ref(id, slot));
    if name in GC.Required(j.files, active, chosen, project) {
      var i :| 0 <= i < |j.files| && j.files[i].contents.Readable? && j.files[i].contents.t.project == project
               && name in GC.Needed(j.files[i].contents.t);
      var f := j.files[i];
      assert f in j.files;
      assert f.contents.t.recoveryRef == GC.RECOVERY + f.contents.t.id;
      NamesTellIds(id, slot, f.contents.t);
    }
  }

  /** So a collection between preparation and installation lets a later collision write a
      conflict record whose captured layers nothing keeps any more. */
  lemma CollectedCandidateConflictsBare(
    s1: Store, id: string, record: Record, j: GC.Journal, managed: set<string>, active: set<string>, project: string,
    s2: Store, emptyDirectories: set<Path>)
    requires record.candidate.Some? && id !in s1.journal
    requires SeenBy(j, project, s1) && GC.AllReadable(j.files) && project in managed
    requires RefNames(s2) == GC.Collected(j, managed, active, false).refs[project]
    requires EndsInConflict(s2, record, emptyDirectories)
    ensures var s3 := InstallPrepared(s2, id, record, emptyDirectories, false);
            && id in s3.journal && s3.journal[id].phase == Conflicted
            && Ref(id, HeadSlot) !in s3.refs && Ref(id, IndexSlot) !in s3.refs && Ref(id, WorkingSlot) !in s3.refs
  {
    forall slot: Slot ensures Ref(id, slot) !in s2.refs {
      UnrecordedRefsArePruned(j, managed, active, false, project, s1, id, slot);
      assert Ref(id, slot) in s2.refs ==> RefName(Ref(id, slot)) in RefNames(s2);
    }
  }

  const FILE: Path := ["a"]

  /** A clean checkout one commit behind a host that added a file. */
  ghost function Behind(content: Blob): Store {
    Store(OnBranch("main"), map["main" := 0], map[], false, map[],
          map[0 := Commit([], map[]), 1 := Commit([0], map[FILE := content])], 2, map[], map[])
  }

  /** The candidate of that checkout. */
  lemma BehindPrepares(content: Blob, id: string) returns (s1: Store, record: Record)
    ensures ValidStore(Behind(content)) && TidyJournal(Behind(content))
    ensures Prepare(Behind(content), 0, 1, id, false) == (s1, Ready(record))
    ensures record.candidate.Some? && record.candidate.value.workingTree == map[FILE := content]
    ensures record.snapshot == Snapshot(0, map[], map[]) && record.headRef == "main" && s1.journal == map[]
    ensures s1.head == OnBranch("main") && s1.heads == map["main" := 0] && s1.index == map[] && s1.files == map[]
  {
    var s := Behind(content);
    var t: Tree := map[FILE := content];
    var empty: Tree := map[];
    assert ValidStore(s);
    assert WorkingTree(empty, empty) == empty;
    assert Reaches(s.graph, 0, 0);
    assert s.graph[1].parents == [0] && s.graph[1].parents[0] == 0;
    assert Reaches(s.graph, 1, 0);
    assert Chain(s.graph, 0, 0) == [];
    assert Layers(s, 0, 1) == [empty, empty];
    assert Merged(empty, t, empty) == t;
    assert MergeTrees(empty, t, empty) == Some(t);
    assert [empty, empty][1..] == [empty];
    assert [empty][1..] == [];
    var none: seq<Tree> := [];
    assert Rebase(empty, t, none) == Some(none) && [t] + none == [t] && [t] + [t] == [t, t];
    assert Rebase(empty, t, [empty]) == Some([t]);
    assert Rebase(empty, t, [empty, empty]) == Some([t, t]);
    s1, record := Prepare(s, 0, 1, id, false).0, Prepare(s, 0, 1, id, false).1.record;
  }

  /** It happens: the candidate is prepared, a collection runs, the user creates the incoming
      file, and the installation records a conflict without its layers. */
  lemma CollectionCanBareAConflict(content: Blob, mine: Blob, id: string) returns (s1: Store, record: Record, s2: Store)
    ensures Prepare(Behind(content), 0, 1, id, false) == (s1, Ready(record)) && record.candidate.Some?
    ensures s2 == s1.(refs := map[], files := map[FILE := mine])
    ensures Lookup(GC.Collected(GC.Journal([], map["p" := RefNames(s1)]), {"p"}, {}, false).refs, "p") == Some(RefNames(s2))
    ensures !TidyJournal(InstallPrepared(s2, id, record, {}, false))
  {
    s1, record := BehindPrepares(content, id);
    s2 := s1.(refs := map[], files := map[FILE := mine]);
    EmptyJournalKeepsNothing("p", RefNames(s1));
    assert RefNames(s2) == {};
    CollidingCandidateEndsBare(s2, id, record, content, mine);
  }

  lemma EmptyJournalKeepsNothing(project: string, names: set<string>)
    ensures Lookup(GC.Collected(GC.Journal([], map[project := names]), {project}, {}, false).refs, project) == Some({})
  {
    var j := GC.Journal([], map[project := names]);
    var chosen := GC.Chosen([], {}, false);
    assert GC.Required([], {}, chosen, project) == {};
    assert GC.Unneeded(j, {}, chosen, project) == names;
    assert GC.Pruned(j, {project}, {}, chosen)[project] == names - names == {};
  }

  lemma CollidingCandidateEndsBare(s: Store, id: string, record: Record, content: Blob, mine: Blob)
    requires record.candidate.Some? && record.candidate.value.workingTree == map[FILE := content]
    requires record.snapshot == Snapshot(0, map[], map[]) && s.journal == map[] && s.refs == map[]
    requires s.head == OnBranch("main") && s.heads == map["main" := 0] && s.index == map[] && s.files == map[FILE := mine]
    ensures !TidyJournal(InstallPrepared(s, id, record, {}, false))
  {
    assert WorkingTree(s.index, s.files) == map[];
    assert Capture(s) == Some(record.snapshot);
    assert FILE in record.candidate.value.workingTree && Collision(s.files, {}, s.index.Keys, FILE) == Some(FILE);
    InstallationKeepsJournalTidyIff(s, id, record, {});
  }

  /** The gap of the recorded branch is reached: a prepared candidate passes every check of
      the engine after the user switched to another branch at the same commit, and then its
      files are installed while HEAD stays. */
  lemma SwitchedBranchIsOverwritten(content: Blob, id: string) returns (s1: Store, record: Record, s2: Store)
    ensures Prepare(Behind(content), 0, 1, id, false) == (s1, Ready(record)) && record.candidate.Some?
    ensures s2 == s1.(head := OnBranch("other"), heads := map["main" := 0, "other" := 0])
    ensures !TurnsBack(s2, record, {})
    ensures HeadOid(InstallAfter(s2, id, record, false, ALL)) == Some(0)
    ensures InstallAfter(s2, id, record, false, ALL).files == map[FILE := content]
  {
    s1, record := BehindPrepares(content, id);
    s2 := s1.(head := OnBranch("other"), heads := map["main" := 0, "other" := 0]);
    OtherBranchIsOverwritten(s2, id, record, content);
  }

  lemma OtherBranchIsOverwritten(s: Store, id: string, record: Record, content: Blob)
    requires record.candidate.Some? && record.candidate.value.workingTree == map[FILE := content]
    requires record.snapshot == Snapshot(0, map[], map[]) && record.headRef == "main"
    requires s.head == OnBranch("other") && s.heads == map["main" := 0, "other" := 0]
    requires s.index == map[] && s.files == map[]
    ensures !TurnsBack(s, record, {})
    ensures HeadOid(InstallAfter(s, id, record, false, ALL)) == Some(0)
    ensures InstallAfter(s, id, record, false, ALL).files == map[FILE := content]
  {
    var empty: Tree := map[];
    assert WorkingTree(empty, empty) == empty;
    assert Capture(s) == Some(record.snapshot);
    var t: Tree := map[FILE := content];
    assert NoCollisions(empty, {}, empty, t);
    assert ResetFiles(empty, empty, t) == t;
    FinalizeOnlyTidies(Moved(s, id, record), id, record.(phase := Completed), false, ALL - 4);
  }

  /** A candidate prepared earlier fits any later store that captures the same, as long as
      the target is new to the local branch and the branch is still checked out. */
  lemma PreparedCandidateFits(
    s: Store, previous: Oid, target: Oid, id: string, debug: bool, s2: Store, emptyDirectories: set<Path>)
    requires ValidStore(s) && Prepare(s, previous, target, id, debug).1.Ready?
    requires !IsAncestor(s.graph, target, HeadOid(s).value)
    requires ValidStore(s2) && s2.head == s.head && (id in s2.journal ==> s2.journal[id].phase == Preparing)
    requires !TurnsBack(s2, Prepare(s, previous, target, id, debug).1.record, emptyDirectories)
    ensures Fit(s2, id, Prepare(s, previous, target, id, debug).1.record, emptyDirectories)
  {
    PreparedRecordIsWellPrepared(s, previous, target, id, debug);
  }

  /** A path of the local chain below the given layer differs from the previous remote tree. */
  ghost predicate LocallyEdited(s: Store, previous: Oid, target: Oid, below: nat, p: Path)
    requires Admissible(s, previous, target) && below <= 2
  {
    Edited(s.graph[previous].body, Layers(s, previous, target), |Layers(s, previous, target)| - below, p)
  }

  /** An applied reconciliation, end to end and path by path.  Tracked files: a path the
      user changed anywhere in commits, index or working tree keeps the user's content, every
      other path gets the target's.  The index likewise, from commits and staged changes
      alone, so staged and unstaged changes stay separate.  Untracked files are untouched.
      HEAD contains the target, as long as no object was deleted in between. */
  lemma AppliedReconciliationKeepsLocalWork(
    s: Store, previous: Oid, target: Oid, id: string, debug: bool, s2: Store, emptyDirectories: set<Path>, p: Path)
    requires ValidStore(s) && Prepare(s, previous, target, id, debug).1.Ready?
    requires !IsAncestor(s.graph, target, HeadOid(s).value)
    requires ValidStore(s2) && s2.head == s.head && (id in s2.journal ==> s2.journal[id].phase == Preparing)
    requires !TurnsBack(s2, Prepare(s, previous, target, id, debug).1.record, emptyDirectories)
    ensures var record := Prepare(s, previous, target, id, debug).1.record;
            var s3 := InstallPrepared(s2, id, record, emptyDirectories, debug);
            && HeadOid(s3) == Some(record.candidate.value.realHead)
            && Lookup(WorkingTree(s3.index, s3.files), p)
               == (if LocallyEdited(s, previous, target, 1, p) then Lookup(WorkingTree(s2.index, s2.files), p)
                   else Lookup(s.graph[target].body, p))
            && Lookup(s3.index, p)
               == (if LocallyEdited(s, previous, target, 2, p) then Lookup(s2.index, p)
                   else Lookup(s.graph[target].body, p))
            && Untracked(s3.index, s3.files) == Untracked(s2.index, s2.files)
            && (KeepsObjects(Prepare(s, previous, target, id, debug).0, s2) ==>
                  IsAncestor(s3.graph, target, HeadOid(s3).value))
  {
    var record := Prepare(s, previous, target, id, debug).1.record;
    PreparedRecordIsWellPrepared(s, previous, target, id, debug);
    PreparedCandidateFits(s, previous, target, id, debug, s2, emptyDirectories);
    InstallCrashIsInFlight(s2, id, record, emptyDirectories, debug, ALL);
    ArrivedIsInstalled(s2, id, record, emptyDirectories, InstallAfter(s2, id, record, debug, ALL));
    CandidateContent(s, previous, target, id, debug, p);
    if KeepsObjects(Prepare(s, previous, target, id, debug).0, s2) {
      CandidateHead(s, previous, target, id, debug);
      var s1 := Prepare(s, previous, target, id, debug).0;
      TargetIsKept(s, previous, target, id, debug);
      ReachesInLarger(s1.graph, s2.graph, record.candidate.value.realHead, target);
      InstallKeepsObjects(s2, id, record, debug);
    }
  }

  ghost predicate KeepsObjects(s: Store, s': Store) {
    forall c :: c in s.graph ==> c in s'.graph && s'.graph[c] == s.graph[c]
  }

  lemma TargetIsKept(s: Store, previous: Oid, target: Oid, id: string, debug: bool)
    requires ValidStore(s) && Prepare(s, previous, target, id, debug).1.Ready?
    ensures target in Prepare(s, previous, target, id, debug).0.graph
  {
    CapturedLayersStayRecoverable(s, previous, target, id, debug);
  }

  lemma InstallKeepsObjects(s: Store, id: string, record: Record, debug: bool)
    requires record.candidate.Some?
    ensures InstallAfter(s, id, record, debug, ALL).graph == s.graph
  {
    FinalizeOnlyTidies(Moved(s, id, record), id, record.(phase := Completed), debug, ALL - 4);
  }

  /** A record of the shared journal directory: the repository it belongs to, and its ID. */
  datatype Listed = Listed(project: string, id: string)

  /** `resync project recover`: every record in directory order, each in its own repository,
      stopping at the first error. */
  function RecoverEach(stores: map<string, Store>, order: seq<Listed>, debug: bool): (map<string, Store>, bool)
    decreases |order|
  {
    if order == [] then (stores, true)
    else
      var r := order[0];
      if r.project !in stores || r.id !in stores[r.project].journal || Decide(stores[r.project], r.id).Manual? then (stores, false)
      else RecoverEach(stores[r.project := Recover(stores[r.project], r.id, debug)], order[1..], debug)
  }

  ghost predicate Unattended(stores: map<string, Store>, r: Listed) {
    && r.project in stores && r.id in stores[r.project].journal
    && RecoversAlone(stores[r.project], stores[r.project].journal[r.id])
  }

  lemma RecoveringOneLeavesOthers(s: Store, id: string, debug: bool, other: string)
    requires other != id
    ensures Lookup(Recover(s, id, debug).journal, other) == Lookup(s.journal, other)
    ensures HeadOid(Recover(s, id, debug)) == HeadOid(s)
  {
    match Decide(s, id)
    case Finalize(record) => FinalizingLeavesOthers(s, id, record, debug, ALL, other);
    case RollBack(record) =>
      FinalizingLeavesOthers(
        WithReset(s, record.snapshot.workingTree).(index := record.snapshot.indexTree), id, record, debug, ALL - 2, other);
    case _ =>
  }

  lemma FinalizingLeavesOthers(s: Store, id: string, record: Record, debug: bool, steps: nat, other: string)
    requires other != id
    ensures var s' := FinalizeAfter(s, id, record, debug, steps);
            Lookup(s'.journal, other) == Lookup(s.journal, other) && HeadOid(s') == HeadOid(s)
  {
    FinalizeOnlyTidies(s, id, record, debug, steps);
  }

  lemma SameDecision(s: Store, s': Store, id: string)
    requires HeadOid(s') == HeadOid(s) && Lookup(s'.journal, id) == Lookup(s.journal, id)
    ensures Decide(s', id) == Decide(s, id) && (id in s'.journal <==> id in s.journal)
  {
  }

  lemma OthersStayUnattended(stores: map<string, Store>, r: Listed, debug: bool, other: Listed)
    requires r.project in stores && other != r
    ensures var stores' := stores[r.project := Recover(stores[r.project], r.id, debug)];
            Unattended(stores', other) <==> Unattended(stores, other)
  {
    if other.project == r.project {
      var s := stores[r.project];
      RecoveringOneLeavesOthers(s, r.id, debug, other.id);
      SameDecision(s, Recover(s, r.id, debug), other.id);
    }
  }

  /** The whole pass, over any number of repositories, succeeds exactly when no listed record
      needs manual attention. */
  lemma {:induction false} RecoverEachSucceedsIff(stores: map<string, Store>, order: seq<Listed>, debug: bool)
    requires forall i, j :: 0 <= i < j < |order| ==> order[i] != order[j]
    ensures RecoverEach(stores, order, debug).1 <==> forall r :: r in order ==> Unattended(stores, r)
    decreases |order|
  {
    if order != [] && Unattended(stores, order[0]) {
      var first, rest := order[0], order[1..];
      assert forall k | 0 <= k < |rest| :: rest[k] == order[k + 1];
      var stores' := stores[first.project := Recover(stores[first.project], first.id, debug)];
      RecoverEachSucceedsIff(stores', rest, debug);
      forall r | r in rest ensures Unattended(stores', r) <==> Unattended(stores, r) {
        OthersStayUnattended(stores, first, debug, r);
      }
    }
  }

  /** A single RETRY record kept for debugging stops the pass: whatever is listed after it,
      in this repository or another, stays as it is, even when it could be recovered. */
  lemma RetryRecordBlocksRecovery(stores: map<string, Store>, first: Listed, rest: seq<Listed>, debug: bool)
    requires first.project in stores && first.id in stores[first.project].journal
    requires stores[first.project].journal[first.id].phase == Retry
    ensures RecoverEach(stores, [first] + rest, debug) == (stores, false)
  {
    assert ([first] + rest)[0] == first;
  }

  /** Such a record is what a stale candidate leaves when a debug history is kept. */
  lemma StaleCandidateBlocksRecovery(
    stores: map<string, Store>, project: string, id: string, record: Record, emptyDirectories: set<Path>, rest: seq<Listed>)
    requires project in stores && record.candidate.Some? && Capture(stores[project]) != Some(record.snapshot)
    ensures var after := stores[project := InstallPrepared(stores[project], id, record, emptyDirectories, true)];
            RecoverEach(after, [Listed(project, id)] + rest, true) == (after, false)
  {
    var after := stores[project := InstallPrepared(stores[project], id, record, emptyDirectories, true)];
    RetryRecordBlocksRecovery(after, Listed(project, id), rest, true);
  }
}
