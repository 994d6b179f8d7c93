/** Journalled installation and crash recovery, with a crash possible after any durable
    step.  `InstallAfter` and `RecoverAfter` give the store after a number of steps; the
    engine's methods are proved to produce exactly these stores. */
module Installation {
  import opened Options
  import opened Trees
  import opened Workspace
  import opened Graphs
  import opened Stores
  import opened Preparation

  /** Enough steps for an installation or a recovery to run to its end. */
  const ALL: nat := 9

  function WithReset(s: Store, tree: Tree): Store {
    s.(files := ResetFiles(s.index, s.files, tree), index := tree)
  }

  /** The journal says INSTALLING; then the candidate's working tree is written out; then
      its index is read; then HEAD's branch moves. */
  function Journalled(s: Store, id: string, record: Record): Store {
    WithRecord(s, id, record.(phase := Installing))
  }

  function Written(s: Store, id: string, record: Record): Store
    requires record.candidate.Some?
  {
    WithReset(Journalled(s, id, record), record.candidate.value.workingTree)
  }

  function Indexed(s: Store, id: string, record: Record): Store
    requires record.candidate.Some?
  {
    Written(s, id, record).(index := record.candidate.value.indexTree)
  }

  function Moved(s: Store, id: string, record: Record): Store
    requires record.candidate.Some?
  {
    Indexed(s, id, record).(heads := s.heads[record.headRef := record.candidate.value.realHead])
  }

  function InstallAfter(s: Store, id: string, record: Record, debug: bool, steps: nat): Store
    requires record.candidate.Some?
  {
    if steps == 0 then s
    else if steps == 1 then Journalled(s, id, record)
    else if steps == 2 then Written(s, id, record)
    else if steps == 3 then Indexed(s, id, record)
    else FinalizeAfter(Moved(s, id, record), id, record.(phase := Completed), debug, steps - 4)
  }

  datatype Recovery = Nothing | Finalize(record: Record) | RollBack(record: Record) | Manual

  /** What `recover_transaction` decides from the journal and HEAD.  Nothing is done for a
      missing record or one that never started to install; `Manual` is an error return. */
  function Decide(s: Store, id: string): Recovery {
    match Lookup(s.journal, id)
    case None => Nothing
    case Some(record) =>
      match record.phase
      case Preparing => Nothing
      case Conflicted => Nothing
      case Completed => Finalize(record)
      case RolledBack => Finalize(record)
      case Retry => Manual
      case Installing =>
        if record.candidate.None? || HeadOid(s).None? then Manual
        else if HeadOid(s).value == record.candidate.value.realHead then Finalize(record.(phase := Completed))
        else if HeadOid(s).value == record.snapshot.head then RollBack(record.(phase := RolledBack))
        else Manual
  }

  function RecoverAfter(s: Store, id: string, debug: bool, steps: nat): Store {
    match Decide(s, id)
    case Nothing => s
    case Manual => s
    case Finalize(record) => FinalizeAfter(s, id, record, debug, steps)
    case RollBack(record) =>
      var restored := WithReset(s, record.snapshot.workingTree);
      var indexed := restored.(index := record.snapshot.indexTree);
      if steps == 0 then s
      else if steps == 1 then restored
      else FinalizeAfter(indexed, id, record, debug, steps - 2)
  }

  function Recover(s: Store, id: string, debug: bool): Store { RecoverAfter(s, id, debug, ALL) }

  /** Any number of recoveries, each stopped by a crash after the given number of steps. */
  function CrashedRecoveries(s: Store, id: string, crashes: seq<(bool, nat)>): Store
    decreases |crashes|
  {
    if crashes == [] then s
    else CrashedRecoveries(RecoverAfter(s, id, crashes[0].0, crashes[0].1), id, crashes[1..])
  }

  // ---- recovery from any store whatever ----

  /** The record of an installation that was under way. */
  predicate Interrupted(s: Store, id: string) {
    id in s.journal && s.journal[id].phase == Installing && s.journal[id].candidate.Some?
  }

  /** Recovery touches nothing when there is no record, when the record was never installed or
      is an open conflict or a retry, and when HEAD is on neither preserved commit. */
  lemma RecoveryLeavesAlone(s: Store, id: string, debug: bool, steps: nat)
    requires || id !in s.journal
             || s.journal[id].phase in {Preparing, Conflicted, Retry}
             || (s.journal[id].phase == Installing && s.journal[id].candidate.None?)
             || (Interrupted(s, id) && HeadOid(s) != Some(s.journal[id].candidate.value.realHead)
                 && HeadOid(s) != Some(s.journal[id].snapshot.head))
    ensures RecoverAfter(s, id, debug, steps) == s
  {
  }

  /** HEAD is never moved.  Index and files are written only for an interrupted installation
      with HEAD on the captured commit, and then they become the captured ones. */
  lemma RecoveryWrites(s: Store, id: string, debug: bool, steps: nat)
    ensures var s' := RecoverAfter(s, id, debug, steps);
            && s'.head == s.head && s'.heads == s.heads && s'.graph == s.graph
            && (if Interrupted(s, id) && HeadOid(s) == Some(s.journal[id].snapshot.head)
                   && s.journal[id].candidate.value.realHead != s.journal[id].snapshot.head && steps > 0
                then var snapshot := s.journal[id].snapshot;
                     && s'.files == ResetFiles(s.index, s.files, snapshot.workingTree)
                     && s'.index == (if steps == 1 then snapshot.workingTree else snapshot.indexTree)
                else s'.files == s.files && s'.index == s.index)
  {
    match Decide(s, id)
    case Finalize(record) => FinalizeOnlyTidies(s, id, record, debug, steps);
    case RollBack(record) => RollBackWrites(s, id, record, debug, steps);
    case _ =>
  }

  lemma RollBackWrites(s: Store, id: string, record: Record, debug: bool, steps: nat)
    requires Decide(s, id) == RollBack(record)
    ensures var s', snapshot := RecoverAfter(s, id, debug, steps), record.snapshot;
            && s'.head == s.head && s'.heads == s.heads && s'.graph == s.graph
            && s'.files == (if steps == 0 then s.files else ResetFiles(s.index, s.files, snapshot.workingTree))
            && s'.index == (if steps == 0 then s.index else if steps == 1 then snapshot.workingTree else snapshot.indexTree)
  {
    if steps >= 2 {
      FinalizeOnlyTidies(WithReset(s, record.snapshot.workingTree).(index := record.snapshot.indexTree), id, record, debug, steps - 2);
    }
  }

  /** What a full recovery leaves of a record it does not leave alone: with a debug history
      the record, in the phase it ended in; otherwise neither the record nor its four refs. */
  lemma RecoveryTidies(s: Store, id: string, debug: bool)
    requires id in s.journal
    requires || s.journal[id].phase in {Completed, RolledBack}
             || (Interrupted(s, id) && HeadOid(s) in {Some(s.journal[id].candidate.value.realHead), Some(s.journal[id].snapshot.head)})
    ensures var s', record := Recover(s, id, debug), s.journal[id];
            if debug then
              && s'.refs == s.refs
              && s'.journal == s.journal[id := record.(phase :=
                   if record.phase == RolledBack then RolledBack
                   else if record.phase == Completed || HeadOid(s) == Some(record.candidate.value.realHead) then Completed
                   else RolledBack)]
            else
              && s'.journal == s.journal - {id}
              && s'.refs == s.refs - {Ref(id, HeadSlot), Ref(id, IndexSlot), Ref(id, WorkingSlot), Ref(id, CandidateSlot)}
  {
    match Decide(s, id)
    case Finalize(record) => FinalizeTidies(s, id, record, debug, ALL);
    case RollBack(record) =>
      FinalizeTidies(WithReset(s, record.snapshot.workingTree).(index := record.snapshot.indexTree), id, record, debug, ALL - 2);
    case _ =>
  }

  lemma FinalizeTidies(s: Store, id: string, record: Record, debug: bool, steps: nat)
    requires steps >= 5
    ensures var s' := FinalizeAfter(s, id, record, debug, steps);
            if debug then s'.refs == s.refs && s'.journal == s.journal[id := record]
            else
              && s'.journal == s.journal - {id}
              && s'.refs == s.refs - {Ref(id, HeadSlot), Ref(id, IndexSlot), Ref(id, WorkingSlot), Ref(id, CandidateSlot)}
  {
    AllSlots(id, steps);
  }

  lemma AllSlots(id: string, steps: nat)
    requires steps >= 4
    ensures (set k | 0 <= k < 4 && k < steps :: Ref(id, SLOTS[k]))
         == {Ref(id, HeadSlot), Ref(id, IndexSlot), Ref(id, WorkingSlot), Ref(id, CandidateSlot)}
  {
    assert SLOTS[0] == HeadSlot && SLOTS[1] == IndexSlot && SLOTS[2] == WorkingSlot && SLOTS[3] == CandidateSlot;
    var slots := set k | 0 <= k < 4 && k < steps :: Ref(id, SLOTS[k]);
    forall i | 0 <= i < 4 ensures Ref(id, SLOTS[i]) in slots {
    }
  }

  /** A store that passed every check made before the first journal write. */
  ghost predicate Fit(s: Store, id: string, record: Record, emptyDirectories: set<Path>) {
    && ValidStore(s) && WellPrepared(record)
    && Capture(s) == Some(record.snapshot)
    && s.head == OnBranch(record.headRef)
    && NoCollisions(s.files, emptyDirectories, s.index, record.candidate.value.workingTree)
    && (id in s.journal ==> s.journal[id].phase == Preparing)
  }

  /** The files after the candidate was written out: its working tree and the untracked files. */
  ghost function InstalledFiles(s: Store, record: Record): Tree
    requires record.candidate.Some?
  {
    record.candidate.value.workingTree + Untracked(s.index, s.files)
  }

  lemma UntrackedStayClear(s: Store, id: string, record: Record, emptyDirectories: set<Path>)
    requires Fit(s, id, record, emptyDirectories)
    ensures forall u, t :: u in Untracked(s.index, s.files) && t in record.candidate.value.workingTree ==>
              u != t && !Clashes(u, t)
    ensures forall u :: u in Untracked(s.index, s.files) ==> u !in record.candidate.value.indexTree
  {
    var c := record.candidate.value;
    VerifiedSnapshotIsNeverReplaced(s.files, s.index, c.indexTree, c.workingTree);
    RebasedWorkingStaysTracked(s.index, c.indexTree, record.snapshot.workingTree, c.workingTree);
    forall u, t | u in Untracked(s.index, s.files) && t in c.workingTree
      ensures u != t && !Clashes(u, t)
    {
      EmptySearchMeans(s.files, emptyDirectories, s.index, c.workingTree, u, t);
    }
  }

  lemma ForwardFiles(s: Store, id: string, record: Record, emptyDirectories: set<Path>)
    requires Fit(s, id, record, emptyDirectories)
    ensures ResetFiles(s.index, s.files, record.candidate.value.workingTree) == InstalledFiles(s, record)
  {
    UntrackedStayClear(s, id, record, emptyDirectories);
    ResetWrites(s.index, s.files, record.candidate.value.workingTree, Untracked(s.index, s.files));
  }

  /** From every point of an installation the reset to the captured working tree restores
      every file, tracked or not. */
  lemma BackwardFiles(s: Store, id: string, record: Record, emptyDirectories: set<Path>, index: Tree, files: Tree)
    requires Fit(s, id, record, emptyDirectories)
    requires || (files == s.files && index in {s.index, record.snapshot.workingTree})
             || (files == InstalledFiles(s, record)
                 && index in {record.candidate.value.workingTree, record.candidate.value.indexTree})
    ensures ResetFiles(index, files, record.snapshot.workingTree) == s.files
  {
    var c := record.candidate.value;
    UntrackedStayClear(s, id, record, emptyDirectories);
    RebasedWorkingStaysTracked(s.index, c.indexTree, record.snapshot.workingTree, c.workingTree);
    ResetWrites(index, files, record.snapshot.workingTree, Untracked(s.index, s.files));
    FilesSplit(s.index, s.files);
  }

  /** HEAD has not moved: what is visible is the captured workspace or a stage on the way,
      and unless the journal still says INSTALLING it is exactly the captured workspace. */
  ghost predicate OnTheWay(s0: Store, id: string, record: Record, s: Store)
    requires record.candidate.Some?
  {
    var c := record.candidate.value;
    && s.head == s0.head && s.heads == s0.heads
    && (|| (s.files == s0.files && s.index in {s0.index, record.snapshot.workingTree})
        || (s.files == InstalledFiles(s0, record) && s.index in {c.workingTree, c.indexTree}))
    && (id !in s.journal || s.journal[id].phase in {Preparing, RolledBack} ==>
          s.files == s0.files && s.index == s0.index)
    && (id in s.journal ==> s.journal[id].phase in {Preparing, RolledBack}
                            || s.journal[id] == record.(phase := Installing))
  }

  /** HEAD has moved: everything visible is the candidate. */
  ghost predicate Arrived(s0: Store, id: string, record: Record, s: Store)
    requires record.candidate.Some?
  {
    var c := record.candidate.value;
    && s.head == s0.head && s.heads == s0.heads[record.headRef := c.realHead]
    && s.files == InstalledFiles(s0, record) && s.index == c.indexTree
    && (id in s.journal ==> s.journal[id] in {record.(phase := Installing), record.(phase := Completed)})
  }

  ghost predicate InFlight(s0: Store, id: string, record: Record, s: Store)
    requires record.candidate.Some?
  {
    OnTheWay(s0, id, record, s) || Arrived(s0, id, record, s)
  }

  /** Tidying up touches only the recovery refs and this journal record. */
  lemma FinalizeOnlyTidies(s: Store, id: string, record: Record, debug: bool, steps: nat)
    ensures var s' := FinalizeAfter(s, id, record, debug, steps);
            && s' == s.(refs := s'.refs, journal := s'.journal)
            && (|| s'.journal == s.journal
                || (debug && s'.journal == s.journal[id := record])
                || (!debug && s'.journal == s.journal - {id}))
            && (steps >= 5 ==> s'.journal != s.journal || id !in s.journal || s.journal[id] == record)
  {
  }

  /** The stages of an installation, given what its reset writes. */
  lemma StagesBeforeTheMove(s: Store, id: string, record: Record)
    requires record.candidate.Some? && (id in s.journal ==> s.journal[id].phase == Preparing)
    requires ResetFiles(s.index, s.files, record.candidate.value.workingTree) == InstalledFiles(s, record)
    ensures OnTheWay(s, id, record, s) && OnTheWay(s, id, record, Journalled(s, id, record))
    ensures OnTheWay(s, id, record, Written(s, id, record)) && OnTheWay(s, id, record, Indexed(s, id, record))
  {
  }

  lemma StagesAfterTheMove(s: Store, id: string, record: Record, debug: bool, steps: nat)
    requires record.candidate.Some?
    requires ResetFiles(s.index, s.files, record.candidate.value.workingTree) == InstalledFiles(s, record)
    ensures Arrived(s, id, record, FinalizeAfter(Moved(s, id, record), id, record.(phase := Completed), debug, steps))
  {
    FinalizeOnlyTidies(Moved(s, id, record), id, record.(phase := Completed), debug, steps);
  }

  lemma InstallCrashIsInFlight(s: Store, id: string, record: Record, emptyDirectories: set<Path>, debug: bool, steps: nat)
    requires Fit(s, id, record, emptyDirectories)
    ensures if steps <= 3 then OnTheWay(s, id, record, InstallAfter(s, id, record, debug, steps))
            else Arrived(s, id, record, InstallAfter(s, id, record, debug, steps))
  {
    ForwardFiles(s, id, record, emptyDirectories);
    if steps <= 3 {
      CrashBeforeTheMove(s, id, record, debug, steps);
    } else {
      StagesAfterTheMove(s, id, record, debug, steps - 4);
    }
  }

  lemma CrashBeforeTheMove(s: Store, id: string, record: Record, debug: bool, steps: nat)
    requires record.candidate.Some? && (id in s.journal ==> s.journal[id].phase == Preparing) && steps <= 3
    requires ResetFiles(s.index, s.files, record.candidate.value.workingTree) == InstalledFiles(s, record)
    ensures OnTheWay(s, id, record, InstallAfter(s, id, record, debug, steps))
  {
    StagesBeforeTheMove(s, id, record);
  }

  /** What a recovery decides from a store on the way, and from one that arrived. */
  lemma Decisions(s0: Store, id: string, record: Record, s: Store)
    requires record.candidate.Some? && record.candidate.value.realHead != record.snapshot.head
    requires Capture(s0) == Some(record.snapshot) && s0.head == OnBranch(record.headRef)
    ensures OnTheWay(s0, id, record, s) ==>
              if id !in s.journal || s.journal[id].phase == Preparing then Decide(s, id) == Nothing
              else if s.journal[id].phase == RolledBack then Decide(s, id) == Finalize(s.journal[id])
              else Decide(s, id) == RollBack(record.(phase := RolledBack))
    ensures Arrived(s0, id, record, s) ==>
              if id !in s.journal then Decide(s, id) == Nothing
              else Decide(s, id) == Finalize(record.(phase := Completed))
  {
  }

  lemma RollBackStages(s0: Store, id: string, record: Record, s: Store, debug: bool, steps: nat)
    requires record.candidate.Some? && Capture(s0) == Some(record.snapshot)
    requires OnTheWay(s0, id, record, s) && Decide(s, id) == RollBack(record.(phase := RolledBack))
    requires id in s.journal && s.journal[id] == record.(phase := Installing)
    requires ResetFiles(s.index, s.files, record.snapshot.workingTree) == s0.files
    ensures OnTheWay(s0, id, record, RecoverAfter(s, id, debug, steps))
    ensures steps >= 7 ==> var s' := RecoverAfter(s, id, debug, steps);
                           && s'.files == s0.files && s'.index == s0.index
                           && (id in s'.journal ==> debug && s'.journal[id].phase == RolledBack)
  {
    if steps >= 2 {
      var indexed := WithReset(s, record.snapshot.workingTree).(index := record.snapshot.indexTree);
      FinalizeOnlyTidies(indexed, id, record.(phase := RolledBack), debug, steps - 2);
    }
  }

  lemma RecoveryCrashIsInFlight(
    s0: Store, id: string, record: Record, emptyDirectories: set<Path>, s: Store, debug: bool, steps: nat)
    requires Fit(s0, id, record, emptyDirectories) && InFlight(s0, id, record, s)
    ensures OnTheWay(s0, id, record, s) ==> OnTheWay(s0, id, record, RecoverAfter(s, id, debug, steps))
    ensures Arrived(s0, id, record, s) ==> Arrived(s0, id, record, RecoverAfter(s, id, debug, steps))
  {
    Decisions(s0, id, record, s);
    if Decide(s, id).RollBack? {
      BackwardFiles(s0, id, record, emptyDirectories, s.index, s.files);
      RollBackStages(s0, id, record, s, debug, steps);
    } else if Decide(s, id).Finalize? {
      FinalizeOnlyTidies(s, id, Decide(s, id).record, debug, steps);
    }
  }

  /** The journal no longer asks for anything, or only to be tidied. */
  ghost predicate Settled(s: Store, id: string) {
    id !in s.journal || s.journal[id].phase in {Preparing, RolledBack, Completed}
  }

  lemma FullRecoverySettles(s0: Store, id: string, record: Record, emptyDirectories: set<Path>, s: Store, debug: bool)
    requires Fit(s0, id, record, emptyDirectories) && InFlight(s0, id, record, s)
    ensures Settled(Recover(s, id, debug), id)
    ensures Recover(Recover(s, id, debug), id, debug) == Recover(s, id, debug)
    ensures OnTheWay(s0, id, record, s) ==> Seen(Recover(s, id, debug)) == Seen(s0)
  {
    Decisions(s0, id, record, s);
    if Decide(s, id).RollBack? {
      BackwardFiles(s0, id, record, emptyDirectories, s.index, s.files);
      RollBackSettles(s0, id, record, s, debug);
    } else if Decide(s, id).Finalize? {
      FinalizeSettles(s, id, Decide(s, id).record, debug);
    }
  }

  lemma RollBackSettles(s0: Store, id: string, record: Record, s: Store, debug: bool)
    requires record.candidate.Some? && Capture(s0) == Some(record.snapshot)
    requires OnTheWay(s0, id, record, s) && Decide(s, id) == RollBack(record.(phase := RolledBack))
    requires id in s.journal && s.journal[id] == record.(phase := Installing)
    requires ResetFiles(s.index, s.files, record.snapshot.workingTree) == s0.files
    ensures var s' := Recover(s, id, debug);
            Settled(s', id) && Recover(s', id, debug) == s' && Seen(s') == Seen(s0)
  {
    RollBackStages(s0, id, record, s, debug, ALL);
    RollBackIsFinal(s, id, debug);
  }

  lemma FinalizeSettles(s: Store, id: string, record: Record, debug: bool)
    requires Decide(s, id) == Finalize(record) && record.phase in {Completed, RolledBack}
    ensures var s' := Recover(s, id, debug);
            Settled(s', id) && Recover(s', id, debug) == s' && Seen(s') == Seen(s)
  {
    FinalizeOnlyTidies(s, id, record, debug, ALL);
    FinalizeIsFinal(s, id, record, debug);
  }

  lemma FinalizeIsFinal(s: Store, id: string, record: Record, debug: bool)
    requires Decide(s, id) == Finalize(record) && record.phase in {Completed, RolledBack}
    ensures Recover(Recover(s, id, debug), id, debug) == Recover(s, id, debug)
  {
    var s' := Recover(s, id, debug);
    if debug {
      assert s'.journal[id] == record;
      assert s'.journal[id := record] == s'.journal;
    }
  }

  lemma RollBackIsFinal(s: Store, id: string, debug: bool)
    requires Decide(s, id).RollBack?
    ensures Recover(Recover(s, id, debug), id, debug) == Recover(s, id, debug)
  {
    var record := Decide(s, id).record;
    var s' := Recover(s, id, debug);
    if debug {
      assert s'.journal[id] == record;
      assert s'.journal[id := record] == s'.journal;
    }
  }

  lemma {:induction false} CrashedRecoveriesStayInFlight(
    s0: Store, id: string, record: Record, emptyDirectories: set<Path>, s: Store, crashes: seq<(bool, nat)>)
    requires Fit(s0, id, record, emptyDirectories) && InFlight(s0, id, record, s)
    ensures OnTheWay(s0, id, record, s) ==> OnTheWay(s0, id, record, CrashedRecoveries(s, id, crashes))
    ensures Arrived(s0, id, record, s) ==> Arrived(s0, id, record, CrashedRecoveries(s, id, crashes))
    decreases |crashes|
  {
    if crashes != [] {
      RecoveryCrashIsInFlight(s0, id, record, emptyDirectories, s, crashes[0].0, crashes[0].1);
      CrashedRecoveriesStayInFlight(
        s0, id, record, emptyDirectories, RecoverAfter(s, id, crashes[0].0, crashes[0].1), crashes[1..]);
    }
  }

  /** What a finished installation shows: HEAD on the rebased chain, the candidate's index,
      the candidate's working tree for tracked files, and every untracked file as it was. */
  ghost predicate Installed(s0: Store, record: Record, v: Visible)
    requires record.candidate.Some?
  {
    var c := record.candidate.value;
    && v.head == s0.head && v.headOid == Some(c.realHead) && v.index == c.indexTree
    && WorkingTree(v.index, v.files) == c.workingTree
    && Untracked(v.index, v.files) == Untracked(s0.index, s0.files)
  }

  lemma ArrivedIsInstalled(s0: Store, id: string, record: Record, emptyDirectories: set<Path>, s: Store)
    requires Fit(s0, id, record, emptyDirectories) && Arrived(s0, id, record, s)
    ensures Installed(s0, record, Seen(s))
  {
    var c := record.candidate.value;
    UntrackedStayClear(s0, id, record, emptyDirectories);
    RebasedWorkingStaysTracked(s0.index, c.indexTree, record.snapshot.workingTree, c.workingTree);
    var tracked, untracked := WorkingTree(s.index, s.files), Untracked(s.index, s.files);
    forall p: Path
      ensures Lookup(tracked, p) == Lookup(c.workingTree, p)
      ensures Lookup(untracked, p) == Lookup(Untracked(s0.index, s0.files), p)
    {
    }
    SameLookups(tracked, c.workingTree);
    SameLookups(untracked, Untracked(s0.index, s0.files));
  }

  /** Installation is all or nothing.  Stop it after any number of durable steps, crash any
      number of recoveries at any of theirs, and let one recovery finish: the user sees
      exactly the workspace from before, or exactly the candidate with every untracked file
      kept; which of the two depends only on whether HEAD had moved; and recovering once
      more changes nothing at all. */
  lemma InstallIsAllOrNothing(
    s: Store, id: string, record: Record, emptyDirectories: set<Path>,
    debug: bool, steps: nat, crashes: seq<(bool, nat)>, lastDebug: bool)
    requires Fit(s, id, record, emptyDirectories)
    ensures var recovered := Recover(CrashedRecoveries(InstallAfter(s, id, record, debug, steps), id, crashes), id, lastDebug);
            && (if steps <= 3 then Seen(recovered) == Seen(s) else Installed(s, record, Seen(recovered)))
            && Settled(recovered, id)
            && Recover(recovered, id, lastDebug) == recovered
  {
    var crashed := InstallAfter(s, id, record, debug, steps);
    InstallCrashIsInFlight(s, id, record, emptyDirectories, debug, steps);
    CrashedRecoveriesStayInFlight(s, id, record, emptyDirectories, crashed, crashes);
    var before := CrashedRecoveries(crashed, id, crashes);
    FullRecoverySettles(s, id, record, emptyDirectories, before, lastDebug);
    if steps > 3 {
      ArrivedIsInstalled(s, id, record, emptyDirectories, Recover(before, id, lastDebug));
    }
  }

  /** Untracked files are never touched, whatever crashes, even before recovery has run. */
  lemma UntrackedFilesSurviveEveryCrash(
    s: Store, id: string, record: Record, emptyDirectories: set<Path>,
    debug: bool, steps: nat, crashes: seq<(bool, nat)>, u: Path)
    requires Fit(s, id, record, emptyDirectories) && u in Untracked(s.index, s.files)
    ensures Lookup(CrashedRecoveries(InstallAfter(s, id, record, debug, steps), id, crashes).files, u)
         == Some(s.files[u])
  {
    InstallCrashIsInFlight(s, id, record, emptyDirectories, debug, steps);
    CrashedRecoveriesStayInFlight(
      s, id, record, emptyDirectories, InstallAfter(s, id, record, debug, steps), crashes);
  }

  /** An installation that is not interrupted moves HEAD exactly when the branch recorded at
      preparation is still checked out, which is the guard the daemon tests under its
      catalog lock; otherwise it rewrites index and files under another branch. */
  lemma InstallMovesHeadIff(s: Store, id: string, record: Record, debug: bool)
    requires WellPrepared(record) && Capture(s) == Some(record.snapshot) && s.head.OnBranch?
    ensures HeadOid(InstallAfter(s, id, record, debug, ALL)) == Some(record.candidate.value.realHead)
       <==> s.head.name == record.headRef
  {
  }
}
