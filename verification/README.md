# RepoSync verification

RepoSync keeps Git checkouts on several devices in step. A daemon rebases local work onto the
hosted branch in private, installs the result in journalled steps, and delivers local commits
to the hosted repository through a durable queue. This project models the parts of RepoSync
where a mistake would lose work or break an exclusion, and proves what they promise.

`dafny verify dfyconfig.toml` checks the whole project.

| File | What it models |
|---|---|
| `Trees.dfy`, `Workspace.dfy`, `Graphs.dfy`, `Stores.dfy` | trees as maps from path to blob, the pointwise three-way merge and the rebase of a chain, the working directory, the commit graph, the state of one repository with its journal |
| `Preparation.dfy`, `Installation.dfy`, `Engine.dfy`, `Reconciliation.dfy` | the transaction engine: capture, private rebase, verified and journalled installation, crash recovery, whole reconciliations |
| `EmptyLayers.dfy` | commits that become empty in the private rebase, and reading the layers by position |
| `LeaseGates.dfy`, `Coordination.dfy` | the readers/exclusive gate of a project, and any number of tasks interleaved at their atomic steps around it |
| `PublicationQueues.dfy`, `Publishing.dfy` | the durable publication queue, and many checkouts publishing to one fast-forward-only repository |
| `NamedLeases.dfy`, `ResourceKeys.dfy` | named-lease receipts over a channel that loses, delays and repeats requests; resource keys and listing prefixes |
| `GarbageCollection.dfy`, `NewestRecords.dfy` | garbage collection of transaction records and recovery refs, the bounded debug history, and which records it keeps in terms of stamps and sizes alone |
| `Materialization.dfy` | joining a directory to a hosted project |
| `Shell.dfy`, `ShellTokens.dfy`, `Hooks.dfy`, `Timestamps.dfy`, `Texts.dfy` | shell quoting and splitting, merging hook files, comparing creation stamps |
| `Runs.dfy`, `Collections.dfy`, `Options.dfy` | runs of a step system, facts about finite collections, options |

## How it is modelled

The engine, the gate, the queue, the receipt directory and the journal directory are classes
whose methods follow the source statement by statement. Each method is proved against a
function of the old state, and the promises are then proved about those functions. A crash is
a parameter: a method stops after any number of durable steps. Concurrent and distributed
parts are step systems in which any task, device, message or crash may come next, and the
theorems quantify over all runs. Creation stamps are integers; `Timestamps` shows that the text
the program compares is ordered the same way.

Three statements hold together only across files. A clean rebase preserves every layer
(`Trees`); a prepared candidate is the rebase of the very workspace it is installed into
(`Preparation`, `Workspace`); an installation from such a candidate is all or nothing
(`Installation`). `Reconciliation.AppliedReconciliationKeepsLocalWork` joins them.

## Hypotheses

The code relies on the following, and so do the theorems.

- Neither synthetic commit becomes empty in the rebase. The layers are read by position as
  `HEAD`, `HEAD^` and `HEAD^^` (`src/transaction.rs:759-761`), which
  `EmptyLayers.ReadByPositionIff` shows to be right exactly then; see the first finding.
- The user edits nothing between a crash and the recovery from it.
- The hosted repository refuses updates that are not fast-forwards.
- Creation stamps of one checkout strictly increase on each branch, and each reported commit
  contains the ones reported before it on that branch.
- When an attempt is renewed after a lost race, HEAD contains the reported commit. The code does
  not enforce this; see the second finding. Branches may be reset at any time otherwise.
- Requests name a project by its ID, so that one project has one gate.
- Fewer than 2^64 tasks wait for exclusivity at once. This is stated inside the model.
- The provider of named leases follows the protocol in `spec/protocol.md:133-236`. Its replay
  window outlives every copy of a request that is still travelling. One client process runs
  at a time.
- `write_json` replaces a file atomically, and fresh identifiers are distinct.

## Findings

- **A local edit that is already published misplaces the layers.** `git rebase --keep-empty` keeps
  the commits that were empty to begin with and drops those that become empty. When the index
  layer or the working layer is dropped, `HEAD^^` lies below the last local commit, once for each
  of the two (`EmptyLayers.ReadByPositionIff`). A layer becomes empty exactly when it changes
  something, and every path it changes was untouched by the layers before it and has that very
  content in the target (`EmptyLayers.BecomesEmptyIff`). `EmptyLayers.PublishedEditIsDropped` is
  an input: an unstaged edit that the target brings too, after which the recorded real head is
  the commit the workspace was on. Such a record cannot be told from a finished installation, so
  a crash in the middle is never rolled back (`EmptyLayers.SameHeadIsNeverRolledBack`).
- **Renewing an attempt takes whatever HEAD is.** After the private rebase the delivery loop takes
  the current HEAD as the new candidate without looking at it again. The candidate carries the
  reported commit exactly when HEAD contains it (`Publishing.RenewalCarriesTheWorkIff`). Over any
  run whatever, reported work is lost exactly when some step acknowledges it while the host lacks
  it and no later step reopens it or brings it to the host (`Publishing.WorkIsLostIff`), and every
  such step follows a renewal of the acknowledged publication from a HEAD without its reported
  commit (`Publishing.LossesAreCareless`). `Publishing.LeavingHeadCanLoseWork` gives two runs from
  an untouched project, one that switches branch and one that resets the published branch, after
  which reported work is neither queued nor hosted. Nothing else loses work: a checkout that never
  switches or resets, and reports what is on HEAD, never renews an attempt without its work
  (`Publishing.StayingPutLosesNothing`).
- **An installation may go unrecorded.** When the bookkeeping after an installation fails, for
  instance because `clear_resolved_conflicts` meets an unreadable file
  (`GarbageCollection.JournalStore.ClearResolvedConflicts`), HEAD has moved and the catalog keeps
  the old generation. Two installations start from one generation exactly when neither the first
  nor any between them was recorded (`Coordination.GenerationRepeatsIff`), and
  `Coordination.GenerationCanRepeat` is a run in which that happens.
- **A late failure reopens an acknowledged publication.** After the acknowledgement is written to
  the queue, catalog work is left that can fail, and the failure is recorded on the same entry.
  This reopens an entry exactly in that window and only that entry
  (`Publishing.FailureReopensIff`); `Publishing.LateFailureReopens` is a run that does it. No work
  is lost by it: what is reopened is hosted (`Publishing.ReopenedWorkIsHosted`), and the main
  results hold over runs that contain it.
- **A defaulted renewal may change its payload.** A renewal without a TTL is sent with the
  default TTL of the moment, under the request ID it was first given. If the advertised default
  changes before the retry, the provider must refuse the ID, and the receipt stays bound to it
  (`NamedLeases.RepeatedRenewalIsReplayedIff`). `NamedLeases.ChangedDefaultRefusesTheRenewal` is
  a run from an untouched device that ends there, with every release turned down. Every other
  request carries one payload (`NamedLeases.OneRequestOnePayload`).
- **A narrowed policy strands an interrupted acquisition.** `acquire` checks the TTL against the
  advertised policy, and then against the pending receipt. Repeating an interrupted acquisition
  therefore recovers its lease exactly when it asks for the TTL of the receipt and the policy
  still allows that TTL; otherwise it is refused and nothing changes
  (`NamedLeases.RetryRecoversTheLease`).
- **A collection can bare a conflict.** Under ordinary retention a prepared candidate has refs but
  no record yet, so a collection in that moment removes its refs
  (`Reconciliation.UnrecordedRefsArePruned`). A conflict at installation is then recorded without
  the captured layers: `Reconciliation.CollectionCanBareAConflict` is an input, and
  `Reconciliation.InstallationKeepsJournalTidyIff` the exact condition.
- **A retry record blocks later recoveries.** With a debug history a stale candidate leaves a
  record that recovery does not accept, and `project recover` stops there
  (`Reconciliation.StaleCandidateBlocksRecovery`, with the exact condition in
  `Reconciliation.RecoverEachSucceedsIff`).
- **The collision search has a gap that the snapshot check closes.** The search alone misses an
  indexed file that has been replaced by a directory (`Workspace.SearchAloneCanMissAFile`). A
  candidate that is installed into the very workspace it was prepared from never falls in the
  gap (`Workspace.VerifiedSnapshotIsNeverReplaced`).
- **The installation moves the recorded branch, not the current one.** HEAD follows exactly
  when it is still on that branch (`Installation.InstallMovesHeadIff`); otherwise the files are
  installed under another branch (`Reconciliation.SwitchedBranchIsOverwritten`). The daemon
  tests the branch before it calls the engine: over all its runs every installation was made with
  its branch checked out, its target advertised and its generation current
  (`Coordination.InstallationsWereCurrent`).
- **White space in the state root can confuse the hook merges.** A dispatcher whose quoted path
  reads as a call of `resync` is removed by the other merge, in either direction
  (`Hooks.WorkspaceMergeKeepsProjectDispatcherIff`,
  `Hooks.ProjectMergeKeepsWorkspaceDispatcherIff`, and state roots for both in
  `Hooks.SpacedRootsLoseDispatchers`). Without white space the two merges coexist
  (`Hooks.ProjectAndWorkspaceMergesCoexist`).
- **Adoption refuses some exact snapshots.** When a file of the history was later replaced by a
  directory, or the reverse, even a directory equal to the newest tree is refused
  (`Materialization.ReplacedDirectoryIsRefused`, exact condition in
  `Materialization.MatchesIff`).
- **Splitting a command line drops empty words.** The quoting round trip holds exactly for
  non-empty commands of non-empty words (`Shell.RoundTripIff`).

## Model

| member | source | states |
|---|---|---|
| Trees.RebaseSucceedsIff | src/transaction.rs:709-757 | the private rebase of a chain of any length is clean exactly when no path was edited differently by the local chain and the target, and no predicted layer needs a path both as a file and as a directory |
| Trees.RebaseClosedForm | src/transaction.rs:709-771 | the content of every rebased layer at every path: the layer's own from the first local edit on, the target's until then |
| Trees.CleanRebasePreservesEveryLayer | src/transaction.rs:709-771 | each rebased layer equals the original at a path, or the original still had the previous remote content there and the rebased layer has the target's |
| Trees.StepsBetweenLayersSurvive | src/git_state.rs:76-111 | between consecutive layers a local change survives verbatim and an unchanged path gains none, so staged and unstaged changes stay separate |
| Graphs.ChainIsTheRange | src/transaction.rs:634-645 | the replayed commits are exactly those `previous..HEAD` names when that range holds no merge |
| Graphs.ReplayAppends | src/git_state.rs:76-111 | new commits carry the given trees in order on top of their parent, and no existing object changes |
| Workspace.FindUntrackedCollisions | src/git_state.rs:127-189 | the loops over candidates and their ancestors report exactly the colliding paths |
| Workspace.CollisionIff | src/git_state.rs:127-189 | a collision is reported exactly when an untracked file is at or above the incoming path, or a directory at it is more than the parent of tracked files; and what is reported is what stands there |
| Workspace.EmptySearchMeans | src/git_state.rs:127-189 | an empty search means that no untracked file equals, contains or lies beneath a written path, unless an indexed path was replaced by a directory |
| Workspace.UntrackedSurviveIff | src/git_state.rs:127-189 | after an empty search the reset keeps every untracked file exactly when no indexed path it writes was replaced by a directory |
| Workspace.SearchAloneCanMissAFile | src/git_state.rs:127-189 | a workspace in which the search finds nothing and the reset still removes an untracked file |
| Workspace.RebasedWorkingStaysTracked | src/git_state.rs:45-60 | a capture holds tracked paths only, and a clean rebase keeps that |
| Workspace.VerifiedSnapshotIsNeverReplaced | src/transaction.rs:813-874 | a candidate rebased from the workspace it is installed into never meets the gap of the search |
| Preparation.PrepareIsInvisible | src/transaction.rs:594-811 | preparation changes neither HEAD nor the index nor any file, whatever it decides |
| Preparation.PrepareRefusesIff | src/transaction.rs:601-645 | a preparation is refused exactly for a detached or unborn HEAD, an unmerged index, a HEAD or a target that does not descend from the previous revision, or a merge in the range; which reason it gives; and it then writes nothing |
| Preparation.PrepareEndsIff | src/transaction.rs:618-771 | otherwise it is current exactly for an unchanged target, and else a candidate exactly when the layers are compatible with the target |
| Preparation.PreparationJournals | src/transaction.rs:650-789 | the journal record each outcome leaves: a conflict always, a candidate only with a debug history |
| Preparation.CandidateContinuesBoth | src/transaction.rs:606-632 | a candidate is prepared only on a branch with a merged index, and its head descends from the previous revision and from the target |
| Preparation.PreparedRecordIsWellPrepared | src/transaction.rs:594-811 | a prepared record has what installation relies on as soon as the target is new to the local branch, and holds the snapshot and branch it was prepared from |
| Preparation.CandidateContent | src/transaction.rs:759-771 | the candidate's index and working tree path by path: locally edited paths keep the local content of that layer, others have the target's |
| Preparation.CandidateHead | src/transaction.rs:759-761 | the new head descends from the target and holds the last local commit rebased; it is the target itself when nothing was unpublished |
| Preparation.CapturedLayersStayRecoverable | src/transaction.rs:403-422 | after a conflict or a success the three recovery refs name HEAD, the captured index and the captured working tree, and every earlier object is kept |
| Preparation.ReadyStoreIsValid | src/transaction.rs:594-811 | a successful preparation leaves a well-formed repository |
| EmptyLayers.KeptAreTheSurvivors | src/transaction.rs:709-723 | what Git leaves of the chain are the rebased layers without those that become empty, and dropping one changes no later merge |
| EmptyLayers.BecomesEmptyIff | src/transaction.rs:709-723 | a layer becomes empty exactly when it changes something, and every path it changes was untouched by the layers before it and has just that content in the target |
| EmptyLayers.ReadByPositionIff | src/transaction.rs:759-761 | `HEAD^^` is the last local commit, or the target, exactly when neither synthetic layer becomes empty, and one commit further down for each that does; when none does, `HEAD` and `HEAD^` hold the rebased working tree and index |
| EmptyLayers.CandidateIsReadByPosition | src/transaction.rs:759-771 | the prepared candidate of the other theorems is the one read by position when no layer becomes empty |
| EmptyLayers.PublishedEditIsDropped | src/transaction.rs:709-761 | an unstaged edit that the target brings too, for which the real head read is the commit the workspace was on |
| EmptyLayers.SameHeadIsNeverRolledBack | src/transaction.rs:951-957 | a record whose real head is the captured head is finalized, not rolled back, after a crash at every stage, and recovery leaves what the crash left |
| Engines.Engine.CaptureWorkspace | src/git_state.rs:62-74 | captures HEAD, the index and the index with tracked changes, and nothing without a head commit |
| Engines.Engine.WriteSyntheticChain | src/git_state.rs:76-111 | two commits above HEAD hold the captured index and working tree, and three refs keep them |
| Engines.Engine.PrepareReconciliation | src/transaction.rs:594-811 | all checks, the synthetic chain, the rebase outcome and the journal of a preparation, writing objects, refs and journal only |
| Engines.Engine.ConcludePreparation | src/transaction.rs:723-789 | a conflict is journalled; a success is a candidate with its ref |
| Engines.Engine.RemoveArtifacts | src/transaction.rs:424-443 | refs go first and the record last, for a stop after any step |
| Engines.Engine.FinalizeTransaction | src/transaction.rs:984-993 | removes the artifacts, or keeps the finished record when a debug history is kept |
| Engines.Engine.RunInstallation | src/transaction.rs:519-577 | journal, reset, index, compare-and-swap and tidying in this order for a crash after any step; it fails exactly when the recorded branch moved |
| Engines.Engine.InstallPreparedReconciliation | src/transaction.rs:813-874 | retry exactly when the workspace changed; conflict with exactly the colliding paths; otherwise the installation |
| Engines.Engine.CollisionsWith | src/transaction.rs:535-546 | the reported paths are exactly the collisions of the candidate's tree |
| Engines.Engine.RecoverTransaction | src/transaction.rs:931-982 | recovers forward, back or not at all, for a crash after any step; it returns without an error exactly for a record whose phase asks for nothing or for tidying, or whose installation was interrupted with HEAD on a preserved commit |
| Installation.InstallIsAllOrNothing | src/transaction.rs:519-577 | stopped after any installation step, then after any number of crashed recoveries, a full recovery leaves HEAD, index and files exactly as captured or exactly the candidate; recovering again changes nothing |
| Installation.CrashedRecoveriesStayInFlight | src/transaction.rs:931-982 | interrupted recoveries never turn an installation that moved HEAD back, nor one that did not forward |
| Installation.InstallCrashIsInFlight | src/transaction.rs:519-577 | what a crash after each step leaves in HEAD, index, files and journal |
| Installation.Decisions | src/transaction.rs:931-982 | what recovery decides from every state a crash can leave |
| Installation.RecoveryLeavesAlone | src/transaction.rs:931-982 | from any store whatever, recovery changes nothing for a record that is preparing, an open conflict or a retry, and when HEAD is on neither preserved commit |
| Installation.RecoveryWrites | src/transaction.rs:951-975 | recovery never moves HEAD, and writes index and files exactly for an interrupted installation with HEAD on the captured commit, to the captured ones |
| Installation.RecoveryTidies | src/transaction.rs:939-993 | what a full recovery leaves of the record and its four refs, with and without a debug history |
| Installation.FullRecoverySettles | src/transaction.rs:931-993 | one uninterrupted recovery settles the journal and restores the captured workspace when HEAD had not moved |
| Installation.UntrackedFilesSurviveEveryCrash | src/transaction.rs:535-558 | every untracked file is intact after any crash and any recoveries |
| Installation.InstallMovesHeadIff | src/transaction.rs:558-567 | HEAD ends on the candidate exactly when it is on the recorded branch |
| Reconciliation.TurningBackIsInvisible | src/transaction.rs:606-888 | a reconciliation that ends in conflict, retry or an error before installation leaves HEAD, index, tracked and untracked files as they were |
| Reconciliation.PreparationKeepsJournalTidy | src/transaction.rs:723-757 | without a debug history a preparation leaves only INSTALLING and CONFLICTED records, each conflict with its head, index and working refs |
| Reconciliation.InstallationKeepsJournalTidyIff | src/transaction.rs:813-888 | an installation keeps the journal tidy exactly when it does not end in a conflict after the refs of its candidate were taken away |
| Reconciliation.UnrecordedRefsArePruned | src/transaction.rs:183-222 | a collection takes all refs of a transaction that has no record |
| Reconciliation.CollectedCandidateConflictsBare | src/transaction.rs:848-874 | a conflict after such a collection is recorded without any of its three refs |
| Reconciliation.CollectionCanBareAConflict | src/transaction.rs:848-874 | a checkout, a collection and an untracked file for which that happens |
| Reconciliation.PreparedCandidateFits | src/daemon.rs:444-462 | a candidate prepared after the ancestry check passes every check the installation makes, if nothing changed meanwhile |
| Reconciliation.AppliedReconciliationKeepsLocalWork | src/transaction.rs:594-874 | after an applied reconciliation every locally edited path has its local content, staged and unstaged separately, every other path the target's, untracked files are untouched, and HEAD is the candidate, which contains the target unless objects were deleted in between |
| Reconciliation.RecoverEachSucceedsIff | src/cli.rs:778-793 | recovering the shared journal of any number of repositories returns without an error exactly when no listed record is left for a person to decide |
| Reconciliation.RetryRecordBlocksRecovery | src/transaction.rs:943-945 | a RETRY record makes recovery stop before every record that follows it, in whichever repository |
| Reconciliation.StaleCandidateBlocksRecovery | src/transaction.rs:833-846 | a stale candidate leaves such a record when a debug history is kept |
| Reconciliation.SwitchedBranchIsOverwritten | src/transaction.rs:558-567 | a workspace whose files are installed while HEAD stays, because another branch at the same commit is checked out |
| LeaseGates.LeaseGate.EnqueueExclusive | src/daemon.rs:69-75 | takes the next 64-bit ticket, wrapping, and queues it |
| LeaseGates.LeaseGate.TryBeginExclusive | src/daemon.rs:76-92 | exclusivity begins exactly for the front ticket of an open gate without leases |
| LeaseGates.LeaseGate.EndExclusive | src/daemon.rs:94-97 | opens the gate and notifies once |
| LeaseGates.LeaseGate.TryActivity | src/daemon.rs:99-129 | no lease during exclusivity; the held lease for a repeated call; otherwise a new one |
| LeaseGates.LeaseGate.ReleaseLease | src/daemon.rs:131-146 | removes that lease and its own call entry, and notifies only then |
| LeaseGates.ReleaseKeepsConsistency | src/daemon.rs:131-146 | an old expiry timer never removes a newer lease of the same call |
| LeaseGates.AdmissionKeepsConsistency | src/daemon.rs:99-129 | the call index stays exactly the inverse of the live leases |
| LeaseGates.RepeatedCallKeepsItsLease | src/daemon.rs:104-113 | a repeated call returns its one live lease |
| LeaseGates.LeaseIsSharedIff | src/daemon.rs:104-113 | a request finds a live lease exactly when it names a session and a call and the lease was given to that call of that session |
| Coordination.GateIsSafe | src/daemon.rs:38-147 | for any number of tasks: exclusivity excludes leases and has one owner, owners are granted in order of arrival, and whoever sleeps while its guard holds has a notification coming |
| Coordination.RunsKeepInvariant | src/daemon.rs:38-147 | every run keeps the gate, queue, wake-up, grant and installation invariants |
| Coordination.FrontIsOldest | src/daemon.rs:69-92 | wrapped tickets never confuse two waiting tasks |
| Coordination.StepKeepsWakeups | src/daemon.rs:69-146 | no step loses a wake-up |
| Coordination.SleepersWakeIff | src/daemon.rs:76-129 | a sleeping task moves exactly when a notification came after it began to watch |
| Coordination.GrantedGenerationIsStable | src/daemon.rs:681-739 | the generation an access grant reports stays the project's, and nothing is installed, until that lease ends |
| Coordination.GenerationRepeatsIff | src/daemon.rs:577-641 | over all runs two installations that moved HEAD start from the same generation exactly when neither the first nor any between them was recorded; so at most one recorded installation starts from each generation |
| Coordination.GenerationCanRepeat | src/daemon.rs:630-634 | a run in which two targets are installed from one generation because neither installation was recorded |
| Coordination.StalePlanNeverInstalls | src/daemon.rs:614-628 | a candidate from a used-up generation is turned back whenever its turn comes |
| Coordination.InstallsIff | src/daemon.rs:612-634 | an installation is made exactly when the generation is the expected one, the branch is checked out and the target is advertised for it; otherwise generation, workspace and log stay as they were |
| Coordination.InstallationsWereCurrent | src/daemon.rs:612-634 | over every run each installation was made at a step where its branch was checked out, its target advertised and its generation current |
| Coordination.GenerationNeverFalls | src/daemon.rs:515-575 | the generation of a project never falls |
| PublicationQueues.PublicationQueue.Compact | src/publication.rs:125-143 | drops the oldest completed entries beyond the bound and leaves pending ones as they are |
| PublicationQueues.PublicationQueue.Complete | src/daemon.rs:1111-1139 | acknowledges exactly the pending entries of the branch that are not newer, and reports their IDs |
| PublicationQueues.PublicationQueue.RecordFailure | src/publication.rs:91-100 | the entry waits again, due after the interval, with the error; its request and all other entries are as before |
| PublicationQueues.FailureKeepsPendingWork | src/publication.rs:91-100 | a failure retires nothing: all pending entries stay, the failed one is pending even if it was acknowledged, and every request is unchanged |
| PublicationQueues.CompactionKeepsPendingWork | src/publication.rs:125-143 | compaction keeps all pending entries in order and exactly the newest completed ones |
| PublicationQueues.StaysPending | src/daemon.rs:1111-1139 | an acknowledgement leaves pending exactly the pending entries of other projects and branches and the newer ones |
| Publishing.NoEnqueuedWorkIsLost | src/daemon.rs:767-1139 | over every run of many checkouts with races, crashes, restarts, resets of branches, late failures, superseding acknowledgements and compaction, every change of every reported commit is in a pending publication or in the hosted branch, provided HEAD contains the reported commit at each renewal |
| Publishing.CandidatesContainTheirSource | src/daemon.rs:963-975 | every candidate contains the commit that was reported, however often it was renewed |
| Publishing.AttemptsAreImmutable | src/publication.rs:167-204 | in every run two requests with the same publication ID and attempt carry the same branch, candidate and expected head |
| Publishing.HostedWorkOnlyGrows | src/daemon.rs:977-999 | the hosted branch never loses a change |
| Publishing.WorkIsLostIff | src/daemon.rs:767-1159 | after any run whatever, careful or not, a reported change is neither queued nor hosted exactly when a step acknowledged it while the host lacked it and no later step reopened it or brought it to the host |
| Publishing.LossesAreCareless | src/daemon.rs:922-972 | every step that loses work follows a renewal of the acknowledged publication from a HEAD without its reported commit |
| Publishing.StepLosesIff | src/daemon.rs:1111-1139 | one step, of any kind, loses an entry exactly when it acknowledges the queued entry, on its own or with a newer one, while the host lacks its work |
| Publishing.StepSavesIff | src/daemon.rs:861-870 | one step brings a lost entry back exactly when it is a late failure of the entry's own delivery, or the host has its work afterwards |
| Publishing.StepKeepsSound | src/daemon.rs:767-1139 | every step, careful or not, keeps reported work in order per branch and acknowledges only candidates the host contains |
| Publishing.PushKeepsHosted | src/daemon.rs:977-999 | a push with an expected head never removes hosted work |
| Publishing.RenewalCarriesTheWorkIff | src/daemon.rs:922-972 | a renewal gives its publication a candidate with the reported commit exactly when HEAD contains that commit |
| Publishing.LeavingHeadCanLoseWork | src/daemon.rs:922-972 | two runs from an untouched project, by a switch and by a reset before the renewal, that lose reported work |
| Publishing.StayingPutLosesNothing | src/daemon.rs:922-972 | a checkout that never switches or resets a branch and reports what is on HEAD never renews carelessly and loses nothing, whatever the others do |
| Publishing.ReportsIff | src/daemon.rs:784-812 | a commit is added as one pending entry exactly when its ID is new and no pending entry reports it for the branch |
| Publishing.DeliveryChooses | src/daemon.rs:908-979 | a fetched head decides between skipping the push, pushing, and rebasing; the rebase begins only while the publication's branch is checked out |
| Publishing.PushMovesIff | src/daemon.rs:977-999 | a push moves the hosted branch exactly when it is at the expected head and the candidate descends from it |
| Publishing.RenewalTakesItsOwnBranch | src/daemon.rs:921-975 | over every run a renewal belongs to a rebase begun on the publication's own branch after a fetch; unless that checkout switched in between, the new candidate is the head of that branch, expected on the fetched head, under the next attempt |
| Publishing.FetchHappened | src/daemon.rs:889-920 | over every run a delivery decides on an entry that was pending when taken up and on the head the host had when it was fetched |
| Publishing.DeliveryEnds | src/daemon.rs:887-1159 | a delivery ends only by a crash, a failure, a renewal, or after its acknowledgement is recorded |
| Publishing.FailureReopensIff | src/daemon.rs:861-870 | in all runs a failed delivery reopens an acknowledged entry exactly when it comes after the queue write of that acknowledgement, and no other entry |
| Publishing.LateFailureReopens | src/daemon.rs:1141-1159 | a run without renewals that reopens an acknowledged entry |
| Publishing.ReopenedWorkIsHosted | src/daemon.rs:1117-1139 | what a late failure reopens is already in the hosted branch |
| NamedLeases.EverySecretIsKept | src/named_lease.rs:158-243 | at every point of every run each live lease this device acquired has its secret in a pending or active receipt |
| NamedLeases.StepKeepsInvariant | src/named_lease.rs:158-428 | every step of client, channel and provider keeps requests, leases, replay records and receipts consistent |
| NamedLeases.RetriesNeverCreateASecondLease | spec/protocol.md:169-175 | while replay state is kept, an acquisition creates at most one lease however often it is retried |
| NamedLeases.RetriesNeverHoldTwoLeases | spec/protocol.md:208-215 | even after replay state is dropped, one acquisition never has two live leases, nor one resource |
| NamedLeases.OneRequestOnePayload | src/named_lease.rs:366-389 | each request ID carries one payload, apart from the TTL of a renewal that leaves it to the default |
| NamedLeases.RepeatedRenewalIsReplayedIff | src/named_lease.rs:366-389 | a repeated renewal without a TTL gets the stored answer exactly when the advertised default is still the one first sent; otherwise the ID is refused and the receipt kept |
| NamedLeases.ChangedDefaultRefusesTheRenewal | src/named_lease.rs:366-428 | a run from an untouched device in which the retried renewal gets its request ID refused and the receipt keeps it, so that releases are turned down |
| NamedLeases.RetryRecoversTheLease | src/named_lease.rs:158-243 | repeating an interrupted acquisition ends with the active receipt of the lease it had acquired, and no other lease, exactly when it asks for the TTL of the pending receipt and the policy still allows it; otherwise it is refused and nothing changes |
| NamedLeases.AcquireBegins | src/named_lease.rs:158-201 | an acquisition is refused without effect for a TTL out of bounds, several receipts or another TTL; it takes up the only matching receipt, and draws an ID exactly when none matches |
| NamedLeases.MutationBegins | src/named_lease.rs:348-389 | a renewal or release is refused without effect without a receipt, for a TTL out of bounds, or beside a different pending mutation; the same one is taken up under its own ID |
| NamedLeases.AcquisitionSettles | src/named_lease.rs:203-243 | the receipts after each answer, and that a granted lease is in both receipts in between |
| NamedLeases.MutationSettles | src/named_lease.rs:395-427 | the receipts after each answer to a renewal or release |
| NamedLeases.OnlyTheHolderChangesALease | spec/protocol.md:214-233 | a live lease is changed only by a request with its secret, within the advertised bounds |
| NamedLeases.LeasesAreGranted | spec/protocol.md:206-213 | a lease is granted only for a request in flight, on a free resource, for a TTL within the bounds |
| NamedLeases.ReceiptStore.FindPendingReceipt | src/named_lease.rs:488-524 | nothing, the only match, or a refusal when several receipts match |
| NamedLeases.ReceiptStore.SettleAcquire | src/named_lease.rs:203-243 | a lost answer changes nothing; a refusal removes the pending receipt; a lease moves to an active receipt |
| NamedLeases.ReceiptStore.BeginMutation | src/named_lease.rs:363-380 | the request ID is drawn once and written before sending; a different mutation is refused |
| NamedLeases.ReceiptStore.SettleMutation | src/named_lease.rs:395-427 | the receipt is renewed, removed when the lease is over, or kept |
| ResourceKeys.PrefixMatchesWholeSegments | src/named_lease.rs:280-297 | a key starts with a prefix exactly when the prefix's segments are a proper leading part of the key's |
| ResourceKeys.LeadingSegmentsListTheKey | src/named_lease.rs:559-579 | every proper leading part of a valid key is a valid prefix that lists it |
| ResourceKeys.ValidKeyIff | src/named_lease.rs:559-593 | a key is valid exactly when it is short enough and every segment is valid |
| ResourceKeys.ValidKeyText | src/named_lease.rs:559-593 | a key is valid exactly when it has at most 255 of the allowed characters, in segments of 1 to 63 that start with a letter or digit |
| ResourceKeys.ValidPrefixIff | src/named_lease.rs:559-579 | a prefix is valid exactly when it is a valid key and a slash, 255 characters together |
| ResourceKeys.AcceptableIff | src/protocol.rs:148-241 | a listing is accepted exactly when it has as many leases and resources as entries, each complete, the project's own, and beneath the prefix by whole segments |
| ResourceKeys.CheckListing | src/protocol.rs:148-241 | a listing is accepted exactly when its leases are well formed, the project's own, without repeated leases or resources, and beneath the prefix |
| GarbageCollection.GreedyNext | src/transaction.rs:151-165 | a record is kept exactly when it fits both budgets beside the newer ones that were kept |
| GarbageCollection.GreedyIsBounded | src/transaction.rs:151-165 | at most 128 records and 256 MiB, so that no total overflows |
| GarbageCollection.HistoryIsBounded | src/transaction.rs:143-165 | after a collection the optional history is within both budgets, or empty without a debug history |
| NewestRecords.OptionalSurvivesIff | src/transaction.rs:143-165 | with a debug history an optional record survives exactly when it fits both budgets beside the surviving optional records that are newer by stamp, ties by position |
| NewestRecords.CollectionKeepsIff | src/transaction.rs:108-260 | a file is still there after a collection exactly when it is unreadable or actionable, or optional and within both budgets beside the newer survivors |
| NewestRecords.SurvivorsAreNewest | src/transaction.rs:151-165 | when the sizes fit together, no removed record is newer than a surviving optional one |
| NewestRecords.PrunedIff | src/transaction.rs:453-493 | pruning while records are written removes exactly the records no recovery needs that do not fit beside the newer ones that stay |
| GarbageCollection.ActionableRecordsSurvive | src/transaction.rs:132-239 | INSTALLING and actively conflicted records survive with all their refs, wherever the collection is stopped |
| GarbageCollection.UninterruptedIsCollected | src/transaction.rs:223-245 | stopped after its last step, an interrupted collection is the whole one |
| GarbageCollection.UnreadableRecordsBlockPruning | src/transaction.rs:211-220 | while any record is unreadable no ref is pruned and the file stays |
| GarbageCollection.RefSurvivesIff | src/transaction.rs:183-245 | a ref is still there exactly when a record is unreadable, its project is neither managed nor named, or a retained record needs it |
| GarbageCollection.RefusedIff | src/transaction.rs:183-203 | a collection is refused exactly when a retained record names its refs outside RepoSync's own or with white space |
| GarbageCollection.SweptAreFiles | src/transaction.rs:223-239 | what is left of the files are the retained ones, at the smaller of their two sizes |
| GarbageCollection.ReportCounts | src/transaction.rs:166-259 | the reported refs are those no retained record needs, prunable or skipped, and the compacted records those that get smaller |
| GarbageCollection.CollectionIsIdempotent | src/transaction.rs:108-260 | collecting again changes nothing |
| GarbageCollection.DryRunPredictsTheRealRun | src/transaction.rs:166-259 | a dry run reports the figures of the real run, and they are the differences in files, bytes and refs before and after |
| GarbageCollection.JournalStore.Classify | src/transaction.rs:115-141 | actionable and unreadable files are told from optional history |
| GarbageCollection.JournalStore.KeepNewest | src/transaction.rs:151-165 | marks exactly the greedy choice |
| GarbageCollection.JournalStore.Figures | src/transaction.rs:166-182 | the counts of kept, removed and shrunk records and the bytes reclaimed |
| GarbageCollection.JournalStore.RequiredRefs | src/transaction.rs:183-203 | the refs of all retained records by project, or a refusal on an invalid ref name |
| GarbageCollection.JournalStore.PrunableRefs | src/transaction.rs:204-222 | the refs no retained record needs, and their number |
| GarbageCollection.JournalStore.GcTransactions | src/transaction.rs:108-260 | refuses, predicts or performs the collection with the stated report |
| GarbageCollection.DebugHistoryIsBounded | src/transaction.rs:453-493 | after every pruning at most 128 records are left that no recovery needs |
| GarbageCollection.PruningSpares | src/transaction.rs:465-471 | unreadable, actionable and protected records survive pruning |
| GarbageCollection.PruningSparesRefs | src/transaction.rs:424-443 | so do all their refs, as long as no two records share ref names |
| GarbageCollection.JournalStore.PruneDebugHistory | src/transaction.rs:453-493 | removes exactly the records the greedy pass does not keep, and their refs |
| GarbageCollection.JournalStore.ClearResolvedConflicts | src/transaction.rs:495-517 | removes the project's conflict records before the first unreadable file, with their refs, and fails exactly when there is one; with a debug history it prunes that instead, records and refs |
| GarbageCollection.ClearingSparesIff | src/transaction.rs:495-517 | clearing leaves exactly what is not a conflict of the project before the first unreadable file |
| GarbageCollection.ArtifactsGoIff | src/transaction.rs:424-443 | the four refs of each record that goes, go with it, and no others |
| Materialization.ClassifyBranches | src/remote.rs:593-612 | refuses exactly when some branch diverges; otherwise names the branches missing from or behind the checkout |
| Materialization.SelectLastApplied | src/remote.rs:639-648 | per hosted branch the local head when it is strictly behind, otherwise the hosted one |
| Materialization.LastAppliedIsCommon | src/remote.rs:576-648 | what is recorded as last applied is an ancestor of the checkout's and the host's head, although the host advances meanwhile |
| Materialization.FindBaseline | src/remote.rs:358-402 | the first revision that matches, or none |
| Materialization.MatchesIff | src/remote.rs:359-395 | a revision matches exactly when its tree is the directory restricted to the history's paths and no such path changed between file and directory, empty directories included |
| Materialization.ReplacedDirectoryIsRefused | src/remote.rs:382-391 | a directory equal to a tree that is refused for a replaced path |
| Materialization.ChooseBranch | src/remote.rs:403-425 | the default branch when it contains the commit, otherwise the first advertised one that does |
| Shell.ShellCommandSegments | src/cli.rs:1673-1718 | the character loop computes the segments of the command line |
| Shell.SegmentsOfScript | src/cli.rs:1673-1718 | splitting a script of quoted commands gives back its commands without empty words and empty commands |
| Shell.RoundTripIff | src/hook_dispatcher.rs:10-12 | quoting and splitting round-trip exactly for non-empty commands of non-empty words, whatever characters they hold |
| ShellTokens.EveryTextIsRead | src/cli.rs:1673-1718 | every command line whatever is a sequence of quoted, escaped and bare pieces, white space and separators, perhaps stopping short, and splitting it gives the words these mean |
| ShellTokens.SegmentsAreTheCommands | src/cli.rs:1673-1718 | of any sequence of pieces the splitting reads the commands, without empty words and commands |
| Hooks.MergeHooks | src/cli.rs:1490-1524 | the nested loops compute the merge of one event |
| Hooks.MergeInstallsOneDispatcher | src/cli.rs:1490-1524 | exactly one current dispatcher, no older form, and every unrelated handler in its order |
| Hooks.MergeKeepsGroups | src/cli.rs:1497-1516 | every unrelated handler stays in its own group with its matcher, and the groups stay in order |
| Hooks.MergeIsIdempotent | src/workspace.rs:168-208 | merging again changes nothing |
| Hooks.MergesAreIndependent | src/workspace.rs:168-208 | merges that do not claim each other's marker leave one dispatcher each |
| Hooks.WhoClaimsAMarker | src/hook_dispatcher.rs:93-127 | each merge recognises its own dispatcher, and the other's exactly when its path reads as a call of `resync` |
| Hooks.PathIsDispatcherIff | src/hook_dispatcher.rs:93-104 | of all quoted absolute paths exactly those in a dispatcher directory with the prefix are taken for dispatchers |
| Hooks.MarkedPathIsDispatcherIff | src/hook_dispatcher.rs:93-104 | the same for a path between quotation marks of either kind |
| Hooks.CallIsOursIff | src/hook_dispatcher.rs:106-116 | of all calls of a program by its path exactly those of `resync` with the subcommand are taken for an older form |
| Hooks.ProjectAndWorkspaceMergesCoexist | src/hook_dispatcher.rs:118-127 | in a state root without white space both dispatchers survive both merges in either order |
| Hooks.WorkspaceMergeKeepsProjectDispatcherIff | src/hook_dispatcher.rs:106-127 | for every state root, what a workspace merge does to a project dispatcher |
| Hooks.ProjectMergeKeepsWorkspaceDispatcherIff | src/hook_dispatcher.rs:106-127 | for every state root, what a project merge does to a workspace dispatcher |
| Hooks.SpacedRootsLoseDispatchers | src/hook_dispatcher.rs:106-127 | state roots beneath which each merge removes the other's dispatcher |
| Hooks.MarkerReadsAsCall | src/hook_dispatcher.rs:106-116 | state roots with white space whose dispatchers, of either kind, read as a call |
| Timestamps.StampOrderIsTimeOrder | src/publication.rs:70-70 | creation stamps compare as text exactly as their times do, with fractions of zero, three, six or nine digits |
| Timestamps.StampsAreDistinct | src/daemon.rs:1123-1123 | equal stamps mean equal times |

## Left out

- Git internals: a file is the merge unit; there is no rename detection, hunk merging, submodules, LFS, hooks or file locks, and the steps of one command are not interleaved.
- Object names are allocated in increasing order instead of being hashes, so two equal commits have different names.
- Directories are implied by the files in them, except the empty ones that the collision search and the adoption of a directory see; a reset does not remove empty parents, and symbolic links are blobs that no path leads through.
- Preparation.CandidateHead: keeps local commits that Git drops because they became empty; the tree at the head is the same, as EmptyLayers.ReadByPositionIff shows.
- EmptyLayers.ReadByPositionIff: says which commit is read, and not what an installation of a wrong one does to the workspace.
- The empty-argument check of a preparation: every commit has a name.
- A reconciliation that finds nothing to install only updates the catalog (`src/daemon.rs:583-601`); the catalog's state, conflict and durability fields are not modelled.
- registerProject, reload and catalog migration, which replace whole project records.
- `ensure_branch_transition` (`src/daemon.rs:643-679`): it chains reconciliations that are modelled one by one.
- Coordination.GateIsSafe: does not promise that exclusive work is ever granted, because new activities may keep it waiting by design.
- Coordination.GenerationRepeatsIff: does not model why bookkeeping fails; any installation may go unrecorded.
- Coordination.GenerationNeverFalls: does not model the 64-bit overflow of the generation.
- Publishing.DeliveryChooses: does not model that deliveries pause while the project is conflicted, nor the checks of the candidate before a push; both only stop a delivery.
- Publishing.NoEnqueuedWorkIsLost: holds for runs in which HEAD contains the reported commit at each renewal, because the code does not keep it otherwise, as Publishing.LeavingHeadCanLoseWork shows. Due times, the newest-first choice among pending entries and the limit of five attempts are not modelled; it holds for every order of delivery.
- Reconciliation.PreparationKeepsJournalTidy: is stated without a debug history, because with one every finished record is kept on purpose; the pruning of other records while one is written is in GarbageCollection.
- NamedLeases.EverySecretIsKept: does not model lease generations, the `get` request, malformed answers (they count as lost) or the outcome INVALID_RESOURCE_KEY.
- `next_renewal_at`, whose jitter comes from a hash.
- Materialization.LastAppliedIsCommon: takes the push of several branches as one step; a push that is refused in part ends in an error before anything is recorded.
- Timestamps.StampOrderIsTimeOrder: covers the years 0 to 9999 without leap seconds, which is where the stamps have four-digit years.
- Processes, sockets, HTTP, credentials, systemd, SSH, upgrades, message wording and status display.
