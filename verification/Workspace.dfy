/** The checked-out workspace: what a capture sees, what the overwriting reset writes,
    and the search for untracked files that an installation would destroy. */
module Workspace {
  import opened Options
  import opened Trees

  /** The working tree a capture records: the index with every tracked change added.
      A tracked path that is missing, or is now a directory, drops out. */
  function WorkingTree(index: Tree, files: Tree): Tree {
    map p | p in index && p in files :: files[p]
  }

  predicate Clashes(p: Path, q: Path) { p < q || q < p }

  /** `git read-tree --reset -u tree`, seen on the files of the disk: the tree is written
      out, tracked paths that it lacks are removed, and anything else in its way goes. */
  function ResetFiles(index: Tree, files: Tree, tree: Tree): Tree {
    map p | p in tree.Keys + files.Keys
            && (p in tree || (p !in index && forall t | t in tree :: !Clashes(p, t)))
      :: if p in tree then tree[p] else files[p]
  }

  /** The files that no index entry covers. */
  function Untracked(index: Tree, files: Tree): Tree {
    map p | p in files && p !in index :: files[p]
  }

  predicate IsDirectory(files: Tree, emptyDirectories: set<Path>, p: Path) {
    (exists q | q in files :: p < q) || exists d | d in emptyDirectories :: p <= d
  }

  /** The first untracked file standing where the candidate needs a directory. */
  function BlockingAncestor(files: Tree, tracked: set<Path>, candidate: Path, from: nat): Option<Path>
    decreases |candidate| - from
  {
    if from >= |candidate| then None
    else if candidate[..from] in files && candidate[..from] !in tracked then Some(candidate[..from])
    else BlockingAncestor(files, tracked, candidate, from + 1)
  }

  /** The collision reported for one incoming tracked path. */
  function Collision(files: Tree, emptyDirectories: set<Path>, tracked: set<Path>, candidate: Path): Option<Path> {
    match BlockingAncestor(files, tracked, candidate, 1)
    case Some(ancestor) => Some(ancestor)
    case None =>
      if candidate in tracked then None
      else if candidate in files then Some(candidate)
      else if !IsDirectory(files, emptyDirectories, candidate) then None
      else if !exists t | t in tracked :: candidate < t then Some(candidate)
      else if exists u | u in files :: u !in tracked && candidate < u then Some(candidate)
      else None
  }

  ghost predicate ProperPaths(t: Tree) {
    forall p :: p in t ==> p != []
  }

  ghost predicate Reported(files: Tree, emptyDirectories: set<Path>, tracked: set<Path>, candidates: seq<Path>, p: Path) {
    exists c :: c in candidates && Collision(files, emptyDirectories, tracked, c) == Some(p)
  }

  lemma ReportedNext(files: Tree, emptyDirectories: set<Path>, tracked: set<Path>, candidates: seq<Path>, k: nat)
    requires k < |candidates|
    ensures forall p :: Reported(files, emptyDirectories, tracked, candidates[..k + 1], p)
                   <==> || Reported(files, emptyDirectories, tracked, candidates[..k], p)
                        || Collision(files, emptyDirectories, tracked, candidates[k]) == Some(p)
  {
    assert candidates[..k + 1] == candidates[..k] + [candidates[k]];
  }

  /** The search itself, with the loops of the source. */
  method FindUntrackedCollisions(files: Tree, emptyDirectories: set<Path>, tracked: set<Path>, candidates: seq<Path>)
    returns (collisions: set<Path>)
    ensures forall p :: p in collisions <==> Reported(files, emptyDirectories, tracked, candidates, p)
  {
    collisions := {};
    for k := 0 to |candidates|
      invariant forall p :: p in collisions <==> Reported(files, emptyDirectories, tracked, candidates[..k], p)
    {
      var candidate := candidates[k];
      ReportedNext(files, emptyDirectories, tracked, candidates, k);
      var ancestorCollision := false;
      var i := 1;
      while i < |candidate| && !ancestorCollision
        invariant !ancestorCollision ==>
            BlockingAncestor(files, tracked, candidate, 1) == BlockingAncestor(files, tracked, candidate, i)
        invariant ancestorCollision ==> Collision(files, emptyDirectories, tracked, candidate).Some?
        invariant forall p ::
            p in collisions <==> || Reported(files, emptyDirectories, tracked, candidates[..k], p)
                                 || (ancestorCollision && Collision(files, emptyDirectories, tracked, candidate) == Some(p))
        decreases |candidate| - i, !ancestorCollision
      {
        var ancestor := candidate[..i];
        if ancestor in files && ancestor !in tracked {
          collisions := collisions + {ancestor};
          ancestorCollision := true;
        } else {
          i := i + 1;
        }
      }
      if ancestorCollision || candidate in tracked {
        continue;
      }
      if candidate in files {
        collisions := collisions + {candidate};
        continue;
      }
      if !IsDirectory(files, emptyDirectories, candidate) {
        continue;
      }
      var hasTrackedDescendants := exists t | t in tracked :: candidate < t;
      if !hasTrackedDescendants {
        collisions := collisions + {candidate};
        continue;
      }
      var untracked := exists u | u in files :: u !in tracked && candidate < u;
      if untracked {
        collisions := collisions + {candidate};
      }
    }
    assert candidates[..|candidates|] == candidates;
  }

  /** The search found nothing for any path of the tree. */
  ghost predicate NoCollisions(files: Tree, emptyDirectories: set<Path>, index: Tree, tree: Tree) {
    forall c :: c in tree ==> Collision(files, emptyDirectories, index.Keys, c).None?
  }

  /** An indexed path of the incoming tree is now a directory with an untracked file in it. */
  ghost predicate Replaced(files: Tree, index: Tree, tree: Tree) {
    exists t, u :: t in tree && t in index && u in Untracked(index, files) && t < u
  }

  lemma {:induction false} BlockingAncestorFinds(files: Tree, tracked: set<Path>, candidate: Path, from: nat, i: nat)
    requires from <= i < |candidate| && candidate[..i] in files && candidate[..i] !in tracked
    ensures BlockingAncestor(files, tracked, candidate, from).Some?
    decreases |candidate| - from
  {
    if from < i {
      BlockingAncestorFinds(files, tracked, candidate, from + 1, i);
    }
  }

  lemma {:induction false} BlockingAncestorMeans(files: Tree, tracked: set<Path>, candidate: Path, from: nat)
    ensures BlockingAncestor(files, tracked, candidate, from).Some? ==>
              var a := BlockingAncestor(files, tracked, candidate, from).value;
              from <= |a| && a < candidate && a in files && a !in tracked
    decreases |candidate| - from
  {
    if from < |candidate| {
      BlockingAncestorMeans(files, tracked, candidate, from + 1);
    }
  }

  /** An untracked file stands at the incoming path or where it needs a directory. */
  ghost predicate FileInTheWay(files: Tree, tracked: set<Path>, candidate: Path, u: Path) {
    u in files && u !in tracked && (u < candidate || u == candidate)
  }

  /** A directory stands at an incoming path that the index does not hold, and it is more
      than the parent of tracked files: nothing tracked is below it, or something untracked is. */
  ghost predicate DirectoryInTheWay(files: Tree, emptyDirectories: set<Path>, tracked: set<Path>, candidate: Path) {
    && candidate !in tracked && candidate !in files
    && ((exists q :: q in files && candidate < q) || (exists d :: d in emptyDirectories && candidate <= d))
    && ((forall t :: t in tracked ==> !(candidate < t)) || exists u :: u in files && u !in tracked && candidate < u)
  }

  /** A collision is reported exactly when something untracked is in the way, and what is
      reported is the file or the directory that stands there. */
  lemma CollisionIff(files: Tree, emptyDirectories: set<Path>, tracked: set<Path>, candidate: Path)
    requires ProperPaths(files)
    ensures var c := Collision(files, emptyDirectories, tracked, candidate);
            && (c.Some? <==> (exists u :: FileInTheWay(files, tracked, candidate, u))
                             || DirectoryInTheWay(files, emptyDirectories, tracked, candidate))
            && (c.Some? ==> FileInTheWay(files, tracked, candidate, c.value)
                            || (c.value == candidate && DirectoryInTheWay(files, emptyDirectories, tracked, candidate)))
  {
    var blocking := BlockingAncestor(files, tracked, candidate, 1);
    BlockingAncestorMeans(files, tracked, candidate, 1);
    if blocking.Some? {
      assert FileInTheWay(files, tracked, candidate, blocking.value);
    } else {
      forall u | FileInTheWay(files, tracked, candidate, u) ensures u == candidate {
        if u < candidate {
          assert candidate[..|u|] == u;
          BlockingAncestorFinds(files, tracked, candidate, 1, |u|);
        }
      }
      assert candidate in files && candidate !in tracked ==> FileInTheWay(files, tracked, candidate, candidate);
    }
  }

  /** What an empty result rules out: no untracked file is on, above, or below an incoming
      path, except below an incoming path that the index already holds. */
  lemma EmptySearchMeans(files: Tree, emptyDirectories: set<Path>, index: Tree, tree: Tree, u: Path, t: Path)
    requires NoCollisions(files, emptyDirectories, index, tree) && ProperPaths(files)
    requires u in Untracked(index, files) && t in tree
    ensures u != t && !(u < t)
    ensures t < u ==> t in index
  {
    assert Collision(files, emptyDirectories, index.Keys, t).None?;
    if u < t {
      assert t[..|u|] == u;
      BlockingAncestorFinds(files, index.Keys, t, 1, |u|);
    }
    if t < u {
      assert IsDirectory(files, emptyDirectories, t);
    }
  }

  /** After an empty search the overwriting reset keeps every untracked file exactly when
      no indexed incoming path has been replaced by a directory holding one. */
  lemma UntrackedSurviveIff(files: Tree, emptyDirectories: set<Path>, index: Tree, tree: Tree)
    requires NoCollisions(files, emptyDirectories, index, tree) && ProperPaths(files)
    ensures (forall u :: u in Untracked(index, files) ==>
               Lookup(ResetFiles(index, files, tree), u) == Lookup(files, u))
       <==> !Replaced(files, index, tree)
  {
    forall u, t | u in Untracked(index, files) && t in tree
      ensures u != t && !(u < t) && (t < u ==> t in index)
    {
      EmptySearchMeans(files, emptyDirectories, index, tree, u, t);
    }
    if t, u :| t in tree && t in index && u in Untracked(index, files) && t < u {
      assert Clashes(u, t);
      assert u !in ResetFiles(index, files, tree);
    } else {
      forall u | u in Untracked(index, files)
        ensures Lookup(ResetFiles(index, files, tree), u) == Lookup(files, u)
      {
        assert forall t | t in tree :: !Clashes(u, t);
      }
    }
  }

  /** The gap is real for the search on its own: the tracked file `a` was replaced by a
      directory, the search reports nothing, and the untracked `a/b` is overwritten. */
  lemma SearchAloneCanMissAFile()
    ensures exists files: Tree, index: Tree, tree: Tree ::
              && NoCollisions(files, {}, index, tree) && ProperPaths(files) && Coherent(files)
              && exists u :: u in Untracked(index, files) && u !in ResetFiles(index, files, tree)
  {
    var a, b := ["a"], ["a", "b"];
    var files: Tree := map[b := Blob(0, "mine")];
    var index: Tree := map[a := Blob(0, "old")];
    var tree: Tree := map[a := Blob(0, "new")];
    assert b[..1] == a;
    assert a < b;
    assert BlockingAncestor(files, index.Keys, a, 1).None?;
    assert Clashes(b, a);
    assert b in Untracked(index, files) && b !in ResetFiles(index, files, tree);
  }

  /** The layers of one workspace across a clean rebase, and what installation relies on. */
  ghost predicate CleanLastMerge(index: Tree, index': Tree, working: Tree, working': Tree) {
    MergeTrees(index, index', working) == Some(working')
  }

  /** A capture records tracked paths only, and a clean merge keeps that: the rebased
      working tree has no path outside the rebased index, and a path that is staged but
      absent from the working tree was already so before. */
  lemma RebasedWorkingStaysTracked(index: Tree, index': Tree, working: Tree, working': Tree)
    requires CleanLastMerge(index, index', working, working') && working.Keys <= index.Keys
    ensures working'.Keys <= index'.Keys
    ensures forall p :: p in index' && p !in working' ==> p in index && p !in working
    ensures forall p :: p in index && p !in working ==> p !in working'
  {
    forall p: Path
      ensures p in working' ==> p in index'
      ensures p in index' && p !in working' ==> p in index && p !in working
      ensures p in index && p !in working ==> p !in working'
    {
      MergePointwise(index, index', working, p);
    }
  }

  /** So a candidate prepared from the very workspace it is installed into never falls in the gap. */
  lemma VerifiedSnapshotIsNeverReplaced(files: Tree, index: Tree, index': Tree, working': Tree)
    requires Coherent(files) && CleanLastMerge(index, index', WorkingTree(index, files), working')
    ensures !Replaced(files, index, working')
  {
    RebasedWorkingStaysTracked(index, index', WorkingTree(index, files), working');
  }

  /** The files on disk are the captured working tree and the untracked files, nothing else. */
  lemma FilesSplit(index: Tree, files: Tree)
    ensures files == WorkingTree(index, files) + Untracked(index, files)
  {
  }

  /** A reset whose tree stays clear of the files it should keep writes exactly tree + kept. */
  lemma ResetWrites(index: Tree, files: Tree, tree: Tree, kept: Tree)
    requires forall p :: p in files && p !in index && p !in tree ==> p in kept
    requires forall p :: p in kept ==> p in files && files[p] == kept[p] && p !in index && p !in tree
    requires forall p, t :: p in kept && t in tree ==> !Clashes(p, t)
    ensures ResetFiles(index, files, tree) == tree + kept
  {
    var result := ResetFiles(index, files, tree);
    forall p: Path ensures Lookup(result, p) == Lookup(tree + kept, p) {
    }
    SameLookups(result, tree + kept);
  }
}
