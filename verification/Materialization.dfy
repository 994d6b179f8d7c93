/** Joining a directory to a hosted project: which local branches may be published, what is
    recorded as last applied, and which commit an unversioned directory is adopted at. */
module Materialization {
  import opened Options
  import opened Trees
  import opened Graphs

  type Heads = map<string, Oid>

  predicate Diverges<T>(g: Graph<T>, local: Heads, hosted: Heads, name: string) {
    && name in local && name in hosted && local[name] != hosted[name]
    && !IsAncestor(g, hosted[name], local[name]) && !IsAncestor(g, local[name], hosted[name])
  }

  /** The local branch is missing from the host or ahead of it. */
  predicate Publishable<T>(g: Graph<T>, local: Heads, hosted: Heads, name: string) {
    && name in local
    && (name !in hosted || (local[name] != hosted[name] && IsAncestor(g, hosted[name], local[name])))
  }

  /** The loop over the local branches: it refuses before anything is pushed. */
  method ClassifyBranches<T>(g: Graph<T>, local: Heads, hosted: Heads) returns (toPublish: Option<set<string>>)
    ensures toPublish.None? <==> exists name :: name in local && name in hosted && local[name] != hosted[name]
                                   && !IsAncestor(g, hosted[name], local[name]) && !IsAncestor(g, local[name], hosted[name])
    ensures toPublish.Some? ==>
              forall name :: name in toPublish.value <==>
                name in local && (name !in hosted || (local[name] != hosted[name] && IsAncestor(g, hosted[name], local[name])))
  {
    var publish: set<string> := {};
    var left := local.Keys;
    while left != {}
      invariant left <= local.Keys
      invariant forall name :: name in publish <==> name in local.Keys - left && Publishable(g, local, hosted, name)
      invariant forall name | name in local.Keys - left :: !Diverges(g, local, hosted, name)
      decreases |left|
    {
      var name :| name in left;
      left := left - {name};
      if name !in hosted {
        publish := publish + {name};
      } else if local[name] != hosted[name] {
        var remoteIsBase := IsAncestor(g, hosted[name], local[name]);
        var localIsBase := IsAncestor(g, local[name], hosted[name]);
        if !remoteIsBase && !localIsBase {
          assert name in local && name in hosted;
          return None;
        }
        if remoteIsBase {
          publish := publish + {name};
        }
      }
    }
    assert forall name | name in local :: !Diverges(g, local, hosted, name);
    toPublish := Some(publish);
  }

  /** The loop that chooses what was last applied, branch by branch. */
  method SelectLastApplied<T>(g: Graph<T>, local: Heads, hosted: Heads) returns (applied: Heads)
    ensures applied == LastApplied(g, local, hosted)
  {
    applied := map[];
    var left := hosted.Keys;
    while left != {}
      invariant left <= hosted.Keys
      invariant applied.Keys == hosted.Keys - left
      invariant forall name | name in applied :: applied[name] == LastApplied(g, local, hosted)[name]
      decreases |left|
    {
      var name :| name in left;
      left := left - {name};
      var selected := hosted[name];
      if name in local && local[name] != hosted[name] && IsAncestor(g, local[name], hosted[name]) {
        selected := local[name];
      }
      applied := applied[name := selected];
    }
  }

  function LastApplied<T>(g: Graph<T>, local: Heads, hosted: Heads): Heads {
    map name | name in hosted ::
      if name in local && local[name] != hosted[name] && IsAncestor(g, local[name], hosted[name]) then local[name] else hosted[name]
  }

  /** The host only fast-forwards: later heads contain the earlier ones. */
  ghost predicate Advances<T>(g: Graph<T>, before: Heads, after: Heads) {
    forall name :: name in before ==> name in after && IsAncestor(g, before[name], after[name])
  }

  /** A push of some local branches onto whatever the host holds by then. */
  function Pushed(hosted: Heads, local: Heads, names: set<string>): Heads {
    map name | name in hosted.Keys + (names * local.Keys) :: if name in names && name in local then local[name] else hosted[name]
  }

  lemma AncestorTransitive<T>(g: Graph<T>, a: Oid, b: Oid, c: Oid)
    requires IsAncestor(g, a, b) && IsAncestor(g, b, c)
    ensures IsAncestor(g, a, c)
  {
    ReachesTransitive(g, c, b, a);
  }

  /** What is recorded as last applied is contained in the checkout and in the host, for
      every hosted branch the checkout has, although other devices may advance the host
      between the first fetch, the push and the second fetch, and the active branch may be
      brought up to date in between. */
  lemma LastAppliedIsCommon<T>(g: Graph<T>, local: Heads, fetched: Heads, atPush: Heads, fetchedAgain: Heads,
                               updated: Option<string>, name: string)
    requires forall n :: n in local ==> local[n] in g
    requires forall n :: !Diverges(g, local, fetched, n)
    requires Advances(g, fetched, atPush)
    requires Advances(g, Pushed(atPush, local, set n | n in local && Publishable(g, local, fetched, n)), fetchedAgain)
    requires updated.Some? ==> updated.value in local && updated.value in fetchedAgain
    requires name in local && name in fetchedAgain
    ensures var joined := if updated.Some? then local[updated.value := fetchedAgain[updated.value]] else local;
            var applied := LastApplied(g, joined, fetchedAgain);
            IsAncestor(g, applied[name], joined[name]) && IsAncestor(g, applied[name], fetchedAgain[name])
  {
    var publish := set n | n in local && Publishable(g, local, fetched, n);
    var pushed := Pushed(atPush, local, publish);
    if name in publish {
      assert pushed[name] == local[name];
    } else {
      assert !Diverges(g, local, fetched, name) && !Publishable(g, local, fetched, name);
      assert IsAncestor(g, local[name], fetched[name]);
      assert pushed[name] == atPush[name];
      AncestorTransitive(g, local[name], fetched[name], atPush[name]);
      AncestorTransitive(g, local[name], atPush[name], fetchedAgain[name]);
    }
    assert IsAncestor(g, local[name], fetchedAgain[name]);
  }

  // ---- adopting a directory ----

  /** A commit under consideration, with its tree. */
  datatype Revision = Revision(oid: Oid, tree: Tree)

  /** Looking the path up in the directory does not answer "not found": a file or a directory
      is there, or the path leads through a file. */
  ghost predicate Stirs(files: Tree, emptyDirectories: set<Path>, p: Path) {
    || (exists q :: q in files && (p == q || p < q || q < p))
    || (exists d :: d in emptyDirectories && p <= d)
  }

  predicate Tracks(files: Tree, tree: Tree) { forall p | p in tree :: p in files && files[p] == tree[p] }

  /** The test of one revision: the files it tracks are unchanged, and no path of the history
      that it does not track stirs. */
  ghost predicate Matches(files: Tree, emptyDirectories: set<Path>, history: set<Path>, tree: Tree) {
    Tracks(files, tree) && forall p :: p in history && p !in tree ==> !Stirs(files, emptyDirectories, p)
  }

  function Restrict(files: Tree, paths: set<Path>): Tree { map p | p in files && p in paths :: files[p] }

  /** The revision search of `adopt_exact_snapshot`: newest first, the first match. */
  method FindBaseline(files: Tree, emptyDirectories: set<Path>, history: set<Path>, revisions: seq<Revision>)
    returns (found: Option<Oid>)
    ensures found.Some? <==> exists i :: 0 <= i < |revisions| && Matches(files, emptyDirectories, history, revisions[i].tree)
    ensures found.Some? ==> exists i :: 0 <= i < |revisions| && revisions[i].oid == found.value
                                        && Matches(files, emptyDirectories, history, revisions[i].tree)
                                        && forall k | 0 <= k < i :: !Matches(files, emptyDirectories, history, revisions[k].tree)
  {
    for i := 0 to |revisions|
      invariant forall k | 0 <= k < i :: !Matches(files, emptyDirectories, history, revisions[k].tree)
    {
      var tree := revisions[i].tree;
      if !(forall p | p in tree :: p in files && files[p] == tree[p]) {
        continue;
      }
      var besideFiles := exists p, q | p in history && q in files :: p !in tree && (p == q || p < q || q < p);
      var aboveDirectories := exists p, d | p in history && d in emptyDirectories :: p !in tree && p <= d;
      if !besideFiles && !aboveDirectories {
        assert Matches(files, emptyDirectories, history, tree);
        return Some(revisions[i].oid);
      }
    }
    found := None;
  }

  /** Some path of the history the tree does not hold is a directory, empty or above a file,
      or lies beneath a file: a file was once replaced by a directory, or the reverse, or a
      directory was left behind where a file had been. */
  ghost predicate Replaced(files: Tree, emptyDirectories: set<Path>, history: set<Path>, tree: Tree) {
    || (exists p, q :: p in history && p !in tree && q in files && (p < q || q < p))
    || (exists p, d :: p in history && p !in tree && d in emptyDirectories && p <= d)
  }

  /** A revision is accepted exactly when its tree is the directory restricted to the paths
      of the history, and no untracked path of the history changed between file and
      directory. */
  lemma MatchesIff(files: Tree, emptyDirectories: set<Path>, history: set<Path>, tree: Tree)
    ensures Matches(files, emptyDirectories, history, tree)
       <==> tree == Restrict(files, history + tree.Keys) && !Replaced(files, emptyDirectories, history, tree)
  {
    if tree == Restrict(files, history + tree.Keys) && !Replaced(files, emptyDirectories, history, tree) {
      forall p | p in history && p !in tree ensures !Stirs(files, emptyDirectories, p) {
        assert p !in Restrict(files, history + tree.Keys);
      }
    }
    if Matches(files, emptyDirectories, history, tree) {
      forall p ensures p in Restrict(files, history + tree.Keys) <==> p in tree {
        assert p in files ==> Stirs(files, emptyDirectories, p);
      }
      forall p | p in history && p !in tree ensures !Stirs(files, emptyDirectories, p) {
      }
    }
  }

  /** So a directory that is exactly the newest tree is refused when the history once had a
      directory where that tree has a file. */
  lemma ReplacedDirectoryIsRefused(name: string, child: string, content: Blob)
    ensures var tree: Tree := map[[name] := content];
            var history := {[name], [name, child]};
            tree == Restrict(tree, history) && !Matches(tree, {}, history, tree)
  {
    var tree: Tree := map[[name] := content];
    assert [name] in tree && [name] < [name, child];
    assert Stirs(tree, {}, [name, child]);
  }

  /** The head advertised for the default branch: the first entry of that name. */
  predicate IsDefaultHead(advertised: seq<(string, Oid)>, default: string, i: nat) {
    i < |advertised| && advertised[i].0 == default && forall k | 0 <= k < i :: advertised[k].0 != default
  }

  ghost predicate DefaultContains<T>(g: Graph<T>, baseline: Oid, advertised: seq<(string, Oid)>, default: string) {
    exists i: nat :: IsDefaultHead(advertised, default, i) && IsAncestor(g, baseline, advertised[i].1)
  }

  /** The branch an adopted commit is put on: the default one when it contains the commit,
      otherwise the first advertised one that does. */
  method ChooseBranch<T>(g: Graph<T>, baseline: Oid, advertised: seq<(string, Oid)>, default: string) returns (branch: Option<string>)
    ensures branch.None? <==> forall h | h in advertised :: !IsAncestor(g, baseline, h.1)
    ensures DefaultContains(g, baseline, advertised, default) ==> branch == Some(default)
    ensures !DefaultContains(g, baseline, advertised, default) && branch.Some? ==>
              exists i: nat :: i < |advertised| && advertised[i].0 == branch.value && IsAncestor(g, baseline, advertised[i].1)
                               && forall k | 0 <= k < i :: !IsAncestor(g, baseline, advertised[k].1)
  {
    branch := None;
    var i := 0;
    while i < |advertised| && advertised[i].0 != default
      invariant i <= |advertised| && forall k | 0 <= k < i :: advertised[k].0 != default
    {
      i := i + 1;
    }
    if i < |advertised| && IsAncestor(g, baseline, advertised[i].1) {
      assert IsDefaultHead(advertised, default, i);
      return Some(default);
    }
    assert !DefaultContains(g, baseline, advertised, default);
    for k := 0 to |advertised|
      invariant forall j | 0 <= j < k :: !IsAncestor(g, baseline, advertised[j].1)
    {
      if IsAncestor(g, baseline, advertised[k].1) {
        return Some(advertised[k].0);
      }
    }
  }
}
