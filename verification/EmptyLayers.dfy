/** Commits that become empty in the private rebase.  Git keeps the ones that were empty to
    begin with and drops the others, while the engine reads the rebased layers by their
    position below HEAD. */
module EmptyLayers {
  import opened Options
  import opened Trees
  import opened Workspace
  import opened Graphs
  import opened Stores
  import opened Preparation
  import opened Installation

  /** `git rebase --keep-empty --onto`: what is left of the replayed layers. */
  function Kept(base: Tree, onto: Tree, layers: seq<Tree>): Option<seq<Tree>>
    decreases |layers|
  {
    if layers == [] then Some([])
    else
      match MergeTrees(base, onto, layers[0])
      case None => None
      case Some(first) =>
        match Kept(layers[0], first, layers[1..])
        case None => None
        case Some(rest) => Some((if layers[0] != base && first == onto then [] else [first]) + rest)
  }

  /** The tree that layer i was built on. */
  function Before(first: Tree, trees: seq<Tree>, i: nat): Tree
    requires i <= |trees|
  {
    if i == 0 then first else trees[i - 1]
  }

  predicate BecomesEmpty(base: Tree, onto: Tree, layers: seq<Tree>, rebased: seq<Tree>, i: nat)
    requires |rebased| == |layers| && i < |layers|
  {
    layers[i] != Before(base, layers, i) && rebased[i] == Before(onto, rebased, i)
  }

  /** Those of the first n rebased layers that do not become empty. */
  function Survivors(base: Tree, onto: Tree, layers: seq<Tree>, rebased: seq<Tree>, n: nat): seq<Tree>
    requires |rebased| == |layers| && n <= |layers|
  {
    if n == 0 then []
    else Survivors(base, onto, layers, rebased, n - 1)
         + if BecomesEmpty(base, onto, layers, rebased, n - 1) then [] else [rebased[n - 1]]
  }

  lemma {:induction false} SurvivorsFromFront(base: Tree, onto: Tree, layers: seq<Tree>, rebased: seq<Tree>, n: nat)
    requires |rebased| == |layers| && 0 < n <= |layers|
    ensures Survivors(base, onto, layers, rebased, n)
         == (if BecomesEmpty(base, onto, layers, rebased, 0) then [] else [rebased[0]])
            + Survivors(layers[0], rebased[0], layers[1..], rebased[1..], n - 1)
  {
    if n == 1 {
      assert Survivors(base, onto, layers, rebased, 0) == [];
    } else {
      SurvivorsFromFront(base, onto, layers, rebased, n - 1);
      assert BecomesEmpty(base, onto, layers, rebased, n - 1)
        <==> BecomesEmpty(layers[0], rebased[0], layers[1..], rebased[1..], n - 2);
    }
  }

  /** Dropping a commit changes no later merge: what Git leaves are the rebased layers
      without those that become empty. */
  lemma {:induction false} KeptAreTheSurvivors(base: Tree, onto: Tree, layers: seq<Tree>)
    ensures Kept(base, onto, layers).Some? <==> Rebase(base, onto, layers).Some?
    ensures Rebase(base, onto, layers).Some? ==>
              var rebased := Rebase(base, onto, layers).value;
              |rebased| == |layers| && Kept(base, onto, layers).value == Survivors(base, onto, layers, rebased, |layers|)
    decreases |layers|
  {
    if layers != [] && MergeTrees(base, onto, layers[0]).Some? {
      var first := MergeTrees(base, onto, layers[0]).value;
      KeptAreTheSurvivors(layers[0], first, layers[1..]);
      RebaseLength(layers[0], first, layers[1..]);
      if Rebase(layers[0], first, layers[1..]).Some? {
        KeptFromFront(base, onto, layers, first, Rebase(layers[0], first, layers[1..]).value);
      }
    }
  }

  lemma KeptFromFront(base: Tree, onto: Tree, layers: seq<Tree>, first: Tree, rest: seq<Tree>)
    requires layers != [] && MergeTrees(base, onto, layers[0]) == Some(first) && |rest| == |layers| - 1
    requires Kept(layers[0], first, layers[1..]) == Some(Survivors(layers[0], first, layers[1..], rest, |rest|))
    ensures Kept(base, onto, layers) == Some(Survivors(base, onto, layers, [first] + rest, |layers|))
  {
    var rebased := [first] + rest;
    assert rebased[1..] == rest;
    SurvivorsFromFront(base, onto, layers, rebased, |layers|);
  }

  /** A layer becomes empty exactly when it changes something, and every path it changes was
      untouched by the layers before it and has just that content in the target. */
  ghost predicate AlreadyInTarget(base: Tree, onto: Tree, layers: seq<Tree>, i: nat)
    requires i < |layers|
  {
    && layers[i] != Before(base, layers, i)
    && forall p :: Lookup(layers[i], p) != Lookup(Before(base, layers, i), p) ==>
         !Edited(base, layers, i - 1, p) && Lookup(layers[i], p) == Lookup(onto, p)
  }

  lemma BecomesEmptyIff(base: Tree, onto: Tree, layers: seq<Tree>, i: nat)
    requires Rebase(base, onto, layers).Some? && i < |layers|
    ensures |Rebase(base, onto, layers).value| == |layers|
    ensures BecomesEmpty(base, onto, layers, Rebase(base, onto, layers).value, i) <==> AlreadyInTarget(base, onto, layers, i)
  {
    RebaseLength(base, onto, layers);
    var rebased := Rebase(base, onto, layers).value;
    forall p ensures Lookup(rebased[i], p) == Lookup(Before(onto, rebased, i), p)
                <==> (Lookup(layers[i], p) != Lookup(Before(base, layers, i), p) ==>
                       !Edited(base, layers, i - 1, p) && Lookup(layers[i], p) == Lookup(onto, p))
    {
      UnchangedAtIff(base, onto, layers, i, p);
    }
    if forall p :: Lookup(rebased[i], p) == Lookup(Before(onto, rebased, i), p) {
      SameLookups(rebased[i], Before(onto, rebased, i));
    }
  }

  lemma UnchangedAtIff(base: Tree, onto: Tree, layers: seq<Tree>, i: nat, p: Path)
    requires Rebase(base, onto, layers).Some? && i < |layers|
    ensures |Rebase(base, onto, layers).value| == |layers|
    ensures var rebased := Rebase(base, onto, layers).value;
            Lookup(rebased[i], p) == Lookup(Before(onto, rebased, i), p)
            <==> (Lookup(layers[i], p) != Lookup(Before(base, layers, i), p) ==>
                    !Edited(base, layers, i - 1, p) && Lookup(layers[i], p) == Lookup(onto, p))
  {
    RebaseClosedForm(base, onto, layers, i, p);
    if i == 0 {
      assert Edited(base, layers, 0, p) <==> Lookup(layers[0], p) != Lookup(base, p);
    } else {
      RebaseClosedForm(base, onto, layers, i - 1, p);
      StepsBetweenLayersSurvive(base, onto, layers, i, p);
      if Edited(base, layers, i - 1, p) {
        assert Edited(base, layers, i, p);
      }
    }
  }

  // ---- reading by position ----

  /** `HEAD~n`: n times the first parent. */
  function Back<T>(g: Graph<T>, c: Oid, n: nat): Option<Oid>
    decreases n
  {
    if n == 0 then Some(c)
    else if c !in g || g[c].parents == [] then None
    else Back(g, g[c].parents[0], n - 1)
  }

  /** The head of a replayed chain. */
  function Top<T>(parent: Oid, next: Oid, bodies: seq<T>): Oid {
    if bodies == [] then parent else next + |bodies| - 1
  }

  lemma {:induction false} BackGoesDown<T>(g: Graph<T>, c: Oid, n: nat)
    requires Valid(g) && c in g
    ensures Back(g, c, n).Some? ==> Back(g, c, n).value in g && Back(g, c, n).value <= c
    ensures n > 0 && Back(g, c, n).Some? ==> Back(g, c, n).value < c
    decreases n
  {
    if n > 0 && g[c].parents != [] {
      BackGoesDown(g, g[c].parents[0], n - 1);
    }
  }

  lemma {:induction false} BackAddsUp<T>(g: Graph<T>, c: Oid, m: nat, n: nat)
    requires Back(g, c, m).Some?
    ensures Back(g, c, m + n) == Back(g, Back(g, c, m).value, n)
    decreases m
  {
    if m > 0 {
      BackAddsUp(g, g[c].parents[0], m - 1, n);
    }
  }

  /** No commit is found at two distances. */
  lemma DistancesDiffer<T>(g: Graph<T>, c: Oid, m: nat, n: nat)
    requires Valid(g) && c in g && m < n && Back(g, c, m).Some?
    ensures Back(g, c, n) != Back(g, c, m)
  {
    BackGoesDown(g, c, m);
    BackAddsUp(g, c, m, n - m);
    BackGoesDown(g, Back(g, c, m).value, n - m);
  }

  lemma {:induction false} ReplayedParent<T>(g: Graph<T>, parent: Oid, next: Oid, bodies: seq<T>, i: nat)
    requires Valid(g) && Below(g, next) && parent in g && i < |bodies|
    ensures var g' := Replay(g, parent, next, bodies);
            next + i in g' && g'[next + i] == Commit([if i == 0 then parent else next + i - 1], bodies[i])
    decreases |bodies|
  {
    var g1 := g[next := Commit([parent], bodies[0])];
    if i == 0 {
      ReplayExtends(g1, next, next + 1, bodies[1..]);
    } else {
      ReplayedParent(g1, next, next + 1, bodies[1..], i - 1);
    }
  }

  lemma {:induction false} BackInReplay<T>(g: Graph<T>, parent: Oid, next: Oid, bodies: seq<T>, k: nat)
    requires Valid(g) && Below(g, next) && parent in g && k <= |bodies|
    ensures Back(Replay(g, parent, next, bodies), Top(parent, next, bodies), k) == Some(Top(parent, next, bodies[..|bodies| - k]))
  {
    var g' := Replay(g, parent, next, bodies);
    if k > 0 {
      BackInReplay(g, parent, next, bodies, k - 1);
      ReplayedParent(g, parent, next, bodies, |bodies| - k);
      BackAddsUp(g', Top(parent, next, bodies), k - 1, 1);
      assert Back(g', next + |bodies| - k, 1) == Some(g'[next + |bodies| - k].parents[0]);
    }
  }

  /** The two synthetic layers both survive. */
  predicate BothSurvive(base: Tree, onto: Tree, layers: seq<Tree>, rebased: seq<Tree>)
    requires |rebased| == |layers| && |layers| >= 2
  {
    && !BecomesEmpty(base, onto, layers, rebased, |layers| - 2)
    && !BecomesEmpty(base, onto, layers, rebased, |layers| - 1)
  }

  /** How many of the two synthetic layers are dropped. */
  function Dropped(base: Tree, onto: Tree, layers: seq<Tree>, rebased: seq<Tree>): (n: nat)
    requires |rebased| == |layers| && |layers| >= 2
    ensures n <= 2 && (n == 0 <==> BothSurvive(base, onto, layers, rebased))
  {
    (if BecomesEmpty(base, onto, layers, rebased, |layers| - 2) then 1 else 0)
    + (if BecomesEmpty(base, onto, layers, rebased, |layers| - 1) then 1 else 0)
  }

  /** `HEAD^^` of the rebased chain is the last local commit, or the target when there is none,
      exactly when neither the index layer nor the working layer becomes empty; then `HEAD`
      and `HEAD^` hold the rebased working tree and index.  The last local commit holds its
      rebased tree whatever was dropped.
      For each of the two layers that is dropped, `HEAD^^` is one commit too far down. */
  lemma ReadByPositionIff(g: Graph<Tree>, base: Tree, target: Oid, next: Oid, layers: seq<Tree>)
    requires Valid(g) && Below(g, next) && target in g && |layers| >= 2 && Rebase(base, g[target].body, layers).Some?
    ensures var onto := g[target].body;
            var rebased, kept := Rebase(base, onto, layers).value, Kept(base, onto, layers);
            && |rebased| == |layers| && kept.Some?
            && var local := Survivors(base, onto, layers, rebased, |layers| - 2);
            var g', head := Replay(g, target, next, kept.value), Top(target, next, kept.value);
            && (Back(g', head, 2) == Some(Top(target, next, local)) <==> BothSurvive(base, onto, layers, rebased))
            && Back(g', head, 2) == Back(g', Top(target, next, local), Dropped(base, onto, layers, rebased))
            && Top(target, next, local) in g' && g'[Top(target, next, local)].body == Before(onto, rebased, |layers| - 2)
            && (BothSurvive(base, onto, layers, rebased) ==>
                  && head in g' && g'[head].body == rebased[|layers| - 1]
                  && Back(g', head, 1) == Some(head - 1) && head - 1 in g' && g'[head - 1].body == rebased[|layers| - 2])
  {
    var onto := g[target].body;
    KeptAreTheSurvivors(base, onto, layers);
    var rebased, kept := Rebase(base, onto, layers).value, Kept(base, onto, layers).value;
    var above := LastTwo(base, onto, layers, rebased);
    var local := Survivors(base, onto, layers, rebased, |layers| - 2);
    LastSurvivor(base, onto, layers, rebased, |layers| - 2);
    PositionsAbove(g, target, next, local, above, kept);
  }

  /** Reading by position a chain with at most two commits above the local ones. */
  lemma PositionsAbove(g: Graph<Tree>, target: Oid, next: Oid, local: seq<Tree>, above: seq<Tree>, all: seq<Tree>)
    requires Valid(g) && Below(g, next) && target in g && all == local + above && |above| <= 2
    ensures var g', head, top := Replay(g, target, next, all), Top(target, next, all), Top(target, next, local);
            && (Back(g', head, 2) == Some(top) <==> |above| == 2) && Back(g', head, 2) == Back(g', top, 2 - |above|)
            && top in g' && g'[top].body == Before(g[target].body, local, |local|)
            && (|above| == 2 ==> && head in g' && g'[head].body == above[1]
                                 && Back(g', head, 1) == Some(head - 1) && head - 1 in g' && g'[head - 1].body == above[0])
  {
    LocalTopIsAt(g, target, next, local, above, all, 2);
    LocalTopHolds(g, target, next, local, above, all);
    if |above| == 2 {
      LayersOnTop(g, target, next, local, above[0], above[1], all);
    }
  }

  /** Dropping commits does not change the tree at the top. */
  lemma {:induction false} LastSurvivor(base: Tree, onto: Tree, layers: seq<Tree>, rebased: seq<Tree>, n: nat)
    requires |rebased| == |layers| && n <= |layers|
    ensures var kept := Survivors(base, onto, layers, rebased, n); Before(onto, kept, |kept|) == Before(onto, rebased, n)
  {
    if n > 0 {
      LastSurvivor(base, onto, layers, rebased, n - 1);
    }
  }

  lemma LocalTopHolds(g: Graph<Tree>, target: Oid, next: Oid, local: seq<Tree>, above: seq<Tree>, all: seq<Tree>)
    requires Valid(g) && Below(g, next) && target in g && all == local + above
    ensures var g', top := Replay(g, target, next, all), Top(target, next, local);
            top in g' && g'[top].body == Before(g[target].body, local, |local|)
  {
    ReplayAppends(g, target, next, all);
    if local != [] {
      ReplayedParent(g, target, next, all, |local| - 1);
    }
  }

  /** What is left of the two synthetic layers. */
  lemma LastTwo(base: Tree, onto: Tree, layers: seq<Tree>, rebased: seq<Tree>) returns (above: seq<Tree>)
    requires |rebased| == |layers| && |layers| >= 2
    ensures Survivors(base, onto, layers, rebased, |layers|) == Survivors(base, onto, layers, rebased, |layers| - 2) + above
    ensures |above| == 2 - Dropped(base, onto, layers, rebased)
    ensures |above| == 2 ==> above == [rebased[|layers| - 2], rebased[|layers| - 1]]
  {
    var n := |layers|;
    var index := if BecomesEmpty(base, onto, layers, rebased, n - 2) then [] else [rebased[n - 2]];
    var working := if BecomesEmpty(base, onto, layers, rebased, n - 1) then [] else [rebased[n - 1]];
    above := index + working;
    var local := Survivors(base, onto, layers, rebased, n - 2);
    assert Survivors(base, onto, layers, rebased, n) == (local + index) + working;
  }

  /** Below `k` commits on top of it, a commit is found k back and nowhere else. */
  lemma LocalTopIsAt(g: Graph<Tree>, target: Oid, next: Oid, local: seq<Tree>, above: seq<Tree>, all: seq<Tree>, k: nat)
    requires Valid(g) && Below(g, next) && target in g && all == local + above
    ensures Back(Replay(g, target, next, all), Top(target, next, all), k) == Some(Top(target, next, local)) <==> k == |above|
    ensures k >= |above| ==> Back(Replay(g, target, next, all), Top(target, next, all), k)
                             == Back(Replay(g, target, next, all), Top(target, next, local), k - |above|)
  {
    var g', head := Replay(g, target, next, all), Top(target, next, all);
    ReplayAppends(g, target, next, all);
    BackInReplay(g, target, next, all, |above|);
    assert all[..|all| - |above|] == local;
    if k >= |above| {
      BackAddsUp(g', head, |above|, k - |above|);
    }
    if k < |above| && Back(g', head, k).Some? {
      DistancesDiffer(g', head, k, |above|);
    } else if k > |above| {
      DistancesDiffer(g', head, |above|, k);
    }
  }

  lemma LayersOnTop(g: Graph<Tree>, target: Oid, next: Oid, local: seq<Tree>, index: Tree, working: Tree, all: seq<Tree>)
    requires Valid(g) && Below(g, next) && target in g && all == local + [index, working]
    ensures var g', head := Replay(g, target, next, all), Top(target, next, all);
            && head in g' && g'[head].body == working
            && Back(g', head, 1) == Some(head - 1) && head - 1 in g' && g'[head - 1].body == index
  {
    ReplayedParent(g, target, next, all, |all| - 1);
    ReplayedParent(g, target, next, all, |all| - 2);
    BackInReplay(g, target, next, all, 1);
  }

  /** The model's candidate is the one read by position when no layer becomes empty. */
  lemma CandidateIsReadByPosition(g: Graph<Tree>, base: Tree, target: Oid, next: Oid, layers: seq<Tree>)
    requires Valid(g) && Below(g, next) && target in g && |layers| >= 2 && Rebase(base, g[target].body, layers).Some?
    requires |Rebase(base, g[target].body, layers).value| == |layers|
    requires forall i: nat | i < |layers| :: !BecomesEmpty(base, g[target].body, layers, Rebase(base, g[target].body, layers).value, i)
    ensures var rebased := Rebase(base, g[target].body, layers).value;
            var g', c := Replay(g, target, next, rebased), CandidateOf(next, target, rebased);
            && Kept(base, g[target].body, layers) == Some(rebased) && c.workingCommit == Top(target, next, rebased)
            && Back(g', c.workingCommit, 1) == Some(c.indexCommit) && Back(g', c.workingCommit, 2) == Some(c.realHead)
            && c.workingCommit in g' && g'[c.workingCommit].body == c.workingTree
            && c.indexCommit in g' && g'[c.indexCommit].body == c.indexTree
  {
    var onto := g[target].body;
    var rebased := Rebase(base, onto, layers).value;
    KeptAreTheSurvivors(base, onto, layers);
    AllSurvive(base, onto, layers, rebased, |layers|);
    assert rebased[..|rebased|] == rebased;
    ChainIsReadByPosition(g, target, next, rebased);
  }

  lemma ChainIsReadByPosition(g: Graph<Tree>, target: Oid, next: Oid, trees: seq<Tree>)
    requires Valid(g) && Below(g, next) && target in g && |trees| >= 2
    ensures var g', c := Replay(g, target, next, trees), CandidateOf(next, target, trees);
            && c.workingCommit == Top(target, next, trees)
            && Back(g', c.workingCommit, 1) == Some(c.indexCommit) && Back(g', c.workingCommit, 2) == Some(c.realHead)
            && c.workingCommit in g' && g'[c.workingCommit].body == c.workingTree
            && c.indexCommit in g' && g'[c.indexCommit].body == c.indexTree
  {
    BackInReplay(g, target, next, trees, 1);
    BackInReplay(g, target, next, trees, 2);
    ReplayedParent(g, target, next, trees, |trees| - 1);
    ReplayedParent(g, target, next, trees, |trees| - 2);
  }

  lemma {:induction false} AllSurvive(base: Tree, onto: Tree, layers: seq<Tree>, rebased: seq<Tree>, n: nat)
    requires |rebased| == |layers| && n <= |layers|
    requires forall i: nat | i < n :: !BecomesEmpty(base, onto, layers, rebased, i)
    ensures Survivors(base, onto, layers, rebased, n) == rebased[..n]
  {
    if n > 0 {
      AllSurvive(base, onto, layers, rebased, n - 1);
    }
  }

  // ---- an edit that is already published ----

  const EDITED: Path := ["a"]

  /** An unstaged edit that the target brings too: the working layer is dropped, `HEAD^` is the
      target, and `HEAD^^` is the commit the workspace was already on. */
  lemma PublishedEditIsDropped(was: Blob, published: Blob)
    requires was != published
    ensures var base, onto := map[EDITED := was], map[EDITED := published];
            var g: Graph<Tree> := map[0 := Commit([], base), 1 := Commit([0], onto)];
            && Kept(base, onto, [base, onto]) == Some([onto])
            && var g' := Replay(g, 1, 2, [onto]);
            && Top(1, 2, [onto]) == 2 && Back(g', 2, 1) == Some(1) && Back(g', 2, 2) == Some(0)
  {
    var base: Tree, onto: Tree := map[EDITED := was], map[EDITED := published];
    var g: Graph<Tree> := map[0 := Commit([], base), 1 := Commit([0], onto)];
    PublishedEditLeaves(base, onto, EDITED);
    assert Valid(g) && Below(g, 2);
    BackInReplay(g, 1, 2, [onto], 1);
    ReplayAppends(g, 1, 2, [onto]);
    BackAddsUp(Replay(g, 1, 2, [onto]), 2, 1, 1);
    assert Back(Replay(g, 1, 2, [onto]), 1, 1) == Some(0);
  }

  lemma PublishedEditLeaves(base: Tree, onto: Tree, p: Path)
    requires Coherent(onto) && Lookup(base, p) != Lookup(onto, p)
    ensures Kept(base, onto, [base, onto]) == Some([onto])
  {
    assert base != onto;
    MergeOfPublished(base, onto);
    var none: seq<Tree> := [];
    assert [base, onto][1..] == [onto] && [onto][1..] == none;
    assert Kept(onto, onto, none) == Some(none);
    assert none + none == none && [onto] + none == [onto];
    assert Kept(base, onto, [onto]) == Some(none);
  }

  lemma MergeOfPublished(base: Tree, onto: Tree)
    requires Coherent(onto)
    ensures MergeTrees(base, onto, base) == Some(onto) && MergeTrees(base, onto, onto) == Some(onto)
  {
    assert Merged(base, onto, base) == onto && Merged(base, onto, onto) == onto;
  }

  /** A candidate whose real head is the commit HEAD is on already cannot be told from a
      finished installation: a crash right after the candidate's files were written is
      recovered as completed, with the captured index replaced and nothing restored. */
  lemma SameHeadIsNeverRolledBack(s: Store, id: string, record: Record, debug: bool)
    requires record.candidate.Some? && Capture(s) == Some(record.snapshot) && record.candidate.value.realHead == record.snapshot.head
    ensures forall s' | s' in {Journalled(s, id, record), Written(s, id, record), Indexed(s, id, record)} ::
              Decide(s', id) == Finalize(record.(phase := Completed)) && Seen(Recover(s', id, debug)) == Seen(s')
  {
    forall s' | s' in {Journalled(s, id, record), Written(s, id, record), Indexed(s, id, record)}
      ensures Decide(s', id) == Finalize(record.(phase := Completed)) && Seen(Recover(s', id, debug)) == Seen(s')
    {
      SameHeadIsFinalized(s', id, record, debug);
    }
  }

  lemma SameHeadIsFinalized(s: Store, id: string, record: Record, debug: bool)
    requires record.candidate.Some? && HeadOid(s) == Some(record.candidate.value.realHead)
    requires Lookup(s.journal, id) == Some(record.(phase := Installing))
    ensures Decide(s, id) == Finalize(record.(phase := Completed)) && Seen(Recover(s, id, debug)) == Seen(s)
  {
    FinalizeOnlyTidies(s, id, record.(phase := Completed), debug, ALL);
  }
}
