/** Git trees as finite maps, the file-level three-way merge, and the rebase of a
    chain of trees that the transaction engine delegates to Git.  A path is the
    sequence of its slash-separated segments, so Dafny's proper-prefix order `<`
    on sequences says that one path is a directory above another. */
module Trees {
  import opened Options

  type Path = seq<string>

  /** Content together with its mode, so that executables and symbolic links are ordinary blobs. */
  datatype Blob = Blob(mode: nat, content: string)

  type Tree = map<Path, Blob>

  /** No path is at once a file and a directory above another file. */
  predicate Coherent(t: Tree) {
    forall p, q :: p in t && q in t ==> !(p < q)
  }

  /** The merge of one path: None is a conflict, Some(None) a clean deletion. */
  function Resolve(base: Option<Blob>, ours: Option<Blob>, theirs: Option<Blob>): Option<Option<Blob>> {
    if ours == theirs then Some(ours)
    else if base == ours then Some(theirs)
    else if base == theirs then Some(ours)
    else None
  }

  predicate CleanAt(base: Tree, ours: Tree, theirs: Tree, p: Path) {
    Resolve(Lookup(base, p), Lookup(ours, p), Lookup(theirs, p)).Some?
  }

  /** The tree that agrees with a clean pointwise merge. */
  function Merged(base: Tree, ours: Tree, theirs: Tree): Tree {
    map p | p in ours.Keys + theirs.Keys && Resolve(Lookup(base, p), Lookup(ours, p), Lookup(theirs, p)).Some?
            && Resolve(Lookup(base, p), Lookup(ours, p), Lookup(theirs, p)).value.Some?
      :: Resolve(Lookup(base, p), Lookup(ours, p), Lookup(theirs, p)).value.value
  }

  /** The three-way merge of whole trees: it fails on a content conflict at any
      path and on a clash between a file and a directory. */
  function MergeTrees(base: Tree, ours: Tree, theirs: Tree): Option<Tree> {
    if (forall p | p in base.Keys + ours.Keys + theirs.Keys :: CleanAt(base, ours, theirs, p))
       && Coherent(Merged(base, ours, theirs))
    then Some(Merged(base, ours, theirs))
    else None
  }

  /** Replays `layers`, whose first element was built on `base`, on top of `onto`. */
  function Rebase(base: Tree, onto: Tree, layers: seq<Tree>): Option<seq<Tree>>
    decreases |layers|
  {
    if layers == [] then Some([])
    else
      match MergeTrees(base, onto, layers[0])
      case None => None
      case Some(first) =>
        match Rebase(layers[0], first, layers[1..])
        case None => None
        case Some(rest) => Some([first] + rest)
  }

  lemma {:induction false} RebaseLength(base: Tree, onto: Tree, layers: seq<Tree>)
    ensures Rebase(base, onto, layers).Some? ==> |Rebase(base, onto, layers).value| == |layers|
    decreases |layers|
  {
    if layers != [] && MergeTrees(base, onto, layers[0]).Some? {
      RebaseLength(layers[0], MergeTrees(base, onto, layers[0]).value, layers[1..]);
    }
  }

  lemma MergePointwise(base: Tree, ours: Tree, theirs: Tree, p: Path)
    requires MergeTrees(base, ours, theirs).Some?
    ensures Resolve(Lookup(base, p), Lookup(ours, p), Lookup(theirs, p))
         == Some(Lookup(MergeTrees(base, ours, theirs).value, p))
  {
    if p in base.Keys + ours.Keys + theirs.Keys {
      assert CleanAt(base, ours, theirs, p);
    }
  }

  /** True when some layer up to and including layer i departs from the base at p. */
  ghost predicate Edited(base: Tree, layers: seq<Tree>, i: int, p: Path) {
    exists j :: 0 <= j <= i && j < |layers| && Lookup(layers[j], p) != Lookup(base, p)
  }

  /** What layer i should become at p: once the local chain has edited a path, every
      later layer keeps its own content there byte for byte; until then every layer
      follows the target. */
  ghost function Expected(base: Tree, onto: Tree, layers: seq<Tree>, i: nat, p: Path): Option<Blob>
    requires i < |layers|
  {
    if Edited(base, layers, i, p) then Lookup(layers[i], p) else Lookup(onto, p)
  }

  lemma EditedTail(base: Tree, layers: seq<Tree>, i: int, p: Path)
    requires layers != [] && Lookup(layers[0], p) == Lookup(base, p)
    ensures Edited(base, layers, i, p) <==> Edited(layers[0], layers[1..], i - 1, p)
  {
    var tail := layers[1..];
    if j :| 0 <= j <= i && j < |layers| && Lookup(layers[j], p) != Lookup(base, p) {
      assert Lookup(tail[j - 1], p) != Lookup(layers[0], p);
    }
    if j :| 0 <= j <= i - 1 && j < |tail| && Lookup(tail[j], p) != Lookup(layers[0], p) {
      assert Lookup(layers[j + 1], p) != Lookup(base, p);
    }
  }

  /** Dropping the first layer, merged cleanly at p, changes neither prediction. */
  lemma ExpectedTail(base: Tree, onto: Tree, layers: seq<Tree>, i: nat, p: Path, first: Tree)
    requires 0 < i < |layers|
    requires Resolve(Lookup(base, p), Lookup(onto, p), Lookup(layers[0], p)) == Some(Lookup(first, p))
    ensures Expected(layers[0], first, layers[1..], i - 1, p) == Expected(base, onto, layers, i, p)
  {
    var tail := layers[1..];
    assert forall j | 0 <= j < |tail| :: tail[j] == layers[j + 1];
    if Lookup(layers[0], p) != Lookup(base, p) {
      assert Edited(base, layers, i, p);
      if !Edited(layers[0], tail, i - 1, p) {
        assert Lookup(tail[i - 1], p) == Lookup(layers[0], p);
      }
    } else {
      EditedTail(base, layers, i, p);
    }
  }

  /** The closed form of a clean rebase. */
  lemma {:induction false} RebaseClosedForm(base: Tree, onto: Tree, layers: seq<Tree>, i: nat, p: Path)
    requires Rebase(base, onto, layers).Some? && i < |layers|
    ensures |Rebase(base, onto, layers).value| == |layers|
    ensures Lookup(Rebase(base, onto, layers).value[i], p) == Expected(base, onto, layers, i, p)
    decreases |layers|
  {
    var first := MergeTrees(base, onto, layers[0]).value;
    MergePointwise(base, onto, layers[0], p);
    if |layers| > 1 {
      RebaseClosedForm(layers[0], first, layers[1..], if i == 0 then 0 else i - 1, p);
    }
    if i == 0 {
      assert Edited(base, layers, 0, p) <==> Lookup(layers[0], p) != Lookup(base, p);
    } else {
      ExpectedTail(base, onto, layers, i, p, first);
    }
  }

  /** Each rebased layer is the merge of the layer it was built on, that layer rebased, and itself. */
  lemma {:induction false} RebaseLink(base: Tree, onto: Tree, layers: seq<Tree>, i: nat)
    requires Rebase(base, onto, layers).Some? && 0 < i < |layers|
    ensures |Rebase(base, onto, layers).value| == |layers|
    ensures MergeTrees(layers[i - 1], Rebase(base, onto, layers).value[i - 1], layers[i])
         == Some(Rebase(base, onto, layers).value[i])
    decreases |layers|
  {
    var first := MergeTrees(base, onto, layers[0]).value;
    var rest := Rebase(layers[0], first, layers[1..]).value;
    RebaseClosedForm(base, onto, layers, 0, []);
    if i > 1 {
      RebaseLink(layers[0], first, layers[1..], i - 1);
    }
  }

  /** The promise of a clean reconciliation: at every path a rebased layer is either the
      original layer, or the original still had the previous remote content and the
      rebased layer has the target's. */
  lemma CleanRebasePreservesEveryLayer(base: Tree, onto: Tree, layers: seq<Tree>)
    requires Rebase(base, onto, layers).Some?
    ensures |Rebase(base, onto, layers).value| == |layers|
    ensures forall i, p :: 0 <= i < |layers| ==>
              var rebased := Lookup(Rebase(base, onto, layers).value[i], p);
              || rebased == Lookup(layers[i], p)
              || (Lookup(layers[i], p) == Lookup(base, p) && rebased == Lookup(onto, p))
  {
    if layers != [] {
      RebaseClosedForm(base, onto, layers, 0, []);
    }
    forall i: int, p: Path | 0 <= i < |layers|
      ensures var rebased := Lookup(Rebase(base, onto, layers).value[i], p);
              || rebased == Lookup(layers[i], p)
              || (Lookup(layers[i], p) == Lookup(base, p) && rebased == Lookup(onto, p))
    {
      RebaseClosedForm(base, onto, layers, i, p);
    }
  }

  /** Staged and unstaged changes stay separate: between consecutive layers a local change
      survives verbatim, and a path without a local change gains none. */
  lemma StepsBetweenLayersSurvive(base: Tree, onto: Tree, layers: seq<Tree>, i: nat, p: Path)
    requires Rebase(base, onto, layers).Some? && 0 < i < |layers|
    ensures |Rebase(base, onto, layers).value| == |layers|
    ensures var rebased := Rebase(base, onto, layers).value;
            if Lookup(layers[i], p) != Lookup(layers[i - 1], p)
            then Lookup(rebased[i], p) == Lookup(layers[i], p)
            else Lookup(rebased[i], p) == Lookup(rebased[i - 1], p)
  {
    RebaseLink(base, onto, layers, i);
    MergePointwise(layers[i - 1], Rebase(base, onto, layers).value[i - 1], layers[i], p);
  }

  /** A path that the local chain and the target edited differently. */
  ghost predicate Contested(base: Tree, onto: Tree, layers: seq<Tree>, p: Path) {
    && Lookup(onto, p) != Lookup(base, p)
    && exists i :: 0 <= i < |layers| && FirstEdit(base, layers, i, p) && Lookup(layers[i], p) != Lookup(onto, p)
  }

  ghost predicate FirstEdit(base: Tree, layers: seq<Tree>, i: int, p: Path)
    requires 0 <= i < |layers|
  {
    !Edited(base, layers, i - 1, p) && Lookup(layers[i], p) != Lookup(base, p)
  }

  /** The predicted tree of layer i. */
  ghost function Prediction(base: Tree, onto: Tree, layers: seq<Tree>, i: nat): Tree
    requires i < |layers|
  {
    map p | p in layers[i].Keys + onto.Keys && Expected(base, onto, layers, i, p).Some?
      :: Expected(base, onto, layers, i, p).value
  }

  /** No path is contested, and no predicted layer has a file where another path needs a directory. */
  ghost predicate Compatible(base: Tree, onto: Tree, layers: seq<Tree>) {
    && (forall p :: !Contested(base, onto, layers, p))
    && (forall i: nat :: i < |layers| ==> Coherent(Prediction(base, onto, layers, i)))
  }

  /** Exactly when reconciliation is clean. */
  lemma {:induction false} RebaseSucceedsIff(base: Tree, onto: Tree, layers: seq<Tree>)
    ensures Rebase(base, onto, layers).Some? <==> Compatible(base, onto, layers)
    decreases |layers|
  {
    if layers == [] {
    } else if MergeTrees(base, onto, layers[0]).Some? {
      var first := MergeTrees(base, onto, layers[0]).value;
      RebaseSucceedsIff(layers[0], first, layers[1..]);
      CompatibleTail(base, onto, layers, first);
    } else {
      FirstMergeIsCleanIff(base, onto, layers);
    }
  }

  lemma CompatibleTail(base: Tree, onto: Tree, layers: seq<Tree>, first: Tree)
    requires layers != [] && MergeTrees(base, onto, layers[0]) == Some(first)
    ensures Compatible(base, onto, layers) <==> Compatible(layers[0], first, layers[1..])
  {
    FirstMergeIsCleanIff(base, onto, layers);
    TailPredictions(base, onto, layers, first);
    if Compatible(layers[0], first, layers[1..]) {
      forall i: nat | i < |layers| ensures Coherent(Prediction(base, onto, layers, i)) {
        if i > 0 {
          assert Coherent(Prediction(layers[0], first, layers[1..], i - 1));
        }
      }
    }
    if Compatible(base, onto, layers) {
      forall i: nat | i < |layers| - 1 ensures Coherent(Prediction(layers[0], first, layers[1..], i)) {
        assert Coherent(Prediction(base, onto, layers, i + 1));
      }
    }
  }

  lemma FirstMergeIsCleanIff(base: Tree, onto: Tree, layers: seq<Tree>)
    requires layers != []
    ensures MergeTrees(base, onto, layers[0]).Some? ==> Merged(base, onto, layers[0]) == Prediction(base, onto, layers, 0)
    ensures Compatible(base, onto, layers) ==> MergeTrees(base, onto, layers[0]).Some?
  {
    var merged, predicted := Merged(base, onto, layers[0]), Prediction(base, onto, layers, 0);
    if MergeTrees(base, onto, layers[0]).Some? || Compatible(base, onto, layers) {
      forall p: Path ensures CleanAt(base, onto, layers[0], p) && Lookup(merged, p) == Lookup(predicted, p) {
        assert Edited(base, layers, 0, p) <==> Lookup(layers[0], p) != Lookup(base, p);
        if MergeTrees(base, onto, layers[0]).Some? {
          MergePointwise(base, onto, layers[0], p);
        } else if !CleanAt(base, onto, layers[0], p) {
          assert FirstEdit(base, layers, 0, p);
          assert Contested(base, onto, layers, p);
        }
      }
      SameLookups(merged, predicted);
    }
  }

  lemma SameLookups(a: Tree, b: Tree)
    requires forall p :: Lookup(a, p) == Lookup(b, p)
    ensures a == b
  {
    forall p: Path ensures p in a <==> p in b {
      assert Lookup(a, p) == Lookup(b, p);
    }
    forall p | p in a ensures a[p] == b[p] {
      assert Lookup(a, p) == Lookup(b, p);
    }
  }

  lemma TailPredictions(base: Tree, onto: Tree, layers: seq<Tree>, first: Tree)
    requires layers != [] && MergeTrees(base, onto, layers[0]) == Some(first)
    ensures forall p :: Contested(base, onto, layers, p) <==> Contested(layers[0], first, layers[1..], p)
    ensures forall i: nat :: i < |layers| - 1 ==>
              Prediction(layers[0], first, layers[1..], i) == Prediction(base, onto, layers, i + 1)
  {
    var tail := layers[1..];
    forall p: Path
      ensures Contested(base, onto, layers, p) <==> Contested(layers[0], first, tail, p)
    {
      MergePointwise(base, onto, layers[0], p);
      ContestedTail(base, onto, layers, first, p);
    }
    forall i: nat | i < |tail|
      ensures Prediction(layers[0], first, tail, i) == Prediction(base, onto, layers, i + 1)
    {
      TailPrediction(base, onto, layers, first, i);
    }
  }

  lemma TailPrediction(base: Tree, onto: Tree, layers: seq<Tree>, first: Tree, i: nat)
    requires i < |layers| - 1 && MergeTrees(base, onto, layers[0]) == Some(first)
    ensures Prediction(layers[0], first, layers[1..], i) == Prediction(base, onto, layers, i + 1)
  {
    var a, b := Prediction(layers[0], first, layers[1..], i), Prediction(base, onto, layers, i + 1);
    forall p: Path
      ensures Lookup(a, p) == Lookup(b, p)
    {
      MergePointwise(base, onto, layers[0], p);
      ExpectedTail(base, onto, layers, i + 1, p, first);
    }
    SameLookups(a, b);
  }

  lemma ContestedTail(base: Tree, onto: Tree, layers: seq<Tree>, first: Tree, p: Path)
    requires layers != []
    requires Resolve(Lookup(base, p), Lookup(onto, p), Lookup(layers[0], p)) == Some(Lookup(first, p))
    ensures Contested(base, onto, layers, p) <==> Contested(layers[0], first, layers[1..], p)
  {
    if Lookup(layers[0], p) == Lookup(base, p) {
      forall i { EditedTail(base, layers, i, p); }
      if i :| 0 <= i < |layers| && FirstEdit(base, layers, i, p) && Lookup(layers[i], p) != Lookup(onto, p) {
        assert FirstEdit(layers[0], layers[1..], i - 1, p);
      }
      if i :| 0 <= i < |layers[1..]| && FirstEdit(layers[0], layers[1..], i, p)
              && Lookup(layers[1..][i], p) != Lookup(first, p) {
        assert FirstEdit(base, layers, i + 1, p);
      }
    } else {
      assert Edited(base, layers, 0, p);
    }
  }
}
