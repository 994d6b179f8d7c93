/** The commit graph.  Object names are allocated in increasing order, which stands for
    the fresh, acyclic names that content hashing gives. */
module Graphs {
  type Oid = nat

  datatype Commit<+T> = Commit(parents: seq<Oid>, body: T)

  type Graph<+T> = map<Oid, Commit<T>>

  ghost predicate Valid<T>(g: Graph<T>) {
    forall c :: c in g ==> forall i :: 0 <= i < |g[c].parents| ==> g[c].parents[i] in g && g[c].parents[i] < c
  }

  /** `to` is `from` or one of its ancestors. */
  predicate Reaches<T>(g: Graph<T>, from: Oid, to: Oid)
    decreases from
  {
    from == to
    || (from in g && exists i | 0 <= i < |g[from].parents| :: g[from].parents[i] < from && Reaches(g, g[from].parents[i], to))
  }

  /** `git merge-base --is-ancestor`, which also fails on an unknown object. */
  predicate IsAncestor<T>(g: Graph<T>, ancestor: Oid, descendant: Oid) {
    ancestor in g && descendant in g && Reaches(g, descendant, ancestor)
  }

  lemma {:induction false} ReachesDownward<T>(g: Graph<T>, from: Oid, to: Oid)
    requires Reaches(g, from, to)
    ensures to <= from
    decreases from
  {
    if from != to {
      var i :| 0 <= i < |g[from].parents| && g[from].parents[i] < from && Reaches(g, g[from].parents[i], to);
      ReachesDownward(g, g[from].parents[i], to);
    }
  }

  lemma {:induction false} ReachesTransitive<T>(g: Graph<T>, a: Oid, b: Oid, c: Oid)
    requires Reaches(g, a, b) && Reaches(g, b, c)
    ensures Reaches(g, a, c)
    decreases a
  {
    if a != b {
      var i :| 0 <= i < |g[a].parents| && g[a].parents[i] < a && Reaches(g, g[a].parents[i], b);
      ReachesTransitive(g, g[a].parents[i], b, c);
    }
  }

  /** Later objects never cut an ancestry. */
  lemma {:induction false} ReachesInLarger<T>(g: Graph<T>, larger: Graph<T>, from: Oid, to: Oid)
    requires Reaches(g, from, to) && forall c :: c in g ==> c in larger && larger[c] == g[c]
    ensures Reaches(larger, from, to)
    decreases from
  {
    if from != to {
      var i :| 0 <= i < |g[from].parents| && g[from].parents[i] < from && Reaches(g, g[from].parents[i], to);
      ReachesInLarger(g, larger, g[from].parents[i], to);
    }
  }

  /** No commit between the two is a merge: the set `git rev-list --merges previous..head` is empty. */
  predicate NoMerges<T>(g: Graph<T>, previous: Oid, head: Oid) {
    forall c :: c in g && Reaches(g, head, c) && !Reaches(g, previous, c) ==> |g[c].parents| <= 1
  }

  lemma NoMergesAtParent<T>(g: Graph<T>, previous: Oid, head: Oid)
    requires Valid(g) && head in g && head != previous && Reaches(g, head, previous) && NoMerges(g, previous, head)
    ensures |g[head].parents| == 1 && g[head].parents[0] < head
    ensures Reaches(g, g[head].parents[0], previous) && NoMerges(g, previous, g[head].parents[0])
  {
    if Reaches(g, previous, head) {
      ReachesDownward(g, previous, head);
      ReachesDownward(g, head, previous);
    }
    var parent := g[head].parents[0];
    forall c | c in g && Reaches(g, parent, c) && !Reaches(g, previous, c)
      ensures |g[c].parents| <= 1
    {
      ReachesTransitive(g, head, parent, c);
    }
  }

  /** The unpublished commits above `previous`, oldest first. */
  function Chain<T>(g: Graph<T>, previous: Oid, head: Oid): (chain: seq<Oid>)
    requires Valid(g) && head in g && Reaches(g, head, previous) && NoMerges(g, previous, head)
    ensures forall i :: 0 <= i < |chain| ==> chain[i] in g && Reaches(g, head, chain[i]) && chain[i] != previous
    ensures if chain == [] then head == previous else chain[|chain| - 1] == head
    decreases head
  {
    if head == previous then []
    else
      NoMergesAtParent(g, previous, head);
      var rest := Chain(g, previous, g[head].parents[0]);
      assert forall c :: c in rest ==> Reaches(g, head, c) by {
        forall c | c in rest ensures Reaches(g, head, c) {
          ReachesTransitive(g, head, g[head].parents[0], c);
        }
      }
      rest + [head]
  }

  /** The chain misses nothing: it is exactly what `git rev-list previous..head` names. */
  lemma {:induction false} ChainIsTheRange<T>(g: Graph<T>, previous: Oid, head: Oid, c: Oid)
    requires Valid(g) && head in g && Reaches(g, head, previous) && NoMerges(g, previous, head)
    ensures c in Chain(g, previous, head) <==> Reaches(g, head, c) && !Reaches(g, previous, c)
    decreases head
  {
    if head != previous {
      NoMergesAtParent(g, previous, head);
      var parent := g[head].parents[0];
      ChainIsTheRange(g, previous, parent, c);
      if Reaches(g, previous, head) {
        ReachesDownward(g, previous, head);
        ReachesDownward(g, head, previous);
      }
      if Reaches(g, head, c) && c != head {
        assert Reaches(g, parent, c);
      }
      if Reaches(g, parent, c) {
        ReachesTransitive(g, head, parent, c);
      }
    }
  }

  /** Appends one commit per body on top of `parent`, named from `next` upwards. */
  function Replay<T>(g: Graph<T>, parent: Oid, next: Oid, bodies: seq<T>): Graph<T>
    decreases |bodies|
  {
    if bodies == [] then g
    else Replay(g[next := Commit([parent], bodies[0])], next, next + 1, bodies[1..])
  }

  ghost predicate Below<T>(g: Graph<T>, next: Oid) {
    forall c :: c in g ==> c < next
  }

  lemma {:induction false} ReplayExtends<T>(g: Graph<T>, parent: Oid, next: Oid, bodies: seq<T>)
    requires Valid(g) && Below(g, next) && parent in g
    ensures var g' := Replay(g, parent, next, bodies);
            && Valid(g') && Below(g', next + |bodies|)
            && (forall c :: c in g ==> c in g' && g'[c] == g[c])
    decreases |bodies|
  {
    if bodies != [] {
      ReplayExtends(g[next := Commit([parent], bodies[0])], next, next + 1, bodies[1..]);
    }
  }

  lemma {:induction false} ReplayedCommit<T>(g: Graph<T>, parent: Oid, next: Oid, bodies: seq<T>, c: Oid)
    requires Valid(g) && Below(g, next) && parent in g && next <= c < next + |bodies|
    ensures var g' := Replay(g, parent, next, bodies);
            c in g' && g'[c].body == bodies[c - next] && Reaches(g', c, parent)
    decreases |bodies|
  {
    var g1 := g[next := Commit([parent], bodies[0])];
    var g' := Replay(g, parent, next, bodies);
    ReplayExtends(g1, next, next + 1, bodies[1..]);
    assert g'[next] == g1[next];
    assert Reaches(g', next, parent) by {
      assert g'[next].parents[0] == parent && Reaches(g', parent, parent);
    }
    if c > next {
      ReplayedCommit(g1, next, next + 1, bodies[1..], c);
      ReachesTransitive(g', c, next, parent);
    }
  }

  /** The replayed commits carry the bodies in order, all of them on top of `parent`, and
      nothing else changes. */
  lemma ReplayAppends<T>(g: Graph<T>, parent: Oid, next: Oid, bodies: seq<T>)
    requires Valid(g) && Below(g, next) && parent in g
    ensures var g' := Replay(g, parent, next, bodies);
            && Valid(g') && Below(g', next + |bodies|)
            && (forall c :: c in g ==> c in g' && g'[c] == g[c])
            && (forall c :: next <= c < next + |bodies| ==>
                  c in g' && g'[c].body == bodies[c - next] && Reaches(g', c, parent))
  {
    ReplayExtends(g, parent, next, bodies);
    forall c | next <= c < next + |bodies|
      ensures var g' := Replay(g, parent, next, bodies);
              c in g' && g'[c].body == bodies[c - next] && Reaches(g', c, parent)
    {
      ReplayedCommit(g, parent, next, bodies, c);
    }
  }
}
