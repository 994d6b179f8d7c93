/** Facts about finite collections. */
module Collections {
  lemma SubsetIsSmaller<T>(a: set<T>, b: set<T>)
    requires a <= b
    ensures |a| <= |b|
  {
    assert b == a + (b - a);
  }

  lemma Regroup<T>(a: seq<T>, b: seq<T>, c: seq<T>)
    ensures (a + b) + c == a + (b + c)
  {
  }

  function Elements<T>(s: seq<T>): set<T> { set x | x in s }

  /** A sequence has as many elements as entries exactly when no entry is repeated. */
  lemma {:induction false} DistinctIff<T>(s: seq<T>)
    ensures |Elements(s)| <= |s|
    ensures |Elements(s)| == |s| <==> forall i, j | 0 <= i < j < |s| :: s[i] != s[j]
  {
    if s != [] {
      var first, rest := s[0], s[1..];
      DistinctIff(rest);
      assert s == [first] + rest;
      assert Elements(s) == {first} + Elements(rest);
      FirstIsNew(first, rest);
    }
  }

  lemma FirstIsNew<T>(first: T, rest: seq<T>)
    ensures var s := [first] + rest;
            (forall i, j | 0 <= i < j < |s| :: s[i] != s[j])
            <==> first !in Elements(rest) && forall i, j | 0 <= i < j < |rest| :: rest[i] != rest[j]
  {
    var s := [first] + rest;
    if forall i, j | 0 <= i < j < |s| :: s[i] != s[j] {
      forall j | 0 <= j < |rest| ensures rest[j] != first {
        assert s[0] != s[j + 1];
      }
      forall i, j | 0 <= i < j < |rest| ensures rest[i] != rest[j] {
        assert s[i + 1] != s[j + 1];
      }
    }
  }
}
