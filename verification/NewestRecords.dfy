/** Which records the bounded histories keep, in terms of creation stamps and sizes alone. */
module NewestRecords {
  import opened Options
  import opened Collections
  import opened Stores
  import opened GarbageCollection

  /** a is the newer of two records; of two with the same stamp it is the one listed first. */
  predicate Ahead(a: Item, b: Item) {
    a.createdAt > b.createdAt || (a.createdAt == b.createdAt && a.index < b.index)
  }

  /** The kept items ahead of x, in directory order. */
  function KeptAhead(items: seq<Item>, kept: set<nat>, x: Item): seq<Item> {
    if items == [] then []
    else (if items[0].index in kept && Ahead(items[0], x) then [items[0]] else []) + KeptAhead(items[1..], kept, x)
  }

  /** The item fits both budgets beside items of this number and size. */
  predicate HasRoom(count: nat, bytes: nat, x: Item) { count < MAX_RECORDS && bytes + x.bytes <= MAX_BYTES }

  // ---- the sort is stable ----

  predicate Ordered(items: seq<Item>) { forall i, j | 0 <= i < j < |items| :: Ahead(items[i], items[j]) }

  lemma {:induction false} InsertOrders(item: Item, sorted: seq<Item>)
    requires Ordered(sorted) && forall x | x in sorted :: item.index < x.index
    ensures Ordered(Insert(item, sorted))
    ensures forall x :: x in Insert(item, sorted) <==> x == item || x in sorted
  {
    if sorted != [] && sorted[0].createdAt > item.createdAt {
      InsertOrders(item, sorted[1..]);
      var rest := Insert(item, sorted[1..]);
      assert sorted == [sorted[0]] + sorted[1..];
      forall x | x in rest ensures Ahead(sorted[0], x) {
        assert x == item || x in sorted[1..];
      }
    } else {
      assert forall x | x in sorted :: Ahead(item, x) by {
        forall x | x in sorted ensures Ahead(item, x) {
          assert x == sorted[0] || Ahead(sorted[0], x);
        }
      }
    }
  }

  lemma {:induction false} NewestOrders(items: seq<Item>)
    requires Ascending(items)
    ensures Ordered(Newest(items)) && forall x :: x in Newest(items) <==> x in items
  {
    if items != [] {
      NewestOrders(items[1..]);
      InsertOrders(items[0], Newest(items[1..]));
      assert items == [items[0]] + items[1..];
    }
  }

  // ---- what the greedy pass keeps ----

  lemma {:induction false} GreedyInTwo(a: seq<Item>, b: seq<Item>, count: nat, bytes: nat)
    ensures var first := Greedy(a, count, bytes);
            Greedy(a + b, count, bytes) == first + Greedy(b, count + |first|, bytes + Total(first))
    decreases |a|
  {
    if a == [] {
      assert a + b == b;
    } else {
      assert (a + b)[0] == a[0] && (a + b)[1..] == a[1..] + b;
      if Fits(count, bytes, a[0]) {
        GreedyInTwo(a[1..], b, count + 1, bytes + a[0].bytes);
        var rest := Greedy(a[1..], count + 1, bytes + a[0].bytes);
        assert ([a[0]] + rest)[1..] == rest;
      } else {
        GreedyInTwo(a[1..], b, count, bytes);
      }
    }
  }

  /** The pass at one item: what was kept before it, whether it fits, and what follows. */
  lemma GreedyAt(sorted: seq<Item>, k: nat, count: nat, bytes: nat)
    requires k < |sorted|
    ensures var before := Greedy(sorted[..k], count, bytes);
            var c, b, x := count + |before|, bytes + Total(before), sorted[k];
            Greedy(sorted, count, bytes)
            == before + ((if Fits(c, b, x) then [x] else [])
                         + if Fits(c, b, x) then Greedy(sorted[k + 1..], c + 1, b + x.bytes) else Greedy(sorted[k + 1..], c, b))
  {
    assert sorted == sorted[..k] + sorted[k..];
    assert sorted[k..][0] == sorted[k] && sorted[k..][1..] == sorted[k + 1..];
    GreedyInTwo(sorted[..k], sorted[k..], count, bytes);
  }

  /** What the pass kept before position k is what it kept ahead of that item. */
  lemma GreedyBefore(sorted: seq<Item>, k: nat, count: nat, bytes: nat, y: Item)
    requires k < |sorted| && Ordered(sorted)
    ensures y in Greedy(sorted[..k], count, bytes) <==> y in Greedy(sorted, count, bytes) && Ahead(y, sorted[k])
  {
    var before := Greedy(sorted[..k], count, bytes);
    var after := GreedyAfter(sorted, k, count, bytes);
    AroundPosition(sorted, k, before, after, y);
  }

  /** The pass keeps the item at position k exactly when it fits. */
  lemma GreedyHere(sorted: seq<Item>, k: nat, count: nat, bytes: nat)
    requires k < |sorted| && Ordered(sorted)
    ensures var before := Greedy(sorted[..k], count, bytes);
            sorted[k] in Greedy(sorted, count, bytes) <==> Fits(count + |before|, bytes + Total(before), sorted[k])
  {
    var before := Greedy(sorted[..k], count, bytes);
    var after := GreedyAfter(sorted, k, count, bytes);
    AroundPosition(sorted, k, before, after, sorted[k]);
  }

  lemma GreedyAfter(sorted: seq<Item>, k: nat, count: nat, bytes: nat) returns (after: seq<Item>)
    requires k < |sorted|
    ensures var before := Greedy(sorted[..k], count, bytes);
            Greedy(sorted, count, bytes)
            == before + (if Fits(count + |before|, bytes + Total(before), sorted[k]) then [sorted[k]] else []) + after
    ensures forall z | z in Greedy(sorted[..k], count, bytes) :: z in sorted[..k]
    ensures forall z | z in after :: z in sorted[k + 1..]
  {
    var before, x := Greedy(sorted[..k], count, bytes), sorted[k];
    var c, b := count + |before|, bytes + Total(before);
    GreedyAt(sorted, k, count, bytes);
    GreedySelects(sorted[..k], count, bytes);
    if Fits(c, b, x) {
      after := SelectedFrom(sorted[k + 1..], c + 1, b + x.bytes);
    } else {
      after := SelectedFrom(sorted[k + 1..], c, b);
    }
    Regroup(before, if Fits(c, b, x) then [x] else [], after);
  }

  lemma SelectedFrom(items: seq<Item>, count: nat, bytes: nat) returns (selected: seq<Item>)
    ensures selected == Greedy(items, count, bytes) && forall z | z in selected :: z in items
  {
    selected := Greedy(items, count, bytes);
    GreedySelects(items, count, bytes);
  }

  lemma AroundPosition(sorted: seq<Item>, k: nat, before: seq<Item>, after: seq<Item>, y: Item)
    requires k < |sorted| && Ordered(sorted)
    requires (forall z | z in before :: z in sorted[..k]) && (forall z | z in after :: z in sorted[k + 1..])
    ensures y in before ==> Ahead(y, sorted[k])
    ensures y in after || y == sorted[k] ==> !Ahead(y, sorted[k])
    ensures sorted[k] !in before && sorted[k] !in after
  {
    assert forall z | z in sorted[..k] :: Ahead(z, sorted[k]);
    assert forall z | z in sorted[k + 1..] :: Ahead(sorted[k], z);
  }

  // ---- counted in directory order ----

  lemma {:induction false} KeptAheadMembers(items: seq<Item>, kept: set<nat>, x: Item, y: Item)
    requires Ascending(items)
    ensures multiset(KeptAhead(items, kept, x))[y] == (if y in items && y.index in kept && Ahead(y, x) then 1 else 0)
  {
    if items != [] {
      KeptAheadMembers(items[1..], kept, x, y);
      assert items == [items[0]] + items[1..];
      assert items[0] !in items[1..];
    }
  }

  lemma {:induction false} GreedyOnce(sorted: seq<Item>, count: nat, bytes: nat, y: Item)
    requires Ordered(sorted)
    ensures multiset(Greedy(sorted, count, bytes))[y] <= 1
  {
    if sorted != [] {
      GreedySelects(sorted[1..], count + 1, bytes + sorted[0].bytes);
      assert sorted[0] !in sorted[1..];
      if Fits(count, bytes, sorted[0]) {
        GreedyOnce(sorted[1..], count + 1, bytes + sorted[0].bytes, y);
      } else {
        GreedyOnce(sorted[1..], count, bytes, y);
      }
    }
  }

  /** What the pass kept before an item is what it keeps ahead of it. */
  lemma KeptBefore(items: seq<Item>, count: nat, bytes: nat, k: nat)
    requires Ascending(items) && k < |Newest(items)|
    ensures var before := Greedy(Newest(items)[..k], count, bytes);
            var ahead := KeptAhead(items, Indices(Greedy(Newest(items), count, bytes)), Newest(items)[k]);
            |ahead| == |before| && Total(ahead) == Total(before)
  {
    var sorted := Newest(items);
    var greedy, before, x := Greedy(sorted, count, bytes), Greedy(sorted[..k], count, bytes), sorted[k];
    var ahead := KeptAhead(items, Indices(greedy), x);
    NewestOrders(items);
    forall y ensures multiset(ahead)[y] == multiset(before)[y] {
      SameCount(items, count, bytes, k, y);
    }
    assert multiset(ahead) == multiset(before);
    TotalOfPermutation(ahead, before);
  }

  lemma SameCount(items: seq<Item>, count: nat, bytes: nat, k: nat, y: Item)
    requires Ascending(items) && k < |Newest(items)|
    ensures multiset(KeptAhead(items, Indices(Greedy(Newest(items), count, bytes)), Newest(items)[k]))[y]
         == multiset(Greedy(Newest(items)[..k], count, bytes))[y]
  {
    var sorted := Newest(items);
    NewestOrders(items);
    GreedyBefore(sorted, k, count, bytes, y);
    GreedyOnce(sorted[..k], count, bytes, y);
    KeptAheadMembers(items, Indices(Greedy(sorted, count, bytes)), sorted[k], y);
    InGreedyIff(items, count, bytes, y);
  }

  lemma InGreedyIff(items: seq<Item>, count: nat, bytes: nat, y: Item)
    requires Ascending(items)
    ensures y in Greedy(Newest(items), count, bytes) <==> y in items && y.index in Indices(Greedy(Newest(items), count, bytes))
  {
    NewestOrders(items);
    GreedySelects(Newest(items), count, bytes);
    if y in items && y.index in Indices(Greedy(Newest(items), count, bytes)) {
      var z :| z in Greedy(Newest(items), count, bytes) && z.index == y.index;
      OnlyOne(items, y, z);
    }
  }

  /** An item is kept exactly when it fits both budgets beside the kept items that are newer. */
  lemma KeptIff(items: seq<Item>, count: nat, x: Item)
    requires Ascending(items) && x in items
    ensures var kept := Indices(Greedy(Newest(items), count, 0));
            x.index in kept <==> HasRoom(count + |KeptAhead(items, kept, x)|, Total(KeptAhead(items, kept, x)), x)
  {
    var sorted := Newest(items);
    NewestOrders(items);
    var k :| 0 <= k < |sorted| && sorted[k] == x;
    KeptAt(items, count, k);
    InGreedyIff(items, count, 0, x);
  }

  lemma KeptAt(items: seq<Item>, count: nat, k: nat)
    requires Ascending(items) && k < |Newest(items)|
    ensures var sorted := Newest(items);
            var ahead := KeptAhead(items, Indices(Greedy(sorted, count, 0)), sorted[k]);
            sorted[k] in Greedy(sorted, count, 0) <==> HasRoom(count + |ahead|, Total(ahead), sorted[k])
  {
    NewestOrders(items);
    GreedyHere(Newest(items), k, count, 0);
    KeptBefore(items, count, 0, k);
  }

  // ---- no survivor is older than a removed record ----

  lemma {:induction false} OlderHasMoreAhead(items: seq<Item>, kept: set<nat>, x: Item, y: Item)
    requires Ahead(x, y)
    ensures |KeptAhead(items, kept, x)| <= |KeptAhead(items, kept, y)|
  {
    if items != [] {
      OlderHasMoreAhead(items[1..], kept, x, y);
    }
  }

  lemma {:induction false} AheadIsPart(items: seq<Item>, kept: set<nat>, x: Item)
    ensures Total(KeptAhead(items, kept, x)) + (if x in items then x.bytes else 0) <= Total(items)
  {
    if items != [] {
      AheadIsPart(items[1..], kept, x);
      assert items == [items[0]] + items[1..];
      FirstAhead(items[0], items[1..], kept, x);
    }
  }

  lemma KeptAreNewest(items: seq<Item>, count: nat, x: Item, y: Item)
    requires Ascending(items) && Total(items) <= MAX_BYTES && x in items && y in items
    requires var kept := Indices(Greedy(Newest(items), count, 0)); x.index in kept && y.index !in kept
    ensures Ahead(x, y)
  {
    var kept := Indices(Greedy(Newest(items), count, 0));
    KeptIff(items, count, x);
    KeptIff(items, count, y);
    AheadIsPart(items, kept, y);
    if Ahead(y, x) {
      OlderHasMoreAhead(items, kept, y, x);
    }
  }

  // ---- a collection ----

  /** A record that only the debug history keeps. */
  predicate IsOptional(f: JournalFile, active: set<string>) {
    f.contents.Readable? && !f.contents.t.phase.Installing? && !(f.contents.t.phase.Conflicted? && f.contents.t.project in active)
  }

  predicate Newer(files: seq<JournalFile>, i: nat, k: nat)
    requires i < |files| && k < |files| && files[i].contents.Readable? && files[k].contents.Readable?
  {
    var a, b := files[i].contents.t.createdAt, files[k].contents.t.createdAt;
    a > b || (a == b && i < k)
  }

  /** Record k is a surviving optional record that is newer than record i. */
  predicate SurvivesAhead(files: seq<JournalFile>, active: set<string>, kept: set<nat>, i: nat, k: nat)
    requires i < |files| && files[i].contents.Readable? && k < |files|
  {
    IsOptional(files[k], active) && Newer(files, k, i) && Retains(files, active, kept, k)
  }

  /** How many of them there are from position k on, and how large they are together. */
  function NewerCount(files: seq<JournalFile>, active: set<string>, kept: set<nat>, i: nat, k: nat): nat
    requires i < |files| && files[i].contents.Readable? && k <= |files|
    decreases |files| - k
  {
    if k == |files| then 0
    else (if SurvivesAhead(files, active, kept, i, k) then 1 else 0) + NewerCount(files, active, kept, i, k + 1)
  }

  function NewerBytes(files: seq<JournalFile>, active: set<string>, kept: set<nat>, i: nat, k: nat): nat
    requires i < |files| && files[i].contents.Readable? && k <= |files|
    decreases |files| - k
  {
    if k == |files| then 0
    else (if SurvivesAhead(files, active, kept, i, k) then files[k].contents.compact else 0)
         + NewerBytes(files, active, kept, i, k + 1)
  }

  function ItemOf(files: seq<JournalFile>, i: nat): Item
    requires i < |files| && files[i].contents.Readable?
  {
    Item(i, files[i].contents.t.createdAt, files[i].contents.compact)
  }

  lemma {:induction false} SurvivorsAreAhead(files: seq<JournalFile>, active: set<string>, kept: set<nat>, i: nat, k: nat)
    requires i < |files| && IsOptional(files[i], active) && k <= |files|
    ensures var ahead := KeptAhead(Optional(files, active, k), kept, ItemOf(files, i));
            NewerCount(files, active, kept, i, k) == |ahead| && NewerBytes(files, active, kept, i, k) == Total(ahead)
    decreases |files| - k
  {
    if k < |files| {
      SurvivorsAreAhead(files, active, kept, i, k + 1);
      OptionalAhead(files, active, kept, i, k);
    }
  }

  lemma OptionalAhead(files: seq<JournalFile>, active: set<string>, kept: set<nat>, i: nat, k: nat)
    requires i < |files| && IsOptional(files[i], active) && k < |files|
    ensures var x := ItemOf(files, i);
            var ahead, all := KeptAhead(Optional(files, active, k + 1), kept, x), KeptAhead(Optional(files, active, k), kept, x);
            if SurvivesAhead(files, active, kept, i, k)
            then |all| == |ahead| + 1 && Total(all) == Total(ahead) + files[k].contents.compact
            else all == ahead
  {
    OptionalNext(files, active, k);
    if IsOptional(files[k], active) {
      FirstAhead(ItemOf(files, k), Optional(files, active, k + 1), kept, ItemOf(files, i));
    }
  }

  lemma FirstAhead(item: Item, rest: seq<Item>, kept: set<nat>, x: Item)
    ensures var ahead, all := KeptAhead(rest, kept, x), KeptAhead([item] + rest, kept, x);
            if item.index in kept && Ahead(item, x) then |all| == |ahead| + 1 && Total(all) == Total(ahead) + item.bytes
            else all == ahead
  {
    assert ([item] + rest)[1..] == rest;
    var ahead := KeptAhead(rest, kept, x);
    assert ([item] + ahead)[1..] == ahead;
    assert [] + ahead == ahead;
  }

  lemma {:induction false} OptionalHolds(files: seq<JournalFile>, active: set<string>, k: nat, i: nat)
    requires k <= i < |files| && IsOptional(files[i], active)
    ensures ItemOf(files, i) in Optional(files, active, k)
    decreases i - k
  {
    if k < i {
      OptionalHolds(files, active, k + 1, i);
    }
    OptionalNext(files, active, k);
  }

  lemma ChosenIff(files: seq<JournalFile>, active: set<string>, i: nat)
    requires i < |files| && IsOptional(files[i], active)
    ensures var ahead := KeptAhead(Optional(files, active, 0), Chosen(files, active, true), ItemOf(files, i));
            i in Chosen(files, active, true) <==> HasRoom(|ahead|, Total(ahead), ItemOf(files, i))
  {
    OptionalAscends(files, active, 0);
    OptionalHolds(files, active, 0, i);
    KeptIff(Optional(files, active, 0), 0, ItemOf(files, i));
  }

  /** With a debug history, an optional record survives a collection exactly when it fits both
      budgets beside the surviving optional records that are newer. */
  lemma OptionalSurvivesIff(files: seq<JournalFile>, active: set<string>, i: nat)
    requires i < |files| && IsOptional(files[i], active)
    ensures var kept := Chosen(files, active, true);
            Retains(files, active, kept, i)
            <==> && NewerCount(files, active, kept, i, 0) < MAX_RECORDS
                 && NewerBytes(files, active, kept, i, 0) + files[i].contents.compact <= MAX_BYTES
  {
    ChosenIff(files, active, i);
    SurvivorsAreAhead(files, active, Chosen(files, active, true), i, 0);
  }

  /** When the sizes fit together, a collection removes no record that is newer than a
      surviving optional one. */
  lemma SurvivorsAreNewest(files: seq<JournalFile>, active: set<string>, i: nat, k: nat)
    requires i < |files| && k < |files| && IsOptional(files[i], active) && IsOptional(files[k], active)
    requires Total(Optional(files, active, 0)) <= MAX_BYTES
    requires Retains(files, active, Chosen(files, active, true), i) && !Retains(files, active, Chosen(files, active, true), k)
    ensures Newer(files, i, k)
  {
    OptionalAscends(files, active, 0);
    OptionalHolds(files, active, 0, i);
    OptionalHolds(files, active, 0, k);
    KeptAreNewest(Optional(files, active, 0), 0, ItemOf(files, i), ItemOf(files, k));
  }

  predicate DistinctPaths(files: seq<JournalFile>) {
    forall i, k | 0 <= i < k < |files| :: files[i].path != files[k].path
  }

  lemma {:induction false} SweptHoldsIff(files: seq<JournalFile>, active: set<string>, chosen: set<nat>, k: nat, i: nat)
    requires DistinctPaths(files) && i < |files| && k <= |files|
    ensures (exists f :: f in Swept(files, active, chosen, k) && f.path == files[i].path)
       <==> k <= i && Retains(files, active, chosen, i)
    decreases |files| - k
  {
    if k < |files| {
      SweptHoldsIff(files, active, chosen, k + 1, i);
      var rest := Swept(files, active, chosen, k + 1);
      var here := if Retains(files, active, chosen, k) then [Compacted(files[k])] else [];
      assert Swept(files, active, chosen, k) == here + rest;
      assert forall f :: f in here + rest <==> f in here || f in rest;
      if k == i && Retains(files, active, chosen, i) {
        assert Compacted(files[i]) in here + rest;
      }
    }
  }

  /** The file of record i is still there after the collection exactly when it is unreadable,
      actionable, or optional and within both budgets beside the newer optional records that
      are still there; without a debug history no optional record is. */
  lemma CollectionKeepsIff(j: Journal, managed: set<string>, active: set<string>, debug: bool, i: nat)
    requires DistinctPaths(j.files) && i < |j.files|
    ensures var files, kept := j.files, Chosen(j.files, active, debug);
            (exists f :: f in Collected(j, managed, active, debug).files && f.path == files[i].path)
            <==> || !IsOptional(files[i], active)
                 || (&& debug && NewerCount(files, active, kept, i, 0) < MAX_RECORDS
                     && NewerBytes(files, active, kept, i, 0) + files[i].contents.compact <= MAX_BYTES)
  {
    SweptHoldsIff(j.files, active, Chosen(j.files, active, debug), 0, i);
    if debug && IsOptional(j.files[i], active) {
      OptionalSurvivesIff(j.files, active, i);
    }
  }

  // ---- pruning while a record is written ----

  lemma HistoryHoldsIff(files: seq<JournalFile>, protectedId: Option<string>, i: nat)
    requires i < |files|
    ensures i in Indices(History(files, protectedId, 0)) <==> !Spared(files[i], protectedId)
    ensures !Spared(files[i], protectedId) ==>
              Item(i, files[i].contents.t.createdAt, files[i].bytes) in History(files, protectedId, 0)
  {
  }

  /** Pruning while records are written removes exactly the readable records that are neither
      INSTALLING nor CONFLICTED nor the protected one, and that do not fit both budgets beside
      the newer ones that stay.  The protected record counts as one, and sizes are those on disk. */
  lemma PrunedIff(files: seq<JournalFile>, protectedId: Option<string>, i: nat)
    requires i < |files|
    ensures var history := History(files, protectedId, 0);
            i in Dropped(files, protectedId)
            <==> && files[i].contents.Readable? && files[i].contents.t.phase !in {Installing, Conflicted}
                 && protectedId != Some(files[i].contents.t.id)
                 && var ahead := KeptAhead(history, Indices(history) - Dropped(files, protectedId),
                                           Item(i, files[i].contents.t.createdAt, files[i].bytes));
                 !((if protectedId.Some? then 1 else 0) + |ahead| < MAX_RECORDS && Total(ahead) + files[i].bytes <= MAX_BYTES)
  {
    HistoryHoldsIff(files, protectedId, i);
    if !Spared(files[i], protectedId) {
      UnsparedIff(files, protectedId, i);
    }
  }

  lemma UnsparedIff(files: seq<JournalFile>, protectedId: Option<string>, i: nat)
    requires i < |files| && !Spared(files[i], protectedId)
    ensures var history := History(files, protectedId, 0);
            var x := Item(i, files[i].contents.t.createdAt, files[i].bytes);
            var ahead := KeptAhead(history, Indices(history) - Dropped(files, protectedId), x);
            i !in Dropped(files, protectedId) <==> HasRoom((if protectedId.Some? then 1 else 0) + |ahead|, Total(ahead), x)
  {
    HistoryAscends(files, protectedId, 0);
    HistoryHoldsIff(files, protectedId, i);
    DroppedAreTheRest(files, protectedId);
    RestIff(History(files, protectedId, 0), Dropped(files, protectedId), if protectedId.Some? then 1 else 0,
            Item(i, files[i].contents.t.createdAt, files[i].bytes));
  }

  lemma RestIff(items: seq<Item>, dropped: set<nat>, count: nat, x: Item)
    requires Ascending(items) && x in items
    requires Indices(items) - dropped == Indices(Greedy(Newest(items), count, 0))
    ensures var ahead := KeptAhead(items, Indices(items) - dropped, x);
            x.index !in dropped <==> HasRoom(count + |ahead|, Total(ahead), x)
  {
    KeptIff(items, count, x);
    assert x.index in Indices(items);
  }

  lemma DroppedAreTheRest(files: seq<JournalFile>, protectedId: Option<string>)
    ensures Indices(History(files, protectedId, 0)) - Dropped(files, protectedId) == Indices(KeptHistory(files, protectedId))
  {
    var history := History(files, protectedId, 0);
    HistoryAscends(files, protectedId, 0);
    NewestOrders(history);
    GreedySelects(Newest(history), if protectedId.Some? then 1 else 0, 0);
  }
}
