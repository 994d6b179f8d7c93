/** Which transaction records and recovery refs may go: `gc_transactions`, the bounded debug
    history, and the clearing of resolved conflicts. */
module GarbageCollection {
  import opened Options
  import opened Stores
  import opened Collections
  import Shell

  const MAX_RECORDS: nat := 128
  const MAX_BYTES: nat := 256 * 1024 * 1024
  const U64_MAX: nat := 0xFFFF_FFFF_FFFF_FFFF

  datatype Transaction = Transaction(
    id: string, project: string, phase: Phase, createdAt: int, recoveryRef: string, candidate: bool)

  /** A file of the journal directory: its size on disk and what it parses to.  `compact`
      is the size it would have when written again. */
  datatype Contents = Readable(t: Transaction, compact: nat) | Unreadable

  datatype JournalFile = JournalFile(path: string, bytes: nat, contents: Contents)

  /** The journal directory, and the recovery refs of every project whose refs can be listed. */
  datatype Journal = Journal(files: seq<JournalFile>, refs: map<string, set<string>>)

  datatype Report = Report(
    dryRun: bool, debugHistory: bool, scanned: nat, retained: nat, removed: nat, compacted: nat,
    invalidRetained: nat, refsPrunable: nat, refsRemoved: nat, refsSkipped: nat, bytesReclaimed: nat)

  // ---- the bounded history: newest first, greedily ----

  /** A record that may go, by its position in the directory listing. */
  datatype Item = Item(index: nat, createdAt: int, bytes: nat)

  function SaturatingAdd(a: nat, b: nat): nat { if a + b > U64_MAX then U64_MAX else a + b }

  predicate Fits(count: nat, bytes: nat, item: Item) {
    count < MAX_RECORDS && SaturatingAdd(bytes, item.bytes) <= MAX_BYTES
  }

  function Greedy(items: seq<Item>, count: nat, bytes: nat): seq<Item> {
    if items == [] then []
    else if Fits(count, bytes, items[0]) then [items[0]] + Greedy(items[1..], count + 1, bytes + items[0].bytes)
    else Greedy(items[1..], count, bytes)
  }

  function Total(items: seq<Item>): nat {
    if items == [] then 0 else items[0].bytes + Total(items[1..])
  }

  /** The budget is never exceeded, so the running totals never overflow. */
  lemma {:induction false} GreedyIsBounded(items: seq<Item>, count: nat, bytes: nat)
    requires count <= MAX_RECORDS && bytes <= MAX_BYTES
    ensures count + |Greedy(items, count, bytes)| <= MAX_RECORDS
    ensures bytes + Total(Greedy(items, count, bytes)) <= MAX_BYTES
  {
    if items != [] {
      if Fits(count, bytes, items[0]) {
        GreedyIsBounded(items[1..], count + 1, bytes + items[0].bytes);
      } else {
        GreedyIsBounded(items[1..], count, bytes);
      }
    }
  }

  lemma {:induction false} TotalAppend(a: seq<Item>, b: seq<Item>)
    ensures Total(a + b) == Total(a) + Total(b)
  {
    if a == [] {
      assert a + b == b;
    } else {
      assert (a + b)[0] == a[0] && (a + b)[1..] == a[1..] + b;
      TotalAppend(a[1..], b);
    }
  }

  /** An item is kept exactly when it fits beside what was kept of the items before it. */
  lemma {:induction false} GreedyNext(items: seq<Item>, item: Item, count: nat, bytes: nat)
    ensures var kept := Greedy(items, count, bytes);
            Greedy(items + [item], count, bytes)
            == kept + if Fits(count + |kept|, bytes + Total(kept), item) then [item] else []
    decreases |items|
  {
    if items == [] {
      assert items + [item] == [item];
      assert [item][1..] == [];
    } else {
      assert (items + [item])[0] == items[0] && (items + [item])[1..] == items[1..] + [item];
      if Fits(count, bytes, items[0]) {
        var rest := Greedy(items[1..], count + 1, bytes + items[0].bytes);
        GreedyNext(items[1..], item, count + 1, bytes + items[0].bytes);
        assert ([items[0]] + rest)[1..] == rest;
        var tail := if Fits(count + 1 + |rest|, bytes + items[0].bytes + Total(rest), item) then [item] else [];
        assert [items[0]] + (rest + tail) == ([items[0]] + rest) + tail;
      } else {
        GreedyNext(items[1..], item, count, bytes);
      }
    }
  }

  /** Nothing is dropped while everything fits. */
  lemma {:induction false} GreedyKeepsWhatFits(items: seq<Item>, count: nat, bytes: nat)
    requires count + |items| <= MAX_RECORDS && bytes + Total(items) <= MAX_BYTES
    ensures Greedy(items, count, bytes) == items
  {
    if items != [] {
      GreedyKeepsWhatFits(items[1..], count + 1, bytes + items[0].bytes);
    }
  }

  lemma {:induction false} GreedySelects(items: seq<Item>, count: nat, bytes: nat)
    ensures forall x :: x in Greedy(items, count, bytes) ==> x in items
    ensures multiset(Greedy(items, count, bytes)) <= multiset(items)
  {
    if items != [] {
      assert items == [items[0]] + items[1..];
      if Fits(count, bytes, items[0]) {
        GreedySelects(items[1..], count + 1, bytes + items[0].bytes);
      } else {
        GreedySelects(items[1..], count, bytes);
      }
    }
  }

  /** Stable sort, newest first. */
  function Insert(item: Item, sorted: seq<Item>): seq<Item> {
    if sorted == [] || sorted[0].createdAt <= item.createdAt then [item] + sorted
    else [sorted[0]] + Insert(item, sorted[1..])
  }

  function Newest(items: seq<Item>): seq<Item> {
    if items == [] then [] else Insert(items[0], Newest(items[1..]))
  }

  predicate NewestFirst(items: seq<Item>) {
    forall i, j | 0 <= i < j < |items| :: items[i].createdAt >= items[j].createdAt
  }

  lemma {:induction false} InsertAdds(item: Item, sorted: seq<Item>)
    ensures multiset(Insert(item, sorted)) == multiset(sorted) + multiset{item}
    ensures Total(Insert(item, sorted)) == Total(sorted) + item.bytes && |Insert(item, sorted)| == |sorted| + 1
  {
    if sorted == [] || sorted[0].createdAt <= item.createdAt {
      assert ([item] + sorted)[1..] == sorted;
    } else {
      InsertAdds(item, sorted[1..]);
      var rest := Insert(item, sorted[1..]);
      assert ([sorted[0]] + rest)[1..] == rest;
      assert sorted == [sorted[0]] + sorted[1..];
    }
  }

  lemma {:induction false} InsertSorts(item: Item, sorted: seq<Item>)
    requires NewestFirst(sorted)
    ensures NewestFirst(Insert(item, sorted))
  {
    if sorted != [] && sorted[0].createdAt > item.createdAt {
      InsertSorts(item, sorted[1..]);
      InsertAdds(item, sorted[1..]);
      var rest := Insert(item, sorted[1..]);
      forall x | x in rest ensures x.createdAt <= sorted[0].createdAt {
        assert x in multiset(rest);
        assert x == item || x in sorted[1..];
      }
    }
  }

  lemma {:induction false} NewestSorts(items: seq<Item>)
    ensures NewestFirst(Newest(items)) && multiset(Newest(items)) == multiset(items)
    ensures Total(Newest(items)) == Total(items) && |Newest(items)| == |items|
  {
    if items != [] {
      var first, rest := items[0], Newest(items[1..]);
      NewestSorts(items[1..]);
      InsertSorts(first, rest);
      InsertAdds(first, rest);
      FirstCounted(items);
    }
  }

  lemma FirstCounted<T>(items: seq<T>)
    requires items != []
    ensures multiset(items) == multiset(items[1..]) + multiset{items[0]}
  {
    assert items == [items[0]] + items[1..];
  }

  // ---- what a collection keeps ----

  /** Records of interrupted installations and of conflicts the catalog still shows. */
  predicate Protected(t: Transaction, active: set<string>) {
    t.phase.Installing? || (t.phase.Conflicted? && t.project in active)
  }

  /** The records from position `i` on that only a debug history would keep. */
  function Optional(files: seq<JournalFile>, active: set<string>, i: nat): (items: seq<Item>)
    requires i <= |files|
    ensures forall x | x in items :: i <= x.index < |files| && files[x.index].contents.Readable?
                                     && !Protected(files[x.index].contents.t, active)
                                     && x == Item(x.index, files[x.index].contents.t.createdAt, files[x.index].contents.compact)
    decreases |files| - i
  {
    if i == |files| then []
    else
      var rest := Optional(files, active, i + 1);
      match files[i].contents
      case Unreadable => rest
      case Readable(t, compact) => if Protected(t, active) then rest else [Item(i, t.createdAt, compact)] + rest
  }

  function Indices(items: seq<Item>): set<nat> { set x | x in items :: x.index }

  function Chosen(files: seq<JournalFile>, active: set<string>, debug: bool): set<nat> {
    if debug then Indices(Greedy(Newest(Optional(files, active, 0)), 0, 0)) else {}
  }

  predicate Retains(files: seq<JournalFile>, active: set<string>, chosen: set<nat>, i: nat)
    requires i < |files|
  {
    files[i].contents.Unreadable? || Protected(files[i].contents.t, active) || i in chosen
  }

  predicate Shrinks(f: JournalFile) { f.contents.Readable? && f.contents.compact < f.bytes }

  /** A record is written again when that makes it smaller. */
  function Compacted(f: JournalFile): JournalFile { if Shrinks(f) then f.(bytes := f.contents.compact) else f }

  function Swept(files: seq<JournalFile>, active: set<string>, chosen: set<nat>, i: nat): seq<JournalFile>
    requires i <= |files|
    decreases |files| - i
  {
    if i == |files| then []
    else (if Retains(files, active, chosen, i) then [Compacted(files[i])] else []) + Swept(files, active, chosen, i + 1)
  }

  const RECOVERY: string := "refs/resync/recovery/"

  predicate ValidRecoveryRef(name: string) {
    |name| >= |RECOVERY| && name[..|RECOVERY|] == RECOVERY && forall c | c in name :: !Shell.IsWhitespace(c)
  }

  function Needed(t: Transaction): set<string> {
    {t.recoveryRef + "/head", t.recoveryRef + "/index", t.recoveryRef + "/working"}
    + if t.candidate then {t.recoveryRef + "/candidate"} else {}
  }

  /** The refs some retained record of the project needs. */
  function Required(files: seq<JournalFile>, active: set<string>, chosen: set<nat>, project: string): set<string> {
    set i, r | 0 <= i < |files| && files[i].contents.Readable? && files[i].contents.t.project == project
               && Retains(files, active, chosen, i) && r in Needed(files[i].contents.t) :: r
  }

  function Scope(files: seq<JournalFile>, managed: set<string>): set<string> {
    managed + set f | f in files && f.contents.Readable? :: f.contents.t.project
  }

  predicate AllReadable(files: seq<JournalFile>) { forall f | f in files :: f.contents.Readable? }

  function Unneeded(j: Journal, active: set<string>, chosen: set<nat>, project: string): set<string> {
    if project in j.refs then j.refs[project] - Required(j.files, active, chosen, project) else {}
  }

  function Pruned(j: Journal, managed: set<string>, active: set<string>, chosen: set<nat>): map<string, set<string>> {
    if !AllReadable(j.files) then j.refs
    else map p | p in j.refs :: if p in Scope(j.files, managed) then j.refs[p] - Unneeded(j, active, chosen, p) else j.refs[p]
  }

  /** The journal after a collection. */
  function Collected(j: Journal, managed: set<string>, active: set<string>, debug: bool): Journal {
    var chosen := Chosen(j.files, active, debug);
    Journal(Swept(j.files, active, chosen, 0), Pruned(j, managed, active, chosen))
  }

  /** A retained record names a ref this program would never have written. */
  predicate Refused(files: seq<JournalFile>, active: set<string>, debug: bool) {
    exists i | 0 <= i < |files| ::
      files[i].contents.Readable? && Retains(files, active, Chosen(files, active, debug), i)
      && !ValidRecoveryRef(files[i].contents.t.recoveryRef)
  }

  // ---- safety ----

  lemma {:induction false} SweptKeeps(files: seq<JournalFile>, active: set<string>, chosen: set<nat>, i: nat, k: nat)
    requires i <= k < |files| && Retains(files, active, chosen, k)
    ensures Compacted(files[k]) in Swept(files, active, chosen, i)
    decreases |files| - i
  {
    if i < k {
      SweptKeeps(files, active, chosen, i + 1, k);
    }
  }

  lemma {:induction false} SweptCameFrom(files: seq<JournalFile>, active: set<string>, chosen: set<nat>, i: nat, f: JournalFile)
    returns (k: nat)
    requires i <= |files| && f in Swept(files, active, chosen, i)
    ensures i <= k < |files| && Retains(files, active, chosen, k) && f == Compacted(files[k])
    decreases |files| - i
  {
    if Retains(files, active, chosen, i) && f == Compacted(files[i]) {
      k := i;
    } else {
      k := SweptCameFrom(files, active, chosen, i + 1, f);
    }
  }

  /** A collection stopped part way: the refs of some projects are pruned, and only when all
      of them are have the first `done` files been removed or written again. */
  function Interrupted(j: Journal, managed: set<string>, active: set<string>, debug: bool, projects: set<string>, done: nat): Journal
    requires done <= |j.files|
  {
    var chosen := Chosen(j.files, active, debug);
    var pruned := Pruned(j, managed, active, chosen);
    var refs := map p | p in j.refs :: if p in projects then pruned[p] else j.refs[p];
    Journal(Swept(j.files[..done], active, chosen, 0) + j.files[done..], refs)
  }

  lemma {:induction false} SweptPrefix(files: seq<JournalFile>, active: set<string>, chosen: set<nat>, i: nat, n: nat)
    requires i <= n <= |files|
    requires n < |files|
    ensures Swept(files[..n + 1], active, chosen, i)
         == Swept(files[..n], active, chosen, i) + if Retains(files, active, chosen, n) then [Compacted(files[n])] else []
    decreases n - i
  {
    if i < n {
      SweptPrefix(files, active, chosen, i + 1, n);
    } else {
      assert Swept(files[..n + 1], active, chosen, n + 1) == [];
    }
  }

  /** Records of interrupted installations and of active conflicts survive a collection
      with every recovery ref they need, wherever the collection is stopped. */
  lemma ActionableRecordsSurvive(j: Journal, managed: set<string>, active: set<string>, debug: bool,
                                 projects: set<string>, done: nat, f: JournalFile)
    requires done <= |j.files| && f in j.files && f.contents.Readable? && Protected(f.contents.t, active)
    ensures var j' := Interrupted(j, managed, active, debug, projects, done);
            && (exists g :: g in j'.files && g.path == f.path && g.contents == f.contents)
            && (f.contents.t.project in j.refs ==>
                  && f.contents.t.project in j'.refs
                  && j.refs[f.contents.t.project] * Needed(f.contents.t) <= j'.refs[f.contents.t.project])
  {
    var j' := Interrupted(j, managed, active, debug, projects, done);
    var chosen := Chosen(j.files, active, debug);
    var k :| 0 <= k < |j.files| && j.files[k] == f;
    assert Retains(j.files, active, chosen, k);
    if k < done {
      assert Retains(j.files[..done], active, chosen, k);
      SweptKeeps(j.files[..done], active, chosen, 0, k);
      assert Compacted(f) in j'.files;
    } else {
      assert f == j.files[done..][k - done];
      assert f in j'.files;
    }
    forall r | r in Needed(f.contents.t) ensures r in Required(j.files, active, chosen, f.contents.t.project) {
    }
  }

  /** Stopped after the last step, it is the whole collection. */
  lemma UninterruptedIsCollected(j: Journal, managed: set<string>, active: set<string>, debug: bool)
    ensures Interrupted(j, managed, active, debug, j.refs.Keys, |j.files|) == Collected(j, managed, active, debug)
  {
    assert j.files[..|j.files|] == j.files;
  }

  /** While any record cannot be read, no ref is pruned and no unreadable file is touched. */
  lemma UnreadableRecordsBlockPruning(j: Journal, managed: set<string>, active: set<string>, debug: bool, f: JournalFile)
    requires f in j.files && f.contents.Unreadable?
    ensures Collected(j, managed, active, debug).refs == j.refs && f in Collected(j, managed, active, debug).files
  {
    var k :| 0 <= k < |j.files| && j.files[k] == f;
    SweptKeeps(j.files, active, Chosen(j.files, active, debug), 0, k);
  }

  // ---- bounds and idempotence ----

  /** What a retained item costs and how many there are, in directory order. */
  function Select(items: seq<Item>, chosen: set<nat>): seq<Item> {
    if items == [] then [] else (if items[0].index in chosen then [items[0]] else []) + Select(items[1..], chosen)
  }

  predicate Ascending(items: seq<Item>) {
    forall i, j | 0 <= i < j < |items| :: items[i].index < items[j].index
  }

  lemma {:induction false} OptionalAscends(files: seq<JournalFile>, active: set<string>, i: nat)
    requires i <= |files|
    ensures Ascending(Optional(files, active, i))
    decreases |files| - i
  {
    if i < |files| {
      OptionalAscends(files, active, i + 1);
    }
  }

  lemma {:induction false} SelectMembers(items: seq<Item>, chosen: set<nat>, x: Item)
    requires Ascending(items)
    ensures multiset(Select(items, chosen))[x] == (if x in items && x.index in chosen then 1 else 0)
    ensures multiset(items)[x] <= 1
  {
    if items != [] {
      SelectMembers(items[1..], chosen, x);
      assert items == [items[0]] + items[1..];
    }
  }

  lemma WithoutOne(items: seq<Item>, k: nat)
    requires k < |items|
    ensures var rest := items[..k] + items[k + 1..];
            && |rest| == |items| - 1 && Total(rest) == Total(items) - items[k].bytes
            && multiset(rest) == multiset(items) - multiset{items[k]}
  {
    assert items == items[..k] + ([items[k]] + items[k + 1..]);
    TotalAppend(items[..k], items[k + 1..]);
    TotalAppend(items[..k], [items[k]] + items[k + 1..]);
    Cons(items[k], items[k + 1..], {});
  }

  lemma {:induction false} TotalOfPermutation(a: seq<Item>, b: seq<Item>)
    requires multiset(a) == multiset(b)
    ensures |a| == |b| && Total(a) == Total(b)
  {
    if a == [] {
      assert |multiset(b)| == 0;
    } else {
      assert a[0] in multiset(b);
      var k :| 0 <= k < |b| && b[k] == a[0];
      assert a[..0] + a[1..] == a[1..];
      WithoutOne(a, 0);
      WithoutOne(b, k);
      TotalOfPermutation(a[1..], b[..k] + b[k + 1..]);
    }
  }

  lemma SameMultiplicity(items: seq<Item>, greedy: seq<Item>, x: Item)
    requires Ascending(items) && multiset(greedy) <= multiset(items)
    ensures multiset(Select(items, Indices(greedy)))[x] == multiset(greedy)[x]
  {
    SelectMembers(items, Indices(greedy), x);
    if x in greedy {
      assert x in multiset(greedy);
      assert x in multiset(items);
    } else if x in items && x.index in Indices(greedy) {
      var y :| y in greedy && y.index == x.index;
      assert y in multiset(greedy);
      assert y in multiset(items);
      OnlyOne(items, x, y);
    }
  }

  /** What a collection keeps of the history, counted in directory order, is what the greedy
      pass chose newest first. */
  lemma ChosenTotals(files: seq<JournalFile>, active: set<string>)
    ensures var kept := Select(Optional(files, active, 0), Chosen(files, active, true));
            |kept| <= MAX_RECORDS && Total(kept) <= MAX_BYTES
  {
    var items := Optional(files, active, 0);
    var greedy := Greedy(Newest(items), 0, 0);
    var kept := Select(items, Indices(greedy));
    OptionalAscends(files, active, 0);
    NewestSorts(items);
    GreedySelects(Newest(items), 0, 0);
    assert multiset(kept) == multiset(greedy) by {
      forall x ensures multiset(kept)[x] == multiset(greedy)[x] {
        SameMultiplicity(items, greedy, x);
      }
    }
    TotalOfPermutation(kept, greedy);
    GreedyIsBounded(Newest(items), 0, 0);
  }

  lemma OnlyOne(items: seq<Item>, x: Item, y: Item)
    requires Ascending(items) && x in items && y in items && x.index == y.index
    ensures x == y
  {
  }

  lemma Cons(x: Item, rest: seq<Item>, chosen: set<nat>)
    ensures Total([x] + rest) == x.bytes + Total(rest)
    ensures Select([x] + rest, chosen) == (if x.index in chosen then [x] else []) + Select(rest, chosen)
  {
    assert ([x] + rest)[1..] == rest;
  }

  lemma OptionalNext(files: seq<JournalFile>, active: set<string>, i: nat)
    requires i < |files|
    ensures var rest := Optional(files, active, i + 1);
            Optional(files, active, i)
            == if files[i].contents.Unreadable? || Protected(files[i].contents.t, active) then rest
               else [Item(i, files[i].contents.t.createdAt, files[i].contents.compact)] + rest
  {
  }

  /** After a collection the optional history is exactly what the pass chose: the same sizes
      in the same order. */
  lemma {:induction false} OptionalAfterSweep(files: seq<JournalFile>, active: set<string>, chosen: set<nat>, i: nat,
                                             after: seq<JournalFile>, m: nat)
    requires i <= |files| && m <= |after| && after[m..] == Swept(files, active, chosen, i)
    ensures |Optional(after, active, m)| == |Select(Optional(files, active, i), chosen)|
    ensures Total(Optional(after, active, m)) == Total(Select(Optional(files, active, i), chosen))
    decreases |files| - i
  {
    if i < |files| {
      var f := files[i];
      var rest := Optional(files, active, i + 1);
      OptionalNext(files, active, i);
      if !Retains(files, active, chosen, i) {
        OptionalAfterSweep(files, active, chosen, i + 1, after, m);
        var x := Item(i, f.contents.t.createdAt, f.contents.compact);
        Cons(x, rest, chosen);
        assert Select(Optional(files, active, i), chosen) == Select(rest, chosen);
      } else {
        assert after[m] == Compacted(f) && after[m + 1..] == after[m..][1..];
        OptionalAfterSweep(files, active, chosen, i + 1, after, m + 1);
        OptionalNext(after, active, m);
        if f.contents.Readable? && !Protected(f.contents.t, active) {
          var x := Item(i, f.contents.t.createdAt, f.contents.compact);
          Cons(x, rest, chosen);
          assert Select(Optional(files, active, i), chosen) == [x] + Select(rest, chosen);
          Cons(x, Select(rest, chosen), chosen);
          Cons(Item(m, f.contents.t.createdAt, f.contents.compact), Optional(after, active, m + 1), chosen);
        } else {
          assert Optional(files, active, i) == rest;
        }
      }
    }
  }

  /** However much history there was, a collection leaves at most 128 optional records and
      256 MiB of them. */
  lemma HistoryIsBounded(j: Journal, managed: set<string>, active: set<string>, debug: bool)
    ensures var history := Optional(Collected(j, managed, active, debug).files, active, 0);
            if debug then |history| <= MAX_RECORDS && Total(history) <= MAX_BYTES else history == []
  {
    var chosen := Chosen(j.files, active, debug);
    var after := Swept(j.files, active, chosen, 0);
    assert after[0..] == after;
    OptionalAfterSweep(j.files, active, chosen, 0, after, 0);
    if debug {
      ChosenTotals(j.files, active);
    } else {
      SelectNothing(Optional(j.files, active, 0));
    }
  }

  lemma {:induction false} SelectNothing(items: seq<Item>)
    ensures Select(items, {}) == []
  {
    if items != [] {
      SelectNothing(items[1..]);
    }
  }

  lemma {:induction false} SweepingTwice(files: seq<JournalFile>, active: set<string>, chosen: set<nat>, i: nat)
    requires i <= |files|
    requires forall k | i <= k < |files| :: Retains(files, active, chosen, k) && !Shrinks(files[k])
    ensures Swept(files, active, chosen, i) == files[i..]
    decreases |files| - i
  {
    if i < |files| {
      SweepingTwice(files, active, chosen, i + 1);
    }
  }

  /** Everything a collection leaves behind, the next one retains as it is. */
  lemma SecondCollectionRetains(j: Journal, managed: set<string>, active: set<string>, debug: bool, k: nat)
    requires k < |Collected(j, managed, active, debug).files|
    ensures var files := Collected(j, managed, active, debug).files;
            Retains(files, active, Chosen(files, active, debug), k) && !Shrinks(files[k])
  {
    var files := Collected(j, managed, active, debug).files;
    var history := Optional(files, active, 0);
    var origin := SweptCameFrom(j.files, active, Chosen(j.files, active, debug), 0, files[k]);
    HistoryIsBounded(j, managed, active, debug);
    if files[k].contents.Readable? && !Protected(files[k].contents.t, active) {
      OptionalHas(files, active, 0, k);
      var x :| x in history && x.index == k;
      NewestSorts(history);
      GreedyKeepsWhatFits(Newest(history), 0, 0);
      assert x in multiset(history);
      assert x in Newest(history);
    }
  }

  lemma RequiredAgain(j: Journal, managed: set<string>, active: set<string>, debug: bool, project: string)
    ensures var once := Collected(j, managed, active, debug);
            Required(j.files, active, Chosen(j.files, active, debug), project)
            <= Required(once.files, active, Chosen(once.files, active, debug), project)
  {
    var once := Collected(j, managed, active, debug);
    var chosen, again := Chosen(j.files, active, debug), Chosen(once.files, active, debug);
    forall r | r in Required(j.files, active, chosen, project) ensures r in Required(once.files, active, again, project) {
      var i :| 0 <= i < |j.files| && j.files[i].contents.Readable? && j.files[i].contents.t.project == project
               && Retains(j.files, active, chosen, i) && r in Needed(j.files[i].contents.t);
      SweptKeeps(j.files, active, chosen, 0, i);
      var k :| 0 <= k < |once.files| && once.files[k] == Compacted(j.files[i]);
      SecondCollectionRetains(j, managed, active, debug, k);
    }
  }

  lemma SecondCollectionKeepsFiles(j: Journal, managed: set<string>, active: set<string>, debug: bool)
    ensures var files := Collected(j, managed, active, debug).files;
            Swept(files, active, Chosen(files, active, debug), 0) == files
  {
    var files := Collected(j, managed, active, debug).files;
    var again := Chosen(files, active, debug);
    forall k | 0 <= k < |files| ensures Retains(files, active, again, k) && !Shrinks(files[k]) {
      SecondCollectionRetains(j, managed, active, debug, k);
    }
    SweepingTwice(files, active, again, 0);
  }

  lemma UnreadableFilesStay(j: Journal, managed: set<string>, active: set<string>, debug: bool)
    requires AllReadable(Collected(j, managed, active, debug).files)
    ensures AllReadable(j.files)
  {
    forall f | f in j.files ensures f.contents.Readable? {
      var k :| 0 <= k < |j.files| && j.files[k] == f;
      if f.contents.Unreadable? {
        SweptKeeps(j.files, active, Chosen(j.files, active, debug), 0, k);
      }
    }
  }

  lemma SecondCollectionKeepsRefs(j: Journal, managed: set<string>, active: set<string>, debug: bool)
    ensures var once := Collected(j, managed, active, debug);
            Pruned(once, managed, active, Chosen(once.files, active, debug)) == once.refs
  {
    var once := Collected(j, managed, active, debug);
    if AllReadable(once.files) {
      UnreadableFilesStay(j, managed, active, debug);
      forall p | p in once.refs && p in Scope(once.files, managed)
        ensures Unneeded(once, active, Chosen(once.files, active, debug), p) == {}
      {
        StillInScope(j, managed, active, debug, p);
        RequiredAgain(j, managed, active, debug, p);
        assert once.refs[p] == j.refs[p] - Unneeded(j, active, Chosen(j.files, active, debug), p);
        assert once.refs[p] <= Required(j.files, active, Chosen(j.files, active, debug), p);
      }
      forall p | p in once.refs
        ensures Pruned(once, managed, active, Chosen(once.files, active, debug))[p] == once.refs[p]
      {
        assert once.refs[p] - {} == once.refs[p];
      }
    }
  }

  /** Collecting again changes nothing. */
  lemma CollectionIsIdempotent(j: Journal, managed: set<string>, active: set<string>, debug: bool)
    ensures var once := Collected(j, managed, active, debug); Collected(once, managed, active, debug) == once
  {
    SecondCollectionKeepsFiles(j, managed, active, debug);
    SecondCollectionKeepsRefs(j, managed, active, debug);
  }

  lemma StillInScope(j: Journal, managed: set<string>, active: set<string>, debug: bool, project: string)
    requires project in Scope(Collected(j, managed, active, debug).files, managed)
    ensures project in Scope(j.files, managed)
  {
    var files := Collected(j, managed, active, debug).files;
    if project !in managed {
      var f :| f in files && f.contents.Readable? && f.contents.t.project == project;
      var k := SweptCameFrom(j.files, active, Chosen(j.files, active, debug), 0, f);
      assert j.files[k] in j.files;
    }
  }

  lemma {:induction false} OptionalHas(files: seq<JournalFile>, active: set<string>, i: nat, k: nat)
    requires i <= k < |files| && files[k].contents.Readable? && !Protected(files[k].contents.t, active)
    ensures exists x :: x in Optional(files, active, i) && x.index == k
    decreases |files| - i
  {
    if i < k {
      OptionalHas(files, active, i + 1, k);
      var x :| x in Optional(files, active, i + 1) && x.index == k;
      assert x in Optional(files, active, i);
    } else {
      assert Optional(files, active, i)[0].index == k;
    }
  }

  // ---- the report ----

  function Bytes(files: seq<JournalFile>): nat { if files == [] then 0 else files[0].bytes + Bytes(files[1..]) }

  function Invalid(files: seq<JournalFile>): nat {
    if files == [] then 0 else (if files[0].contents.Unreadable? then 1 else 0) + Invalid(files[1..])
  }

  /** How many retained records a collection writes again. */
  function Shrinking(files: seq<JournalFile>, active: set<string>, chosen: set<nat>, i: nat): nat
    requires i <= |files|
    decreases |files| - i
  {
    if i == |files| then 0
    else (if Retains(files, active, chosen, i) && Shrinks(files[i]) then 1 else 0) + Shrinking(files, active, chosen, i + 1)
  }

  function RefPairs(refs: map<string, set<string>>): set<(string, string)> {
    set p, r | p in refs && r in refs[p] :: (p, r)
  }

  function UnneededPairs(j: Journal, projects: set<string>, active: set<string>, chosen: set<nat>): set<(string, string)> {
    set p, r | p in projects && r in Unneeded(j, active, chosen, p) :: (p, r)
  }

  /** What a collection reports, dry or not. */
  function ReportOf(j: Journal, managed: set<string>, active: set<string>, debug: bool, dryRun: bool): Report
  {
    var chosen := Chosen(j.files, active, debug);
    var unneeded := |UnneededPairs(j, Scope(j.files, managed), active, chosen)|;
    var after := Swept(j.files, active, chosen, 0);
    SweptIsSmaller(j.files, active, chosen, 0);
    assert j.files[0..] == j.files;
    Report(dryRun, debug, |j.files|, |after|, |j.files| - |after|, Shrinking(j.files, active, chosen, 0), Invalid(j.files),
           if AllReadable(j.files) then unneeded else 0,
           if AllReadable(j.files) && !dryRun then unneeded else 0,
           if AllReadable(j.files) then 0 else unneeded,
           Bytes(j.files) - Bytes(after))
  }

  lemma {:induction false} SweptIsSmaller(files: seq<JournalFile>, active: set<string>, chosen: set<nat>, i: nat)
    requires i <= |files|
    ensures |Swept(files, active, chosen, i)| <= |files| - i
    ensures Bytes(Swept(files, active, chosen, i)) <= Bytes(files[i..])
    decreases |files| - i
  {
    if i < |files| {
      SweptIsSmaller(files, active, chosen, i + 1);
      assert files[i..][0] == files[i] && files[i..][1..] == files[i + 1..];
      var rest := Swept(files, active, chosen, i + 1);
      assert ([Compacted(files[i])] + rest)[1..] == rest;
      assert Bytes(files[i..]) == files[i].bytes + Bytes(files[i + 1..]);
      assert Bytes([Compacted(files[i])] + rest) == Compacted(files[i]).bytes + Bytes(rest);
      assert [] + rest == rest;
    }
  }

  lemma PruningRemovesPairs(j: Journal, managed: set<string>, active: set<string>, chosen: set<nat>)
    ensures |RefPairs(Pruned(j, managed, active, chosen))|
         == |RefPairs(j.refs)| - if AllReadable(j.files) then |UnneededPairs(j, Scope(j.files, managed), active, chosen)| else 0
  {
    if AllReadable(j.files) {
      var unneeded := UnneededPairs(j, Scope(j.files, managed), active, chosen);
      assert unneeded <= RefPairs(j.refs);
      assert RefPairs(Pruned(j, managed, active, chosen)) == RefPairs(j.refs) - unneeded;
    }
  }

  /** The figures mean what they say, and a dry run predicts them: files and refs before and
      after the real run differ by exactly the counts both runs report. */
  lemma DryRunPredictsTheRealRun(j: Journal, managed: set<string>, active: set<string>, debug: bool)
    ensures var after := Collected(j, managed, active, debug);
            var dry, wet := ReportOf(j, managed, active, debug, true), ReportOf(j, managed, active, debug, false);
            && wet == dry.(dryRun := false, refsRemoved := wet.refsRemoved)
            && dry.refsRemoved == 0 && wet.refsRemoved == dry.refsPrunable
            && dry.scanned == dry.retained + dry.removed && dry.retained == |after.files|
            && dry.bytesReclaimed == Bytes(j.files) - Bytes(after.files)
            && dry.refsPrunable == |RefPairs(j.refs)| - |RefPairs(after.refs)|
  {
    PruningRemovesPairs(j, managed, active, Chosen(j.files, active, debug));
  }

  /** The refs of all managed and named projects that no retained record needs. */
  ghost function Idle(j: Journal, managed: set<string>, active: set<string>, debug: bool): set<(string, string)> {
    set p, r | p in j.refs && r in j.refs[p]
               && (p in managed || exists f :: f in j.files && f.contents.Readable? && f.contents.t.project == p)
               && !(exists i :: 0 <= i < |j.files| && j.files[i].contents.Readable? && j.files[i].contents.t.project == p
                                && Retains(j.files, active, Chosen(j.files, active, debug), i)
                                && Names(j.files[i].contents.t, r))
      :: (p, r)
  }

  /** Idle refs are reported as prunable, or as skipped while a record is unreadable; and the
      records reported as compacted are the retained ones that get smaller. */
  lemma ReportCounts(j: Journal, managed: set<string>, active: set<string>, debug: bool, dryRun: bool)
    ensures var report, idle := ReportOf(j, managed, active, debug, dryRun), |Idle(j, managed, active, debug)|;
            && (if exists f :: f in j.files && f.contents.Unreadable?
                then report.refsPrunable == 0 && report.refsSkipped == idle
                else report.refsPrunable == idle && report.refsSkipped == 0)
            && report.compacted == |set i | 0 <= i < |j.files| && Retains(j.files, active, Chosen(j.files, active, debug), i)
                                            && j.files[i].contents.Readable? && j.files[i].contents.compact < j.files[i].bytes|
  {
    var chosen := Chosen(j.files, active, debug);
    forall p, r ensures (p, r) in Idle(j, managed, active, debug) <==> (p, r) in UnneededPairs(j, Scope(j.files, managed), active, chosen) {
      RequiredIff(j.files, active, chosen, p, r);
    }
    assert Idle(j, managed, active, debug) == UnneededPairs(j, Scope(j.files, managed), active, chosen);
    ShrinkingIsCount(j.files, active, chosen, 0);
    assert ShrinkingAt(j.files, active, chosen, 0)
        == set i | 0 <= i < |j.files| && Retains(j.files, active, chosen, i)
                   && j.files[i].contents.Readable? && j.files[i].contents.compact < j.files[i].bytes;
  }

  function ShrinkingAt(files: seq<JournalFile>, active: set<string>, chosen: set<nat>, from: nat): set<nat> {
    set i | from <= i < |files| && Retains(files, active, chosen, i) && Shrinks(files[i])
  }

  lemma {:induction false} ShrinkingIsCount(files: seq<JournalFile>, active: set<string>, chosen: set<nat>, from: nat)
    requires from <= |files|
    ensures Shrinking(files, active, chosen, from) == |ShrinkingAt(files, active, chosen, from)|
    decreases |files| - from
  {
    if from < |files| {
      ShrinkingIsCount(files, active, chosen, from + 1);
      var rest := ShrinkingAt(files, active, chosen, from + 1);
      var here: set<nat> := if Retains(files, active, chosen, from) && Shrinks(files[from]) then {from} else {};
      assert ShrinkingAt(files, active, chosen, from) == here + rest && here !! rest;
    } else {
      assert ShrinkingAt(files, active, chosen, from) == {};
    }
  }

  // ---- the bounded debug history ----

  /** One of the refs that keep this record's objects. */
  predicate Names(t: Transaction, r: string) {
    || r == t.recoveryRef + "/head" || r == t.recoveryRef + "/index" || r == t.recoveryRef + "/working"
    || (t.candidate && r == t.recoveryRef + "/candidate")
  }

  /** A ref is still there after a collection exactly when some record is unreadable, or its
      project is neither managed nor named by a record, or a retained record needs it. */
  lemma RefSurvivesIff(j: Journal, managed: set<string>, active: set<string>, debug: bool, p: string, r: string)
    requires p in j.refs && r in j.refs[p]
    ensures var after := Collected(j, managed, active, debug);
            && p in after.refs
            && (r in after.refs[p] <==>
                  || (exists f :: f in j.files && f.contents.Unreadable?)
                  || (p !in managed && forall f :: f in j.files && f.contents.Readable? ==> f.contents.t.project != p)
                  || (exists i :: 0 <= i < |j.files| && j.files[i].contents.Readable? && j.files[i].contents.t.project == p
                                  && Retains(j.files, active, Chosen(j.files, active, debug), i)
                                  && Names(j.files[i].contents.t, r)))
  {
    RequiredIff(j.files, active, Chosen(j.files, active, debug), p, r);
  }

  lemma RequiredIff(files: seq<JournalFile>, active: set<string>, chosen: set<nat>, p: string, r: string)
    ensures r in Required(files, active, chosen, p)
       <==> exists i :: 0 <= i < |files| && files[i].contents.Readable? && files[i].contents.t.project == p
                        && Retains(files, active, chosen, i) && Names(files[i].contents.t, r)
  {
    if i :| 0 <= i < |files| && files[i].contents.Readable? && files[i].contents.t.project == p
            && Retains(files, active, chosen, i) && Names(files[i].contents.t, r) {
      assert r in Needed(files[i].contents.t);
    }
  }

  /** Phases that recovery or the user still needs. */
  predicate Actionable(t: Transaction) { t.phase.Installing? || t.phase.Conflicted? }

  predicate Spared(f: JournalFile, protectedId: Option<string>) {
    f.contents.Unreadable? || Actionable(f.contents.t) || protectedId == Some(f.contents.t.id)
  }

  function History(files: seq<JournalFile>, protectedId: Option<string>, i: nat): (items: seq<Item>)
    requires i <= |files|
    ensures forall x | x in items ::
              i <= x.index < |files| && !Spared(files[x.index], protectedId)
              && x == Item(x.index, files[x.index].contents.t.createdAt, files[x.index].bytes)
    ensures forall k | i <= k < |files| && !Spared(files[k], protectedId) :: k in Indices(items)
    decreases |files| - i
  {
    if i == |files| then []
    else
      var rest := History(files, protectedId, i + 1);
      if Spared(files[i], protectedId) then rest
      else
        var items := [Item(i, files[i].contents.t.createdAt, files[i].bytes)] + rest;
        assert items[0].index in Indices(items) && forall x | x in rest :: x in items;
        items
  }

  /** The newest records that fit; the one being written counts as one of them. */
  function KeptHistory(files: seq<JournalFile>, protectedId: Option<string>): seq<Item> {
    Greedy(Newest(History(files, protectedId, 0)), if protectedId.Some? then 1 else 0, 0)
  }

  /** The positions `prune_debug_history` removes. */
  function Dropped(files: seq<JournalFile>, protectedId: Option<string>): set<nat> {
    Indices(History(files, protectedId, 0)) - Indices(KeptHistory(files, protectedId))
  }

  lemma {:induction false} IndicesAreFew(items: seq<Item>)
    ensures |Indices(items)| <= |items|
  {
    if items != [] {
      IndicesAreFew(items[1..]);
      assert Indices(items) == {items[0].index} + Indices(items[1..]) by {
        assert items == [items[0]] + items[1..];
      }
    }
  }

  function Unspared(files: seq<JournalFile>, protectedId: Option<string>): set<nat> {
    set i | 0 <= i < |files| && i !in Dropped(files, protectedId) && files[i].contents.Readable? && !Actionable(files[i].contents.t)
  }

  function Named(files: seq<JournalFile>, protectedId: Option<string>): set<nat> {
    set i | 0 <= i < |files| && files[i].contents.Readable? && protectedId == Some(files[i].contents.t.id)
  }

  predicate DistinctIds(files: seq<JournalFile>) {
    forall i, k | 0 <= i < k < |files| && files[i].contents.Readable? && files[k].contents.Readable? ::
      files[i].contents.t.id != files[k].contents.t.id
  }

  lemma NamedIsOne(files: seq<JournalFile>, protectedId: Option<string>)
    requires DistinctIds(files)
    ensures |Named(files, protectedId)| <= if protectedId.Some? then 1 else 0
  {
    if i :| i in Named(files, protectedId) {
      assert Named(files, protectedId) == {i};
    } else {
      assert Named(files, protectedId) == {};
    }
  }

  /** After every call, at most 128 records are left that no recovery needs, the protected
      one among them; and the unprotected ones take at most 256 MiB. */
  lemma DebugHistoryIsBounded(files: seq<JournalFile>, protectedId: Option<string>)
    requires DistinctIds(files)
    ensures |Unspared(files, protectedId)| <= MAX_RECORDS
    ensures Total(KeptHistory(files, protectedId)) <= MAX_BYTES
  {
    var kept := KeptHistory(files, protectedId);
    GreedyIsBounded(Newest(History(files, protectedId, 0)), if protectedId.Some? then 1 else 0, 0);
    IndicesAreFew(kept);
    NamedIsOne(files, protectedId);
    forall i | i in Unspared(files, protectedId) ensures i in Indices(kept) + Named(files, protectedId) {
      if i !in Named(files, protectedId) {
        assert i in Indices(History(files, protectedId, 0));
      }
    }
    SubsetIsSmaller(Unspared(files, protectedId), Indices(kept) + Named(files, protectedId));
  }

  /** The directory without some positions. */
  function Without(files: seq<JournalFile>, dropped: set<nat>, i: nat): seq<JournalFile>
    requires i <= |files|
    decreases |files| - i
  {
    if i == |files| then [] else (if i in dropped then [] else [files[i]]) + Without(files, dropped, i + 1)
  }

  /** The refs of a project left when the artifacts of these records are removed. */
  function LeftRefs(files: seq<JournalFile>, names: set<string>, dropped: set<nat>, project: string): set<string> {
    set r | r in names && forall i | 0 <= i < |files| && i in dropped ::
              files[i].contents.Readable? && files[i].contents.t.project == project ==> r !in Artifacts(files[i].contents.t)
  }

  function WithoutRefs(files: seq<JournalFile>, refs: map<string, set<string>>, dropped: set<nat>): map<string, set<string>> {
    map p | p in refs :: LeftRefs(files, refs[p], dropped, p)
  }

  /** The four refs `remove_transaction_artifacts` deletes. */
  function Artifacts(t: Transaction): set<string> {
    {t.recoveryRef + "/head", t.recoveryRef + "/index", t.recoveryRef + "/working", t.recoveryRef + "/candidate"}
  }

  lemma {:induction false} WithoutKeeps(files: seq<JournalFile>, dropped: set<nat>, i: nat, k: nat)
    requires i <= k < |files| && k !in dropped
    ensures files[k] in Without(files, dropped, i)
    decreases |files| - i
  {
    if i < k {
      WithoutKeeps(files, dropped, i + 1, k);
    }
  }

  /** Pruning never removes a record that is unreadable, actionable or protected. */
  lemma PruningSpares(files: seq<JournalFile>, protectedId: Option<string>, k: nat)
    requires k < |files| && Spared(files[k], protectedId)
    ensures files[k] in Without(files, Dropped(files, protectedId), 0)
  {
    WithoutKeeps(files, Dropped(files, protectedId), 0, k);
  }

  /** No other record of the same project keeps its refs under the same names. */
  predicate OwnRefs(files: seq<JournalFile>, k: nat)
    requires k < |files| && files[k].contents.Readable?
  {
    var t := files[k].contents.t;
    forall i | 0 <= i < |files| && i != k && files[i].contents.Readable? && files[i].contents.t.project == t.project ::
      Artifacts(files[i].contents.t) !! Artifacts(t)
  }

  /** Nor any of the refs of such a record. */
  lemma PruningSparesRefs(files: seq<JournalFile>, names: set<string>, protectedId: Option<string>, k: nat)
    requires k < |files| && files[k].contents.Readable? && Spared(files[k], protectedId) && OwnRefs(files, k)
    ensures var t := files[k].contents.t;
            names * Artifacts(t) <= LeftRefs(files, names, Dropped(files, protectedId), t.project)
  {
    assert k !in Dropped(files, protectedId);
  }

  predicate DistinctIndices(items: seq<Item>) {
    forall i, k | 0 <= i < k < |items| :: items[i].index != items[k].index
  }

  lemma SmallerFirst(item: Item, rest: seq<Item>)
    requires Ascending(rest) && forall x | x in rest :: item.index < x.index
    ensures Ascending([item] + rest)
  {
  }

  lemma {:induction false} HistoryAscends(files: seq<JournalFile>, protectedId: Option<string>, i: nat)
    requires i <= |files|
    ensures Ascending(History(files, protectedId, i))
    decreases |files| - i
  {
    if i < |files| {
      HistoryAscends(files, protectedId, i + 1);
      var rest := History(files, protectedId, i + 1);
      if !Spared(files[i], protectedId) {
        SmallerFirst(Item(i, files[i].contents.t.createdAt, files[i].bytes), rest);
      }
    }
  }

  lemma Repeated(items: seq<Item>, i: nat, k: nat)
    requires i < k < |items| && items[i] == items[k]
    ensures multiset(items)[items[i]] >= 2
  {
    assert items == items[..k] + items[k..];
    assert items[i] in items[..k] && items[k] in items[k..];
    assert multiset(items) == multiset(items[..k]) + multiset(items[k..]);
  }

  lemma NewestHasSameItems(items: seq<Item>)
    ensures forall x :: x in Newest(items) <==> x in items
  {
    NewestSorts(items);
    forall x ensures x in Newest(items) <==> x in items {
      assert x in multiset(Newest(items)) <==> x in multiset(items);
    }
  }

  lemma NewestKeepsDistinct(items: seq<Item>, i: nat, k: nat)
    requires Ascending(items) && i < k < |Newest(items)|
    ensures Newest(items)[i].index != Newest(items)[k].index
  {
    var sorted := Newest(items);
    NewestHasSameItems(items);
    NewestSorts(items);
    if sorted[i].index == sorted[k].index {
      OnlyOne(items, sorted[i], sorted[k]);
      Repeated(sorted, i, k);
      SelectMembers(items, {}, sorted[i]);
      assert false;
    }
  }

  lemma NewestKeepsIndices(items: seq<Item>)
    requires Ascending(items)
    ensures DistinctIndices(Newest(items)) && Indices(Newest(items)) == Indices(items)
  {
    NewestHasSameItems(items);
    forall i, k | 0 <= i < k < |Newest(items)| ensures Newest(items)[i].index != Newest(items)[k].index {
      NewestKeepsDistinct(items, i, k);
    }
  }

  /** One more item, kept or dropped. */
  lemma SplitNext(history: seq<Item>, n: nat, kept: seq<Item>, dropped: set<nat>)
    requires DistinctIndices(history) && n < |history| && (forall x | x in kept :: x in history[..n])
    requires dropped == Indices(history[..n]) - Indices(kept)
    ensures var item := history[n];
            && Indices(history[..n + 1]) - Indices(kept + [item]) == dropped
            && Indices(history[..n + 1]) - Indices(kept) == dropped + {item.index}
  {
    var item := history[n];
    assert history[..n + 1] == history[..n] + [item];
    assert Indices(history[..n + 1]) == Indices(history[..n]) + {item.index};
    assert Indices(kept + [item]) == Indices(kept) + {item.index};
    assert item.index !in Indices(history[..n]);
    assert Indices(kept) <= Indices(history[..n]);
  }

  lemma WithoutMoreRefs(files: seq<JournalFile>, refs: map<string, set<string>>, dropped: set<nat>, k: nat)
    requires k < |files| && files[k].contents.Readable?
    ensures var t := files[k].contents.t;
            var before := WithoutRefs(files, refs, dropped);
            WithoutRefs(files, refs, dropped + {k})
            == map p | p in before :: if p == t.project then before[p] - Artifacts(t) else before[p]
  {
    var t := files[k].contents.t;
    forall p | p in refs
      ensures LeftRefs(files, refs[p], dropped + {k}, p)
           == if p == t.project then LeftRefs(files, refs[p], dropped, p) - Artifacts(t) else LeftRefs(files, refs[p], dropped, p)
    {
      forall r | r in LeftRefs(files, refs[p], dropped, p) && (p == t.project ==> r !in Artifacts(t))
        ensures r in LeftRefs(files, refs[p], dropped + {k}, p)
      {
      }
    }
  }

  lemma WithoutNoRefs(files: seq<JournalFile>, refs: map<string, set<string>>)
    ensures WithoutRefs(files, refs, {}) == refs
  {
    forall p | p in refs ensures LeftRefs(files, refs[p], {}, p) == refs[p] {
    }
  }

  // ---- the loops ----

  lemma InvalidNext(files: seq<JournalFile>, i: nat)
    requires i < |files|
    ensures Invalid(files[i..]) == (if files[i].contents.Unreadable? then 1 else 0) + Invalid(files[i + 1..])
  {
    assert files[i..][1..] == files[i + 1..];
  }

  lemma {:induction false} InvalidMeans(files: seq<JournalFile>)
    ensures Invalid(files) == 0 <==> AllReadable(files)
  {
    if files != [] {
      InvalidMeans(files[1..]);
      assert files == [files[0]] + files[1..];
    }
  }

  lemma BytesNext(files: seq<JournalFile>, i: nat)
    requires i < |files|
    ensures Bytes(files[i..]) == files[i].bytes + Bytes(files[i + 1..])
  {
    assert files[i..][0] == files[i] && files[i..][1..] == files[i + 1..];
  }

  lemma SweptNext(files: seq<JournalFile>, active: set<string>, chosen: set<nat>, i: nat)
    requires i < |files|
    ensures var rest, all := Swept(files, active, chosen, i + 1), Swept(files, active, chosen, i);
            if Retains(files, active, chosen, i)
            then |all| == 1 + |rest| && Bytes(all) == Compacted(files[i]).bytes + Bytes(rest)
            else all == rest
  {
    var rest := Swept(files, active, chosen, i + 1);
    assert ([Compacted(files[i])] + rest)[1..] == rest;
    assert Bytes([Compacted(files[i])] + rest) == Compacted(files[i]).bytes + Bytes(rest);
    assert [] + rest == rest;
  }

  ghost function Pairs(loss: string -> set<string>, projects: set<string>): set<(string, string)> {
    set p, r | p in projects && r in loss(p) :: (p, r)
  }

  lemma PairsOfOneMore(loss: string -> set<string>, projects: set<string>, p: string)
    requires p !in projects
    ensures |Pairs(loss, projects + {p})| == |Pairs(loss, projects)| + |loss(p)|
  {
    var own := set r | r in loss(p) :: (p, r);
    assert Pairs(loss, projects + {p}) == Pairs(loss, projects) + own;
    assert Pairs(loss, projects) !! own;
    PairingKeepsSize(p, loss(p));
  }

  lemma {:induction false} PairingKeepsSize(p: string, names: set<string>)
    ensures |set r | r in names :: (p, r)| == |names|
    decreases |names|
  {
    var pairs := set r | r in names :: (p, r);
    if names != {} {
      var x :| x in names;
      PairingKeepsSize(p, names - {x});
      assert pairs == (set r | r in names - {x} :: (p, r)) + {(p, x)};
    } else {
      assert pairs == {};
    }
  }

  /** The journal directory and the recovery refs, as the commands change them. */
  class JournalStore {
    var files: seq<JournalFile>
    var refs: map<string, set<string>>

    constructor (files: seq<JournalFile>, refs: map<string, set<string>>)
      ensures this.files == files && this.refs == refs
    {
      this.files, this.refs := files, refs;
    }

    /** Reads the directory: which records are actionable, which only a history would keep. */
    method Classify(active: set<string>) returns (retain: seq<bool>, history: seq<Item>, invalid: nat)
      ensures |retain| == |files| && forall i | 0 <= i < |files| :: retain[i] == Retains(files, active, {}, i)
      ensures history == Optional(files, active, 0) && invalid == Invalid(files)
    {
      retain, history, invalid := [], [], 0;
      for i := 0 to |files|
        invariant Classified(files, active, i, retain, history, invalid)
      {
        ClassifiedNext(files, active, i, retain, history, invalid);
        match files[i].contents
        case Unreadable =>
          invalid := invalid + 1;
          retain := retain + [true];
        case Readable(t, compact) =>
          var actionable := t.phase.Installing? || (t.phase.Conflicted? && t.project in active);
          retain := retain + [actionable];
          if !actionable {
            history := history + [Item(i, t.createdAt, compact)];
          }
      }
    }

    /** Marks the newest records that fit both budgets, walking the sorted history once. */
    method KeepNewest(history: seq<Item>, retain: seq<bool>) returns (kept: seq<bool>)
      requires forall x | x in history :: x.index < |retain|
      ensures |kept| == |retain|
      ensures forall i | 0 <= i < |retain| :: kept[i] == (retain[i] || i in Indices(Greedy(history, 0, 0)))
    {
      kept := retain;
      var records, bytes := 0, 0;
      ghost var chosen: seq<Item> := [];
      for n := 0 to |history|
        invariant |kept| == |retain| && chosen == Greedy(history[..n], 0, 0)
        invariant records == |chosen| <= MAX_RECORDS && bytes == Total(chosen) <= MAX_BYTES
        invariant forall i | 0 <= i < |retain| :: kept[i] == (retain[i] || i in Indices(chosen))
      {
        var item := history[n];
        assert history[..n + 1] == history[..n] + [item];
        GreedyNext(history[..n], item, 0, 0);
        TotalAppend(chosen, [item]);
        assert [item][1..] == [];
        if records < MAX_RECORDS && SaturatingAdd(bytes, item.bytes) <= MAX_BYTES {
          kept := kept[item.index := true];
          records := records + 1;
          bytes := bytes + item.bytes;
          chosen := chosen + [item];
        }
      }
      assert history[..|history|] == history;
    }

    /** The counts of the report that do not depend on refs. */
    method Figures(active: set<string>, ghost chosen: set<nat>, retain: seq<bool>)
      returns (retained: nat, removed: nat, compacted: nat, reclaimed: nat)
      requires |retain| == |files| && forall i | 0 <= i < |files| :: retain[i] == Retains(files, active, chosen, i)
      ensures retained == |Swept(files, active, chosen, 0)| && retained + removed == |files|
      ensures compacted == Shrinking(files, active, chosen, 0)
      ensures reclaimed == Bytes(files) - Bytes(Swept(files, active, chosen, 0))
    {
      retained, removed, compacted := 0, 0, 0;
      var bytes: int := 0;
      for i := 0 to |files|
        invariant retained + |Swept(files, active, chosen, i)| == |Swept(files, active, chosen, 0)|
        invariant retained + removed == i
        invariant compacted + Shrinking(files, active, chosen, i) == Shrinking(files, active, chosen, 0)
        invariant bytes + Bytes(files[i..]) - Bytes(Swept(files, active, chosen, i))
               == Bytes(files) - Bytes(Swept(files, active, chosen, 0))
      {
        BytesNext(files, i);
        SweptNext(files, active, chosen, i);
        if retain[i] {
          retained := retained + 1;
          if Shrinks(files[i]) {
            compacted := compacted + 1;
            bytes := bytes + files[i].bytes - files[i].contents.compact;
          }
        } else {
          removed := removed + 1;
          bytes := bytes + files[i].bytes;
        }
      }
      SweptIsSmaller(files, active, chosen, 0);
      assert files[0..] == files;
      reclaimed := bytes;
    }

    /** The refs every retained record needs, project by project, and all projects seen;
        an invalid ref name refuses the whole collection. */
    method RequiredRefs(managed: set<string>, active: set<string>, ghost chosen: set<nat>, retain: seq<bool>)
      returns (ok: bool, projects: set<string>, required: map<string, set<string>>)
      requires |retain| == |files| && forall i | 0 <= i < |files| :: retain[i] == Retains(files, active, chosen, i)
      ensures ok <==> NamesValid(files, active, chosen, |files|)
      ensures ok ==> projects == Scope(files, managed) && Tracks(required, files, active, chosen)
    {
      ok, projects, required := true, managed, map[];
      for i := 0 to |files|
        invariant ok && Collecting(files, managed, active, chosen, i, projects, required)
      {
        CollectingNext(files, managed, active, chosen, i, projects, required);
        if files[i].contents.Readable? {
          var t := files[i].contents.t;
          projects := projects + {t.project};
          if retain[i] {
            if !ValidRecoveryRef(t.recoveryRef) {
              ok := false;
              return;
            }
            required := required[t.project := Entry(required, t.project) + Needed(t)];
          }
        }
      }
      assert files[..|files|] == files;
    }

    /** The refs that may go, per project, and their number. */
    method PrunableRefs(projects: set<string>, active: set<string>, ghost chosen: set<nat>, required: map<string, set<string>>)
      returns (unneeded: map<string, set<string>>, count: nat)
      requires Tracks(required, files, active, chosen)
      ensures unneeded.Keys == projects * refs.Keys && AllUnneeded(unneeded, Journal(files, refs), active, chosen)
      ensures count == |UnneededPairs(Journal(files, refs), projects, active, chosen)|
    {
      unneeded, count := map[], 0;
      var left := projects;
      ghost var loss := Losses(Journal(files, refs), required, active, chosen);
      PruningStarts(refs, loss, projects);
      while left != {}
        invariant left <= projects && Pruning(refs, loss, projects - left, unneeded, count)
        decreases |left|
      {
        var p :| p in left;
        PruningNext(refs, loss, projects, left, unneeded, count, p);
        if p in refs {
          var names := refs[p] - Entry(required, p);
          unneeded := unneeded[p := names];
          count := count + |names|;
        }
        left := left - {p};
      }
      PruningDone(Journal(files, refs), loss, projects, active, chosen, unneeded, count);
    }

    method Apply(retain: seq<bool>, prunable: map<string, set<string>>, active: set<string>, ghost chosen: set<nat>)
      requires |retain| == |files| && forall i | 0 <= i < |files| :: retain[i] == Retains(files, active, chosen, i)
      modifies this
      ensures files == Swept(old(files), active, chosen, 0)
      ensures refs == map p | p in old(refs) :: if p in prunable then old(refs)[p] - prunable[p] else old(refs)[p]
    {
      refs := map p | p in refs :: if p in prunable then refs[p] - prunable[p] else refs[p];
      var before := files;
      files := [];
      for i := 0 to |before|
        invariant files + Swept(before, active, chosen, i) == Swept(before, active, chosen, 0)
        invariant refs == map p | p in old(refs) :: if p in prunable then old(refs)[p] - prunable[p] else old(refs)[p]
      {
        SweepingNext(before, active, chosen, i, files);
        if retain[i] {
          files := files + [if Shrinks(before[i]) then before[i].(bytes := before[i].contents.compact) else before[i]];
        }
      }
    }

    /** Everything `gc_transactions` decides before it changes anything. */
    method Examine(managed: set<string>, active: set<string>, debug: bool)
      returns (report: Option<Report>, retain: seq<bool>, prunable: map<string, set<string>>)
      ensures report.None? <==> Refused(files, active, debug)
      ensures |retain| == |files|
      ensures forall i | 0 <= i < |files| :: retain[i] == Retains(files, active, Chosen(files, active, debug), i)
      ensures report.Some? ==> report.value == ReportOf(Journal(files, refs), managed, active, debug, false)
      ensures report.Some? ==> PrunesOnly(prunable, Journal(files, refs), managed, active, Chosen(files, active, debug))
    {
      ghost var chosen := Chosen(files, active, debug);
      var history, invalid;
      retain, history, invalid := Classify(active);
      if debug {
        NewestKeepsMembers(history);
        retain := KeepNewest(Newest(history), retain);
      }
      var retained, removed, compacted, reclaimed := Figures(active, chosen, retain);
      var ok, projects, required := RequiredRefs(managed, active, chosen, retain);
      RefusedMeans(files, active, debug);
      prunable := map[];
      if !ok {
        return None, retain, prunable;
      }
      var unneeded, count := PrunableRefs(projects, active, chosen, required);
      PlannedPrunes(Journal(files, refs), managed, active, chosen, unneeded);
      if invalid == 0 {
        prunable := unneeded;
      }
      report := Some(Report(false, debug, |files|, retained, removed, compacted, invalid,
                            if invalid == 0 then count else 0, if invalid == 0 then count else 0,
                            if invalid == 0 then 0 else count, reclaimed));
    }

    /** `gc_transactions`. */
    method GcTransactions(managed: set<string>, active: set<string>, debug: bool, dryRun: bool) returns (report: Option<Report>)
      modifies this
      ensures report.None? <==> Refused(old(files), active, debug)
      ensures report.None? || dryRun ==> files == old(files) && refs == old(refs)
      ensures report.Some? && !dryRun ==> Journal(files, refs) == Collected(Journal(old(files), old(refs)), managed, active, debug)
      ensures report.Some? ==> report.value == ReportOf(Journal(old(files), old(refs)), managed, active, debug, dryRun)
    {
      ghost var chosen := Chosen(files, active, debug);
      var retain, prunable;
      report, retain, prunable := Examine(managed, active, debug);
      if report.Some? {
        if dryRun {
          report := Some(report.value.(dryRun := true, refsRemoved := 0));
        } else {
          PruningAsPlanned(prunable, Journal(files, refs), managed, active, chosen);
          Apply(retain, prunable, active, chosen);
        }
      }
    }

    /** `remove_transaction_artifacts`, the refs of one record. */
    method RemoveRefs(t: Transaction)
      modifies this
      ensures files == old(files)
      ensures refs == map p | p in old(refs) :: if p == t.project then old(refs)[p] - Artifacts(t) else old(refs)[p]
    {
      if t.project in refs {
        var names := {t.recoveryRef + "/head", t.recoveryRef + "/index", t.recoveryRef + "/working", t.recoveryRef + "/candidate"};
        refs := refs[t.project := refs[t.project] - names];
      }
    }

    /** Reads the directory and sorts what may go, newest first. */
    method ReadHistory(protectedId: Option<string>) returns (history: seq<Item>)
      ensures history == Newest(History(files, protectedId, 0))
    {
      history := [];
      for i := 0 to |files|
        invariant history + History(files, protectedId, i) == History(files, protectedId, 0)
      {
        HistoryNext(files, protectedId, i, history);
        if files[i].contents.Readable? && !Actionable(files[i].contents.t) && protectedId != Some(files[i].contents.t.id) {
          history := history + [Item(i, files[i].contents.t.createdAt, files[i].bytes)];
        }
      }
      assert history == History(files, protectedId, 0);
      history := Newest(history);
    }

    /** Walks the sorted history once; what does not fit loses its refs and its file. */
    method DropOldest(history: seq<Item>, start: nat) returns (dropped: set<nat>)
      requires start <= 1 && DistinctIndices(history)
      requires forall x | x in history :: x.index < |files| && files[x.index].contents.Readable?
      modifies this
      ensures files == old(files) && refs == WithoutRefs(files, old(refs), dropped)
      ensures dropped == Indices(history) - Indices(Greedy(history, start, 0))
    {
      var count, bytes := start, 0;
      dropped := {};
      ghost var kept: seq<Item> := [];
      WithoutNoRefs(files, refs);
      for n := 0 to |history|
        invariant files == old(files) && kept == Greedy(history[..n], start, 0)
        invariant count == start + |kept| <= MAX_RECORDS && bytes == Total(kept) <= MAX_BYTES
        invariant forall x | x in kept :: x in history[..n]
        invariant dropped == Indices(history[..n]) - Indices(kept)
        invariant refs == WithoutRefs(files, old(refs), dropped)
      {
        var item := history[n];
        GreedyNext(history[..n], item, start, 0);
        SplitNext(history, n, kept, dropped);
        assert history[..n + 1] == history[..n] + [item];
        if count < MAX_RECORDS && SaturatingAdd(bytes, item.bytes) <= MAX_BYTES {
          TotalAppend(kept, [item]);
          assert [item][1..] == [];
          count := count + 1;
          bytes := bytes + item.bytes;
          kept := kept + [item];
        } else {
          WithoutMoreRefs(files, old(refs), dropped, item.index);
          RemoveRefs(files[item.index].contents.t);
          dropped := dropped + {item.index};
        }
      }
      assert history[..|history|] == history;
    }

    /** `prune_debug_history`. */
    method PruneDebugHistory(protectedId: Option<string>)
      modifies this
      ensures files == Without(old(files), Dropped(old(files), protectedId), 0)
      ensures refs == WithoutRefs(old(files), old(refs), Dropped(old(files), protectedId))
    {
      var history := ReadHistory(protectedId);
      HistoryAscends(files, protectedId, 0);
      NewestKeepsIndices(History(files, protectedId, 0));
      NewestKeepsMembers(History(files, protectedId, 0));
      var dropped := DropOldest(history, if protectedId.Some? then 1 else 0);
      RemoveFiles(dropped);
    }

    /** `clear_resolved_conflicts`: the conflict records of one project, up to the first file
        that cannot be read. */
    method ClearResolvedConflicts(project: string, debug: bool) returns (ok: bool)
      modifies this
      ensures debug ==> ok && files == Without(old(files), Dropped(old(files), None), 0)
                        && refs == WithoutRefs(old(files), old(refs), Dropped(old(files), None))
      ensures !debug ==> (ok <==> AllReadable(old(files)))
      ensures !debug ==> files == Without(old(files), Resolved(old(files), project), 0)
      ensures !debug ==> refs == WithoutRefs(old(files), old(refs), Resolved(old(files), project))
    {
      if debug {
        PruneDebugHistory(None);
        return true;
      }
      ghost var before := refs;
      var dropped: set<nat> := {};
      ok := true;
      var i := 0;
      WithoutNoRefs(files, refs);
      while i < |files|
        invariant i <= |files| && files == old(files) && ok
        invariant forall k | 0 <= k < i :: files[k].contents.Readable?
        invariant dropped == set k | 0 <= k < i && files[k].contents.Readable? && IsConflictOf(files[k].contents.t, project)
        invariant refs == WithoutRefs(files, before, dropped)
      {
        if files[i].contents.Unreadable? {
          ok := false;
          break;
        }
        if IsConflictOf(files[i].contents.t, project) {
          WithoutMoreRefs(files, before, dropped, i);
          RemoveRefs(files[i].contents.t);
          dropped := dropped + {i};
        }
        i := i + 1;
      }
      assert dropped == Resolved(files, project);
      RemoveFiles(dropped);
    }

    method RemoveFiles(dropped: set<nat>)
      modifies this
      ensures files == Without(old(files), dropped, 0) && refs == old(refs)
    {
      var before := files;
      files := [];
      for i := 0 to |before|
        invariant files + Without(before, dropped, i) == Without(before, dropped, 0) && refs == old(refs)
      {
        Regroup(files, if i in dropped then [] else [before[i]], Without(before, dropped, i + 1));
        if i !in dropped {
          files := files + [before[i]];
        }
      }
    }
  }

  predicate IsConflictOf(t: Transaction, project: string) { t.project == project && t.phase.Conflicted? }

  /** The conflict records of a project that come before the first unreadable file. */
  function Resolved(files: seq<JournalFile>, project: string): set<nat> {
    set i | 0 <= i < |files| && (forall k | 0 <= k <= i :: files[k].contents.Readable?) && IsConflictOf(files[i].contents.t, project)
  }

  /** What clearing leaves: everything from the first unreadable file on, whatever is not a
      conflict of the project, and nothing else. */
  lemma ClearingSparesIff(files: seq<JournalFile>, project: string, i: nat)
    requires i < |files|
    ensures i !in Resolved(files, project)
       <==> || (exists k :: 0 <= k <= i && files[k].contents.Unreadable?)
            || files[i].contents.t.phase != Conflicted || files[i].contents.t.project != project
  {
  }

  /** All four refs of a record that goes, go with it; a ref of no such record stays. */
  lemma ArtifactsGoIff(files: seq<JournalFile>, refs: map<string, set<string>>, dropped: set<nat>, p: string, r: string)
    requires p in refs && r in refs[p]
    ensures r !in WithoutRefs(files, refs, dropped)[p]
       <==> exists i :: 0 <= i < |files| && i in dropped && files[i].contents.Readable? && files[i].contents.t.project == p
                        && (Names(files[i].contents.t, r) || r == files[i].contents.t.recoveryRef + "/candidate")
  {
    if i :| 0 <= i < |files| && i in dropped && files[i].contents.Readable? && files[i].contents.t.project == p
            && (Names(files[i].contents.t, r) || r == files[i].contents.t.recoveryRef + "/candidate") {
      assert r in Artifacts(files[i].contents.t);
    }
  }

  function Entry(required: map<string, set<string>>, project: string): set<string> {
    if project in required then required[project] else {}
  }

  ghost predicate Tracks(required: map<string, set<string>>, files: seq<JournalFile>, active: set<string>, chosen: set<nat>) {
    forall p :: Entry(required, p) == Required(files, active, chosen, p)
  }

  predicate NamesValid(files: seq<JournalFile>, active: set<string>, chosen: set<nat>, n: nat)
    requires n <= |files|
  {
    forall i | 0 <= i < n ::
      files[i].contents.Readable? && Retains(files, active, chosen, i) ==> ValidRecoveryRef(files[i].contents.t.recoveryRef)
  }

  predicate AllUnneeded(unneeded: map<string, set<string>>, j: Journal, active: set<string>, chosen: set<nat>) {
    forall p | p in unneeded :: unneeded[p] == Unneeded(j, active, chosen, p)
  }

  /** What each project may lose, from the refs that are required of it. */
  lemma Losses(j: Journal, required: map<string, set<string>>, active: set<string>, chosen: set<nat>)
    returns (loss: string -> set<string>)
    requires Tracks(required, j.files, active, chosen)
    ensures forall p :: loss(p) == Unneeded(j, active, chosen, p)
    ensures forall p :: loss(p) == if p in j.refs then j.refs[p] - Entry(required, p) else {}
  {
    loss := p => Unneeded(j, active, chosen, p);
    forall p ensures loss(p) == if p in j.refs then j.refs[p] - Entry(required, p) else {} {
      assert Entry(required, p) == Required(j.files, active, chosen, p);
    }
  }

  /** What the projects seen so far may lose, when each project p may lose `loss(p)`. */
  ghost predicate Pruning(
    refs: map<string, set<string>>, loss: string -> set<string>, seen: set<string>,
    unneeded: map<string, set<string>>, count: nat)
  {
    && (forall p :: p in unneeded <==> p in seen && p in refs)
    && (forall p :: p in unneeded ==> unneeded[p] == loss(p))
    && count == |Pairs(loss, seen)|
  }

  lemma PruningStarts(refs: map<string, set<string>>, loss: string -> set<string>, projects: set<string>)
    ensures Pruning(refs, loss, projects - projects, map[], 0)
  {
    assert projects - projects == {} && Pairs(loss, {}) == {};
  }

  lemma PruningNext(
    refs: map<string, set<string>>, loss: string -> set<string>, projects: set<string>, left: set<string>,
    unneeded: map<string, set<string>>, count: nat, p: string)
    requires Pruning(refs, loss, projects - left, unneeded, count) && p in left && left <= projects && (p !in refs ==> loss(p) == {})
    ensures if p in refs then Pruning(refs, loss, projects - (left - {p}), unneeded[p := loss(p)], count + |loss(p)|)
            else Pruning(refs, loss, projects - (left - {p}), unneeded, count)
  {
    PairsOfOneMore(loss, projects - left, p);
    assert projects - (left - {p}) == (projects - left) + {p};
  }

  lemma PruningDone(
    j: Journal, loss: string -> set<string>, projects: set<string>, active: set<string>, chosen: set<nat>,
    unneeded: map<string, set<string>>, count: nat)
    requires Pruning(j.refs, loss, projects - {}, unneeded, count)
    requires forall p :: loss(p) == Unneeded(j, active, chosen, p)
    ensures unneeded.Keys == projects * j.refs.Keys && AllUnneeded(unneeded, j, active, chosen)
    ensures count == |UnneededPairs(j, projects, active, chosen)|
  {
    assert projects - {} == projects;
    assert Pairs(loss, projects) == UnneededPairs(j, projects, active, chosen);
  }

  predicate PrunesOnly(prunable: map<string, set<string>>, j: Journal, managed: set<string>, active: set<string>, chosen: set<nat>) {
    && prunable.Keys == (if AllReadable(j.files) then Scope(j.files, managed) * j.refs.Keys else {})
    && AllUnneeded(prunable, j, active, chosen)
  }

  lemma PlannedPrunes(
    j: Journal, managed: set<string>, active: set<string>, chosen: set<nat>, unneeded: map<string, set<string>>)
    requires unneeded.Keys == Scope(j.files, managed) * j.refs.Keys && AllUnneeded(unneeded, j, active, chosen)
    ensures PrunesOnly(if Invalid(j.files) == 0 then unneeded else map[], j, managed, active, chosen)
    ensures Invalid(j.files) == 0 <==> AllReadable(j.files)
  {
    InvalidMeans(j.files);
  }

  lemma PruningAsPlanned(prunable: map<string, set<string>>, j: Journal, managed: set<string>, active: set<string>, chosen: set<nat>)
    requires PrunesOnly(prunable, j, managed, active, chosen)
    ensures Pruned(j, managed, active, chosen) == map p | p in j.refs :: if p in prunable then j.refs[p] - prunable[p] else j.refs[p]
  {
  }

  lemma RefusedMeans(files: seq<JournalFile>, active: set<string>, debug: bool)
    ensures Refused(files, active, debug) <==> !NamesValid(files, active, Chosen(files, active, debug), |files|)
  {
  }

  /** The collection is refused exactly when a retained record names its refs outside
      RepoSync's own, or with white space in the name. */
  lemma RefusedIff(files: seq<JournalFile>, active: set<string>, debug: bool)
    ensures Refused(files, active, debug)
       <==> exists i :: 0 <= i < |files| && files[i].contents.Readable? && Retains(files, active, Chosen(files, active, debug), i)
                        && var name := files[i].contents.t.recoveryRef;
                        !("refs/resync/recovery/" <= name) || exists c :: c in name && Shell.IsWhitespace(c)
  {
    forall name: string ensures ValidRecoveryRef(name)
      <==> "refs/resync/recovery/" <= name && forall c :: c in name ==> !Shell.IsWhitespace(c)
    {
    }
  }

  /** What is left of the files: retained ones, at the smaller of their two sizes, otherwise
      as they were. */
  lemma {:induction false} SweptAreFiles(files: seq<JournalFile>, active: set<string>, chosen: set<nat>, k: nat, f: JournalFile)
    requires k <= |files| && f in Swept(files, active, chosen, k)
    ensures exists i :: k <= i < |files| && Retains(files, active, chosen, i)
                        && f.path == files[i].path && f.contents == files[i].contents
                        && f.bytes == if f.contents.Readable? && f.contents.compact < files[i].bytes then f.contents.compact
                                      else files[i].bytes
    decreases |files| - k
  {
    var rest := Swept(files, active, chosen, k + 1);
    if f in rest {
      SweptAreFiles(files, active, chosen, k + 1, f);
    } else {
      assert f == Compacted(files[k]);
    }
  }

  lemma NewestKeepsMembers(items: seq<Item>)
    ensures forall x | x in Newest(items) :: x in items
  {
    NewestSorts(items);
    forall x | x in Newest(items) ensures x in items {
      assert x in multiset(Newest(items));
    }
  }

  lemma ScopeNext(files: seq<JournalFile>, managed: set<string>, i: nat)
    requires i < |files|
    ensures Scope(files[..i + 1], managed)
         == Scope(files[..i], managed) + if files[i].contents.Readable? then {files[i].contents.t.project} else {}
  {
    assert files[..i + 1] == files[..i] + [files[i]];
  }

  lemma HistoryNext(files: seq<JournalFile>, protectedId: Option<string>, i: nat, done: seq<Item>)
    requires i < |files|
    ensures var rest := History(files, protectedId, i + 1);
            done + History(files, protectedId, i)
            == if Spared(files[i], protectedId) then done + rest
               else (done + [Item(i, files[i].contents.t.createdAt, files[i].bytes)]) + rest
  {
    var rest := History(files, protectedId, i + 1);
    if !Spared(files[i], protectedId) {
      Regroup(done, [Item(i, files[i].contents.t.createdAt, files[i].bytes)], rest);
    }
  }

  lemma SweepingNext(files: seq<JournalFile>, active: set<string>, chosen: set<nat>, i: nat, done: seq<JournalFile>)
    requires i < |files|
    ensures var rest := Swept(files, active, chosen, i + 1);
            done + Swept(files, active, chosen, i)
            == if Retains(files, active, chosen, i) then (done + [Compacted(files[i])]) + rest else done + rest
  {
    var rest := Swept(files, active, chosen, i + 1);
    if Retains(files, active, chosen, i) {
      Regroup(done, [Compacted(files[i])], rest);
    } else {
      assert [] + rest == rest;
    }
  }

  /** What the first i files are. */
  ghost predicate Classified(
    files: seq<JournalFile>, active: set<string>, i: nat, retain: seq<bool>, history: seq<Item>, invalid: nat)
    requires i <= |files|
  {
    && |retain| == i && (forall k | 0 <= k < i :: retain[k] == Retains(files, active, {}, k))
    && history + Optional(files, active, i) == Optional(files, active, 0)
    && invalid + Invalid(files[i..]) == Invalid(files)
  }

  lemma ClassifiedNext(
    files: seq<JournalFile>, active: set<string>, i: nat, retain: seq<bool>, history: seq<Item>, invalid: nat)
    requires i < |files| && Classified(files, active, i, retain, history, invalid)
    ensures match files[i].contents
            case Unreadable => Classified(files, active, i + 1, retain + [true], history, invalid + 1)
            case Readable(t, compact) =>
              if Protected(t, active) then Classified(files, active, i + 1, retain + [true], history, invalid)
              else Classified(files, active, i + 1, retain + [false], history + [Item(i, t.createdAt, compact)], invalid)
  {
    InvalidNext(files, i);
    OptionalNext(files, active, i);
    var rest := Optional(files, active, i + 1);
    match files[i].contents
    case Unreadable =>
    case Readable(t, compact) => Regroup(history, [Item(i, t.createdAt, compact)], rest);
  }

  /** What the first i files need. */
  ghost predicate Collecting(
    files: seq<JournalFile>, managed: set<string>, active: set<string>, chosen: set<nat>, i: nat,
    projects: set<string>, required: map<string, set<string>>)
    requires i <= |files|
  {
    && projects == Scope(files[..i], managed) && NamesValid(files, active, chosen, i)
    && Tracks(required, files[..i], active, chosen)
  }

  lemma CollectingNext(
    files: seq<JournalFile>, managed: set<string>, active: set<string>, chosen: set<nat>, i: nat,
    projects: set<string>, required: map<string, set<string>>)
    requires i < |files| && Collecting(files, managed, active, chosen, i, projects, required)
    ensures var f := files[i].contents;
            if f.Unreadable? then Collecting(files, managed, active, chosen, i + 1, projects, required)
            else if !Retains(files, active, chosen, i) then
              Collecting(files, managed, active, chosen, i + 1, projects + {f.t.project}, required)
            else if ValidRecoveryRef(f.t.recoveryRef) then
              Collecting(files, managed, active, chosen, i + 1, projects + {f.t.project},
                         required[f.t.project := Entry(required, f.t.project) + Needed(f.t)])
            else !NamesValid(files, active, chosen, |files|)
  {
    ScopeNext(files, managed, i);
    TracksNext(required, files, active, chosen, i);
  }

  lemma RequiredNext(files: seq<JournalFile>, active: set<string>, chosen: set<nat>, i: nat, p: string)
    requires i < |files|
    ensures Required(files[..i + 1], active, chosen, p)
         == Required(files[..i], active, chosen, p)
            + if files[i].contents.Readable? && files[i].contents.t.project == p && Retains(files, active, chosen, i)
              then Needed(files[i].contents.t) else {}
  {
    assert forall k | 0 <= k < i :: files[..i + 1][k] == files[..i][k];
    assert files[..i + 1][i] == files[i];
  }

  lemma TracksNext(required: map<string, set<string>>, files: seq<JournalFile>, active: set<string>, chosen: set<nat>, i: nat)
    requires i < |files| && Tracks(required, files[..i], active, chosen)
    ensures var f := files[i];
            if f.contents.Readable? && Retains(files, active, chosen, i)
            then Tracks(required[f.contents.t.project := Entry(required, f.contents.t.project) + Needed(f.contents.t)],
                        files[..i + 1], active, chosen)
            else Tracks(required, files[..i + 1], active, chosen)
  {
    forall p ensures Entry(required, p) == Required(files[..i], active, chosen, p) {
    }
    var f := files[i];
    var here := f.contents.Readable? && Retains(files, active, chosen, i);
    var required' := if here then required[f.contents.t.project := Entry(required, f.contents.t.project) + Needed(f.contents.t)]
                     else required;
    forall p ensures Entry(required', p) == Required(files[..i + 1], active, chosen, p) {
      RequiredNext(files, active, chosen, i, p);
      assert Entry(required, p) == Required(files[..i], active, chosen, p);
    }
  }
}
