/** Publications and the durable queue that holds them. */
module PublicationQueues {
  import opened Options
  import opened Graphs

  /** `createdAt` is an instant; the order of the stored stamps is the order of instants. */
  datatype Publication = Publication(
    id: string,
    project: string,
    branch: string,
    source: Oid,
    candidate: Oid,
    expected: Option<Oid>,
    attempt: nat,
    acknowledged: bool,
    createdAt: int,
    nextAttemptAt: Option<int>,
    lastError: Option<string>)

  predicate Pending(p: Publication) { !p.acknowledged }

  function NewPublication(
    id: string, project: string, branch: string, source: Oid, expected: Option<Oid>, now: int): Publication
  {
    Publication(id, project, branch, source, source, expected, 1, false, now, Some(now), None)
  }

  const KEPT_COMPLETED: nat := 256

  function Select(queue: seq<Publication>, pending: bool): seq<Publication> {
    if queue == [] then []
    else (if Pending(queue[0]) == pending then [queue[0]] else []) + Select(queue[1..], pending)
  }

  /** The queue without its first `remove` completed entries. */
  function DropCompleted(queue: seq<Publication>, remove: nat): seq<Publication> {
    if queue == [] then []
    else if remove > 0 && !Pending(queue[0]) then DropCompleted(queue[1..], remove - 1)
    else [queue[0]] + DropCompleted(queue[1..], remove)
  }

  function Compacted(queue: seq<Publication>): seq<Publication> {
    var completed := |Select(queue, false)|;
    if completed <= KEPT_COMPLETED then queue else DropCompleted(queue, completed - KEPT_COMPLETED)
  }

  /** An acknowledged publication covers this entry: same project and branch, and not newer. */
  predicate Covers(p: Publication, q: Publication) {
    Pending(q) && q.project == p.project && q.branch == p.branch && q.createdAt <= p.createdAt
  }

  function Acknowledge(p: Publication): Publication {
    p.(acknowledged := true, nextAttemptAt := None, lastError := None)
  }

  function Retired(queue: seq<Publication>, p: Publication): (retired: seq<Publication>)
    ensures |retired| == |queue|
    ensures forall i :: 0 <= i < |queue| ==> retired[i] == if Covers(p, queue[i]) then Acknowledge(queue[i]) else queue[i]
  {
    seq(|queue|, i requires 0 <= i < |queue| => if Covers(p, queue[i]) then Acknowledge(queue[i]) else queue[i])
  }

  lemma {:induction false} SelectAppend(a: seq<Publication>, b: seq<Publication>, pending: bool)
    ensures Select(a + b, pending) == Select(a, pending) + Select(b, pending)
  {
    if a == [] {
      assert a + b == b;
    } else {
      assert (a + b)[0] == a[0] && (a + b)[1..] == a[1..] + b;
      SelectAppend(a[1..], b, pending);
      var first := if Pending(a[0]) == pending then [a[0]] else [];
      assert first + (Select(a[1..], pending) + Select(b, pending)) == (first + Select(a[1..], pending)) + Select(b, pending);
    }
  }

  lemma CountingOneMore(queue: seq<Publication>, i: nat)
    requires i < |queue|
    ensures |Select(queue[..i + 1], false)| == |Select(queue[..i], false)| + if Pending(queue[i]) then 0 else 1
  {
    assert queue[..i + 1] == queue[..i] + [queue[i]];
    SelectAppend(queue[..i], [queue[i]], false);
    assert [queue[i]][1..] == [];
    assert Select([queue[i]], false) == if Pending(queue[i]) then [] else [queue[i]];
  }

  /** What was kept of the first i entries and what is left of the others make up the result. */
  ghost predicate Dropping(kept: seq<Publication>, queue: seq<Publication>, i: nat, remove: nat, all: seq<Publication>)
    requires i <= |queue|
  {
    kept + DropCompleted(queue[i..], remove) == all
  }

  lemma DroppingOneMore(kept: seq<Publication>, queue: seq<Publication>, i: nat, remove: nat, all: seq<Publication>)
    requires i < |queue| && Dropping(kept, queue, i, remove, all)
    ensures if remove > 0 && !Pending(queue[i]) then Dropping(kept, queue, i + 1, remove - 1, all)
            else Dropping(kept + [queue[i]], queue, i + 1, remove, all)
  {
    assert queue[i..][0] == queue[i] && queue[i..][1..] == queue[i + 1..];
    var rest := DropCompleted(queue[i + 1..], remove);
    assert kept + ([queue[i]] + rest) == (kept + [queue[i]]) + rest;
  }

  lemma DroppingStarts(queue: seq<Publication>, remove: nat)
    ensures Dropping([], queue, 0, remove, DropCompleted(queue, remove))
  {
    assert queue[0..] == queue;
  }

  lemma DroppingEnds(kept: seq<Publication>, queue: seq<Publication>, remove: nat, all: seq<Publication>)
    requires Dropping(kept, queue, |queue|, remove, all)
    ensures kept == all
  {
    assert queue[|queue|..] == [] && kept + [] == kept;
  }

  lemma {:induction false} DropCompletedSelects(queue: seq<Publication>, remove: nat)
    requires remove <= |Select(queue, false)|
    ensures Select(DropCompleted(queue, remove), true) == Select(queue, true)
    ensures Select(DropCompleted(queue, remove), false) == Select(queue, false)[remove..]
    ensures forall p :: p in DropCompleted(queue, remove) ==> p in queue
  {
    if queue != [] {
      if remove > 0 && !Pending(queue[0]) {
        DropCompletedSelects(queue[1..], remove - 1);
      } else {
        DropCompletedSelects(queue[1..], remove);
        var rest := DropCompleted(queue[1..], remove);
        assert ([queue[0]] + rest)[1..] == rest;
        if !Pending(queue[0]) {
          assert remove == 0;
        }
      }
    }
  }

  /** Compaction never loses or reorders pending work, and keeps exactly the newest 256
      completed entries. */
  lemma CompactionKeepsPendingWork(queue: seq<Publication>)
    ensures Select(Compacted(queue), true) == Select(queue, true)
    ensures |Select(queue, false)| <= KEPT_COMPLETED ==> Compacted(queue) == queue
    ensures |Select(queue, false)| > KEPT_COMPLETED ==>
              Select(Compacted(queue), false) == Select(queue, false)[|Select(queue, false)| - KEPT_COMPLETED..]
    ensures forall p :: p in Compacted(queue) ==> p in queue
    ensures forall p :: p in queue && Pending(p) ==> p in Compacted(queue)
  {
    CompactionSelects(queue);
    forall p | p in queue && Pending(p) ensures p in Compacted(queue) {
      SelectMembers(queue, p);
      SelectMembers(Compacted(queue), p);
    }
  }

  lemma CompactionSelects(queue: seq<Publication>)
    ensures Select(Compacted(queue), true) == Select(queue, true)
    ensures |Select(queue, false)| <= KEPT_COMPLETED ==> Compacted(queue) == queue
    ensures |Select(queue, false)| > KEPT_COMPLETED ==>
              Select(Compacted(queue), false) == Select(queue, false)[|Select(queue, false)| - KEPT_COMPLETED..]
    ensures forall p :: p in Compacted(queue) ==> p in queue
  {
    if |Select(queue, false)| > KEPT_COMPLETED {
      DropCompletedSelects(queue, |Select(queue, false)| - KEPT_COMPLETED);
    }
  }

  lemma {:induction false} SelectMembers(queue: seq<Publication>, p: Publication)
    ensures p in Select(queue, Pending(p)) <==> p in queue
  {
    if queue != [] {
      SelectMembers(queue[1..], p);
    }
  }

  /** An acknowledgement leaves pending exactly the pending entries of other projects and
      branches and the newer ones. */
  lemma StaysPending(queue: seq<Publication>, p: Publication)
    ensures forall q :: q in Compacted(Retired(queue, p)) && Pending(q) <==>
              q in queue && Pending(q) && (q.project != p.project || q.branch != p.branch || q.createdAt > p.createdAt)
  {
    var retired := Retired(queue, p);
    CompactionKeepsPendingWork(retired);
    forall q | q in queue && Pending(q) && (q.project != p.project || q.branch != p.branch || q.createdAt > p.createdAt)
      ensures q in retired
    {
      var i :| 0 <= i < |queue| && queue[i] == q;
      assert retired[i] == q;
    }
  }

  /** The in-memory queue; `persist` after each change makes it durable as a whole. */
  class PublicationQueue {
    var publications: seq<Publication>

    constructor ()
      ensures publications == []
    {
      publications := [];
    }

    method Push(p: Publication)
      modifies this
      ensures publications == old(publications) + [p]
    {
      publications := publications + [p];
    }

    /** `compact`, with the counting retain of the source. */
    method Compact()
      modifies this
      ensures publications == Compacted(old(publications))
      ensures Select(publications, true) == Select(old(publications), true)
    {
      var before := publications;
      CompactionKeepsPendingWork(before);
      var completed := 0;
      for i := 0 to |before|
        invariant publications == before && completed == |Select(before[..i], false)|
      {
        CountingOneMore(before, i);
        if !Pending(before[i]) {
          completed := completed + 1;
        }
      }
      assert before[..|before|] == before;
      if completed <= KEPT_COMPLETED {
        return;
      }
      var remove := completed - KEPT_COMPLETED;
      publications := [];
      ghost var all := DropCompleted(before, remove);
      DroppingStarts(before, remove);
      for i := 0 to |before|
        invariant 0 <= remove && Dropping(publications, before, i, remove, all)
      {
        DroppingOneMore(publications, before, i, remove, all);
        if remove > 0 && !Pending(before[i]) {
          remove := remove - 1;
        } else {
          publications := publications + [before[i]];
        }
      }
      DroppingEnds(publications, before, remove, all);
    }

    /** The loop of `complete_publication` that acknowledges everything the publication covers. */
    method Complete(p: Publication) returns (completed: seq<string>)
      modifies this
      ensures publications == Compacted(Retired(old(publications), p))
      ensures forall id :: id in completed <==> exists q :: q in old(publications) && Covers(p, q) && q.id == id
      ensures forall q :: q in publications && Pending(q) <==>
                q in old(publications) && Pending(q)
                && (q.project != p.project || q.branch != p.branch || q.createdAt > p.createdAt)
    {
      completed := [];
      var before := publications;
      for i := 0 to |before|
        invariant |publications| == |before|
        invariant forall j :: 0 <= j < i ==> publications[j] == Retired(before, p)[j]
        invariant forall j :: i <= j < |before| ==> publications[j] == before[j]
        invariant forall id :: id in completed <==> exists j :: 0 <= j < i && Covers(p, before[j]) && before[j].id == id
      {
        var value := publications[i];
        if Covers(p, value) {
          publications := publications[i := value.(acknowledged := true, nextAttemptAt := None, lastError := None)];
          completed := completed + [value.id];
        }
      }
      assert publications == Retired(before, p);
      StaysPending(before, p);
      Compact();
    }

    /** `record_failure` on one entry: it waits again, due after the interval, with the error;
        what it delivers is as before, and so are all other entries. */
    method RecordFailure(index: nat, error: string, now: int, retry: int)
      requires index < |publications|
      modifies this
      ensures |publications| == |old(publications)|
      ensures forall i | 0 <= i < |publications| && i != index :: publications[i] == old(publications)[i]
      ensures Pending(publications[index]) && SameRequest(publications[index], old(publications)[index])
      ensures publications[index].nextAttemptAt == Some(now + retry) && publications[index].lastError == Some(error)
    {
      var p := publications[index];
      p := p.(acknowledged := false);
      p := p.(nextAttemptAt := Some(now + retry));
      p := p.(lastError := Some(error));
      publications := publications[index := p];
    }
  }

  /** The two copies report the same commit, and a delivery of either sends the same request. */
  predicate SameRequest(p: Publication, q: Publication) {
    && p.id == q.id && p.project == q.project && p.branch == q.branch && p.source == q.source && p.createdAt == q.createdAt
    && p.attempt == q.attempt && p.candidate == q.candidate && p.expected == q.expected
  }

  /** A failure never retires work: whatever was pending stays pending, the failed entry is
      pending even if it was acknowledged, and completed entries other than it stay completed. */
  lemma FailureKeepsPendingWork(queue: seq<Publication>, index: nat, error: string, next: int)
    requires index < |queue|
    ensures var queue' := queue[index := Failed(queue[index], error, next)];
            && (forall i | 0 <= i < |queue| :: Pending(queue'[i]) <==> Pending(queue[i]) || i == index)
            && (forall i | 0 <= i < |queue| :: SameRequest(queue'[i], queue[i]))
            && |Select(queue', true)| == |Select(queue, true)| + if Pending(queue[index]) then 0 else 1
  {
    var q, f := queue[index], Failed(queue[index], error, next);
    assert queue == queue[..index] + ([q] + queue[index + 1..]);
    assert queue[index := f] == queue[..index] + ([f] + queue[index + 1..]);
    SelectAppend(queue[..index], [q] + queue[index + 1..], true);
    SelectAppend(queue[..index], [f] + queue[index + 1..], true);
    SelectAppend([q], queue[index + 1..], true);
    SelectAppend([f], queue[index + 1..], true);
    assert [q][1..] == [] && [f][1..] == [];
  }

  function Failed(p: Publication, error: string, next: int): Publication {
    p.(acknowledged := false, nextAttemptAt := Some(next), lastError := Some(error))
  }
}
