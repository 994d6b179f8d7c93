/** The publication protocol of one project: any number of checkouts with their durable
    queues, one hosted repository that only fast-forwards, races, crashes and restarts. */
module Publishing {
  import opened Options
  import opened Graphs
  import opened PublicationQueues
  import opened Runs

  /** The logical changes a commit contains.  Rebasing rewrites commits and keeps changes. */
  type Changes = set<nat>

  /** Where the delivery loop of one daemon stands.  It is lost in a crash. */
  datatype Delivery =
    | Idle
    | Loaded(p: Publication)
    | Observed(p: Publication, remote: Option<Oid>)
    | Rebasing(p: Publication, remote: Option<Oid>)
    | Rebased(p: Publication, remote: Option<Oid>)
    | Pushed(p: Publication)
    | Confirmed(p: Publication)
    | Recorded(p: Publication)

  datatype Checkout = Checkout(
    heads: map<string, Oid>,
    current: string,
    queue: seq<Publication>,
    stamps: map<string, int>,
    delivery: Delivery)

  /** A commit handed to the queue of a checkout. */
  datatype Entry = Entry(checkout: string, id: string, branch: string, source: Oid)

  /** One push or acknowledgement request, as the outside sees it. */
  datatype Send = Send(id: string, attempt: nat, branch: string, candidate: Oid, expected: Option<Oid>)

  datatype World = World(
    graph: Graph<Changes>,
    next: Oid,
    hosted: map<string, Oid>,
    checkouts: map<string, Checkout>,
    owner: map<string, string>,
    entries: seq<Entry>,
    sends: seq<Send>)

  datatype Event =
    | CommitWork(k: string, changes: Changes)
    | SwitchBranch(k: string, branch: string, at: Oid)
    | ResetBranch(k: string, branch: string, at: Oid)
    | Enqueue(k: string, id: string, branch: string, source: Oid, expected: Option<Oid>, now: int)
    | Load(k: string, id: string)
    | Fetch(k: string)
    | StartRebase(k: string)
    | FinishRebase(k: string, onto: Option<Oid>)
    | Refresh(k: string, now: int)
    | Push(k: string)
    | SkipPush(k: string)
    | Confirm(k: string)
    | Complete(k: string)
    | Finish(k: string)
    | Fail(k: string, error: string, next: int)
    | Crash(k: string)
    | HostedAdvance(branch: string, commit: Oid)

  const PROJECT := "project"

  function Body(g: Graph<Changes>, c: Oid): Changes { if c in g then g[c].body else {} }

  function HostedBody(g: Graph<Changes>, hosted: map<string, Oid>, branch: string): Changes {
    if branch in hosted then Body(g, hosted[branch]) else {}
  }

  function Hosted(w: World, branch: string): Changes { HostedBody(w.graph, w.hosted, branch) }

  predicate CandidateReachable(w: World, p: Publication, remote: Option<Oid>) {
    remote.Some? && IsAncestor(w.graph, p.candidate, remote.value)
  }

  function WithCheckout(w: World, k: string, c: Checkout): World { w.(checkouts := w.checkouts[k := c]) }

  /** The hosted repository accepts a push when the expected head is still there and the
      update is a fast-forward. */
  predicate Accepted(w: World, p: Publication) {
    && p.candidate in w.graph
    && Lookup(w.hosted, p.branch) == p.expected
    && (p.expected.Some? ==> IsAncestor(w.graph, p.expected.value, p.candidate))
  }

  function SendOf(p: Publication): Send { Send(p.id, p.attempt, p.branch, p.candidate, p.expected) }

  /** A new attempt: HEAD of the checkout, expected on the head that was fetched. */
  function NextAttempt(p: Publication, candidate: Oid, remote: Option<Oid>, now: int): Publication {
    p.(attempt := p.attempt + 1, candidate := candidate, expected := remote, lastError := None, nextAttemptAt := Some(now))
  }

  function Update(queue: seq<Publication>, id: string, change: Publication -> Publication): seq<Publication> {
    seq(|queue|, i requires 0 <= i < |queue| => if queue[i].id == id then change(queue[i]) else queue[i])
  }

  function FindPending(queue: seq<Publication>, id: string): (found: Option<Publication>)
    ensures found.Some? ==> found.value in queue && found.value.id == id && Pending(found.value)
  {
    if queue == [] then None
    else if queue[0].id == id && Pending(queue[0]) then Some(queue[0])
    else FindPending(queue[1..], id)
  }

  /** The hypotheses under which a commit is reported to the queue: it contains what this
      checkout reported on the branch before, and the clock moves on. */
  predicate Reportable(w: World, k: string, branch: string, source: Oid, now: int)
    requires k in w.checkouts
  {
    var c := w.checkouts[k];
    && source in w.graph
    && (forall e | e in w.entries :: e.checkout == k && e.branch == branch ==> Body(w.graph, e.source) <= Body(w.graph, source))
    && (branch in c.stamps ==> c.stamps[branch] < now)
  }

  /** The queue write of an acknowledgement; catalog work is still to be done. */
  function Completed(c: Checkout): Checkout
    requires c.delivery.Confirmed?
  {
    c.(queue := Compacted(Retired(c.queue, c.delivery.p)), delivery := Recorded(c.delivery.p))
  }

  function NextIn(w: World, k: string, e: Event): World
    requires k in w.checkouts
  {
    var c := w.checkouts[k];
    match e
    case CommitWork(_, changes) =>
      var parents := if c.current in c.heads then [c.heads[c.current]] else [];
      var body := if c.current in c.heads then Body(w.graph, c.heads[c.current]) + changes else changes;
      WithCheckout(w.(graph := w.graph[w.next := Commit(parents, body)], next := w.next + 1), k,
                   c.(heads := c.heads[c.current := w.next]))
    case SwitchBranch(_, branch, at) =>
      var heads := if branch !in c.heads && at in w.graph then c.heads[branch := at] else c.heads;
      WithCheckout(w, k, c.(current := branch, heads := heads))
    case ResetBranch(_, branch, at) =>
      if branch in c.heads && at in w.graph then WithCheckout(w, k, c.(heads := c.heads[branch := at])) else w
    case Enqueue(_, id, branch, source, expected, now) =>
      if id in w.owner || !Reportable(w, k, branch, source, now)
         || (exists p | p in c.queue :: Pending(p) && p.branch == branch && p.source == source) then w
      else WithCheckout(
        w.(owner := w.owner[id := k], entries := w.entries + [Entry(k, id, branch, source)]), k,
        c.(queue := c.queue + [NewPublication(id, PROJECT, branch, source, expected, now)], stamps := c.stamps[branch := now]))
    case Load(_, id) =>
      var found := FindPending(c.queue, id);
      if c.delivery.Idle? && found.Some? then WithCheckout(w, k, c.(delivery := Loaded(found.value))) else w
    case Fetch(_) =>
      if c.delivery.Loaded? then WithCheckout(w, k, c.(delivery := Observed(c.delivery.p, Lookup(w.hosted, c.delivery.p.branch))))
      else w
    case StartRebase(_) =>
      if c.delivery.Observed? && !CandidateReachable(w, c.delivery.p, c.delivery.remote)
         && c.delivery.remote != c.delivery.p.expected && c.current == c.delivery.p.branch
      then WithCheckout(w, k, c.(delivery := Rebasing(c.delivery.p, c.delivery.remote))) else w
    case FinishRebase(_, onto) =>
      if !c.delivery.Rebasing? then w
      else
        var c' := c.(delivery := Rebased(c.delivery.p, c.delivery.remote));
        if onto.None? || onto.value !in w.graph || c.current !in c.heads then WithCheckout(w, k, c')
        else WithCheckout(
          w.(graph := w.graph[w.next := Commit([onto.value], Body(w.graph, onto.value) + Body(w.graph, c.heads[c.current]))],
             next := w.next + 1), k,
          c'.(heads := c.heads[c.current := w.next]))
    case Refresh(_, now) =>
      if c.delivery.Rebased? && c.current in c.heads
      then
        var p, remote, head := c.delivery.p, c.delivery.remote, c.heads[c.current];
        WithCheckout(w, k, c.(queue := Update(c.queue, p.id, q => NextAttempt(q, head, remote, now)), delivery := Idle))
      else w
    case Push(_) =>
      if c.delivery.Observed? && !CandidateReachable(w, c.delivery.p, c.delivery.remote) && c.delivery.remote == c.delivery.p.expected
      then
        var p := c.delivery.p;
        var w1 := w.(sends := w.sends + [SendOf(p)]);
        if Accepted(w, p) then WithCheckout(w1.(hosted := w.hosted[p.branch := p.candidate]), k, c.(delivery := Pushed(p)))
        else w1
      else w
    case SkipPush(_) =>
      if c.delivery.Observed? && CandidateReachable(w, c.delivery.p, c.delivery.remote)
      then WithCheckout(w, k, c.(delivery := Pushed(c.delivery.p))) else w
    case Confirm(_) =>
      if c.delivery.Pushed? && CandidateReachable(w, c.delivery.p, Lookup(w.hosted, c.delivery.p.branch))
      then WithCheckout(w.(sends := w.sends + [SendOf(c.delivery.p)]), k, c.(delivery := Confirmed(c.delivery.p))) else w
    case Complete(_) =>
      if c.delivery.Confirmed?
      then WithCheckout(w, k, Completed(c)) else w
    // the catalog is brought up to date after the queue was written
    case Finish(_) => if c.delivery.Recorded? then WithCheckout(w, k, c.(delivery := Idle)) else w
    case Fail(_, error, next) =>
      if c.delivery.Idle? then w
      else
        var id := c.delivery.p.id;
        WithCheckout(w, k, c.(queue := Update(c.queue, id, q => Failed(q, error, next)), delivery := Idle))
    case Crash(_) => WithCheckout(w, k, c.(delivery := Idle))
    case HostedAdvance(_, _) => w
  }

  function Next(w: World, e: Event): World {
    if e.HostedAdvance? then
      if e.commit in w.graph && (e.branch in w.hosted ==> IsAncestor(w.graph, w.hosted[e.branch], e.commit))
      then w.(hosted := w.hosted[e.branch := e.commit]) else w
    else if e.k in w.checkouts then NextIn(w, e.k, e) else w
  }

  ghost function Execute(w: World, events: seq<Event>): World { Run(Next, w, events) }

  // ---- what every step keeps, in every run ----

  ghost predicate Monotone(g: Graph<Changes>) {
    forall c :: c in g ==> forall i :: 0 <= i < |g[c].parents| ==> g[c].parents[i] in g && g[g[c].parents[i]].body <= g[c].body
  }

  lemma {:induction false} AncestorsContained(g: Graph<Changes>, from: Oid, to: Oid)
    requires Monotone(g) && from in g && Reaches(g, from, to)
    ensures to in g && Body(g, to) <= Body(g, from)
    decreases from
  {
    if from != to {
      var i :| 0 <= i < |g[from].parents| && g[from].parents[i] < from && Reaches(g, g[from].parents[i], to);
      AncestorsContained(g, g[from].parents[i], to);
    }
  }

  ghost predicate GraphOk(g: Graph<Changes>, next: Oid) { Valid(g) && Monotone(g) && Below(g, next) }

  predicate HostedOk(g: Graph<Changes>, hosted: map<string, Oid>) { forall b | b in hosted :: hosted[b] in g }

  predicate Known(g: Graph<Changes>, stamps: map<string, int>, p: Publication) {
    && p.project == PROJECT && p.source in g && p.candidate in g
    && p.branch in stamps && p.createdAt <= stamps[p.branch]
  }

  predicate NotAfter(q: Publication, p: Publication) {
    q.branch == p.branch && q.createdAt <= p.createdAt
  }

  /** What was reported earlier on the branch is contained in what was reported later. */
  predicate Ordered(g: Graph<Changes>, queue: seq<Publication>, p: Publication) {
    forall q | q in queue && NotAfter(q, p) :: Body(g, q.source) <= Body(g, p.source)
  }

  predicate DeliveryOk(g: Graph<Changes>, hosted: map<string, Oid>, delivery: Delivery) {
    delivery.Confirmed? || delivery.Recorded? ==> Body(g, delivery.p.candidate) <= HostedBody(g, hosted, delivery.p.branch)
  }

  predicate QueueOk(g: Graph<Changes>, stamps: map<string, int>, queue: seq<Publication>) {
    forall p | p in queue :: Known(g, stamps, p) && Ordered(g, queue, p)
  }

  predicate HeadsOk(g: Graph<Changes>, heads: map<string, Oid>) { forall b | b in heads :: heads[b] in g }

  predicate CheckoutOk(g: Graph<Changes>, hosted: map<string, Oid>, c: Checkout) {
    && HeadsOk(g, c.heads) && QueueOk(g, c.stamps, c.queue)
    && DeliveryOk(g, hosted, c.delivery)
    && (!c.delivery.Idle? ==> Known(g, c.stamps, c.delivery.p) && Ordered(g, c.queue, c.delivery.p))
  }

  ghost predicate Logged(entries: seq<Entry>, k: string, p: Publication) {
    exists e :: e in entries && e.checkout == k && e.branch == p.branch && e.source == p.source
  }

  ghost predicate AllLogged(entries: seq<Entry>, k: string, queue: seq<Publication>) {
    forall p | p in queue :: Logged(entries, k, p)
  }

  predicate EntriesOk(g: Graph<Changes>, entries: seq<Entry>) { forall e | e in entries :: e.source in g }

  ghost predicate CheckoutsOk(w: World) {
    forall k | k in w.checkouts :: CheckoutOk(w.graph, w.hosted, w.checkouts[k]) && AllLogged(w.entries, k, w.checkouts[k].queue)
  }

  /** What holds in every run, careful or not. */
  ghost predicate Sound(w: World) {
    GraphOk(w.graph, w.next) && HostedOk(w.graph, w.hosted) && EntriesOk(w.graph, w.entries) && CheckoutsOk(w)
  }

  lemma SetCheckout(w: World, k: string, c': Checkout)
    requires Sound(w) && k in w.checkouts && CheckoutOk(w.graph, w.hosted, c') && AllLogged(w.entries, k, c'.queue)
    ensures Sound(WithCheckout(w, k, c'))
  {
  }

  predicate Extends(g: Graph<Changes>, g': Graph<Changes>) {
    forall c | c in g :: c in g' && g'[c] == g[c]
  }

  lemma ExtensionKeepsQueue(g: Graph<Changes>, g': Graph<Changes>, stamps: map<string, int>, queue: seq<Publication>)
    requires Extends(g, g') && QueueOk(g, stamps, queue)
    ensures QueueOk(g', stamps, queue)
  {
    forall p | p in queue ensures Ordered(g', queue, p) {
      assert Known(g, stamps, p) && Ordered(g, queue, p);
      forall q | q in queue && NotAfter(q, p) ensures Body(g', q.source) <= Body(g', p.source) {
        assert Known(g, stamps, q);
      }
    }
  }

  lemma ExtensionKeepsCheckout(g: Graph<Changes>, g': Graph<Changes>, hosted: map<string, Oid>, c: Checkout)
    requires Extends(g, g') && HostedOk(g, hosted) && CheckoutOk(g, hosted, c)
    ensures CheckoutOk(g', hosted, c)
  {
    ExtensionKeepsQueue(g, g', c.stamps, c.queue);
    if !c.delivery.Idle? {
      forall q | q in c.queue && NotAfter(q, c.delivery.p) ensures Body(g', q.source) <= Body(g', c.delivery.p.source) {
        assert Known(g, c.stamps, q);
      }
    }
  }

  function Grown(w: World, parents: seq<Oid>, body: Changes): World {
    w.(graph := w.graph[w.next := Commit(parents, body)], next := w.next + 1)
  }

  lemma GrownGraph(g: Graph<Changes>, next: Oid, parents: seq<Oid>, body: Changes)
    requires GraphOk(g, next)
    requires forall i | 0 <= i < |parents| :: parents[i] in g && g[parents[i]].body <= body
    ensures GraphOk(g[next := Commit(parents, body)], next + 1) && Extends(g, g[next := Commit(parents, body)])
  {
  }

  /** A new commit that contains its parents' changes. */
  lemma AddCommit(w: World, parents: seq<Oid>, body: Changes)
    requires Sound(w)
    requires forall i | 0 <= i < |parents| :: parents[i] in w.graph && w.graph[parents[i]].body <= body
    ensures Sound(Grown(w, parents, body))
  {
    var w' := Grown(w, parents, body);
    GrownGraph(w.graph, w.next, parents, body);
    forall k | k in w.checkouts ensures CheckoutOk(w'.graph, w'.hosted, w.checkouts[k]) {
      ExtensionKeepsCheckout(w.graph, w'.graph, w.hosted, w.checkouts[k]);
    }
  }

  /** The hosted repository moves a branch forward. */
  lemma AdvanceHosted(w: World, branch: string, commit: Oid)
    requires Sound(w) && commit in w.graph && Hosted(w, branch) <= Body(w.graph, commit)
    ensures Sound(w.(hosted := w.hosted[branch := commit]))
  {
  }

  /** Branches and the delivery of one checkout change, keeping its queue. */
  lemma MoveCheckout(w: World, k: string, c': Checkout)
    requires Sound(w) && k in w.checkouts && c'.queue == w.checkouts[k].queue && c'.stamps == w.checkouts[k].stamps
    requires HeadsOk(w.graph, c'.heads) && DeliveryOk(w.graph, w.hosted, c'.delivery)
    requires c'.delivery.Idle? || (!w.checkouts[k].delivery.Idle? && c'.delivery.p == w.checkouts[k].delivery.p)
             || (c'.delivery.Loaded? && c'.delivery.p in w.checkouts[k].queue)
    ensures Sound(WithCheckout(w, k, c'))
  {
    SetCheckout(w, k, c');
  }

  /** p is q with nothing changed of what it was reported for. */
  predicate Descends(p: Publication, q: Publication) {
    p.id == q.id && p.project == q.project && p.branch == q.branch && p.source == q.source && p.createdAt == q.createdAt
  }

  ghost predicate AllDescend(queue': seq<Publication>, queue: seq<Publication>) {
    forall p | p in queue' :: exists q :: q in queue && Descends(p, q)
  }

  lemma DescendantsOrdered(g: Graph<Changes>, queue: seq<Publication>, queue': seq<Publication>, p: Publication, q: Publication)
    requires AllDescend(queue', queue) && Descends(p, q) && Ordered(g, queue, q)
    ensures Ordered(g, queue', p)
  {
    forall r | r in queue' && NotAfter(r, p) ensures Body(g, r.source) <= Body(g, p.source) {
      var r0 :| r0 in queue && Descends(r, r0);
      assert NotAfter(r0, q);
    }
  }

  lemma DescendantsOk(g: Graph<Changes>, stamps: map<string, int>, queue: seq<Publication>, queue': seq<Publication>)
    requires QueueOk(g, stamps, queue) && AllDescend(queue', queue) && forall p | p in queue' :: p.candidate in g
    ensures QueueOk(g, stamps, queue')
  {
    forall p | p in queue' ensures Known(g, stamps, p) && Ordered(g, queue', p) {
      var q :| q in queue && Descends(p, q);
      assert Known(g, stamps, q);
      DescendantsOrdered(g, queue, queue', p, q);
    }
  }

  lemma ReplaceQueue(w: World, k: string, queue': seq<Publication>, delivery: Delivery)
    requires Sound(w) && k in w.checkouts && DeliveryOk(w.graph, w.hosted, delivery)
    requires delivery.Idle? || (!w.checkouts[k].delivery.Idle? && delivery.p == w.checkouts[k].delivery.p)
    requires AllDescend(queue', w.checkouts[k].queue) && forall p | p in queue' :: p.candidate in w.graph
    ensures Sound(WithCheckout(w, k, w.checkouts[k].(queue := queue', delivery := delivery)))
  {
    var c := w.checkouts[k];
    DescendantsOk(w.graph, c.stamps, c.queue, queue');
    forall p | p in queue' ensures Logged(w.entries, k, p) {
      var q :| q in c.queue && Descends(p, q);
      assert Logged(w.entries, k, q);
    }
    if !delivery.Idle? {
      DescendantsOrdered(w.graph, c.queue, queue', delivery.p, delivery.p);
    }
    SetCheckout(w, k, c.(queue := queue', delivery := delivery));
  }

  lemma UpdatedFrom(queue: seq<Publication>, id: string, change: Publication -> Publication, p: Publication)
    returns (q: Publication)
    requires p in Update(queue, id, change)
    ensures q in queue && p == if q.id == id then change(q) else q
  {
    var updated := Update(queue, id, change);
    var i :| 0 <= i < |updated| && updated[i] == p;
    q := queue[i];
  }

  lemma UpdatedTo(queue: seq<Publication>, id: string, change: Publication -> Publication, q: Publication)
    requires q in queue
    ensures (if q.id == id then change(q) else q) in Update(queue, id, change)
  {
    var updated := Update(queue, id, change);
    var i :| 0 <= i < |queue| && queue[i] == q;
    assert updated[i] in updated;
  }

  /** Rewriting one entry of the queue without touching what it was reported for. */
  lemma UpdateQueue(w: World, k: string, id: string, change: Publication -> Publication)
    requires Sound(w) && k in w.checkouts
    requires forall q | q in w.checkouts[k].queue && q.id == id :: Descends(change(q), q) && change(q).candidate in w.graph
    ensures Sound(WithCheckout(w, k, w.checkouts[k].(queue := Update(w.checkouts[k].queue, id, change), delivery := Idle)))
  {
    var c := w.checkouts[k];
    var queue' := Update(c.queue, id, change);
    forall p | p in queue' ensures p.candidate in w.graph && exists q :: q in c.queue && Descends(p, q) {
      var q := UpdatedFrom(c.queue, id, change, p);
      assert Known(w.graph, c.stamps, q) && Descends(p, q);
    }
    ReplaceQueue(w, k, queue', Idle);
  }

  /** What is left after an acknowledgement was there before it, with the same request. */
  lemma CameFrom(queue: seq<Publication>, acknowledged: Publication, p: Publication) returns (q: Publication)
    requires p in Compacted(Retired(queue, acknowledged))
    ensures q in queue && p == (if Covers(acknowledged, q) then Acknowledge(q) else q) && SendOf(p) == SendOf(q)
  {
    var retired := Retired(queue, acknowledged);
    CompactionKeepsPendingWork(retired);
    var i :| 0 <= i < |retired| && retired[i] == p;
    q := queue[i];
  }

  function Reporting(w: World, k: string, id: string, branch: string, source: Oid, expected: Option<Oid>, now: int): World
    requires k in w.checkouts
  {
    var c := w.checkouts[k];
    WithCheckout(
      w.(owner := w.owner[id := k], entries := w.entries + [Entry(k, id, branch, source)]), k,
      c.(queue := c.queue + [NewPublication(id, PROJECT, branch, source, expected, now)], stamps := c.stamps[branch := now]))
  }

  lemma NewestComesLast(g: Graph<Changes>, stamps: map<string, int>, queue: seq<Publication>, p: Publication, q: Publication)
    requires Known(g, stamps, q) && Ordered(g, queue, q) && (p.branch in stamps ==> stamps[p.branch] < p.createdAt)
    ensures Known(g, stamps[p.branch := p.createdAt], q) && Ordered(g, queue + [p], q)
  {
  }

  lemma ReportedCheckout(g: Graph<Changes>, hosted: map<string, Oid>, c: Checkout, p: Publication)
    requires CheckoutOk(g, hosted, c) && p.source in g && p.candidate in g && p.project == PROJECT
    requires p.branch in c.stamps ==> c.stamps[p.branch] < p.createdAt
    requires forall q | q in c.queue && NotAfter(q, p) :: Body(g, q.source) <= Body(g, p.source)
    ensures CheckoutOk(g, hosted, c.(queue := c.queue + [p], stamps := c.stamps[p.branch := p.createdAt]))
  {
    forall q | q in c.queue ensures Known(g, c.stamps[p.branch := p.createdAt], q) && Ordered(g, c.queue + [p], q) {
      NewestComesLast(g, c.stamps, c.queue, p, q);
    }
    if !c.delivery.Idle? {
      NewestComesLast(g, c.stamps, c.queue, p, c.delivery.p);
    }
  }

  lemma MoreEntriesLog(entries: seq<Entry>, e: Entry, k: string, queue: seq<Publication>)
    requires AllLogged(entries, k, queue)
    ensures AllLogged(entries + [e], k, queue)
  {
    forall p | p in queue ensures Logged(entries + [e], k, p) {
      var x :| x in entries && x.checkout == k && x.branch == p.branch && x.source == p.source;
      assert x in entries + [e];
    }
  }

  lemma EnqueueKeepsSound(w: World, k: string, id: string, branch: string, source: Oid, expected: Option<Oid>, now: int)
    requires Sound(w) && k in w.checkouts && Reportable(w, k, branch, source, now)
    ensures Sound(Reporting(w, k, id, branch, source, expected, now))
  {
    var c := w.checkouts[k];
    var e := Entry(k, id, branch, source);
    var p := NewPublication(id, PROJECT, branch, source, expected, now);
    forall q | q in c.queue && NotAfter(q, p) ensures Body(w.graph, q.source) <= Body(w.graph, source) {
      assert Logged(w.entries, k, q);
      var x :| x in w.entries && x.checkout == k && x.branch == q.branch && x.source == q.source;
    }
    ReportedCheckout(w.graph, w.hosted, c, p);
    var w1 := w.(owner := w.owner[id := k], entries := w.entries + [e]);
    forall j | j in w.checkouts ensures AllLogged(w1.entries, j, w.checkouts[j].queue) {
      MoreEntriesLog(w.entries, e, j, w.checkouts[j].queue);
    }
    assert e in w1.entries;
    assert Logged(w1.entries, k, p);
    SetCheckout(w1, k, c.(queue := c.queue + [p], stamps := c.stamps[branch := now]));
  }

  lemma CompleteKeepsSound(w: World, k: string)
    requires Sound(w) && k in w.checkouts && w.checkouts[k].delivery.Confirmed?
    ensures Sound(WithCheckout(w, k, Completed(w.checkouts[k])))
  {
    var c := w.checkouts[k];
    var queue' := Compacted(Retired(c.queue, c.delivery.p));
    forall p | p in queue' ensures p.candidate in w.graph && exists q :: q in c.queue && Descends(p, q) {
      var q := CameFrom(c.queue, c.delivery.p, p);
      assert Known(w.graph, c.stamps, q) && Descends(p, q);
    }
    ReplaceQueue(w, k, queue', Recorded(c.delivery.p));
  }

  lemma CommitKeepsSound(w: World, k: string, changes: Changes)
    requires Sound(w) && k in w.checkouts
    ensures Sound(NextIn(w, k, CommitWork(k, changes)))
  {
    var c := w.checkouts[k];
    var parents := if c.current in c.heads then [c.heads[c.current]] else [];
    var body := if c.current in c.heads then Body(w.graph, c.heads[c.current]) + changes else changes;
    AddCommit(w, parents, body);
    MoveCheckout(Grown(w, parents, body), k, c.(heads := c.heads[c.current := w.next]));
  }

  lemma BranchStepKeepsSound(w: World, k: string, e: Event)
    requires Sound(w) && k in w.checkouts && (e.SwitchBranch? || e.ResetBranch?)
    ensures Sound(NextIn(w, k, e))
  {
    var c := w.checkouts[k];
    if e.SwitchBranch? {
      var heads := if e.branch !in c.heads && e.at in w.graph then c.heads[e.branch := e.at] else c.heads;
      MoveCheckout(w, k, c.(current := e.branch, heads := heads));
    } else if e.branch in c.heads && e.at in w.graph {
      MoveCheckout(w, k, c.(heads := c.heads[e.branch := e.at]));
    }
  }

  lemma FinishRebaseKeepsSound(w: World, k: string, onto: Option<Oid>)
    requires Sound(w) && k in w.checkouts && w.checkouts[k].delivery.Rebasing?
    ensures Sound(NextIn(w, k, FinishRebase(k, onto)))
  {
    var c := w.checkouts[k];
    var c' := c.(delivery := Rebased(c.delivery.p, c.delivery.remote));
    if onto.None? || onto.value !in w.graph || c.current !in c.heads {
      MoveCheckout(w, k, c');
    } else {
      var body := Body(w.graph, onto.value) + Body(w.graph, c.heads[c.current]);
      AddCommit(w, [onto.value], body);
      MoveCheckout(Grown(w, [onto.value], body), k, c'.(heads := c.heads[c.current := w.next]));
    }
  }

  lemma DeliveryStepKeepsSound(w: World, k: string, e: Event)
    requires Sound(w) && k in w.checkouts && (e.Load? || e.Fetch? || e.StartRebase?)
    ensures Sound(NextIn(w, k, e))
  {
    var c := w.checkouts[k];
    match e
    case Load(_, id) =>
      if c.delivery.Idle? && FindPending(c.queue, id).Some? {
        MoveCheckout(w, k, c.(delivery := Loaded(FindPending(c.queue, id).value)));
      }
    case Fetch(_) =>
      if c.delivery.Loaded? {
        MoveCheckout(w, k, c.(delivery := Observed(c.delivery.p, Lookup(w.hosted, c.delivery.p.branch))));
      }
    case StartRebase(_) =>
      if c.delivery.Observed? {
        MoveCheckout(w, k, c.(delivery := Rebasing(c.delivery.p, c.delivery.remote)));
      }
  }

  lemma EndingStepKeepsSound(w: World, k: string, e: Event)
    requires Sound(w) && k in w.checkouts && (e.SkipPush? || e.Crash? || e.Finish?)
    ensures Sound(NextIn(w, k, e))
  {
    var c := w.checkouts[k];
    if e.SkipPush? {
      if c.delivery.Observed? {
        MoveCheckout(w, k, c.(delivery := Pushed(c.delivery.p)));
      }
    } else {
      MoveCheckout(w, k, c.(delivery := Idle));
    }
  }

  lemma SendsDoNotMatter(w: World, sends: seq<Send>)
    requires Sound(w)
    ensures Sound(w.(sends := sends))
  {
  }

  /** A push with an expected head never takes hosted work away. */
  lemma PushKeepsSound(w: World, k: string)
    requires Sound(w) && k in w.checkouts
    ensures Sound(NextIn(w, k, Event.Push(k)))
  {
    var c := w.checkouts[k];
    if c.delivery.Observed? {
      var p := c.delivery.p;
      var w1 := w.(sends := w.sends + [SendOf(p)]);
      SendsDoNotMatter(w, w.sends + [SendOf(p)]);
      if Accepted(w, p) {
        if p.expected.Some? {
          AncestorsContained(w.graph, p.candidate, p.expected.value);
        }
        AdvanceHosted(w1, p.branch, p.candidate);
        MoveCheckout(w1.(hosted := w.hosted[p.branch := p.candidate]), k, c.(delivery := Pushed(p)));
      }
    }
  }

  lemma ConfirmKeepsSound(w: World, k: string)
    requires Sound(w) && k in w.checkouts
    ensures Sound(NextIn(w, k, Event.Confirm(k)))
  {
    var c := w.checkouts[k];
    if c.delivery.Pushed? && CandidateReachable(w, c.delivery.p, Lookup(w.hosted, c.delivery.p.branch)) {
      var p := c.delivery.p;
      SendsDoNotMatter(w, w.sends + [SendOf(p)]);
      AncestorsContained(w.graph, w.hosted[p.branch], p.candidate);
      MoveCheckout(w.(sends := w.sends + [SendOf(p)]), k, c.(delivery := Confirmed(p)));
    }
  }

  lemma RefreshKeepsSound(w: World, k: string, now: int)
    requires Sound(w) && k in w.checkouts
    ensures Sound(NextIn(w, k, Refresh(k, now)))
  {
    var c := w.checkouts[k];
    if c.delivery.Rebased? && c.current in c.heads {
      var remote, head := c.delivery.remote, c.heads[c.current];
      assert HeadsOk(w.graph, c.heads);
      UpdateQueue(w, k, c.delivery.p.id, q => NextAttempt(q, head, remote, now));
    }
  }

  lemma FailKeepsSound(w: World, k: string, error: string, next: int)
    requires Sound(w) && k in w.checkouts
    ensures Sound(NextIn(w, k, Fail(k, error, next)))
  {
    var c := w.checkouts[k];
    if !c.delivery.Idle? {
      forall q | q in c.queue ensures q.candidate in w.graph {
        assert Known(w.graph, c.stamps, q);
      }
      UpdateQueue(w, k, c.delivery.p.id, q => Failed(q, error, next));
    }
  }

  lemma HostStepKeepsSound(w: World, e: Event)
    requires Sound(w) && e.HostedAdvance?
    ensures Sound(Next(w, e))
  {
    if e.commit in w.graph && (e.branch in w.hosted ==> IsAncestor(w.graph, w.hosted[e.branch], e.commit)) {
      if e.branch in w.hosted {
        AncestorsContained(w.graph, e.commit, w.hosted[e.branch]);
      }
      AdvanceHosted(w, e.branch, e.commit);
    }
  }

  lemma LocalStepKeepsSound(w: World, k: string, e: Event)
    requires Sound(w) && k in w.checkouts && !e.HostedAdvance? && e.k == k
    requires e.CommitWork? || e.SwitchBranch? || e.ResetBranch? || e.Enqueue? || e.FinishRebase?
    ensures Sound(NextIn(w, k, e))
  {
    match e
    case CommitWork(_, changes) => CommitKeepsSound(w, k, changes);
    case FinishRebase(_, onto) => if w.checkouts[k].delivery.Rebasing? { FinishRebaseKeepsSound(w, k, onto); }
    case Enqueue(_, id, branch, source, expected, now) =>
      if id !in w.owner && Reportable(w, k, branch, source, now) {
        EnqueueKeepsSound(w, k, id, branch, source, expected, now);
      }
    case _ => BranchStepKeepsSound(w, k, e);
  }

  lemma CheckoutStepKeepsSound(w: World, k: string, e: Event)
    requires Sound(w) && !e.HostedAdvance? && e.k == k && k in w.checkouts
    ensures Sound(NextIn(w, k, e))
  {
    if e.CommitWork? || e.SwitchBranch? || e.ResetBranch? || e.FinishRebase? || e.Enqueue? {
      LocalStepKeepsSound(w, k, e);
    } else if e.Load? || e.Fetch? || e.StartRebase? {
      DeliveryStepKeepsSound(w, k, e);
    } else if e.SkipPush? || e.Crash? || e.Finish? {
      EndingStepKeepsSound(w, k, e);
    } else if e.Refresh? {
      RefreshKeepsSound(w, k, e.now);
    } else if e.Fail? {
      FailKeepsSound(w, k, e.error, e.next);
    } else if e.Push? {
      PushKeepsSound(w, k);
    } else if e.Confirm? {
      ConfirmKeepsSound(w, k);
    } else if w.checkouts[k].delivery.Confirmed? {
      CompleteKeepsSound(w, k);
    }
  }

  lemma StepKeepsSound(w: World, e: Event)
    requires Sound(w)
    ensures Sound(Next(w, e))
  {
    if e.HostedAdvance? {
      HostStepKeepsSound(w, e);
    } else if e.k in w.checkouts {
      CheckoutStepKeepsSound(w, e.k, e);
    }
  }

  // ---- requests ----

  /** The entry being delivered is in the queue and pending until the acknowledgement is
      written; from then on it is not pending, if compaction left it there at all. */
  ghost predicate Working(c: Checkout) {
    !c.delivery.Idle? ==>
      && (forall q :: q in c.queue && q.id == c.delivery.p.id ==> (Pending(q) <==> !c.delivery.Recorded?))
      && (!c.delivery.Recorded? ==> exists q :: q in c.queue && q.id == c.delivery.p.id)
  }

  /** A request that went out belongs to an attempt the publication has reached, and to its
      current attempt only with the current payload. */
  predicate Sent(s: Send, p: Publication) {
    s.id == p.id ==> s.attempt <= p.attempt && (s.attempt == p.attempt ==> s == SendOf(p))
  }

  ghost predicate AttemptsIn(owner: map<string, string>, sends: seq<Send>, k: string, c: Checkout) {
    && (forall p :: p in c.queue ==> Lookup(owner, p.id) == Some(k))
    && (forall p, q :: p in c.queue && q in c.queue && p.id == q.id ==> p == q)
    && (forall p, s :: p in c.queue && s in sends ==> Sent(s, p))
    && Working(c)
    && (!c.delivery.Idle? ==>
          && Lookup(owner, c.delivery.p.id) == Some(k)
          && (forall q :: q in c.queue && q.id == c.delivery.p.id ==> SameRequest(q, c.delivery.p))
          && (forall s :: s in sends ==> Sent(s, c.delivery.p)))
  }

  ghost predicate Attempts(w: World) {
    && (forall k :: k in w.checkouts ==> AttemptsIn(w.owner, w.sends, k, w.checkouts[k]))
    && (forall s :: s in w.sends ==> s.id in w.owner)
    && (forall e :: e in w.entries ==> Lookup(w.owner, e.id) == Some(e.checkout))
    && (forall s, t :: s in w.sends && t in w.sends && s.id == t.id && s.attempt == t.attempt ==> s == t)
  }

  lemma SetCheckoutAttempts(w: World, k: string, c': Checkout)
    requires Attempts(w) && AttemptsIn(w.owner, w.sends, k, c')
    ensures Attempts(WithCheckout(w, k, c'))
  {
  }

  /** A request of the current attempt of `p`, seen from a checkout. */
  lemma SentFrom(owner: map<string, string>, sends: seq<Send>, k: string, p: Publication, j: string, c: Checkout)
    requires AttemptsIn(owner, sends, j, c) && Lookup(owner, p.id) == Some(k)
    requires j == k ==> !c.delivery.Idle? && c.delivery.p == p
    ensures AttemptsIn(owner, sends + [SendOf(p)], j, c)
  {
    forall q | q in c.queue ensures Sent(SendOf(p), q) {
      if q.id == p.id {
        assert j == k && SameRequest(q, p);
      }
    }
    if !c.delivery.Idle? && c.delivery.p.id == p.id {
      assert j == k;
    }
  }

  lemma NextDelivery(owner: map<string, string>, sends: seq<Send>, k: string, c: Checkout, delivery: Delivery)
    requires AttemptsIn(owner, sends, k, c) && !c.delivery.Idle? && !delivery.Idle? && delivery.p == c.delivery.p
    requires delivery.Recorded? <==> c.delivery.Recorded?
    ensures AttemptsIn(owner, sends, k, c.(delivery := delivery))
  {
  }

  lemma SendAttempt(w: World, k: string, delivery: Delivery)
    requires Attempts(w) && k in w.checkouts && !w.checkouts[k].delivery.Idle?
    requires !delivery.Idle? && delivery.p == w.checkouts[k].delivery.p
    requires delivery.Recorded? <==> w.checkouts[k].delivery.Recorded?
    ensures Attempts(WithCheckout(w.(sends := w.sends + [SendOf(delivery.p)]), k, w.checkouts[k].(delivery := delivery)))
  {
    var w1 := w.(sends := w.sends + [SendOf(delivery.p)]);
    RequestAttempts(w, k);
    NextDelivery(w1.owner, w1.sends, k, w.checkouts[k], delivery);
    SetCheckoutAttempts(w1, k, w.checkouts[k].(delivery := delivery));
  }

  lemma RequestAttempts(w: World, k: string)
    requires Attempts(w) && k in w.checkouts && !w.checkouts[k].delivery.Idle?
    ensures Attempts(w.(sends := w.sends + [SendOf(w.checkouts[k].delivery.p)]))
  {
    var p := w.checkouts[k].delivery.p;
    assert AttemptsIn(w.owner, w.sends, k, w.checkouts[k]);
    forall j | j in w.checkouts ensures AttemptsIn(w.owner, w.sends + [SendOf(p)], j, w.checkouts[j]) {
      SentFrom(w.owner, w.sends, k, p, j, w.checkouts[j]);
    }
    forall s | s in w.sends && s.id == p.id && s.attempt == p.attempt ensures s == SendOf(p) {
      assert Sent(s, p);
    }
  }

  lemma UpdateAttempts(w: World, k: string, id: string, change: Publication -> Publication)
    requires Attempts(w) && k in w.checkouts
    requires forall q :: change(q).id == q.id && (change(q).attempt > q.attempt || SendOf(change(q)) == SendOf(q))
    ensures Attempts(WithCheckout(w, k, w.checkouts[k].(queue := Update(w.checkouts[k].queue, id, change), delivery := Idle)))
  {
    assert AttemptsIn(w.owner, w.sends, k, w.checkouts[k]);
    UpdatedAttemptsIn(w.owner, w.sends, k, w.checkouts[k], id, change);
    SetCheckoutAttempts(w, k, w.checkouts[k].(queue := Update(w.checkouts[k].queue, id, change), delivery := Idle));
  }

  lemma UpdatedAttemptsIn(owner: map<string, string>, sends: seq<Send>, k: string, c: Checkout, id: string, change: Publication -> Publication)
    requires AttemptsIn(owner, sends, k, c)
    requires forall q :: change(q).id == q.id && (change(q).attempt > q.attempt || SendOf(change(q)) == SendOf(q))
    ensures AttemptsIn(owner, sends, k, c.(queue := Update(c.queue, id, change), delivery := Idle))
  {
    var queue' := Update(c.queue, id, change);
    forall p | p in queue' ensures exists q :: q in c.queue && p == if q.id == id then change(q) else q {
      var q := UpdatedFrom(c.queue, id, change, p);
    }
    forall p, s | p in queue' && s in sends ensures Sent(s, p) {
      var q := UpdatedFrom(c.queue, id, change, p);
      assert Sent(s, q);
    }
  }

  lemma CompleteWorks(w: World, k: string)
    requires Attempts(w) && k in w.checkouts && w.checkouts[k].delivery.Confirmed?
    ensures var c' := Completed(w.checkouts[k]);
            Working(c') && forall q :: q in c'.queue && q.id == c'.delivery.p.id ==> SameRequest(q, c'.delivery.p)
  {
    var c := w.checkouts[k];
    var p := c.delivery.p;
    assert AttemptsIn(w.owner, w.sends, k, c);
    forall q | q in Completed(c).queue && q.id == p.id ensures !Pending(q) && SameRequest(q, p) {
      var q0 := CameFrom(c.queue, p, q);
      assert SameRequest(q0, p) && Pending(q0);
      assert Covers(p, q0);
    }
  }

  lemma CompleteAttempts(w: World, k: string)
    requires Attempts(w) && k in w.checkouts && w.checkouts[k].delivery.Confirmed?
    ensures Attempts(WithCheckout(w, k, Completed(w.checkouts[k])))
  {
    var c := w.checkouts[k];
    var c' := Completed(c);
    assert AttemptsIn(w.owner, w.sends, k, c);
    forall p | p in c'.queue ensures Lookup(w.owner, p.id) == Some(k) && forall s :: s in w.sends ==> Sent(s, p) {
      var q := CameFrom(c.queue, c.delivery.p, p);
      forall s | s in w.sends ensures Sent(s, p) {
        assert Sent(s, q);
      }
    }
    forall p, q | p in c'.queue && q in c'.queue && p.id == q.id ensures p == q {
      var p0 := CameFrom(c.queue, c.delivery.p, p);
      var q0 := CameFrom(c.queue, c.delivery.p, q);
      assert p0.id == q0.id;
    }
    CompleteWorks(w, k);
    SetCheckoutAttempts(w, k, c');
  }

  lemma EnqueueAttempts(w: World, k: string, id: string, e: Entry, p: Publication, stamps: map<string, int>)
    requires Attempts(w) && k in w.checkouts && id !in w.owner && p.id == id && e.id == id && e.checkout == k
    ensures Attempts(WithCheckout(w.(owner := w.owner[id := k], entries := w.entries + [e]), k,
                                  w.checkouts[k].(queue := w.checkouts[k].queue + [p], stamps := stamps)))
  {
    var w1 := w.(owner := w.owner[id := k], entries := w.entries + [e]);
    NewIdAttempts(w, k, id, e);
    assert AttemptsIn(w.owner, w.sends, k, w.checkouts[k]) && AttemptsIn(w1.owner, w1.sends, k, w.checkouts[k]);
    NewEntryAttempts(w1.owner, w1.sends, k, w.checkouts[k], p, stamps);
    SetCheckoutAttempts(w1, k, w.checkouts[k].(queue := w.checkouts[k].queue + [p], stamps := stamps));
  }

  lemma NewIdAttempts(w: World, k: string, id: string, e: Entry)
    requires Attempts(w) && id !in w.owner && e.id == id && e.checkout == k
    ensures Attempts(w.(owner := w.owner[id := k], entries := w.entries + [e]))
  {
    forall j | j in w.checkouts ensures AttemptsIn(w.owner[id := k], w.sends, j, w.checkouts[j]) {
      assert AttemptsIn(w.owner, w.sends, j, w.checkouts[j]);
    }
  }

  lemma NewEntryAttempts(owner: map<string, string>, sends: seq<Send>, k: string, c: Checkout, p: Publication, stamps: map<string, int>)
    requires AttemptsIn(owner, sends, k, c) && Lookup(owner, p.id) == Some(k)
    requires forall s :: s in sends ==> s.id != p.id
    requires forall q :: q in c.queue ==> q.id != p.id
    requires !c.delivery.Idle? ==> c.delivery.p.id != p.id
    ensures AttemptsIn(owner, sends, k, c.(queue := c.queue + [p], stamps := stamps))
  {
  }

  lemma StepKeepsAttempts(w: World, e: Event)
    requires Attempts(w)
    ensures Attempts(Next(w, e))
  {
    if !e.HostedAdvance? && e.k in w.checkouts {
      if e.Enqueue? {
        if e.id !in w.owner {
          EnqueueStepAttempts(w, e);
        }
      } else if e.Refresh? {
        RefreshStepAttempts(w, e);
      } else if e.Fail? {
        FailStepAttempts(w, e);
      } else if e.Complete? {
        if w.checkouts[e.k].delivery.Confirmed? {
          CompleteAttempts(w, e.k);
        }
      } else if e.Push? {
        PushStepAttempts(w, e.k);
      } else if e.Confirm? {
        ConfirmStepAttempts(w, e.k);
      } else if Quiet(e) {
        QuietStepAttempts(w, e);
      }
    }
  }

  lemma EnqueueStepAttempts(w: World, e: Event)
    requires Attempts(w) && e.Enqueue? && e.k in w.checkouts && e.id !in w.owner
    ensures Attempts(Next(w, e))
  {
    EnqueueAttempts(w, e.k, e.id, Entry(e.k, e.id, e.branch, e.source),
                    NewPublication(e.id, PROJECT, e.branch, e.source, e.expected, e.now),
                    w.checkouts[e.k].stamps[e.branch := e.now]);
  }

  lemma RefreshStepAttempts(w: World, e: Event)
    requires Attempts(w) && e.Refresh? && e.k in w.checkouts
    ensures Attempts(Next(w, e))
  {
    var c := w.checkouts[e.k];
    if c.delivery.Rebased? && c.current in c.heads {
      var remote, head, now := c.delivery.remote, c.heads[c.current], e.now;
      UpdateAttempts(w, e.k, c.delivery.p.id, q => NextAttempt(q, head, remote, now));
    }
  }

  lemma FailStepAttempts(w: World, e: Event)
    requires Attempts(w) && e.Fail? && e.k in w.checkouts
    ensures Attempts(Next(w, e))
  {
    var c := w.checkouts[e.k];
    if !c.delivery.Idle? {
      var error, next := e.error, e.next;
      UpdateAttempts(w, e.k, c.delivery.p.id, q => Failed(q, error, next));
    }
  }

  lemma PushStepAttempts(w: World, k: string)
    requires Attempts(w) && k in w.checkouts
    ensures Attempts(Next(w, Event.Push(k)))
  {
    var c := w.checkouts[k];
    if c.delivery.Observed? {
      SendAttempt(w, k, Pushed(c.delivery.p));
      RequestAttempts(w, k);
    }
  }

  lemma ConfirmStepAttempts(w: World, k: string)
    requires Attempts(w) && k in w.checkouts
    ensures Attempts(Next(w, Event.Confirm(k)))
  {
    if w.checkouts[k].delivery.Pushed? {
      SendAttempt(w, k, Confirmed(w.checkouts[k].delivery.p));
    }
  }

  /** Steps that send nothing and leave the queue alone. */
  predicate Quiet(e: Event) {
    e.CommitWork? || e.SwitchBranch? || e.ResetBranch? || e.Finish? || e.Load? || e.Fetch? || e.StartRebase? || e.FinishRebase? || e.SkipPush? || e.Crash?
  }

  /** What a quiet step may do to the delivery. */
  predicate QuietMove(c: Checkout, c': Checkout) {
    && c'.queue == c.queue
    && (|| c'.delivery.Idle?
        || (c'.delivery.Loaded? && c'.delivery.p in c.queue && Pending(c'.delivery.p))
        || (!c.delivery.Idle? && c'.delivery.p == c.delivery.p && (c'.delivery.Recorded? <==> c.delivery.Recorded?)))
  }

  predicate QuietShape(w: World, k: string, w': World)
    requires k in w.checkouts
  {
    && w'.owner == w.owner && w'.sends == w.sends && w'.entries == w.entries && k in w'.checkouts
    && w'.checkouts == w.checkouts[k := w'.checkouts[k]]
    && QuietMove(w.checkouts[k], w'.checkouts[k])
  }

  lemma BranchStepsAreQuiet(w: World, k: string, e: Event)
    requires k in w.checkouts && (e.CommitWork? || e.SwitchBranch? || e.ResetBranch? || e.FinishRebase?)
    ensures QuietShape(w, k, NextIn(w, k, e))
  {
  }

  lemma DeliveryStepsAreQuiet(w: World, k: string, e: Event)
    requires k in w.checkouts && (e.Finish? || e.Fetch? || e.StartRebase? || e.SkipPush? || e.Crash?)
    ensures QuietShape(w, k, NextIn(w, k, e))
  {
  }

  lemma LoadIsQuiet(w: World, k: string, id: string)
    requires k in w.checkouts
    ensures QuietShape(w, k, NextIn(w, k, Load(k, id)))
  {
  }

  lemma QuietStepShape(w: World, k: string, e: Event)
    requires k in w.checkouts && Quiet(e)
    ensures QuietShape(w, k, NextIn(w, k, e))
  {
    if e.CommitWork? || e.SwitchBranch? || e.ResetBranch? || e.FinishRebase? {
      BranchStepsAreQuiet(w, k, e);
    } else if e.Load? {
      LoadIsQuiet(w, k, e.id);
    } else {
      DeliveryStepsAreQuiet(w, k, e);
    }
  }

  lemma QuietStepAttempts(w: World, e: Event)
    requires Attempts(w) && Quiet(e) && e.k in w.checkouts
    ensures Attempts(Next(w, e))
  {
    QuietStepShape(w, e.k, e);
    ShapeKeepsAttempts(w, e.k, Next(w, e));
  }

  lemma ShapeKeepsAttempts(w: World, k: string, w': World)
    requires Attempts(w) && k in w.checkouts && QuietShape(w, k, w')
    ensures Attempts(w')
  {
    var c' := w'.checkouts[k];
    assert AttemptsIn(w.owner, w.sends, k, w.checkouts[k]);
    SameQueueAttempts(w.owner, w.sends, k, w.checkouts[k], c');
    SetCheckoutAttempts(w, k, c');
  }

  lemma SameQueueAttempts(owner: map<string, string>, sends: seq<Send>, k: string, c: Checkout, c': Checkout)
    requires AttemptsIn(owner, sends, k, c) && QuietMove(c, c')
    ensures AttemptsIn(owner, sends, k, c')
  {
  }

  // ---- what can happen to reported work ----

  ghost predicate Matches(p: Publication, e: Entry) { p.id == e.id && p.branch == e.branch && p.source == e.source }

  ghost predicate Holds(queue: seq<Publication>, e: Entry) { exists p :: p in queue && Matches(p, e) && Pending(p) }

  ghost predicate Held(w: World, e: Entry) {
    e.checkout in w.checkouts && Holds(w.checkouts[e.checkout].queue, e)
  }

  predicate Contained(w: World, e: Entry) { Body(w.graph, e.source) <= Hosted(w, e.branch) }

  /** The work of an entry is still queued, or hosted. */
  ghost predicate Safe(w: World, e: Entry) { Held(w, e) || Contained(w, e) }

  /** The step acknowledges the entry, on its own or along with a newer one. */
  ghost predicate Retires(w: World, event: Event, e: Entry) {
    && event.Complete? && event.k == e.checkout && event.k in w.checkouts && w.checkouts[event.k].delivery.Confirmed?
    && exists p :: p in w.checkouts[event.k].queue && Matches(p, e) && Covers(w.checkouts[event.k].delivery.p, p)
  }

  /** The step is a failure of the catalog work that follows the entry's own acknowledgement. */
  ghost predicate Reopens(w: World, event: Event, e: Entry) {
    && event.Fail? && event.k == e.checkout && event.k in w.checkouts && w.checkouts[event.k].delivery.Recorded?
    && w.checkouts[event.k].delivery.p.id == e.id
    && exists p :: p in w.checkouts[event.k].queue && Matches(p, e)
  }

  lemma UpdatedEntry(queue: seq<Publication>, id: string, change: Publication -> Publication, e: Entry)
    requires forall q | q in queue && q.id == id :: Descends(change(q), q)
    ensures Holds(Update(queue, id, change), e)
       <==> exists q :: q in queue && Matches(q, e) && Pending(if q.id == id then change(q) else q)
  {
    if p :| p in Update(queue, id, change) && Matches(p, e) && Pending(p) {
      var q := UpdatedFrom(queue, id, change, p);
      assert Matches(q, e);
    }
    if q :| q in queue && Matches(q, e) && Pending(if q.id == id then change(q) else q) {
      UpdatedTo(queue, id, change, q);
      assert Matches(if q.id == id then change(q) else q, e);
    }
  }

  /** One entry of the queue carries the ID. */
  predicate UniqueIds(queue: seq<Publication>) {
    forall p, q | p in queue && q in queue && p.id == q.id :: p == q
  }

  lemma FailedEntry(c: Checkout, error: string, next: int, e: Entry)
    requires !c.delivery.Idle? && Working(c) && UniqueIds(c.queue)
    ensures Holds(Update(c.queue, c.delivery.p.id, q => Failed(q, error, next)), e)
       <==> Holds(c.queue, e) || (c.delivery.Recorded? && c.delivery.p.id == e.id && exists p :: p in c.queue && Matches(p, e))
  {
    UpdatedEntry(c.queue, c.delivery.p.id, q => Failed(q, error, next), e);
  }

  lemma RetiredEntry(queue: seq<Publication>, p: Publication, e: Entry)
    requires UniqueIds(queue)
    ensures Holds(Compacted(Retired(queue, p)), e)
       <==> Holds(queue, e) && !exists q :: q in queue && Matches(q, e) && Covers(p, q)
  {
    var retired := Retired(queue, p);
    CompactionKeepsPendingWork(retired);
    if r :| r in Compacted(retired) && Matches(r, e) && Pending(r) {
      var q := CameFrom(queue, p, r);
      assert Matches(q, e) && Pending(q) && !Covers(p, q);
    }
    if q :| q in queue && Matches(q, e) && Pending(q) && !Covers(p, q) {
      var i :| 0 <= i < |queue| && queue[i] == q;
      assert retired[i] == q && q in retired;
    }
  }

  lemma HeldAfterRenewal(w: World, k: string, now: int, e: Entry)
    requires k == e.checkout && k in w.checkouts
    ensures Held(Next(w, Refresh(k, now)), e) <==> Held(w, e)
  {
    var c := w.checkouts[k];
    if c.delivery.Rebased? && c.current in c.heads {
      var remote, head := c.delivery.remote, c.heads[c.current];
      UpdatedEntry(c.queue, c.delivery.p.id, q => NextAttempt(q, head, remote, now), e);
    }
  }

  lemma HeldAfterFailure(w: World, k: string, error: string, next: int, e: Entry)
    requires Attempts(w) && k == e.checkout && k in w.checkouts
    ensures Held(Next(w, Fail(k, error, next)), e) <==> Held(w, e) || Reopens(w, Fail(k, error, next), e)
  {
    var c := w.checkouts[k];
    assert AttemptsIn(w.owner, w.sends, k, c);
    if !c.delivery.Idle? {
      FailedEntry(c, error, next, e);
    }
  }

  lemma HeldAfterCompletion(w: World, k: string, e: Entry)
    requires Attempts(w) && k == e.checkout && k in w.checkouts
    ensures Held(Next(w, Event.Complete(k)), e) <==> Held(w, e) && !Retires(w, Event.Complete(k), e)
  {
    var c := w.checkouts[k];
    assert AttemptsIn(w.owner, w.sends, k, c);
    if c.delivery.Confirmed? {
      RetiredEntry(c.queue, c.delivery.p, e);
    }
  }

  lemma HeldAfterReport(w: World, event: Event, e: Entry)
    requires event.Enqueue? && event.k in w.checkouts && (e.id in w.owner)
    ensures Held(Next(w, event), e) <==> Held(w, e)
  {
    if event.k == e.checkout && event.id !in w.owner {
      var c := w.checkouts[event.k];
      var p := NewPublication(event.id, PROJECT, event.branch, event.source, event.expected, event.now);
      assert !Matches(p, e);
      forall q ensures q in c.queue + [p] <==> q in c.queue || q == p {
      }
    }
  }

  lemma HeldAfterQuietStep(w: World, event: Event, e: Entry)
    requires Quiet(event) && event.k in w.checkouts && event.k == e.checkout
    ensures Held(Next(w, event), e) <==> Held(w, e)
  {
    QuietStepShape(w, event.k, event);
  }

  lemma HeldAfterSending(w: World, event: Event, e: Entry)
    requires (event.Push? || event.Confirm?) && event.k in w.checkouts && event.k == e.checkout
    ensures Held(Next(w, event), e) <==> Held(w, e)
  {
  }

  lemma OtherCheckoutsStay(w: World, event: Event, k: string)
    requires event.HostedAdvance? || event.k !in w.checkouts || event.k != k
    ensures k in Next(w, event).checkouts <==> k in w.checkouts
    ensures k in w.checkouts ==> Next(w, event).checkouts[k] == w.checkouts[k]
  {
    if !event.HostedAdvance? && event.k in w.checkouts && Quiet(event) {
      QuietStepShape(w, event.k, event);
    }
  }

  lemma HeldAfterOwnStep(w: World, event: Event, e: Entry)
    requires Attempts(w) && !event.HostedAdvance? && event.k in w.checkouts && event.k == e.checkout && e.id in w.owner
    ensures Held(Next(w, event), e) <==> (Held(w, e) && !Retires(w, event, e)) || Reopens(w, event, e)
  {
    if Quiet(event) {
      HeldAfterQuietStep(w, event, e);
    } else if event.Push? || event.Confirm? {
      HeldAfterSending(w, event, e);
    } else {
      match event
      case Enqueue(_, _, _, _, _, _) => HeldAfterReport(w, event, e);
      case Refresh(k, now) => HeldAfterRenewal(w, k, now, e);
      case Fail(k, error, next) => HeldAfterFailure(w, k, error, next, e);
      case Complete(k) => HeldAfterCompletion(w, k, e);
    }
  }

  /** How a step changes whether a reported entry is queued. */
  lemma HeldAfter(w: World, event: Event, e: Entry)
    requires Attempts(w) && e in w.entries
    ensures Held(Next(w, event), e) <==> (Held(w, e) && !Retires(w, event, e)) || Reopens(w, event, e)
  {
    assert Lookup(w.owner, e.id) == Some(e.checkout);
    if !event.HostedAdvance? && event.k in w.checkouts && event.k == e.checkout {
      HeldAfterOwnStep(w, event, e);
    } else {
      OtherCheckoutsStay(w, event, e.checkout);
    }
  }

  /** A step adds at most one commit. */
  lemma StepKeepsBodies(w: World, event: Event)
    requires Sound(w)
    ensures Extends(w.graph, Next(w, event).graph)
  {
    if event.CommitWork? || event.FinishRebase? {
      assert w.next !in w.graph;
    } else {
      OtherStepsKeepGraph(w, event);
    }
  }

  lemma OtherStepsKeepGraph(w: World, event: Event)
    requires !event.CommitWork? && !event.FinishRebase?
    ensures Next(w, event).graph == w.graph
  {
  }

  lemma StepKeepsHosted(w: World, e: Event, branch: string)
    requires Sound(w)
    ensures Hosted(w, branch) <= Hosted(Next(w, e), branch)
  {
    if e.HostedAdvance? {
      HostStepKeepsHosted(w, e, branch);
    } else if e.Push? {
      PushKeepsHosted(w, e.k, branch);
    } else {
      StepKeepsBodies(w, e);
      OtherStepsLeaveTheHost(w, e);
      HostedInLargerGraph(w.graph, Next(w, e).graph, w.hosted, branch);
    }
  }

  lemma HostedInLargerGraph(g: Graph<Changes>, g': Graph<Changes>, hosted: map<string, Oid>, branch: string)
    requires Extends(g, g') && HostedOk(g, hosted)
    ensures HostedBody(g, hosted, branch) == HostedBody(g', hosted, branch)
  {
  }

  lemma HostStepKeepsHosted(w: World, e: Event, branch: string)
    requires Sound(w) && e.HostedAdvance?
    ensures Hosted(w, branch) <= Hosted(Next(w, e), branch)
  {
    if e.branch in w.hosted && e.commit in w.graph && IsAncestor(w.graph, w.hosted[e.branch], e.commit) {
      AncestorsContained(w.graph, e.commit, w.hosted[e.branch]);
    }
  }

  lemma PushKeepsHosted(w: World, k: string, branch: string)
    requires Sound(w)
    ensures Hosted(w, branch) <= Hosted(Next(w, Event.Push(k)), branch)
  {
    if k in w.checkouts && w.checkouts[k].delivery.Observed? {
      var p := w.checkouts[k].delivery.p;
      if Accepted(w, p) && p.expected.Some? {
        AncestorsContained(w.graph, p.candidate, p.expected.value);
      }
    }
  }

  lemma OtherStepsLeaveTheHost(w: World, e: Event)
    requires !e.HostedAdvance? && !e.Push?
    ensures Next(w, e).hosted == w.hosted
  {
  }

  lemma ContainedStays(w: World, event: Event, e: Entry)
    requires Sound(w) && e in w.entries && Contained(w, e)
    ensures Contained(Next(w, event), e)
  {
    StepKeepsHosted(w, event, e.branch);
    StepKeepsBodies(w, event);
  }

  lemma CompletionLeavesTheHost(w: World, event: Event, e: Entry)
    requires event.Complete?
    ensures Contained(Next(w, event), e) <==> Contained(w, e)
  {
  }

  /** The step acknowledges queued work that the host lacks. */
  ghost predicate LosesNow(w: World, event: Event, e: Entry) {
    e in w.entries && Held(w, e) && Retires(w, event, e) && !Contained(w, e)
  }

  /** The step reopens the entry, or the host has its work afterwards. */
  ghost predicate SavesNow(w: World, event: Event, e: Entry) {
    Reopens(w, event, e) || Contained(Next(w, event), e)
  }

  /** A step loses an entry exactly when it acknowledges it while the host lacks its work. */
  lemma StepLosesIff(w: World, event: Event, e: Entry)
    requires Sound(w) && Attempts(w) && e in w.entries
    ensures Safe(w, e) && !Safe(Next(w, event), e) <==> LosesNow(w, event, e)
  {
    HeldAfter(w, event, e);
    if Contained(w, e) {
      ContainedStays(w, event, e);
    }
    if Retires(w, event, e) {
      CompletionLeavesTheHost(w, event, e);
    }
  }

  /** ... and it brings a lost entry back exactly when it reopens it or when the host gains it. */
  lemma StepSavesIff(w: World, event: Event, e: Entry)
    requires Sound(w) && Attempts(w) && e in w.entries && !Safe(w, e)
    ensures Safe(Next(w, event), e) <==> SavesNow(w, event, e)
  {
    HeldAfter(w, event, e);
  }

  // ---- candidates without their work ----

  predicate Carries(g: Graph<Changes>, p: Publication) { Body(g, p.source) <= Body(g, p.candidate) }

  predicate HeadContains(g: Graph<Changes>, c: Checkout)
    requires !c.delivery.Idle? && c.current in c.heads
  {
    Body(g, c.delivery.p.source) <= Body(g, c.heads[c.current])
  }

  /** The step renews an attempt of this publication from a HEAD without the reported commit. */
  predicate Careless(w: World, event: Event, k: string, id: string) {
    && event.Refresh? && event.k == k && k in w.checkouts
    && w.checkouts[k].delivery.Rebased? && w.checkouts[k].delivery.p.id == id
    && w.checkouts[k].current in w.checkouts[k].heads && !HeadContains(w.graph, w.checkouts[k])
  }

  /** Some copy of the publication has a candidate without the reported commit. */
  ghost predicate Lacking(g: Graph<Changes>, c: Checkout, id: string) {
    || (exists p :: p in c.queue && p.id == id && !Carries(g, p))
    || (!c.delivery.Idle? && c.delivery.p.id == id && !Carries(g, c.delivery.p))
  }

  predicate SameWork(p: Publication, q: Publication) { p.id == q.id && p.source == q.source && p.candidate == q.candidate }

  /** Every copy in c' is a copy in c, or starts at its own source. */
  ghost predicate NoNewWork(c: Checkout, c': Checkout) {
    && (forall p | p in c'.queue :: p.candidate == p.source || exists q :: q in c.queue && SameWork(p, q))
    && (!c'.delivery.Idle? ==> c'.delivery.p in c.queue || (!c.delivery.Idle? && c'.delivery.p == c.delivery.p))
  }

  lemma NoNewLack(g: Graph<Changes>, g': Graph<Changes>, stamps: map<string, int>, c: Checkout, c': Checkout, id: string)
    requires Extends(g, g') && QueueOk(g, stamps, c.queue) && (!c.delivery.Idle? ==> Known(g, stamps, c.delivery.p))
    requires NoNewWork(c, c') && Lacking(g', c', id)
    ensures Lacking(g, c, id)
  {
    if p :| p in c'.queue && p.id == id && !Carries(g', p) {
      var q :| q in c.queue && SameWork(p, q);
      assert Known(g, stamps, q);
    } else {
      assert Known(g, stamps, c'.delivery.p);
    }
  }

  lemma UpdateNoNewWork(c: Checkout, id: string, change: Publication -> Publication)
    requires forall q :: SameWork(change(q), q)
    ensures NoNewWork(c, c.(queue := Update(c.queue, id, change), delivery := Idle))
  {
    forall p | p in Update(c.queue, id, change) ensures exists q :: q in c.queue && SameWork(p, q) {
      var q := UpdatedFrom(c.queue, id, change, p);
      assert SameWork(p, q);
    }
  }

  lemma CompletedNoNewWork(c: Checkout)
    requires c.delivery.Confirmed?
    ensures NoNewWork(c, Completed(c))
  {
    forall p | p in Completed(c).queue ensures exists q :: q in c.queue && SameWork(p, q) {
      var q := CameFrom(c.queue, c.delivery.p, p);
      assert SameWork(p, q);
    }
  }

  lemma QuietNoNewWork(c: Checkout, c': Checkout)
    requires QuietMove(c, c')
    ensures NoNewWork(c, c')
  {
    assert forall p :: SameWork(p, p);
  }

  lemma ReportNoNewWork(c: Checkout, p: Publication, stamps: map<string, int>)
    requires p.candidate == p.source
    ensures NoNewWork(c, c.(queue := c.queue + [p], stamps := stamps))
  {
    assert forall q :: SameWork(q, q);
  }

  /** No step but a renewal gives a publication a new candidate. */
  lemma StepNoNewWork(w: World, k: string, event: Event)
    requires k in w.checkouts && (event.HostedAdvance? || event.k != k || !event.Refresh?)
    ensures k in Next(w, event).checkouts && NoNewWork(w.checkouts[k], Next(w, event).checkouts[k])
  {
    var c := w.checkouts[k];
    assert QuietMove(c, c) && NoNewWork(c, c) by {
      QuietNoNewWork(c, c);
    }
    if !event.HostedAdvance? && event.k == k {
      if Quiet(event) {
        QuietStepShape(w, k, event);
        QuietNoNewWork(c, NextIn(w, k, event).checkouts[k]);
      } else if event.Enqueue? {
        ReportNoNewWork(c, NewPublication(event.id, PROJECT, event.branch, event.source, event.expected, event.now),
                        c.stamps[event.branch := event.now]);
      } else if event.Fail? {
        var error, next := event.error, event.next;
        if !c.delivery.Idle? {
          UpdateNoNewWork(c, c.delivery.p.id, q => Failed(q, error, next));
        }
      } else if event.Complete? {
        if c.delivery.Confirmed? {
          CompletedNoNewWork(c);
        }
      } else {
        SendingNoNewWork(w, k, event);
      }
    }
  }

  lemma SendingNoNewWork(w: World, k: string, event: Event)
    requires k in w.checkouts && (event.Push? || event.Confirm?) && event.k == k
    ensures NoNewWork(w.checkouts[k], NextIn(w, k, event).checkouts[k])
  {
    assert forall p :: SameWork(p, p);
  }

  lemma RenewalLacks(w: World, k: string, event: Event, id: string)
    requires Sound(w) && Attempts(w) && k in w.checkouts && event.Refresh? && event.k == k
    requires Lacking(Next(w, event).graph, Next(w, event).checkouts[k], id)
    ensures Lacking(w.graph, w.checkouts[k], id) || Careless(w, event, k, id)
  {
    var c := w.checkouts[k];
    assert AttemptsIn(w.owner, w.sends, k, c);
    if c.delivery.Rebased? && c.current in c.heads {
      var remote, head, now := c.delivery.remote, c.heads[c.current], event.now;
      var p :| p in Next(w, event).checkouts[k].queue && p.id == id && !Carries(w.graph, p);
      var q := UpdatedFrom(c.queue, c.delivery.p.id, q => NextAttempt(q, head, remote, now), p);
      if q.id == c.delivery.p.id {
        assert SameRequest(q, c.delivery.p);
      }
    }
  }

  lemma LackingStep(w: World, k: string, event: Event, id: string)
    requires Sound(w) && Attempts(w) && LackingIn(Next(w, event), k, id)
    ensures LackingIn(w, k, id) || Careless(w, event, k, id)
  {
    CheckoutsStay(w, event);
    if !event.HostedAdvance? && event.k == k && event.Refresh? {
      RenewalLacks(w, k, event, id);
    } else {
      var c := w.checkouts[k];
      StepNoNewWork(w, k, event);
      StepKeepsBodies(w, event);
      assert CheckoutOk(w.graph, w.hosted, c);
      NoNewLack(w.graph, Next(w, event).graph, c.stamps, c, Next(w, event).checkouts[k], id);
    }
  }

  /** What an acknowledgement retires is contained in the delivered commit, and that in the
      host: a loss therefore shows a candidate without its own reported commit. */
  lemma LossShowsLack(w: World, event: Event, e: Entry)
    requires Sound(w) && Attempts(w) && Retires(w, event, e) && !Contained(w, e)
    ensures Lacking(w.graph, w.checkouts[event.k], w.checkouts[event.k].delivery.p.id)
  {
    var c := w.checkouts[event.k];
    assert CheckoutOk(w.graph, w.hosted, c);
    var p := c.delivery.p;
    var q :| q in c.queue && Matches(q, e) && Covers(p, q);
    assert Ordered(w.graph, c.queue, p) && NotAfter(q, p);
    assert DeliveryOk(w.graph, w.hosted, c.delivery);
  }

  // ---- what the runs promise ----

  /** Nothing queued yet; any hosted history, any checkouts. */
  ghost predicate Fresh(w: World) {
    && GraphOk(w.graph, w.next) && HostedOk(w.graph, w.hosted) && w.entries == [] && w.sends == []
    && forall k | k in w.checkouts ::
         w.checkouts[k].queue == [] && w.checkouts[k].delivery.Idle? && HeadsOk(w.graph, w.checkouts[k].heads)
  }

  lemma FreshIsSound(w: World)
    requires Fresh(w)
    ensures Sound(w) && Attempts(w)
  {
  }

  /** The state after the first n events. */
  ghost function At(w: World, events: seq<Event>, n: nat): World
    requires n <= |events|
  {
    After(Next, w, events, n)
  }

  lemma AtTheEnd(w: World, events: seq<Event>)
    ensures At(w, events, |events|) == Execute(w, events)
  {
    AfterTheEnd(Next, w, events);
  }

  lemma {:induction false} AtIsSound(w: World, events: seq<Event>, n: nat)
    requires Fresh(w) && n <= |events|
    ensures Sound(At(w, events, n)) && Attempts(At(w, events, n))
  {
    if n == 0 {
      FreshIsSound(w);
    } else {
      AtIsSound(w, events, n - 1);
      StepIsSound(At(w, events, n - 1), events[n - 1]);
    }
  }

  lemma StepIsSound(w: World, e: Event)
    requires Sound(w) && Attempts(w)
    ensures Sound(Next(w, e)) && Attempts(Next(w, e))
  {
    StepKeepsSound(w, e);
    StepKeepsAttempts(w, e);
  }

  /** Step i loses the entry: it acknowledges it while the host lacks its work. */
  ghost predicate LostAt(w: World, events: seq<Event>, i: nat, e: Entry) {
    i < |events| && LosesNow(At(w, events, i), events[i], e)
  }

  /** Step i brings it back: it reopens the entry, or the host has its work afterwards. */
  ghost predicate SavedAt(w: World, events: seq<Event>, i: nat, e: Entry) {
    i < |events| && SavesNow(At(w, events, i), events[i], e)
  }

  /** Some step before n lost the entry and no later one brought it back. */
  ghost predicate LostForGood(w: World, events: seq<Event>, n: nat, e: Entry) {
    Lasts((i: nat) => LostAt(w, events, i, e), (j: nat) => SavedAt(w, events, j, e), n)
  }

  lemma NewEntryIsSafe(w: World, event: Event, e: Entry)
    requires e in Next(w, event).entries && e !in w.entries
    ensures Safe(Next(w, event), e)
  {
    var p := NewPublication(event.id, PROJECT, event.branch, event.source, event.expected, event.now);
    assert p in Next(w, event).checkouts[event.k].queue && Matches(p, e) && Pending(p);
  }

  lemma StepKeepsEntries(w: World, event: Event, e: Entry)
    requires e in w.entries
    ensures e in Next(w, event).entries
  {
  }

  lemma EntriesStay(w: World, events: seq<Event>, i: nat, n: nat, e: Entry)
    requires i <= n <= |events| && e in At(w, events, i).entries
    ensures e in At(w, events, n).entries
  {
    if e !in At(w, events, n).entries {
      var j := ChangingStep(Next, (s: World) => e !in s.entries, w, events, i, n);
      StepKeepsEntries(At(w, events, j), events[j], e);
    }
  }

  /** Reported work is lost exactly when some step acknowledges it while the host lacks it and
      no later step reopens it or brings it to the host.  This holds for every run whatever. */
  lemma {:induction false} WorkIsLostIff(w: World, events: seq<Event>, n: nat, e: Entry)
    requires Fresh(w) && n <= |events| && e in At(w, events, n).entries
    ensures !Safe(At(w, events, n), e) <==> LostForGood(w, events, n, e)
  {
    if n > 0 {
      var s := At(w, events, n - 1);
      if e in s.entries {
        WorkIsLostIff(w, events, n - 1, e);
        LossAfterStep(w, events, n - 1, e);
      } else {
        NewEntryIsNotLost(w, events, n - 1, e);
      }
    }
  }

  lemma LossAfterStep(w: World, events: seq<Event>, n: nat, e: Entry)
    requires Fresh(w) && n < |events| && e in At(w, events, n).entries
    requires !Safe(At(w, events, n), e) <==> LostForGood(w, events, n, e)
    ensures !Safe(At(w, events, n + 1), e) <==> LostForGood(w, events, n + 1, e)
  {
    AtIsSound(w, events, n);
    LastsNext((i: nat) => LostAt(w, events, i, e), (j: nat) => SavedAt(w, events, j, e), n);
    SafeAfterStep(At(w, events, n), events[n], e);
  }

  lemma SafeAfterStep(s: World, event: Event, e: Entry)
    requires Sound(s) && Attempts(s) && e in s.entries
    ensures !Safe(Next(s, event), e) <==> LosesNow(s, event, e) || (!Safe(s, e) && !SavesNow(s, event, e))
  {
    StepLosesIff(s, event, e);
    if !Safe(s, e) {
      StepSavesIff(s, event, e);
    }
  }

  lemma NewEntryIsNotLost(w: World, events: seq<Event>, n: nat, e: Entry)
    requires Fresh(w) && n < |events| && e !in At(w, events, n).entries && e in At(w, events, n + 1).entries
    ensures Safe(At(w, events, n + 1), e) && !LostForGood(w, events, n + 1, e)
  {
    NewEntryIsSafe(At(w, events, n), events[n], e);
    if i: nat :| i < n + 1 && LostAt(w, events, i, e) {
      EntriesStay(w, events, i, n, e);
    }
  }

  /** A renewal of this publication from a HEAD without its reported commit came before. */
  ghost predicate CarelessBefore(w: World, events: seq<Event>, n: nat, k: string, id: string)
    requires n <= |events|
  {
    exists i: nat :: i < n && Careless(At(w, events, i), events[i], k, id)
  }

  lemma CheckoutsStay(w: World, event: Event)
    ensures Next(w, event).checkouts.Keys == w.checkouts.Keys
  {
    if !event.HostedAdvance? && event.k in w.checkouts {
      if Quiet(event) {
        QuietStepShape(w, event.k, event);
      } else {
        QueueStepsKeepCheckouts(w, event.k, event);
      }
    }
  }

  lemma QueueStepsKeepCheckouts(w: World, k: string, event: Event)
    requires k in w.checkouts && !Quiet(event)
    ensures NextIn(w, k, event).checkouts.Keys == w.checkouts.Keys
  {
  }

  ghost predicate LackingIn(w: World, k: string, id: string) { k in w.checkouts && Lacking(w.graph, w.checkouts[k], id) }

  lemma LackHasACause(w: World, events: seq<Event>, n: nat, k: string, id: string)
    requires Fresh(w) && n <= |events| && LackingIn(At(w, events, n), k, id)
    ensures CarelessBefore(w, events, n, k, id)
  {
    var i := ChangingStep(Next, (s: World) => LackingIn(s, k, id), w, events, 0, n);
    AtIsSound(w, events, i);
    LackingStep(At(w, events, i), k, events[i], id);
  }

  /** Every loss has its cause: the acknowledged publication had been renewed from a HEAD
      without the commit it reports. */
  lemma LossesAreCareless(w: World, events: seq<Event>, i: nat, e: Entry)
    requires Fresh(w) && i < |events| && LostAt(w, events, i, e)
    ensures CarelessBefore(w, events, i, e.checkout, At(w, events, i).checkouts[e.checkout].delivery.p.id)
  {
    AtIsSound(w, events, i);
    LossShowsLack(At(w, events, i), events[i], e);
    LackHasACause(w, events, i, e.checkout, At(w, events, i).checkouts[e.checkout].delivery.p.id);
  }

  /** Whenever an attempt is renewed, HEAD contains the reported commit. */
  ghost predicate CarefulRun(w: World, events: seq<Event>) {
    forall i: nat, k, id | i < |events| :: !Careless(At(w, events, i), events[i], k, id)
  }

  /** No enqueued work is ever lost.  After any careful run of any number of checkouts, with
      races for the hosted branches, crashes, restarts, failures, superseding acknowledgements
      and compaction, every logical change of every commit ever enqueued is in a pending
      publication of its checkout or in the hosted branch. */
  lemma NoEnqueuedWorkIsLost(w: World, events: seq<Event>, e: Entry)
    requires Fresh(w) && CarefulRun(w, events) && e in Execute(w, events).entries
    ensures Safe(Execute(w, events), e)
  {
    AtTheEnd(w, events);
    WorkIsLostIff(w, events, |events|, e);
    if LostForGood(w, events, |events|, e) {
      var i: nat :| i < |events| && LostAt(w, events, i, e);
      LossesAreCareless(w, events, i, e);
    }
  }

  /** A pending publication always carries its work: its candidate contains every change of
      the commit that was reported, however often it was rebased. */
  lemma CandidatesContainTheirSource(w: World, events: seq<Event>, k: string, p: Publication)
    requires Fresh(w) && CarefulRun(w, events)
    requires k in Execute(w, events).checkouts && p in Execute(w, events).checkouts[k].queue
    ensures Body(Execute(w, events).graph, p.source) <= Body(Execute(w, events).graph, p.candidate)
  {
    AtTheEnd(w, events);
    if !Carries(Execute(w, events).graph, p) {
      LackHasACause(w, events, |events|, k, p.id);
    }
  }

  /** Attempts are immutable: over any run whatsoever, two requests that carry the same
      publication ID and attempt number carry the same branch, candidate and expected head. */
  lemma AttemptsAreImmutable(w: World, events: seq<Event>)
    requires Fresh(w)
    ensures forall s, t | s in Execute(w, events).sends && t in Execute(w, events).sends ::
              s.id == t.id && s.attempt == t.attempt ==> s == t
  {
    AtTheEnd(w, events);
    AtIsSound(w, events, |events|);
  }

  /** The hosted branch only gains work. */
  lemma {:induction false} HostedWorkOnlyGrows(w: World, events: seq<Event>, n: nat, branch: string)
    requires Fresh(w) && n <= |events|
    ensures Hosted(w, branch) <= Hosted(At(w, events, n), branch)
  {
    if n > 0 {
      AtIsSound(w, events, n - 1);
      HostedWorkOnlyGrows(w, events, n - 1, branch);
      StepKeepsHosted(At(w, events, n - 1), events[n - 1], branch);
    }
  }

  // ---- a failure after the acknowledgement was written ----

  /** A failed delivery makes an acknowledged entry pending again exactly when the failure
      comes after the queue write of that very acknowledgement, and compaction left the entry
      in the queue.  No other entry is reopened. */
  lemma FailureReopensIff(w: World, k: string, error: string, next: int)
    requires Attempts(w) && k in w.checkouts && !w.checkouts[k].delivery.Idle?
    ensures var c, queue' := w.checkouts[k], Next(w, Fail(k, error, next)).checkouts[k].queue;
            && |queue'| == |c.queue| && Next(w, Fail(k, error, next)).checkouts[k].delivery.Idle?
            && (forall i | 0 <= i < |c.queue| :: !Pending(c.queue[i]) && Pending(queue'[i])
                  <==> c.delivery.Recorded? && c.queue[i].id == c.delivery.p.id)
            && (forall i | 0 <= i < |c.queue| ::
                  if c.queue[i].id != c.delivery.p.id then queue'[i] == c.queue[i]
                  else SameRequest(queue'[i], c.queue[i]) && queue'[i].lastError == Some(error) && queue'[i].nextAttemptAt == Some(next))
  {
    assert AttemptsIn(w.owner, w.sends, k, w.checkouts[k]);
  }

  /** What is reopened that way is hosted already: the retry finds its candidate contained in
      the hosted branch. */
  lemma ReopenedWorkIsHosted(w: World, events: seq<Event>, k: string)
    requires Fresh(w) && CarefulRun(w, events)
    requires k in Execute(w, events).checkouts && Execute(w, events).checkouts[k].delivery.Recorded?
    ensures var w' := Execute(w, events);
            var p := w'.checkouts[k].delivery.p;
            Body(w'.graph, p.source) <= Body(w'.graph, p.candidate) <= Hosted(w', p.branch)
  {
    AtTheEnd(w, events);
    AtIsSound(w, events, |events|);
    var w' := Execute(w, events);
    assert CheckoutOk(w'.graph, w'.hosted, w'.checkouts[k]);
    if !Carries(w'.graph, w'.checkouts[k].delivery.p) {
      LackHasACause(w, events, |events|, k, w'.checkouts[k].delivery.p.id);
    }
  }

  // ---- renewing an attempt ----

  /** In every state of every run a renewal gives its publication a candidate with the reported
      commit exactly when HEAD contains that commit, on whichever branch it is. */
  lemma RenewalCarriesTheWorkIff(w: World, k: string, now: int)
    requires Attempts(w) && k in w.checkouts && w.checkouts[k].delivery.Rebased?
    requires w.checkouts[k].current in w.checkouts[k].heads
    ensures (exists p :: p in Next(w, Refresh(k, now)).checkouts[k].queue && p.id == w.checkouts[k].delivery.p.id
                         && Carries(w.graph, p))
       <==> HeadContains(w.graph, w.checkouts[k])
  {
    var c := w.checkouts[k];
    assert AttemptsIn(w.owner, w.sends, k, c);
    RenewedEntryCarries(w.graph, c.queue, c.delivery.p, c.heads[c.current], c.delivery.remote, now);
  }

  lemma RenewedEntryCarries(g: Graph<Changes>, queue: seq<Publication>, p: Publication, head: Oid, remote: Option<Oid>, now: int)
    requires exists q :: q in queue && q.id == p.id
    requires forall q :: q in queue && q.id == p.id ==> SameRequest(q, p)
    ensures (exists r :: r in Update(queue, p.id, q => NextAttempt(q, head, remote, now)) && r.id == p.id && Carries(g, r))
       <==> Body(g, p.source) <= Body(g, head)
  {
    var change := q => NextAttempt(q, head, remote, now);
    var q :| q in queue && q.id == p.id;
    UpdatedTo(queue, p.id, change, q);
    if r :| r in Update(queue, p.id, change) && r.id == p.id && Carries(g, r) {
      var r0 := UpdatedFrom(queue, p.id, change, r);
    }
  }

  // ---- what a delivery does with what it fetched ----

  /** The fetched head contains the candidate. */
  predicate Contains(g: Graph<Changes>, remote: Option<Oid>, candidate: Oid) {
    remote.Some? && candidate in g && remote.value in g && Reaches(g, remote.value, candidate)
  }

  /** The three ways on from a fetched head exclude each other.  A candidate the host has is not
      pushed; one that expects the fetched head is pushed; any other is rebased, and only while
      its branch is checked out.  Everything else leaves the world as it is. */
  lemma DeliveryChooses(w: World, k: string)
    requires k in w.checkouts && w.checkouts[k].delivery.Observed?
    ensures var c := w.checkouts[k];
            var p, remote := c.delivery.p, c.delivery.remote;
            && Next(w, SkipPush(k)) == (if Contains(w.graph, remote, p.candidate)
                                        then WithCheckout(w, k, c.(delivery := Pushed(p))) else w)
            && Next(w, StartRebase(k)) == (if !Contains(w.graph, remote, p.candidate) && remote != p.expected && c.current == p.branch
                                           then WithCheckout(w, k, c.(delivery := Rebasing(p, remote))) else w)
            && (if !Contains(w.graph, remote, p.candidate) && remote == p.expected
                then Next(w, Event.Push(k)).sends == w.sends + [SendOf(p)] else Next(w, Event.Push(k)) == w)
  {
  }

  /** A request moves the hosted branch, and only to its candidate, exactly when the branch is
      still at the expected head and the candidate descends from it. */
  lemma PushMovesIff(w: World, k: string)
    requires k in w.checkouts && w.checkouts[k].delivery.Observed?
    requires !Contains(w.graph, w.checkouts[k].delivery.remote, w.checkouts[k].delivery.p.candidate)
    requires w.checkouts[k].delivery.remote == w.checkouts[k].delivery.p.expected
    ensures var p, w' := w.checkouts[k].delivery.p, Next(w, Event.Push(k));
            if p.candidate in w.graph && Lookup(w.hosted, p.branch) == p.expected
               && (p.expected.None? || (p.expected.value in w.graph && Reaches(w.graph, p.candidate, p.expected.value)))
            then w'.hosted == w.hosted[p.branch := p.candidate] && w'.checkouts[k].delivery == Pushed(p)
            else w'.hosted == w.hosted && w'.checkouts == w.checkouts
  {
  }

  /** An acknowledgement is asked for exactly when the hosted branch contains the candidate. */
  lemma ConfirmsIff(w: World, k: string)
    requires k in w.checkouts && w.checkouts[k].delivery.Pushed?
    ensures var c, p := w.checkouts[k], w.checkouts[k].delivery.p;
            Next(w, Event.Confirm(k))
            == if p.branch in w.hosted && Contains(w.graph, Some(w.hosted[p.branch]), p.candidate)
               then WithCheckout(w.(sends := w.sends + [SendOf(p)]), k, c.(delivery := Confirmed(p))) else w
  {
  }

  /** A commit is reported as one new pending entry, exactly when its ID is new and no pending
      entry reports it for that branch already. */
  lemma ReportsIff(w: World, k: string, id: string, branch: string, source: Oid, expected: Option<Oid>, now: int)
    requires k in w.checkouts && Reportable(w, k, branch, source, now)
    ensures var w' := Next(w, Enqueue(k, id, branch, source, expected, now));
            if id in w.owner || exists p :: p in w.checkouts[k].queue && !p.acknowledged && p.branch == branch && p.source == source
            then w' == w
            else
              && k in w'.checkouts && |w'.checkouts[k].queue| == |w.checkouts[k].queue| + 1
              && w'.checkouts[k].queue[..|w.checkouts[k].queue|] == w.checkouts[k].queue
              && w'.entries == w.entries + [Entry(k, id, branch, source)]
              && var p := w'.checkouts[k].queue[|w.checkouts[k].queue|];
              && p.id == id && p.branch == branch && p.source == source && p.candidate == source && p.expected == expected
              && p.attempt == 1 && !p.acknowledged && p.createdAt == now
  {
  }

  /** A delivery ends only by a crash, a failure, a renewal of its attempt, or once its
      acknowledgement is recorded. */
  lemma DeliveryEnds(w: World, k: string, e: Event)
    requires k in w.checkouts && !w.checkouts[k].delivery.Idle? && k in Next(w, e).checkouts && Next(w, e).checkouts[k].delivery.Idle?
    ensures e == Crash(k) || (e.Fail? && e.k == k) || (e.Refresh? && e.k == k && w.checkouts[k].delivery.Rebased?)
            || (e == Event.Finish(k) && w.checkouts[k].delivery.Recorded?)
  {
    if e.HostedAdvance? || e.k != k || e.k !in w.checkouts {
      OtherCheckoutsStay(w, e, k);
    } else if Quiet(e) {
      QuietEnds(w, k, e);
    } else {
      QueueStepEnds(w, k, e);
    }
  }

  lemma QuietEnds(w: World, k: string, e: Event)
    requires k in w.checkouts && Quiet(e) && e.k == k && !w.checkouts[k].delivery.Idle?
    requires k in NextIn(w, k, e).checkouts && NextIn(w, k, e).checkouts[k].delivery.Idle?
    ensures e.Crash? || (e.Finish? && w.checkouts[k].delivery.Recorded?)
  {
  }

  lemma QueueStepEnds(w: World, k: string, e: Event)
    requires k in w.checkouts && !e.HostedAdvance? && !Quiet(e) && e.k == k && !w.checkouts[k].delivery.Idle?
    requires k in NextIn(w, k, e).checkouts && NextIn(w, k, e).checkouts[k].delivery.Idle?
    ensures e.Fail? || (e.Refresh? && w.checkouts[k].delivery.Rebased?)
  {
  }

  // ---- what a delivery has behind it ----

  /** Between the loading of its entry and the fetch, and between the fetch and the decision,
      a delivery keeps its publication and what it fetched. */
  lemma EarlyStep(w: World, k: string, e: Event)
    requires k in w.checkouts && k in Next(w, e).checkouts
    ensures var c, d := w.checkouts[k], Next(w, e).checkouts[k].delivery;
            && (d.Loaded? ==> c.delivery == d || (e == Load(k, d.p.id) && c.delivery.Idle? && d.p in c.queue && Pending(d.p)))
            && (d.Observed? ==> c.delivery == d || (e == Fetch(k) && c.delivery == Loaded(d.p) && d.remote == Lookup(w.hosted, d.p.branch)))
  {
    if e.HostedAdvance? || e.k != k || e.k !in w.checkouts {
      OtherCheckoutsStay(w, e, k);
    } else if Quiet(e) {
      QuietEarlyStep(w, k, e);
    } else {
      QueueEarlyStep(w, k, e);
    }
  }

  lemma QuietEarlyStep(w: World, k: string, e: Event)
    requires k in w.checkouts && !e.HostedAdvance? && e.k == k && Quiet(e) && k in NextIn(w, k, e).checkouts
    ensures var c, d := w.checkouts[k], NextIn(w, k, e).checkouts[k].delivery;
            && (d.Loaded? ==> c.delivery == d || (e == Load(k, d.p.id) && c.delivery.Idle? && d.p in c.queue && Pending(d.p)))
            && (d.Observed? ==> c.delivery == d || (e == Fetch(k) && c.delivery == Loaded(d.p) && d.remote == Lookup(w.hosted, d.p.branch)))
  {
  }

  lemma QueueEarlyStep(w: World, k: string, e: Event)
    requires k in w.checkouts && !e.HostedAdvance? && e.k == k && !Quiet(e) && k in NextIn(w, k, e).checkouts
    ensures var d := NextIn(w, k, e).checkouts[k].delivery; d.Loaded? || d.Observed? ==> w.checkouts[k].delivery == d
  {
  }

  /** The entry that checkout k works on at step n was taken from its queue, pending, at step j,
      while nothing else was under way. */
  ghost predicate LoadedAt(w: World, events: seq<Event>, k: string, p: Publication, j: nat, n: nat)
    requires n <= |events|
  {
    && j < n && events[j] == Load(k, p.id) && k in At(w, events, j).checkouts
    && At(w, events, j).checkouts[k].delivery.Idle? && p in At(w, events, j).checkouts[k].queue && Pending(p)
  }

  lemma {:induction false} LoadHappened(w: World, events: seq<Event>, k: string, n: nat) returns (j: nat)
    requires Fresh(w) && n <= |events| && k in At(w, events, n).checkouts && At(w, events, n).checkouts[k].delivery.Loaded?
    ensures LoadedAt(w, events, k, At(w, events, n).checkouts[k].delivery.p, j, n)
  {
    if n > 0 {
      var s := At(w, events, n - 1);
      CheckoutsStay(s, events[n - 1]);
      EarlyStep(s, k, events[n - 1]);
      if s.checkouts[k].delivery.Loaded? {
        j := LoadHappened(w, events, k, n - 1);
      } else {
        j := n - 1;
      }
    }
  }

  /** Over every run: what a delivery decides on is an entry that was pending when it was taken
      up, and the head the hosted branch had when it was fetched. */
  lemma {:induction false} FetchHappened(w: World, events: seq<Event>, k: string, n: nat) returns (j: nat, i: nat)
    requires Fresh(w) && n <= |events| && k in At(w, events, n).checkouts && At(w, events, n).checkouts[k].delivery.Observed?
    ensures var d := At(w, events, n).checkouts[k].delivery;
            && j < n && events[j] == Fetch(k) && d.remote == Lookup(At(w, events, j).hosted, d.p.branch)
            && LoadedAt(w, events, k, d.p, i, j)
  {
    if n > 0 {
      var s := At(w, events, n - 1);
      CheckoutsStay(s, events[n - 1]);
      EarlyStep(s, k, events[n - 1]);
      if s.checkouts[k].delivery.Observed? {
        j, i := FetchHappened(w, events, k, n - 1);
      } else {
        j := n - 1;
        i := LoadHappened(w, events, k, j);
      }
    }
  }

  predicate InRebase(delivery: Delivery) { delivery.Rebasing? || delivery.Rebased? }

  /** A rebase is only begun from a fetched head, on the branch that is checked out; afterwards
      it belongs to the same publication and fetched head. */
  lemma RebaseStep(w: World, k: string, e: Event)
    requires k in w.checkouts && k in Next(w, e).checkouts && InRebase(Next(w, e).checkouts[k].delivery)
    ensures var c, d := w.checkouts[k], Next(w, e).checkouts[k].delivery;
            || (InRebase(c.delivery) && c.delivery.p == d.p && c.delivery.remote == d.remote)
            || (e == StartRebase(k) && c.delivery == Observed(d.p, d.remote) && c.current == d.p.branch
                && !Contains(w.graph, d.remote, d.p.candidate) && d.remote != d.p.expected)
  {
    if e.HostedAdvance? || e.k != k || e.k !in w.checkouts {
      OtherCheckoutsStay(w, e, k);
    } else if e.StartRebase? && w.checkouts[k].delivery.Observed? {
      DeliveryChooses(w, k);
    } else {
      NoOtherRebase(w, k, e);
    }
  }

  lemma NoOtherRebase(w: World, k: string, e: Event)
    requires k in w.checkouts && !e.HostedAdvance? && e.k == k && !(e.StartRebase? && w.checkouts[k].delivery.Observed?)
    requires k in NextIn(w, k, e).checkouts && InRebase(NextIn(w, k, e).checkouts[k].delivery)
    ensures var c, d := w.checkouts[k], NextIn(w, k, e).checkouts[k].delivery;
            InRebase(c.delivery) && c.delivery.p == d.p && c.delivery.remote == d.remote
  {
    if Quiet(e) {
      QuietStepsBeginNoRebase(w, k, e);
    } else {
      QueueStepsBeginNoRebase(w, k, e);
    }
  }

  lemma QuietStepsBeginNoRebase(w: World, k: string, e: Event)
    requires k in w.checkouts && Quiet(e) && e.k == k && !(e.StartRebase? && w.checkouts[k].delivery.Observed?)
    requires k in NextIn(w, k, e).checkouts && InRebase(NextIn(w, k, e).checkouts[k].delivery)
    ensures var c, d := w.checkouts[k], NextIn(w, k, e).checkouts[k].delivery;
            InRebase(c.delivery) && c.delivery.p == d.p && c.delivery.remote == d.remote
  {
  }

  lemma QueueStepsBeginNoRebase(w: World, k: string, e: Event)
    requires k in w.checkouts && !e.HostedAdvance? && e.k == k && !Quiet(e)
    requires k in NextIn(w, k, e).checkouts && InRebase(NextIn(w, k, e).checkouts[k].delivery)
    ensures NextIn(w, k, e).checkouts[k].delivery == w.checkouts[k].delivery
  {
  }

  lemma BranchStays(w: World, k: string, e: Event)
    requires k in w.checkouts && !(e.SwitchBranch? && e.k == k)
    ensures k in Next(w, e).checkouts && Next(w, e).checkouts[k].current == w.checkouts[k].current
  {
    CheckoutsStay(w, e);
    if e.HostedAdvance? || e.k != k {
      OtherCheckoutsStay(w, e, k);
    } else {
      OwnStepsKeepBranch(w, k, e);
    }
  }

  lemma OwnStepsKeepBranch(w: World, k: string, e: Event)
    requires k in w.checkouts && !e.HostedAdvance? && e.k == k && !e.SwitchBranch?
    ensures k in NextIn(w, k, e).checkouts && NextIn(w, k, e).checkouts[k].current == w.checkouts[k].current
  {
    if !Quiet(e) {
      QueueStepsKeepBranch(w, k, e);
    }
  }

  lemma QueueStepsKeepBranch(w: World, k: string, e: Event)
    requires k in w.checkouts && !e.HostedAdvance? && !Quiet(e)
    ensures k in NextIn(w, k, e).checkouts && NextIn(w, k, e).checkouts[k].current == w.checkouts[k].current
  {
  }

  /** The start of the rebase that checkout k is in at step n. */
  ghost predicate StartedAt(w: World, events: seq<Event>, k: string, j: nat, n: nat)
    requires n <= |events|
  {
    && j < n && events[j] == StartRebase(k) && k in At(w, events, j).checkouts && k in At(w, events, n).checkouts
    && InRebase(At(w, events, n).checkouts[k].delivery)
    && var c, d := At(w, events, j).checkouts[k], At(w, events, n).checkouts[k].delivery;
    && c.delivery == Observed(d.p, d.remote) && c.current == d.p.branch
    && !Contains(At(w, events, j).graph, d.remote, d.p.candidate) && d.remote != d.p.expected
  }

  lemma {:induction false} RebaseHasAStart(w: World, events: seq<Event>, k: string, n: nat) returns (j: nat)
    requires Fresh(w) && n <= |events| && k in At(w, events, n).checkouts && InRebase(At(w, events, n).checkouts[k].delivery)
    ensures StartedAt(w, events, k, j, n)
  {
    if n > 0 {
      var s := At(w, events, n - 1);
      CheckoutsStay(s, events[n - 1]);
      RebaseStep(s, k, events[n - 1]);
      if InRebase(s.checkouts[k].delivery) {
        j := RebaseHasAStart(w, events, k, n - 1);
      } else {
        j := n - 1;
      }
    }
  }

  lemma {:induction false} BranchStaysThrough(w: World, events: seq<Event>, k: string, j: nat, n: nat)
    requires j <= n <= |events| && k in At(w, events, j).checkouts
    requires forall m | j <= m < n :: !(events[m].SwitchBranch? && events[m].k == k)
    ensures k in At(w, events, n).checkouts && At(w, events, n).checkouts[k].current == At(w, events, j).checkouts[k].current
    decreases n - j
  {
    if j < n {
      BranchStaysThrough(w, events, k, j, n - 1);
      BranchStays(At(w, events, n - 1), k, events[n - 1]);
    }
  }

  /** Over every run, a renewal belongs to a rebase that was begun on the publication's own
      branch, and unless that checkout switched branch in between, the new candidate is the
      head of that branch.  It expects the head that was fetched before the rebase, under the
      next attempt. */
  lemma RenewalTakesItsOwnBranch(w: World, events: seq<Event>, n: nat, k: string) returns (j: nat, f: nat)
    requires Fresh(w) && n < |events| && events[n].Refresh? && events[n].k == k
    requires k in At(w, events, n).checkouts && At(w, events, n).checkouts[k].delivery.Rebased?
    ensures StartedAt(w, events, k, j, n)
    ensures var d := At(w, events, n).checkouts[k].delivery;
            f < j && events[f] == Fetch(k) && d.remote == Lookup(At(w, events, f).hosted, d.p.branch)
    ensures var c, c' := At(w, events, n).checkouts[k], At(w, events, n + 1).checkouts[k];
            var p, remote := c.delivery.p, c.delivery.remote;
            (forall m | j < m < n :: !(events[m].SwitchBranch? && events[m].k == k)) && p.branch in c.heads ==>
              && c'.delivery.Idle? && |c'.queue| == |c.queue|
              && forall i | 0 <= i < |c.queue| ::
                   if c.queue[i].id != p.id then c'.queue[i] == c.queue[i]
                   else && c'.queue[i].candidate == c.heads[p.branch] && c'.queue[i].expected == remote
                        && c'.queue[i].attempt == c.queue[i].attempt + 1 && Descends(c'.queue[i], c.queue[i])
  {
    j := RebaseHasAStart(w, events, k, n);
    var i;
    f, i := FetchHappened(w, events, k, j);
    var c := At(w, events, n).checkouts[k];
    if forall m | j < m < n :: !(events[m].SwitchBranch? && events[m].k == k) {
      BranchStaysThrough(w, events, k, j, n);
      assert c.current == c.delivery.p.branch;
      if c.delivery.p.branch in c.heads {
        RenewsTheQueue(At(w, events, n), k, events[n].now);
      }
    }
  }

  lemma RenewsTheQueue(w: World, k: string, now: int)
    requires k in w.checkouts && w.checkouts[k].delivery.Rebased? && w.checkouts[k].current in w.checkouts[k].heads
    ensures var c, w' := w.checkouts[k], Next(w, Refresh(k, now));
            && k in w'.checkouts && w'.checkouts[k].delivery.Idle? && |w'.checkouts[k].queue| == |c.queue|
            && forall i | 0 <= i < |c.queue| ::
                 var q, q' := c.queue[i], w'.checkouts[k].queue[i];
                 if q.id != c.delivery.p.id then q' == q
                 else && q'.candidate == c.heads[c.current] && q'.expected == c.delivery.remote
                      && q'.attempt == q.attempt + 1 && Descends(q', q)
  {
  }

  // ---- a checkout that stays on its branch ----

  /** HEAD holds everything this checkout reported, and works on something it reported. */
  ghost predicate HoldsReports(g: Graph<Changes>, entries: seq<Entry>, k: string, c: Checkout) {
    && c.current in c.heads
    && (forall e :: e in entries && e.checkout == k ==> Body(g, e.source) <= Body(g, c.heads[c.current]))
    && (!c.delivery.Idle? ==> Logged(entries, k, c.delivery.p))
  }

  /** The step leaves the checkout's branch where its work is: no switch, no reset, and what is
      reported is on HEAD. */
  predicate StaysPut(w: World, k: string, e: Event) {
    !e.HostedAdvance? && e.k == k && k in w.checkouts ==>
      && !e.SwitchBranch? && !e.ResetBranch?
      && (e.Enqueue? ==> w.checkouts[k].current in w.checkouts[k].heads
                         && Body(w.graph, e.source) <= Body(w.graph, w.checkouts[k].heads[w.checkouts[k].current]))
  }

  /** A commit and a rebase add to HEAD and take nothing away. */
  lemma HeadOnlyGains(w: World, k: string, e: Event)
    requires Sound(w) && k in w.checkouts && w.checkouts[k].current in w.checkouts[k].heads
    requires e.CommitWork? || e.FinishRebase?
    ensures var c, w' := w.checkouts[k], NextIn(w, k, e);
            && k in w'.checkouts && w'.checkouts[k].current == c.current && c.current in w'.checkouts[k].heads
            && Body(w.graph, c.heads[c.current]) <= Body(w'.graph, w'.checkouts[k].heads[c.current])
            && (e.CommitWork? ==> Body(w'.graph, w'.checkouts[k].heads[c.current]) == Body(w.graph, c.heads[c.current]) + e.changes)
            && (e.FinishRebase? && c.delivery.Rebasing? && e.onto.Some? && e.onto.value in w.graph ==>
                  Body(w'.graph, w'.checkouts[k].heads[c.current]) == Body(w.graph, e.onto.value) + Body(w.graph, c.heads[c.current]))
  {
    assert CheckoutOk(w.graph, w.hosted, w.checkouts[k]);
  }

  lemma MoreObjectsHold(g: Graph<Changes>, g': Graph<Changes>, entries: seq<Entry>, k: string, c: Checkout, c': Checkout)
    requires Extends(g, g') && EntriesOk(g, entries) && HoldsReports(g, entries, k, c)
    requires c'.current == c.current && c'.current in c'.heads && Body(g, c.heads[c.current]) <= Body(g', c'.heads[c'.current])
    requires c'.delivery.Idle? || (!c.delivery.Idle? && c'.delivery.p == c.delivery.p) || Logged(entries, k, c'.delivery.p)
    ensures HoldsReports(g', entries, k, c')
  {
    forall e | e in entries && e.checkout == k ensures Body(g', e.source) <= Body(g', c'.heads[c'.current]) {
      assert Body(g', e.source) == Body(g, e.source);
    }
  }

  ghost predicate HoldsReportsOf(w: World, k: string) {
    k in w.checkouts && HoldsReports(w.graph, w.entries, k, w.checkouts[k])
  }

  lemma OwnStepHolds(w: World, k: string, e: Event)
    requires Sound(w) && k in w.checkouts && HoldsReports(w.graph, w.entries, k, w.checkouts[k])
    requires !e.HostedAdvance? && e.k == k && StaysPut(w, k, e) && !e.Enqueue?
    ensures HoldsReportsOf(Next(w, e), k)
  {
    var c, w' := w.checkouts[k], Next(w, e);
    OthersReportNothing(w, e);
    assert AllLogged(w.entries, k, c.queue) && CheckoutOk(w.graph, w.hosted, c);
    StepKeepsBodies(w, e);
    BranchStays(w, k, e);
    if e.CommitWork? || e.FinishRebase? {
      HeadOnlyGains(w, k, e);
      QuietStepShape(w, k, e);
    } else if Quiet(e) {
      OtherStepsKeepGraph(w, e);
      HeadsStayQuiet(w, k, e);
      QuietStepShape(w, k, e);
    } else {
      OtherStepsKeepGraph(w, e);
      HeadsStayQueue(w, k, e);
      QueueStepsLoadNothing(w, k, e);
    }
    MoreObjectsHold(w.graph, w'.graph, w.entries, k, c, w'.checkouts[k]);
  }

  lemma HeadsStayQuiet(w: World, k: string, e: Event)
    requires k in w.checkouts && Quiet(e) && e.k == k && !e.CommitWork? && !e.FinishRebase? && !e.SwitchBranch? && !e.ResetBranch?
    ensures k in NextIn(w, k, e).checkouts && NextIn(w, k, e).checkouts[k].heads == w.checkouts[k].heads
  {
  }

  lemma HeadsStayQueue(w: World, k: string, e: Event)
    requires k in w.checkouts && !Quiet(e) && !e.HostedAdvance? && e.k == k && !e.Enqueue?
    ensures k in NextIn(w, k, e).checkouts && NextIn(w, k, e).checkouts[k].heads == w.checkouts[k].heads
  {
  }

  lemma QueueStepsLoadNothing(w: World, k: string, e: Event)
    requires k in w.checkouts && !Quiet(e) && !e.HostedAdvance? && e.k == k && k in NextIn(w, k, e).checkouts
    ensures var d := NextIn(w, k, e).checkouts[k].delivery;
            d.Idle? || (!w.checkouts[k].delivery.Idle? && d.p == w.checkouts[k].delivery.p)
  {
  }

  lemma ReportHolds(w: World, k: string, e: Event)
    requires Sound(w) && k in w.checkouts && HoldsReports(w.graph, w.entries, k, w.checkouts[k])
    requires e.Enqueue? && (e.k == k ==> StaysPut(w, k, e))
    ensures k in Next(w, e).checkouts && HoldsReports(Next(w, e).graph, Next(w, e).entries, k, Next(w, e).checkouts[k])
  {
    var c := w.checkouts[k];
    if !c.delivery.Idle? {
      var x :| x in w.entries && x.checkout == k && x.branch == c.delivery.p.branch && x.source == c.delivery.p.source;
      assert x in Next(w, e).entries;
    }
  }

  lemma StepHolds(w: World, k: string, e: Event)
    requires Sound(w) && k in w.checkouts && HoldsReports(w.graph, w.entries, k, w.checkouts[k]) && StaysPut(w, k, e)
    ensures HoldsReportsOf(Next(w, e), k)
  {
    if e.Enqueue? {
      ReportHolds(w, k, e);
    } else if !e.HostedAdvance? && e.k == k {
      CheckoutsStay(w, e);
      OwnStepHolds(w, k, e);
    } else {
      OtherCheckoutsStay(w, e, k);
      StepKeepsBodies(w, e);
      OthersReportNothing(w, e);
      assert CheckoutOk(w.graph, w.hosted, w.checkouts[k]);
      MoreObjectsHold(w.graph, Next(w, e).graph, w.entries, k, w.checkouts[k], w.checkouts[k]);
    }
  }

  lemma OthersReportNothing(w: World, e: Event)
    requires !e.Enqueue?
    ensures Next(w, e).entries == w.entries
  {
  }

  ghost predicate StaysPutThrough(w: World, events: seq<Event>, k: string) {
    forall i: nat | i < |events| :: StaysPut(At(w, events, i), k, events[i])
  }

  lemma RunHolds(w: World, events: seq<Event>, k: string, n: nat)
    requires Fresh(w) && n <= |events| && k in w.checkouts && w.checkouts[k].current in w.checkouts[k].heads
    requires StaysPutThrough(w, events, k)
    ensures HoldsReportsOf(At(w, events, n), k)
  {
    if !HoldsReportsOf(At(w, events, n), k) {
      var i := ChangingStep(Next, (s: World) => !HoldsReportsOf(s, k), w, events, 0, n);
      AtIsSound(w, events, i);
      StepHolds(At(w, events, i), k, events[i]);
    }
  }

  /** Only leaving HEAD can lose work: a checkout that never switches its branch and never
      resets one, and reports what is on HEAD, never renews an attempt without its work,
      whatever the others do; so none of its work is ever lost. */
  lemma StayingPutLosesNothing(w: World, events: seq<Event>, k: string, e: Entry)
    requires Fresh(w) && k in w.checkouts && w.checkouts[k].current in w.checkouts[k].heads
    requires StaysPutThrough(w, events, k) && e in Execute(w, events).entries && e.checkout == k
    ensures Safe(Execute(w, events), e)
    ensures forall i: nat, id | i < |events| :: !Careless(At(w, events, i), events[i], k, id)
  {
    forall i: nat, id | i < |events| ensures !Careless(At(w, events, i), events[i], k, id) {
      var s := At(w, events, i);
      RunHolds(w, events, k, i);
      if !s.checkouts[k].delivery.Idle? {
        var x :| x in s.entries && x.checkout == k && x.branch == s.checkouts[k].delivery.p.branch
                 && x.source == s.checkouts[k].delivery.p.source;
      }
    }
    AtTheEnd(w, events);
    WorkIsLostIff(w, events, |events|, e);
    if LostForGood(w, events, |events|, e) {
      var i: nat :| i < |events| && LostAt(w, events, i, e);
      LossesAreCareless(w, events, i, e);
    }
  }

  const ROOT: Commit<Changes> := Commit([], {})
  const WORK: Commit<Changes> := Commit([0], {1})
  const HISTORY: Graph<Changes> := map[0 := ROOT, 1 := WORK]

  ghost function Reported(published: string): Publication {
    NewPublication("id", PROJECT, published, 1, None, 0)
  }

  /** A world of one checkout, whose published branch was hosted at commit 0. */
  ghost function Lone(published: string, c: Checkout): World {
    World(HISTORY, 2, map[published := 0], map["k" := c], map["id" := "k"], [Entry("k", "id", published, 1)], [])
  }

  lemma HistoryOk()
    ensures IsAncestor(HISTORY, 0, 0) && !IsAncestor(HISTORY, 1, 0)
  {
  }

  ghost function Before(published: string, other: string): World {
    World(map[0 := ROOT], 1, map[published := 0],
          map["k" := Checkout(map[published := 0, other := 0], published, [], map[], Idle)], map[], [], [])
  }

  /** The checkout once its commit is reported. */
  ghost function Ahead(published: string, other: string): Checkout {
    Checkout(map[published := 1, other := 0], published, [Reported(published)], map[published := 0], Idle)
  }

  lemma CommitAndReport(published: string, other: string)
    requires published != other
    ensures Fresh(Before(published, other))
    ensures Execute(Before(published, other), [CommitWork("k", {1}), Enqueue("k", "id", published, 1, None, 0)])
         == Lone(published, Ahead(published, other))
  {
    var heads := map[published := 1, other := 0];
    var w1 := Next(Before(published, other), CommitWork("k", {1}));
    assert {} + {1} == {1};
    assert w1.graph == HISTORY;
    assert w1.checkouts["k"].heads == heads;
    assert w1.checkouts == map["k" := Checkout(heads, published, [], map[], Idle)];
    assert Reportable(w1, "k", published, 1, 0);
    var w2 := Next(w1, Enqueue("k", "id", published, 1, None, 0));
    assert w2.checkouts["k"].queue == [Reported(published)];
    assert w2.checkouts["k"].stamps == map[published := 0];
    assert w2.owner == map["id" := "k"];
    assert w2.entries == [Entry("k", "id", published, 1)];
    assert w2.checkouts == map["k" := w2.checkouts["k"]];
    TwoSteps(Next, Before(published, other), CommitWork("k", {1}), Enqueue("k", "id", published, 1, None, 0));
  }

  lemma RebaseStarts(published: string, c: Checkout)
    requires c.delivery == Observed(Reported(published), Some(0)) && c.current == published
    ensures Next(Lone(published, c), StartRebase("k"))
         == Lone(published, c.(delivery := Rebasing(Reported(published), Some(0))))
  {
    HistoryOk();
  }

  lemma ReportedIsFetched(published: string, c: Checkout)
    requires c.queue == [Reported(published)] && c.delivery.Idle?
    ensures Next(Next(Lone(published, c), Load("k", "id")), Fetch("k"))
         == Lone(published, c.(delivery := Observed(Reported(published), Some(0))))
  {
    LoadAndFetch(Lone(published, c), "k", Reported(published));
  }

  lemma FetchBeforeRebase(published: string, c: Checkout)
    requires c.queue == [Reported(published)] && c.delivery.Idle? && c.current == published
    ensures Execute(Lone(published, c), [Load("k", "id"), Fetch("k"), StartRebase("k")])
         == Lone(published, c.(delivery := Rebasing(Reported(published), Some(0))))
  {
    var p := Reported(published);
    ReportedIsFetched(published, c);
    RebaseStarts(published, c.(delivery := Observed(p, Some(0))));
    ThreeSteps(Next, Lone(published, c), Load("k", "id"), Fetch("k"), StartRebase("k"));
  }

  /** The rebase has nothing to do; then HEAD is taken away from the reported commit: either
      another branch is checked out, or the published one is reset. */
  lemma LeaveTheWork(published: string, other: string, reset: bool)
    requires published != other
    ensures var c := Ahead(published, other).(delivery := Rebasing(Reported(published), Some(0)));
            var e := if reset then ResetBranch("k", published, 0) else SwitchBranch("k", other, 0);
            Execute(Lone(published, c), [FinishRebase("k", None), e]) == Lone(published, Away(published, other, reset))
  {
    var c := Ahead(published, other).(delivery := Rebasing(Reported(published), Some(0)));
    var e := if reset then ResetBranch("k", published, 0) else SwitchBranch("k", other, 0);
    NothingToRebase(published, c);
    HeadLeaves(published, other, reset);
    TwoSteps(Next, Lone(published, c), FinishRebase("k", None), e);
  }

  lemma NothingToRebase(published: string, c: Checkout)
    requires c.delivery.Rebasing?
    ensures Next(Lone(published, c), FinishRebase("k", None)) == Lone(published, c.(delivery := Rebased(c.delivery.p, c.delivery.remote)))
  {
  }

  lemma HeadLeaves(published: string, other: string, reset: bool)
    requires published != other
    ensures var c := Ahead(published, other).(delivery := Rebased(Reported(published), Some(0)));
            var e := if reset then ResetBranch("k", published, 0) else SwitchBranch("k", other, 0);
            Next(Lone(published, c), e) == Lone(published, Away(published, other, reset))
  {
    if reset {
      HeadIsReset(published, other);
    } else {
      HeadSwitches(published, other);
    }
  }

  lemma HeadIsReset(published: string, other: string)
    requires published != other
    ensures var c := Ahead(published, other).(delivery := Rebased(Reported(published), Some(0)));
            Next(Lone(published, c), ResetBranch("k", published, 0)) == Lone(published, Away(published, other, true))
  {
    assert map[published := 1, other := 0][published := 0] == map[published := 0, other := 0];
  }

  lemma HeadSwitches(published: string, other: string)
    requires published != other
    ensures var c := Ahead(published, other).(delivery := Rebased(Reported(published), Some(0)));
            Next(Lone(published, c), SwitchBranch("k", other, 0)) == Lone(published, Away(published, other, false))
  {
  }

  /** The checkout when its attempt is renewed: HEAD is commit 0, without the work. */
  ghost function Away(published: string, other: string, reset: bool): Checkout {
    Checkout(map[published := if reset then 0 else 1, other := 0], if reset then published else other,
             [Reported(published)], map[published := 0], Rebased(Reported(published), Some(0)))
  }

  ghost function Renewed(published: string): Publication {
    NextAttempt(Reported(published), 0, Some(0), 0)
  }

  /** After the renewal the candidate is a commit the host already has: it is acknowledged
      without a push. */
  ghost function Lost(published: string, c: Checkout): World {
    var p := Renewed(published);
    Lone(published, c.(queue := Compacted(Retired([p], p)), delivery := Recorded(p))).(sends := [SendOf(p)])
  }

  lemma RenewalTakesTheWrongHead(published: string, c: Checkout)
    requires c.queue == [Reported(published)] && c.delivery == Rebased(Reported(published), Some(0))
    requires c.current in c.heads && c.heads[c.current] == 0
    ensures var p := Renewed(published);
            Execute(Lone(published, c), [Refresh("k", 0), Load("k", "id"), Fetch("k")])
            == Lone(published, c.(queue := [p], delivery := Observed(p, Some(0))))
  {
    var p := Renewed(published);
    var c' := c.(queue := [p], delivery := Idle);
    RenewedAlone(published, c);
    LoadAndFetch(Lone(published, c'), "k", p);
    ThreeSteps(Next, Lone(published, c), Refresh("k", 0), Load("k", "id"), Fetch("k"));
  }

  lemma RenewedAlone(published: string, c: Checkout)
    requires c.queue == [Reported(published)] && c.delivery == Rebased(Reported(published), Some(0))
    requires c.current in c.heads && c.heads[c.current] == 0
    ensures Next(Lone(published, c), Refresh("k", 0)) == Lone(published, c.(queue := [Renewed(published)], delivery := Idle))
  {
    assert Update(c.queue, "id", q => NextAttempt(q, 0, Some(0), 0)) == [Renewed(published)];
  }

  /** The only entry of the queue is taken up and its branch is fetched. */
  lemma LoadAndFetch(w: World, k: string, p: Publication)
    requires k in w.checkouts && w.checkouts[k].queue == [p] && Pending(p) && w.checkouts[k].delivery.Idle?
    ensures Next(Next(w, Load(k, p.id)), Fetch(k))
         == WithCheckout(w, k, w.checkouts[k].(delivery := Observed(p, Lookup(w.hosted, p.branch))))
  {
    var c := w.checkouts[k];
    assert FindPending([p], p.id) == Some(p);
    assert Next(w, Load(k, p.id)) == WithCheckout(w, k, c.(delivery := Loaded(p)));
    SetTwice(w, k, c.(delivery := Loaded(p)), c.(delivery := Observed(p, Lookup(w.hosted, p.branch))));
  }

  lemma SetTwice(w: World, k: string, a: Checkout, b: Checkout)
    requires k in w.checkouts
    ensures WithCheckout(WithCheckout(w, k, a), k, b) == WithCheckout(w, k, b)
  {
    assert w.checkouts[k := a][k := b] == w.checkouts[k := b];
  }

  lemma ReachableIsNotPushed(w: World, k: string)
    requires k in w.checkouts && w.checkouts[k].delivery.Observed?
    requires CandidateReachable(w, w.checkouts[k].delivery.p, w.checkouts[k].delivery.remote)
    ensures Next(w, SkipPush(k)) == WithCheckout(w, k, w.checkouts[k].(delivery := Pushed(w.checkouts[k].delivery.p)))
  {
  }

  lemma ReachableIsConfirmed(w: World, k: string)
    requires k in w.checkouts && w.checkouts[k].delivery.Pushed?
    requires CandidateReachable(w, w.checkouts[k].delivery.p, Lookup(w.hosted, w.checkouts[k].delivery.p.branch))
    ensures var p := w.checkouts[k].delivery.p;
            Next(w, Confirm(k)) == WithCheckout(w.(sends := w.sends + [SendOf(p)]), k, w.checkouts[k].(delivery := Confirmed(p)))
  {
  }

  /** A candidate the host already has is acknowledged without a push. */
  lemma ReachableIsAcknowledged(w: World, k: string, p: Publication, host: Oid)
    requires k in w.checkouts && w.checkouts[k].delivery == Observed(p, Some(host))
    requires Lookup(w.hosted, p.branch) == Some(host) && IsAncestor(w.graph, p.candidate, host)
    ensures Execute(w, [SkipPush(k), Confirm(k), Complete(k)])
         == WithCheckout(w.(sends := w.sends + [SendOf(p)]), k,
                         w.checkouts[k].(queue := Compacted(Retired(w.checkouts[k].queue, p)), delivery := Recorded(p)))
  {
    var c := w.checkouts[k];
    ReachableIsNotPushed(w, k);
    var w1 := Next(w, SkipPush(k));
    ReachableIsConfirmed(w1, k);
    var w2 := Next(w1, Confirm(k));
    var sent := w.(sends := w.sends + [SendOf(p)]);
    SetTwice(sent, k, c.(delivery := Pushed(p)), c.(delivery := Confirmed(p)));
    assert w2 == WithCheckout(sent, k, c.(delivery := Confirmed(p)));
    SetTwice(sent, k, c.(delivery := Confirmed(p)), Completed(c.(delivery := Confirmed(p))));
    ThreeSteps(Next, w, SkipPush(k), Confirm(k), Complete(k));
  }

  lemma AcknowledgedAlone(p: Publication)
    requires Pending(p)
    ensures Compacted(Retired([p], p)) == [Acknowledge(p)]
  {
    var a := Acknowledge(p);
    assert Retired([p], p) == [a];
    assert [a][1..] == [];
    assert |Select([a], false)| == 1;
  }

  lemma LostWorkIsNotSafe(published: string, c: Checkout)
    ensures !Safe(Lost(published, c), Entry("k", "id", published, 1))
  {
    AcknowledgedAlone(Renewed(published));
    assert 1 in HISTORY[1].body;
  }

  lemma RunsCompose(w: World, a: seq<Event>, w1: World, b: seq<Event>, w2: World)
    requires Execute(w, a) == w1 && Execute(w1, b) == w2
    ensures Execute(w, a + b) == w2
  {
    RunAppends(Next, w, a, b);
  }

  /** Commit and report; fetch, find the branch hosted, rebase with nothing to do; then leave
      the commit behind by a reset or a switch; renew and deliver. */
  ghost function LosingRun(published: string, other: string, reset: bool): seq<Event> {
    [CommitWork("k", {1}), Enqueue("k", "id", published, 1, None, 0)]
    + [Load("k", "id"), Fetch("k"), StartRebase("k")]
    + [FinishRebase("k", None), if reset then ResetBranch("k", published, 0) else SwitchBranch("k", other, 0)]
    + ([Refresh("k", 0), Load("k", "id"), Fetch("k")] + [SkipPush("k"), Confirm("k"), Complete("k")])
  }

  lemma RunToRenewal(published: string, other: string, reset: bool)
    requires published != other
    ensures var leave := if reset then ResetBranch("k", published, 0) else SwitchBranch("k", other, 0);
            Execute(Before(published, other),
                    [CommitWork("k", {1}), Enqueue("k", "id", published, 1, None, 0)]
                    + [Load("k", "id"), Fetch("k"), StartRebase("k")] + [FinishRebase("k", None), leave])
            == Lone(published, Away(published, other, reset))
  {
    var w := Before(published, other);
    var report := [CommitWork("k", {1}), Enqueue("k", "id", published, 1, None, 0)];
    var deliver := [Load("k", "id"), Fetch("k"), StartRebase("k")];
    var leave := [FinishRebase("k", None), if reset then ResetBranch("k", published, 0) else SwitchBranch("k", other, 0)];
    CommitAndReport(published, other);
    FetchBeforeRebase(published, Ahead(published, other));
    LeaveTheWork(published, other, reset);
    var w2 := Execute(Execute(w, report), deliver);
    RunsCompose(w, report, Execute(w, report), deliver, w2);
    RunsCompose(w, report + deliver, w2, leave, Lone(published, Away(published, other, reset)));
  }

  lemma RunAfterRenewal(published: string, c: Checkout)
    requires c.queue == [Reported(published)] && c.delivery == Rebased(Reported(published), Some(0))
    requires c.current in c.heads && c.heads[c.current] == 0
    ensures Execute(Lone(published, c),
                    [Refresh("k", 0), Load("k", "id"), Fetch("k")] + [SkipPush("k"), Confirm("k"), Complete("k")])
         == Lost(published, c)
  {
    var p := Renewed(published);
    RenewalTakesTheWrongHead(published, c);
    var c' := c.(queue := [p], delivery := Observed(p, Some(0)));
    HistoryOk();
    ReachableIsAcknowledged(Lone(published, c'), "k", p, 0);
    LoneAfter(published, c', Lost(published, c).checkouts["k"], [SendOf(p)]);
    RunsCompose(Lone(published, c), [Refresh("k", 0), Load("k", "id"), Fetch("k")], Lone(published, c'),
                [SkipPush("k"), Confirm("k"), Complete("k")], Lost(published, c));
  }

  lemma LoneAfter(published: string, c: Checkout, c': Checkout, sends: seq<Send>)
    ensures WithCheckout(Lone(published, c).(sends := sends), "k", c') == Lone(published, c').(sends := sends)
    ensures [] + sends == sends
  {
    assert map["k" := c]["k" := c'] == map["k" := c'];
  }

  /** Without the hypothesis on renewals the guarantee fails.  From an untouched project, one
      checkout that commits, reports, and between the rebase and the renewal either switches
      to another branch or resets the published one, ends with its work neither queued nor
      hosted. */
  lemma LeavingHeadCanLoseWork(published: string, other: string, reset: bool) returns (w: World, e: Entry)
    requires published != other
    ensures var w' := Execute(w, LosingRun(published, other, reset));
            Fresh(w) && e in w'.entries && !Safe(w', e)
  {
    w := Before(published, other);
    e := Entry("k", "id", published, 1);
    FreshBefore(published, other);
    var c := Away(published, other, reset);
    RunToRenewal(published, other, reset);
    RunAfterRenewal(published, c);
    LosingRunCompose(published, other, reset);
    LostWorkIsNotSafe(published, c);
  }

  lemma LosingRunCompose(published: string, other: string, reset: bool)
    requires published != other
    requires var leave := if reset then ResetBranch("k", published, 0) else SwitchBranch("k", other, 0);
             Execute(Before(published, other),
                     [CommitWork("k", {1}), Enqueue("k", "id", published, 1, None, 0)]
                     + [Load("k", "id"), Fetch("k"), StartRebase("k")] + [FinishRebase("k", None), leave])
             == Lone(published, Away(published, other, reset))
    ensures Execute(Before(published, other), LosingRun(published, other, reset))
         == Execute(Lone(published, Away(published, other, reset)),
                    [Refresh("k", 0), Load("k", "id"), Fetch("k")] + [SkipPush("k"), Confirm("k"), Complete("k")])
  {
    var leave := if reset then ResetBranch("k", published, 0) else SwitchBranch("k", other, 0);
    RunAppends(Next, Before(published, other),
                   [CommitWork("k", {1}), Enqueue("k", "id", published, 1, None, 0)]
                   + [Load("k", "id"), Fetch("k"), StartRebase("k")] + [FinishRebase("k", None), leave],
                   [Refresh("k", 0), Load("k", "id"), Fetch("k")] + [SkipPush("k"), Confirm("k"), Complete("k")]);
  }

  // ---- reaching the late failure ----

  ghost function Single(published: string, c: Checkout): World {
    World(map[0 := ROOT], 1, map[published := 0], map["k" := c], map["id" := "k"], [Entry("k", "id", published, 0)], [])
  }

  ghost function Hosting(published: string, other: string, p: Publication): Checkout {
    Checkout(map[published := 0, other := 0], published, [p], map[published := 0], Idle)
  }

  ghost function AlreadyHosted(published: string): Publication {
    NewPublication("id", PROJECT, published, 0, Some(0), 0)
  }

  lemma ReportHosted(published: string, other: string)
    requires published != other
    ensures Next(Before(published, other), Enqueue("k", "id", published, 0, Some(0), 0))
         == Single(published, Hosting(published, other, AlreadyHosted(published)))
  {
    var p := AlreadyHosted(published);
    var w := Before(published, other);
    assert Reportable(w, "k", published, 0, 0);
    var w1 := Next(w, Enqueue("k", "id", published, 0, Some(0), 0));
    assert w1.checkouts["k"].queue == [p];
    assert w1.checkouts["k"] == Hosting(published, other, p);
    assert w1.checkouts == map["k" := w1.checkouts["k"]];
    assert w1.owner == map["id" := "k"] && w1.entries == [Entry("k", "id", published, 0)];
  }

  lemma FetchHosted(published: string, c: Checkout)
    requires c.queue == [AlreadyHosted(published)] && c.delivery.Idle?
    ensures Next(Next(Single(published, c), Load("k", "id")), Fetch("k"))
         == Single(published, c.(delivery := Observed(AlreadyHosted(published), Some(0))))
  {
    LoadAndFetch(Single(published, c), "k", AlreadyHosted(published));
  }

  /** Commit 0 is hosted and checked out; it is reported, found hosted, and acknowledged. */
  ghost function AcknowledgingRun(published: string): seq<Event> {
    [Enqueue("k", "id", published, 0, Some(0), 0), Load("k", "id"), Fetch("k")] + [SkipPush("k"), Confirm("k"), Complete("k")]
  }

  ghost function AcknowledgedWorld(published: string, other: string): World {
    var p := AlreadyHosted(published);
    Single(published, Hosting(published, other, p).(queue := [Acknowledge(p)], delivery := Recorded(p))).(sends := [SendOf(p)])
  }

  lemma RunToAcknowledgement(published: string, other: string)
    requires published != other
    ensures Execute(Before(published, other), AcknowledgingRun(published)) == AcknowledgedWorld(published, other)
  {
    var p := AlreadyHosted(published);
    var w := Before(published, other);
    var c := Hosting(published, other, p).(delivery := Observed(p, Some(0)));
    ReportHosted(published, other);
    FetchHosted(published, Hosting(published, other, p));
    ThreeSteps(Next, w, Enqueue("k", "id", published, 0, Some(0), 0), Load("k", "id"), Fetch("k"));
    SingleIsAcknowledged(published, c, p);
    AcknowledgedAlone(p);
    RunsCompose(w, [Enqueue("k", "id", published, 0, Some(0), 0), Load("k", "id"), Fetch("k")], Single(published, c),
                [SkipPush("k"), Confirm("k"), Complete("k")], AcknowledgedWorld(published, other));
  }

  lemma SingleIsAcknowledged(published: string, c: Checkout, p: Publication)
    requires c.delivery == Observed(p, Some(0)) && p.branch == published && p.candidate == 0
    ensures Execute(Single(published, c), [SkipPush("k"), Confirm("k"), Complete("k")])
         == Single(published, c.(queue := Compacted(Retired(c.queue, p)), delivery := Recorded(p))).(sends := [SendOf(p)])
  {
    var w := Single(published, c);
    assert IsAncestor(w.graph, 0, 0);
    ReachableIsAcknowledged(w, "k", p, 0);
    var c' := c.(queue := Compacted(Retired(c.queue, p)), delivery := Recorded(p));
    assert map["k" := c]["k" := c'] == map["k" := c'];
    assert [] + [SendOf(p)] == [SendOf(p)];
  }

  /** The late failure happens: from an untouched project, a run without any renewal ends with
      an acknowledged entry in the queue, and the failure of the catalog work that follows
      makes it pending again. */
  lemma LateFailureReopens(published: string, other: string, error: string, next: int)
    requires published != other
    ensures Fresh(Before(published, other)) && CarefulRun(Before(published, other), AcknowledgingRun(published))
    ensures var w := Execute(Before(published, other), AcknowledgingRun(published));
            && "k" in w.checkouts && w.checkouts["k"].queue == [Acknowledge(AlreadyHosted(published))]
            && Next(w, Fail("k", error, next)).checkouts["k"].queue
               == [Failed(Acknowledge(AlreadyHosted(published)), error, next)]
  {
    FreshBefore(published, other);
    RunToAcknowledgement(published, other);
    AcknowledgedEntryFails(published, other, error, next);
    RenewalFreeRunsAreCareful(Before(published, other), AcknowledgingRun(published));
  }

  lemma AcknowledgedEntryFails(published: string, other: string, error: string, next: int)
    ensures var w := AcknowledgedWorld(published, other);
            && "k" in w.checkouts && w.checkouts["k"].queue == [Acknowledge(AlreadyHosted(published))]
            && Next(w, Fail("k", error, next)).checkouts["k"].queue
               == [Failed(Acknowledge(AlreadyHosted(published)), error, next)]
  {
    var q := Acknowledge(AlreadyHosted(published));
    assert Update([q], "id", p => Failed(p, error, next)) == [Failed(q, error, next)];
  }

  lemma FreshBefore(published: string, other: string)
    ensures Fresh(Before(published, other))
  {
  }

  lemma RenewalFreeRunsAreCareful(w: World, events: seq<Event>)
    requires forall e | e in events :: !e.Refresh?
    ensures CarefulRun(w, events)
  {
    assert forall i: nat | i < |events| :: events[i] in events;
  }
}
