/** Project-scoped named leases: one client that keeps receipts on disk, a channel that
    loses, delays and repeats requests, and a provider that follows the protocol.  The
    client may stop at any point; what it forgets then is everything but its receipts. */
module NamedLeases {
  import opened Options
  import opened Collections
  import opened Runs

  datatype PendingKey = PendingKey(resource: string, holder: string)

  datatype ActiveKey = ActiveKey(lease: nat, holder: string)

  /** A receipt of an acquisition whose outcome is not known yet. */
  datatype PendingReceipt = PendingReceipt(request: nat, secret: nat, ttl: nat)

  datatype Mutation = Mutation(renewing: bool, request: nat, ttl: Option<nat>)

  /** A receipt of a lease the provider granted, and the mutation awaiting an answer. */
  datatype ActiveReceipt = ActiveReceipt(resource: string, request: nat, secret: nat, expires: nat, mutation: Option<Mutation>)

  datatype Payload =
    | Acquire(key: PendingKey, secret: nat, ttl: nat)
    | Renew(lease: nat, secret: nat, ttl: nat)
    | Release(lease: nat, secret: nat)

  datatype Message = Message(request: nat, body: Payload)

  datatype Response =
    | Acquired(lease: nat, expires: nat)
    | Held
    | Renewed(expires: nat)
    | Released
    | LeaseExpired
    | NotHolder
    | NotFound
    | InvalidTtl
    | RequestIdReused

  datatype Policy = Policy(min: nat, default: nat, max: nat)

  predicate ValidPolicy(p: Policy) { 0 < p.min <= p.default <= p.max }

  predicate WithinPolicy(p: Policy, ttl: nat) { p.min <= ttl <= p.max }

  /** A lease as the provider stores it; leases of other devices are not `mine`. */
  datatype Lease = Lease(
    resource: string,
    holder: string,
    secret: nat,
    request: nat,
    mine: bool,
    expires: nat,
    released: bool)

  /** The stored answer to a request, for replay. */
  datatype Record = Record(body: Payload, response: Response, at: nat)

  /** What a request ID was drawn for. */
  datatype Purpose =
    | ToAcquire(key: PendingKey, secret: nat, ttl: nat)
    | ToRenew(lease: nat, secret: nat, chosen: Option<nat>)
    | ToRelease(lease: nat, secret: nat)

  /** Where the one client process stands. */
  datatype Client =
    | Idle
    | AcquireReady(key: PendingKey)
    | AcquireWaiting(key: PendingKey)
    | AcquireAnswered(key: PendingKey, response: Response)
    | AcquireRecorded(key: PendingKey, lease: nat)
    | MutateReady(target: ActiveKey, policy: Policy)
    | MutateWaiting(target: ActiveKey)
    | MutateAnswered(target: ActiveKey, response: Response)

  datatype World = World(
    now: nat,
    policy: Policy,
    longest: nat,
    leases: map<nat, Lease>,
    records: map<nat, Record>,
    wire: set<Message>,
    sent: seq<Message>,
    drawn: map<nat, Purpose>,
    pending: map<PendingKey, PendingReceipt>,
    active: map<ActiveKey, ActiveReceipt>,
    client: Client)

  datatype Event =
    | BeginAcquire(resource: string, holder: Option<string>, ttl: Option<nat>, request: nat, secret: nat, newHolder: string)
    | BeginMutate(target: ActiveKey, renewing: bool, ttl: Option<nat>, request: nat)
    | Send
    | Deliver(m: Message, lease: nat, refusal: Response, reaches: bool)
    | Proceed
    | Stop
    | Drop(m: Message)
    | Forget(request: nat)
    | Tick(seconds: nat)
    | SetPolicy(policy: Policy)
    | RivalAcquire(resource: string, lease: nat, seconds: nat)
    | RivalRelease(lease: nat)

  // ---- the provider ----

  predicate Alive(now: nat, leases: map<nat, Lease>, lease: nat) {
    lease in leases && !leases[lease].released && now < leases[lease].expires
  }

  predicate Live(w: World, lease: nat) { Alive(w.now, w.leases, lease) }

  ghost predicate Occupied(w: World, resource: string) {
    exists l :: l in w.leases && Live(w, l) && w.leases[l].resource == resource
  }

  /** The answers the protocol allows for a lease that is over. */
  predicate Refuses(r: Response) { r.LeaseExpired? || r.NotHolder? || r.NotFound? }

  /** The answer to a request seen for the first time. */
  ghost function Answer(w: World, body: Payload, lease: nat, refusal: Response): Response {
    match body
    case Acquire(key, secret, ttl) =>
      if !WithinPolicy(w.policy, ttl) then InvalidTtl
      else if Occupied(w, key.resource) then Held
      else Acquired(lease, w.now + ttl)
    case Renew(l, secret, ttl) =>
      if l !in w.leases then NotFound
      else if !w.leases[l].mine || w.leases[l].secret != secret then NotHolder
      else if !Live(w, l) then refusal
      else if !WithinPolicy(w.policy, ttl) then InvalidTtl
      else Renewed(w.now + ttl)
    case Release(l, secret) =>
      if l !in w.leases then NotFound
      else if !w.leases[l].mine || w.leases[l].secret != secret then NotHolder
      else if !Live(w, l) then refusal
      else Released
  }

  /** The leases after a request was answered for the first time. */
  function Served(w: World, m: Message, response: Response): map<nat, Lease> {
    match m.body
    case Acquire(key, secret, ttl) =>
      if response.Acquired?
      then w.leases[response.lease := Lease(key.resource, key.holder, secret, m.request, true, response.expires, false)]
      else w.leases
    case Renew(l, _, _) =>
      if response.Renewed? && l in w.leases then w.leases[l := w.leases[l].(expires := response.expires)] else w.leases
    case Release(l, _) =>
      if response.Released? && l in w.leases then w.leases[l := w.leases[l].(released := true)] else w.leases
  }

  /** A repeated request gets the stored answer; a reused ID is refused without effect. */
  ghost function Reply(w: World, m: Message, lease: nat, refusal: Response): Response {
    if m.request in w.records
    then if w.records[m.request].body == m.body then w.records[m.request].response else RequestIdReused
    else Answer(w, m.body, lease, refusal)
  }

  ghost function Handled(w: World, m: Message, lease: nat, refusal: Response): World {
    if m.request in w.records then w
    else
      var response := Answer(w, m.body, lease, refusal);
      w.(leases := Served(w, m, response), records := w.records[m.request := Record(m.body, response, w.now)])
  }

  // ---- the client ----

  predicate Matches(k: PendingKey, resource: string, holder: Option<string>) {
    k.resource == resource && (holder.Some? ==> k.holder == holder.value)
  }

  datatype Search = Nothing | One(key: PendingKey) | Several

  ghost function Matching(pending: map<PendingKey, PendingReceipt>, resource: string, holder: Option<string>): set<PendingKey> {
    set k | k in pending && Matches(k, resource, holder)
  }

  ghost function FindPending(pending: map<PendingKey, PendingReceipt>, resource: string, holder: Option<string>): (s: Search)
    ensures s.Nothing? ==> forall k :: k in pending ==> !Matches(k, resource, holder)
    ensures s.One? ==> s.key in pending && Matches(s.key, resource, holder)
  {
    var found := Matching(pending, resource, holder);
    if found == {} then
      assert forall k :: k in pending && Matches(k, resource, holder) ==> k in found;
      Nothing
    else if |found| == 1 then var k :| k in found; One(k)
    else Several
  }

  /** The TTL asked for, or else the default that the provider advertises. */
  function Chosen(policy: Policy, ttl: Option<nat>): nat { if ttl.Some? then ttl.value else policy.default }

  function AcquireBody(k: PendingKey, r: PendingReceipt): Payload { Acquire(k, r.secret, r.ttl) }

  /** A renewal without an explicit TTL sends the default of the policy it read. */
  function MutationBody(target: ActiveKey, secret: nat, m: Mutation, policy: Policy): Payload {
    if m.renewing then Renew(target.lease, secret, Chosen(policy, m.ttl))
    else Release(target.lease, secret)
  }

  function PurposeOf(target: ActiveKey, secret: nat, m: Mutation): Purpose {
    if m.renewing then ToRenew(target.lease, secret, m.ttl) else ToRelease(target.lease, secret)
  }

  /** The answers after which an active receipt is worthless. */
  predicate Ends(r: Response) { r.Released? || r.LeaseExpired? || r.NotHolder? }

  ghost function BegunAcquire(w: World, e: Event): World
    requires e.BeginAcquire?
  {
    var ttl := Chosen(w.policy, e.ttl);
    if !w.client.Idle? || !WithinPolicy(w.policy, ttl) then w
    else
      match FindPending(w.pending, e.resource, e.holder)
      case Several => w
      case One(k) => if w.pending[k].ttl != ttl then w else w.(client := AcquireReady(k))
      case Nothing =>
        var k := PendingKey(e.resource, if e.holder.Some? then e.holder.value else e.newHolder);
        if e.request in w.drawn then w
        else w.(drawn := w.drawn[e.request := ToAcquire(k, e.secret, ttl)],
                pending := w.pending[k := PendingReceipt(e.request, e.secret, ttl)], client := AcquireReady(k))
  }

  function BegunMutate(w: World, e: Event): World
    requires e.BeginMutate?
  {
    if !w.client.Idle? || e.target !in w.active
       || (e.renewing && !WithinPolicy(w.policy, Chosen(w.policy, e.ttl)))
       || (!e.renewing && e.ttl.Some?) then w
    else
      var receipt := w.active[e.target];
      match receipt.mutation
      case Some(m) =>
        if m.renewing == e.renewing && m.ttl == e.ttl then w.(client := MutateReady(e.target, w.policy)) else w
      case None =>
        if e.request in w.drawn then w
        else
          var m := Mutation(e.renewing, e.request, e.ttl);
          w.(drawn := w.drawn[e.request := PurposeOf(e.target, receipt.secret, m)],
             active := w.active[e.target := receipt.(mutation := Some(m))], client := MutateReady(e.target, w.policy))
  }

  function Sending(w: World): World {
    match w.client
    case AcquireReady(k) =>
      if k !in w.pending then w
      else
        var m := Message(w.pending[k].request, AcquireBody(k, w.pending[k]));
        w.(wire := w.wire + {m}, sent := w.sent + [m], client := AcquireWaiting(k))
    case MutateReady(a, policy) =>
      if a !in w.active || w.active[a].mutation.None? then w
      else
        var m := Message(w.active[a].mutation.value.request,
                         MutationBody(a, w.active[a].secret, w.active[a].mutation.value, policy));
        w.(wire := w.wire + {m}, sent := w.sent + [m], client := MutateWaiting(a))
    case _ => w
  }

  /** The request whose answer the client is waiting for or working on. */
  function Working(w: World): Option<nat> {
    match w.client
    case AcquireWaiting(k) => if k in w.pending then Some(w.pending[k].request) else None
    case AcquireAnswered(k, _) => if k in w.pending then Some(w.pending[k].request) else None
    case AcquireRecorded(k, _) => if k in w.pending then Some(w.pending[k].request) else None
    case MutateWaiting(a) =>
      if a in w.active && w.active[a].mutation.Some? then Some(w.active[a].mutation.value.request) else None
    case MutateAnswered(a, _) =>
      if a in w.active && w.active[a].mutation.Some? then Some(w.active[a].mutation.value.request) else None
    case _ => None
  }

  function Answered(w: World, request: nat, response: Response): World {
    if Working(w) != Some(request) then w
    else if w.client.AcquireWaiting? then w.(client := AcquireAnswered(w.client.key, response))
    else if w.client.MutateWaiting? then w.(client := MutateAnswered(w.client.target, response))
    else w
  }

  /** The active receipts once an acquisition is recorded. */
  function WithLease(active: map<ActiveKey, ActiveReceipt>, k: PendingKey, r: PendingReceipt, response: Response)
    : map<ActiveKey, ActiveReceipt>
    requires response.Acquired?
  {
    active[ActiveKey(response.lease, k.holder) := ActiveReceipt(k.resource, r.request, r.secret, response.expires, None)]
  }

  /** The active receipts once a mutation is answered. */
  function AfterMutation(active: map<ActiveKey, ActiveReceipt>, a: ActiveKey, response: Response): map<ActiveKey, ActiveReceipt>
    requires a in active
  {
    if response.Renewed? then active[a := active[a].(expires := response.expires, mutation := None)]
    else if Ends(response) then active - {a}
    else active
  }

  /** The writes to the receipts, one per step. */
  function Proceeding(w: World): World {
    match w.client
    case AcquireAnswered(k, response) =>
      if k !in w.pending then w
      else if response.Acquired? then
        w.(active := WithLease(w.active, k, w.pending[k], response), client := AcquireRecorded(k, response.lease))
      else w.(pending := w.pending - {k}, client := Idle)
    case AcquireRecorded(k, _) => w.(pending := w.pending - {k}, client := Idle)
    case MutateAnswered(a, response) =>
      if a !in w.active then w else w.(active := AfterMutation(w.active, a, response), client := Idle)
    case _ => w
  }

  ghost function Next(w: World, e: Event): World {
    match e
    case BeginAcquire(_, _, _, _, _, _) => BegunAcquire(w, e)
    case BeginMutate(_, _, _, _) => BegunMutate(w, e)
    case Send => Sending(w)
    case Deliver(m, lease, refusal, reaches) =>
      if m !in w.wire || lease in w.leases || !Refuses(refusal) then w
      else
        var w1 := Handled(w, m, lease, refusal);
        if reaches then Answered(w1, m.request, Reply(w, m, lease, refusal)) else w1
    case Proceed => Proceeding(w)
    // a crash, a timeout or an answer that cannot be read
    case Stop => w.(client := Idle)
    case Drop(m) => w.(wire := w.wire - {m})
    // replay state is kept for the longest lease lifetime, and while a copy is travelling
    case Forget(q) =>
      if q in w.records && w.records[q].at + w.longest <= w.now && Working(w) != Some(q) && (forall m | m in w.wire :: m.request != q)
      then w.(records := w.records - {q}) else w
    case Tick(seconds) => w.(now := w.now + seconds)
    case SetPolicy(policy) => if ValidPolicy(policy) && policy.max <= w.longest then w.(policy := policy) else w
    case RivalAcquire(resource, lease, seconds) =>
      if lease in w.leases || Occupied(w, resource) then w
      else w.(leases := w.leases[lease := Lease(resource, "", 0, 0, false, w.now + seconds, false)])
    case RivalRelease(lease) =>
      if lease in w.leases && !w.leases[lease].mine
      then w.(leases := w.leases[lease := w.leases[lease].(released := true)]) else w
  }

  ghost function Execute(w: World, events: seq<Event>): World { Run(Next, w, events) }

  // ---- what every step keeps ----

  predicate Fits(body: Payload, p: Purpose) {
    match p
    case ToAcquire(key, secret, ttl) => body == Acquire(key, secret, ttl)
    case ToRenew(lease, secret, ttl) =>
      body.Renew? && body.lease == lease && body.secret == secret && (ttl.Some? ==> body.ttl == ttl.value)
    case ToRelease(lease, secret) => body == Release(lease, secret)
  }

  predicate Drawn(drawn: map<nat, Purpose>, request: nat, body: Payload) { request in drawn && Fits(body, drawn[request]) }

  predicate PendingDrawn(drawn: map<nat, Purpose>, pending: map<PendingKey, PendingReceipt>) {
    forall k | k in pending :: Lookup(drawn, pending[k].request) == Some(ToAcquire(k, pending[k].secret, pending[k].ttl))
  }

  predicate MutationsDrawn(drawn: map<nat, Purpose>, active: map<ActiveKey, ActiveReceipt>) {
    forall a | a in active && active[a].mutation.Some? ::
      Lookup(drawn, active[a].mutation.value.request) == Some(PurposeOf(a, active[a].secret, active[a].mutation.value))
  }

  predicate WireDrawn(drawn: map<nat, Purpose>, wire: set<Message>) {
    forall m | m in wire :: Drawn(drawn, m.request, m.body)
  }

  predicate SentDrawn(drawn: map<nat, Purpose>, sent: seq<Message>) {
    forall m | m in sent :: Drawn(drawn, m.request, m.body)
  }

  predicate RecordsDrawn(drawn: map<nat, Purpose>, records: map<nat, Record>) {
    forall q | q in records :: Drawn(drawn, q, records[q].body)
  }

  /** Every request on disk, on the wire or at the provider serves the purpose it was drawn for. */
  predicate RequestsOk(w: World) {
    && PendingDrawn(w.drawn, w.pending) && MutationsDrawn(w.drawn, w.active)
    && WireDrawn(w.drawn, w.wire) && SentDrawn(w.drawn, w.sent) && RecordsDrawn(w.drawn, w.records)
  }

  predicate Receipted(leases: map<nat, Lease>, active: map<ActiveKey, ActiveReceipt>, lease: nat) {
    lease in leases && ActiveKey(lease, leases[lease].holder) in active
  }

  predicate HasActive(w: World, lease: nat) { Receipted(w.leases, w.active, lease) }

  predicate LeasesDrawn(leases: map<nat, Lease>, drawn: map<nat, Purpose>) {
    forall l | l in leases && leases[l].mine ::
      && leases[l].request in drawn && drawn[leases[l].request].ToAcquire?
      && drawn[leases[l].request].key == PendingKey(leases[l].resource, leases[l].holder)
      && drawn[leases[l].request].secret == leases[l].secret
  }

  predicate ReceiptsMatch(leases: map<nat, Lease>, active: map<ActiveKey, ActiveReceipt>) {
    forall a | a in active ::
      a.lease in leases && leases[a.lease].mine && leases[a.lease].holder == a.holder && leases[a.lease].secret == active[a].secret
  }

  /** Only this device holds the secret of the lease, and the lease is over or has its receipt. */
  predicate Claimed(now: nat, leases: map<nat, Lease>, active: map<ActiveKey, ActiveReceipt>, lease: nat, secret: nat) {
    && lease in leases && leases[lease].mine && leases[lease].secret == secret
    && (Alive(now, leases, lease) ==> Receipted(leases, active, lease))
  }

  predicate MutationsClaimed(now: nat, leases: map<nat, Lease>, drawn: map<nat, Purpose>, active: map<ActiveKey, ActiveReceipt>) {
    forall q | q in drawn && !drawn[q].ToAcquire? :: Claimed(now, leases, active, drawn[q].lease, drawn[q].secret)
  }

  predicate LeasesOk(w: World) {
    LeasesDrawn(w.leases, w.drawn) && ReceiptsMatch(w.leases, w.active) && MutationsClaimed(w.now, w.leases, w.drawn, w.active)
  }

  predicate RecordOk(now: nat, leases: map<nat, Lease>, q: nat, r: Record) {
    && !r.response.RequestIdReused?
    && (r.body.Acquire? && r.response.Acquired? ==>
          r.response.lease in leases && leases[r.response.lease].mine && leases[r.response.lease].request == q)
    && (!r.body.Acquire? && Ends(r.response) ==> !Alive(now, leases, r.body.lease))
  }

  predicate RecordsFaithful(now: nat, leases: map<nat, Lease>, records: map<nat, Record>) {
    forall q | q in records :: RecordOk(now, leases, q, records[q])
  }

  predicate RecordsOk(w: World) { RecordsFaithful(w.now, w.leases, w.records) }

  predicate WireCovered(wire: set<Message>, records: map<nat, Record>, pending: map<PendingKey, PendingReceipt>) {
    forall m | m in wire && m.body.Acquire? ::
      m.request in records || (m.body.key in pending && pending[m.body.key].request == m.request)
  }

  predicate WireOk(w: World) { WireCovered(w.wire, w.records, w.pending) }

  /** The client does not know the lease yet: it was never renewed, its request is still
      pending, and the provider still remembers the answer. */
  predicate Unclaimed(longest: nat, l: Lease, lease: nat, pending: map<PendingKey, PendingReceipt>, records: map<nat, Record>) {
    && PendingKey(l.resource, l.holder) in pending
    && pending[PendingKey(l.resource, l.holder)].request == l.request
    && l.request in records
    && records[l.request].response.Acquired? && records[l.request].response.lease == lease
    && l.expires <= records[l.request].at + longest
  }

  predicate LiveCovered(now: nat, longest: nat, leases: map<nat, Lease>, active: map<ActiveKey, ActiveReceipt>,
                        pending: map<PendingKey, PendingReceipt>, records: map<nat, Record>) {
    forall l | l in leases && leases[l].mine && Alive(now, leases, l) ::
      Receipted(leases, active, l) || Unclaimed(longest, leases[l], l, pending, records)
  }

  predicate LiveOk(w: World) { LiveCovered(w.now, w.longest, w.leases, w.active, w.pending, w.records) }

  predicate OneEach(now: nat, leases: map<nat, Lease>) {
    forall l, m | l in leases && m in leases ::
      Alive(now, leases, l) && Alive(now, leases, m) && leases[l].resource == leases[m].resource ==> l == m
  }

  predicate OnePerResource(w: World) { OneEach(w.now, w.leases) }

  predicate ClientOk(w: World) {
    match w.client
    case Idle => true
    case AcquireReady(k) => k in w.pending
    case AcquireWaiting(k) => k in w.pending
    case AcquireAnswered(k, response) =>
      k in w.pending && w.pending[k].request in w.records && w.records[w.pending[k].request].response == response
    case AcquireRecorded(k, lease) =>
      && k in w.pending && w.pending[k].request in w.records
      && w.records[w.pending[k].request].response.Acquired? && w.records[w.pending[k].request].response.lease == lease
      && HasActive(w, lease)
    case MutateReady(a, _) => a in w.active && w.active[a].mutation.Some?
    case MutateWaiting(a) => a in w.active && w.active[a].mutation.Some?
    case MutateAnswered(a, response) =>
      a in w.active && w.active[a].mutation.Some? && (Ends(response) ==> !Live(w, a.lease))
  }

  predicate Inv(w: World) {
    && ValidPolicy(w.policy) && w.policy.max <= w.longest
    && RequestsOk(w) && LeasesOk(w) && RecordsOk(w) && WireOk(w) && LiveOk(w) && OnePerResource(w) && ClientOk(w)
  }

  function Drawing(w: World, q: nat, p: Purpose): World
    requires q !in w.drawn
  {
    w.(drawn := w.drawn[q := p])
  }

  lemma DrawingKeepsRequests(w: World, q: nat, p: Purpose)
    requires RequestsOk(w) && q !in w.drawn
    ensures RequestsOk(Drawing(w, q, p))
  {
  }

  lemma DrawingKeepsInvariant(w: World, q: nat, p: Purpose)
    requires Inv(w) && q !in w.drawn && (!p.ToAcquire? ==> Claimed(w.now, w.leases, w.active, p.lease, p.secret))
    ensures Inv(Drawing(w, q, p))
  {
    DrawingKeepsRequests(w, q, p);
  }

  function NewPending(w: World, k: PendingKey, r: PendingReceipt): World {
    w.(pending := w.pending[k := r], client := AcquireReady(k))
  }

  lemma NewPendingKeepsInvariant(w: World, k: PendingKey, r: PendingReceipt)
    requires Inv(w) && k !in w.pending && Lookup(w.drawn, r.request) == Some(ToAcquire(k, r.secret, r.ttl))
    ensures Inv(NewPending(w, k, r))
  {
  }

  function NewMutation(w: World, a: ActiveKey, m: Mutation, policy: Policy): World
    requires a in w.active
  {
    w.(active := w.active[a := w.active[a].(mutation := Some(m))], client := MutateReady(a, policy))
  }

  lemma NewMutationKeepsRequests(w: World, a: ActiveKey, m: Mutation, policy: Policy)
    requires RequestsOk(w) && a in w.active && Lookup(w.drawn, m.request) == Some(PurposeOf(a, w.active[a].secret, m))
    ensures RequestsOk(NewMutation(w, a, m, policy))
  {
  }

  lemma NewMutationKeepsLeases(w: World, a: ActiveKey, m: Mutation, policy: Policy)
    requires LeasesOk(w) && a in w.active
    ensures LeasesOk(NewMutation(w, a, m, policy))
    ensures LiveOk(w) ==> LiveOk(NewMutation(w, a, m, policy))
  {
    assert NewMutation(w, a, m, policy).active.Keys == w.active.Keys;
  }

  lemma NewMutationKeepsInvariant(w: World, a: ActiveKey, m: Mutation, policy: Policy)
    requires Inv(w) && a in w.active && Lookup(w.drawn, m.request) == Some(PurposeOf(a, w.active[a].secret, m))
    ensures Inv(NewMutation(w, a, m, policy))
  {
    NewMutationKeepsRequests(w, a, m, policy);
    NewMutationKeepsLeases(w, a, m, policy);
  }

  lemma ClientKeepsInvariant(w: World, client: Client)
    requires Inv(w) && ClientOk(w.(client := client))
    ensures Inv(w.(client := client))
  {
  }

  lemma BeginAcquireKeepsInvariant(w: World, e: Event)
    requires Inv(w) && e.BeginAcquire?
    ensures Inv(Next(w, e))
  {
    var ttl := Chosen(w.policy, e.ttl);
    if w.client.Idle? && WithinPolicy(w.policy, ttl) {
      match FindPending(w.pending, e.resource, e.holder)
      case Several =>
      case One(k) => ClientKeepsInvariant(w, AcquireReady(k));
      case Nothing =>
        var k := PendingKey(e.resource, if e.holder.Some? then e.holder.value else e.newHolder);
        if e.request !in w.drawn {
          assert Matches(k, e.resource, e.holder);
          var w1 := Drawing(w, e.request, ToAcquire(k, e.secret, ttl));
          DrawingKeepsInvariant(w, e.request, ToAcquire(k, e.secret, ttl));
          NewPendingKeepsInvariant(w1, k, PendingReceipt(e.request, e.secret, ttl));
        }
    }
  }

  lemma BeginMutateKeepsInvariant(w: World, e: Event)
    requires Inv(w) && e.BeginMutate?
    ensures Inv(Next(w, e))
  {
    if BegunMutate(w, e) != w {
      var receipt := w.active[e.target];
      match receipt.mutation
      case Some(m) => ClientKeepsInvariant(w, MutateReady(e.target, w.policy));
      case None =>
        var m := Mutation(e.renewing, e.request, e.ttl);
        DrawingKeepsInvariant(w, e.request, PurposeOf(e.target, receipt.secret, m));
        NewMutationKeepsInvariant(Drawing(w, e.request, PurposeOf(e.target, receipt.secret, m)), e.target, m, w.policy);
    }
  }

  lemma SendKeepsInvariant(w: World)
    requires Inv(w)
    ensures Inv(Sending(w))
  {
    match w.client
    case AcquireReady(k) =>
      SentKeepsInvariant(w, Message(w.pending[k].request, AcquireBody(k, w.pending[k])), AcquireWaiting(k));
    case MutateReady(a, policy) =>
      var mutation := w.active[a].mutation.value;
      SentKeepsInvariant(w, Message(mutation.request, MutationBody(a, w.active[a].secret, mutation, policy)), MutateWaiting(a));
    case _ =>
  }

  lemma SentKeepsInvariant(w: World, m: Message, client: Client)
    requires Inv(w) && Drawn(w.drawn, m.request, m.body) && ClientOk(w.(client := client))
    requires m.body.Acquire? ==> m.body.key in w.pending && w.pending[m.body.key].request == m.request
    ensures Inv(w.(wire := w.wire + {m}, sent := w.sent + [m], client := client))
  {
  }

  // ---- the provider's steps ----

  lemma HandlingKeepsRequests(w: World, m: Message, lease: nat, refusal: Response)
    requires RequestsOk(w) && m in w.wire
    ensures RequestsOk(Handled(w, m, lease, refusal))
  {
  }

  /** Serving a request only adds a lease of this device, or changes one that its receipt covers. */
  lemma ServingKeepsLeases(w: World, m: Message, lease: nat, refusal: Response)
    requires Inv(w) && m in w.wire && lease !in w.leases && Refuses(refusal) && m.request !in w.records
    ensures LeasesOk(Handled(w, m, lease, refusal))
  {
    match m.body
    case Acquire(_, _, _) => GrantingKeepsLeases(w, m, lease, refusal);
    case Renew(_, _, _) => RenewingKeepsLeases(w, m, lease, refusal);
    case Release(_, _) => ReleasingKeepsLeases(w, m, lease, refusal);
  }

  lemma GrantingKeepsLeases(w: World, m: Message, lease: nat, refusal: Response)
    requires RequestsOk(w) && LeasesOk(w) && m in w.wire && lease !in w.leases && m.request !in w.records && m.body.Acquire?
    ensures LeasesOk(Handled(w, m, lease, refusal))
  {
    assert Drawn(w.drawn, m.request, m.body);
  }

  lemma RenewingKeepsLeases(w: World, m: Message, lease: nat, refusal: Response)
    requires RequestsOk(w) && LeasesOk(w) && m in w.wire && Refuses(refusal) && m.request !in w.records && m.body.Renew?
    ensures LeasesOk(Handled(w, m, lease, refusal))
  {
  }

  lemma ReleasingKeepsLeases(w: World, m: Message, lease: nat, refusal: Response)
    requires RequestsOk(w) && LeasesOk(w) && m in w.wire && Refuses(refusal) && m.request !in w.records && m.body.Release?
    ensures LeasesOk(Handled(w, m, lease, refusal))
  {
  }

  lemma ServingKeepsRecords(w: World, m: Message, lease: nat, refusal: Response)
    requires Inv(w) && m in w.wire && lease !in w.leases && Refuses(refusal) && m.request !in w.records
    ensures RecordsOk(Handled(w, m, lease, refusal))
  {
    if m.body.Acquire? {
      GrantingKeepsRecords(w, m, lease, refusal);
    } else {
      MutatingKeepsRecords(w, m, lease, refusal);
    }
  }

  lemma GrantingKeepsRecords(w: World, m: Message, lease: nat, refusal: Response)
    requires RequestsOk(w) && LeasesOk(w) && RecordsOk(w) && lease !in w.leases && m.request !in w.records && m.body.Acquire?
    ensures RecordsOk(Handled(w, m, lease, refusal))
  {
    forall q | q in w.records && !w.records[q].body.Acquire? ensures w.records[q].body.lease != lease {
      assert Drawn(w.drawn, q, w.records[q].body);
    }
  }

  lemma MutatingKeepsRecords(w: World, m: Message, lease: nat, refusal: Response)
    requires RequestsOk(w) && LeasesOk(w) && RecordsOk(w) && m in w.wire
    requires Refuses(refusal) && m.request !in w.records && !m.body.Acquire?
    ensures RecordsOk(Handled(w, m, lease, refusal))
  {
    assert Claimed(w.now, w.leases, w.active, m.body.lease, m.body.secret);
  }

  lemma GrantingKeepsLive(w: World, m: Message, lease: nat, refusal: Response)
    requires Inv(w) && m in w.wire && lease !in w.leases && m.request !in w.records && m.body.Acquire?
    ensures LiveOk(Handled(w, m, lease, refusal))
  {
  }

  lemma MutatingKeepsLive(w: World, m: Message, lease: nat, refusal: Response)
    requires Inv(w) && m in w.wire && Refuses(refusal) && m.request !in w.records && !m.body.Acquire?
    ensures LiveOk(Handled(w, m, lease, refusal))
  {
    assert Claimed(w.now, w.leases, w.active, m.body.lease, m.body.secret);
    MutatingKeepsClaims(w, m, lease, refusal);
  }

  /** A renewal or release touches at most one lease, which has its receipt if it is alive. */
  lemma MutatingKeepsClaims(w: World, m: Message, lease: nat, refusal: Response)
    requires LiveOk(w) && Refuses(refusal) && m.request !in w.records && !m.body.Acquire?
    requires Alive(w.now, w.leases, m.body.lease) ==> Receipted(w.leases, w.active, m.body.lease)
    ensures LiveOk(Handled(w, m, lease, refusal))
  {
  }

  lemma ServingKeepsLive(w: World, m: Message, lease: nat, refusal: Response)
    requires Inv(w) && m in w.wire && lease !in w.leases && Refuses(refusal) && m.request !in w.records
    ensures LiveOk(Handled(w, m, lease, refusal))
  {
    if m.body.Acquire? {
      GrantingKeepsLive(w, m, lease, refusal);
    } else {
      MutatingKeepsLive(w, m, lease, refusal);
    }
  }

  lemma ServingKeepsOnePerResource(w: World, m: Message, lease: nat, refusal: Response)
    requires OnePerResource(w) && lease !in w.leases && Refuses(refusal) && m.request !in w.records
    ensures OnePerResource(Handled(w, m, lease, refusal))
  {
  }

  lemma ServingKeepsClient(w: World, m: Message, lease: nat, refusal: Response)
    requires Inv(w) && m in w.wire && lease !in w.leases && Refuses(refusal) && m.request !in w.records
    ensures ClientOk(Handled(w, m, lease, refusal))
  {
  }

  lemma HandlingKeepsInvariant(w: World, m: Message, lease: nat, refusal: Response)
    requires Inv(w) && m in w.wire && lease !in w.leases && Refuses(refusal)
    ensures Inv(Handled(w, m, lease, refusal))
  {
    if m.request !in w.records {
      HandlingKeepsRequests(w, m, lease, refusal);
      ServingKeepsLeases(w, m, lease, refusal);
      ServingKeepsRecords(w, m, lease, refusal);
      ServingKeepsLive(w, m, lease, refusal);
      ServingKeepsOnePerResource(w, m, lease, refusal);
      ServingKeepsClient(w, m, lease, refusal);
    }
  }

  /** The answer a recorded request gets. */
  function Replayed(w: World, m: Message): Response
    requires m.request in w.records
  {
    if w.records[m.request].body == m.body then w.records[m.request].response else RequestIdReused
  }

  lemma AnswerKeepsInvariant(w: World, m: Message)
    requires Inv(w) && m.request in w.records && m in w.wire
    ensures Inv(Answered(w, m.request, Replayed(w, m)))
  {
    if Working(w) == Some(m.request) {
      if w.client.AcquireWaiting? {
        ClientKeepsInvariant(w, AcquireAnswered(w.client.key, Replayed(w, m)));
      } else if w.client.MutateWaiting? {
        ClientKeepsInvariant(w, MutateAnswered(w.client.target, Replayed(w, m)));
      }
    }
  }

  // ---- what the client writes after an answer ----

  lemma RecordingKeepsInvariant(w: World)
    requires Inv(w) && w.client.AcquireAnswered? && w.client.response.Acquired?
    ensures Inv(Proceeding(w))
  {
  }

  lemma RemovingPendingKeepsInvariant(w: World)
    requires Inv(w) && (w.client.AcquireRecorded? || (w.client.AcquireAnswered? && !w.client.response.Acquired?))
    ensures Inv(Proceeding(w))
  {
  }

  lemma UpdatingActiveKeepsInvariant(w: World)
    requires Inv(w) && w.client.MutateAnswered? && w.client.response.Renewed?
    ensures Inv(Proceeding(w))
  {
  }

  function WithoutActive(w: World, a: ActiveKey): World { w.(active := w.active - {a}, client := Idle) }

  lemma RemovingActiveKeepsLeases(w: World, a: ActiveKey)
    requires LeasesOk(w) && LiveOk(w) && a in w.active && !Live(w, a.lease)
    ensures LeasesOk(WithoutActive(w, a)) && LiveOk(WithoutActive(w, a))
  {
  }

  lemma RemovingActiveKeepsInvariant(w: World)
    requires Inv(w) && w.client.MutateAnswered? && Ends(w.client.response)
    ensures Inv(Proceeding(w))
  {
    RemovingActiveKeepsLeases(w, w.client.target);
  }

  lemma ProceedKeepsInvariant(w: World)
    requires Inv(w)
    ensures Inv(Proceeding(w))
  {
    if w.client.AcquireAnswered? {
      if w.client.response.Acquired? {
        RecordingKeepsInvariant(w);
      } else {
        RemovingPendingKeepsInvariant(w);
      }
    } else if w.client.AcquireRecorded? {
      RemovingPendingKeepsInvariant(w);
    } else if w.client.MutateAnswered? {
      if w.client.response.Renewed? {
        UpdatingActiveKeepsInvariant(w);
      } else if Ends(w.client.response) {
        RemovingActiveKeepsInvariant(w);
      } else {
        ClientKeepsInvariant(w, Idle);
      }
    }
  }

  // ---- the world around them ----

  lemma DropKeepsInvariant(w: World, m: Message)
    requires Inv(w)
    ensures Inv(Next(w, Drop(m)))
  {
  }

  lemma ForgetKeepsInvariant(w: World, q: nat)
    requires Inv(w)
    ensures Inv(Next(w, Forget(q)))
  {
  }

  lemma TickKeepsInvariant(w: World, seconds: nat)
    requires Inv(w)
    ensures Inv(Next(w, Tick(seconds)))
  {
  }

  lemma PolicyKeepsInvariant(w: World, policy: Policy)
    requires Inv(w)
    ensures Inv(Next(w, SetPolicy(policy)))
  {
  }

  lemma RivalLeaseKeepsInvariant(w: World, lease: nat, l: Lease)
    requires Inv(w) && !l.mine && (lease in w.leases ==> !w.leases[lease].mine)
    requires OnePerResource(w.(leases := w.leases[lease := l]))
    ensures Inv(w.(leases := w.leases[lease := l]))
  {
    var w' := w.(leases := w.leases[lease := l]);
    RivalLeaseKeepsOthers(w, lease, l);
    assert RequestsOk(w') && WireOk(w') && ClientOk(w');
  }

  lemma RivalLeaseKeepsOthers(w: World, lease: nat, l: Lease)
    requires LeasesOk(w) && LiveOk(w) && RecordsOk(w)
    requires !l.mine && (lease in w.leases ==> !w.leases[lease].mine)
    requires forall q | q in w.records && !w.records[q].body.Acquire? ::
               w.records[q].body.lease in w.leases && w.leases[w.records[q].body.lease].mine
    ensures LeasesOk(w.(leases := w.leases[lease := l])) && LiveOk(w.(leases := w.leases[lease := l]))
    ensures RecordsOk(w.(leases := w.leases[lease := l]))
  {
  }

  lemma RivalAcquireKeepsInvariant(w: World, resource: string, lease: nat, seconds: nat)
    requires Inv(w)
    ensures Inv(Next(w, RivalAcquire(resource, lease, seconds)))
  {
    if lease !in w.leases && !Occupied(w, resource) {
      var l := Lease(resource, "", 0, 0, false, w.now + seconds, false);
      OneMorePerResource(w, lease, l);
      RivalLeaseKeepsInvariant(w, lease, l);
    }
  }

  lemma OneMorePerResource(w: World, lease: nat, l: Lease)
    requires OnePerResource(w) && lease !in w.leases && !Occupied(w, l.resource)
    ensures OnePerResource(w.(leases := w.leases[lease := l]))
  {
  }

  lemma RivalReleaseKeepsInvariant(w: World, lease: nat)
    requires Inv(w)
    ensures Inv(Next(w, RivalRelease(lease)))
  {
    if lease in w.leases && !w.leases[lease].mine {
      var l := w.leases[lease].(released := true);
      assert OnePerResource(w.(leases := w.leases[lease := l]));
      RivalLeaseKeepsInvariant(w, lease, l);
    }
  }

  lemma StepKeepsInvariant(w: World, e: Event)
    requires Inv(w)
    ensures Inv(Next(w, e))
  {
    match e
    case BeginAcquire(_, _, _, _, _, _) => BeginAcquireKeepsInvariant(w, e);
    case BeginMutate(_, _, _, _) => BeginMutateKeepsInvariant(w, e);
    case Send => SendKeepsInvariant(w);
    case Deliver(m, lease, refusal, reaches) =>
      if m in w.wire && lease !in w.leases && Refuses(refusal) {
        HandlingKeepsInvariant(w, m, lease, refusal);
        AnswerKeepsInvariant(Handled(w, m, lease, refusal), m);
        ReplyIsReplayed(w, m, lease, refusal);
      }
    case Proceed => ProceedKeepsInvariant(w);
    case Stop => ClientKeepsInvariant(w, Idle);
    case Drop(m) => DropKeepsInvariant(w, m);
    case Forget(q) => ForgetKeepsInvariant(w, q);
    case Tick(seconds) => TickKeepsInvariant(w, seconds);
    case SetPolicy(policy) => PolicyKeepsInvariant(w, policy);
    case RivalAcquire(resource, lease, seconds) => RivalAcquireKeepsInvariant(w, resource, lease, seconds);
    case RivalRelease(lease) => RivalReleaseKeepsInvariant(w, lease);
  }

  lemma ReplyIsReplayed(w: World, m: Message, lease: nat, refusal: Response)
    ensures m.request in Handled(w, m, lease, refusal).records
    ensures Reply(w, m, lease, refusal) == Replayed(Handled(w, m, lease, refusal), m)
  {
  }

  lemma {:induction false} RunsKeepInvariant(w: World, events: seq<Event>)
    requires Inv(w)
    ensures Inv(Execute(w, events))
    decreases |events|
  {
    if events != [] {
      StepKeepsInvariant(w, events[0]);
      RunsKeepInvariant(Next(w, events[0]), events[1..]);
    }
  }

  // ---- what the runs promise ----

  /** A device that never used named leases; other devices may hold some. */
  ghost predicate Untouched(w: World) {
    && ValidPolicy(w.policy) && w.policy.max <= w.longest
    && (forall l :: l in w.leases ==> !w.leases[l].mine) && OnePerResource(w)
    && w.records == map[] && w.wire == {} && w.sent == [] && w.drawn == map[]
    && w.pending == map[] && w.active == map[] && w.client.Idle?
  }

  lemma UntouchedIsFine(w: World)
    requires Untouched(w)
    ensures Inv(w)
  {
  }

  /** The secret of the lease is in a receipt on disk. */
  predicate SecretOnDisk(w: World, lease: nat)
    requires lease in w.leases
  {
    var l := w.leases[lease];
    var a, k := ActiveKey(lease, l.holder), PendingKey(l.resource, l.holder);
    || (a in w.active && w.active[a].secret == l.secret)
    || (k in w.pending && w.pending[k].secret == l.secret && w.pending[k].request == l.request)
  }

  /** At every point of every run - stopped anywhere, requests lost, delayed or repeated -
      each live lease this device acquired has its secret in a receipt on disk. */
  lemma EverySecretIsKept(w: World, events: seq<Event>)
    requires Untouched(w)
    ensures var w' := Execute(w, events);
            forall l :: l in w'.leases && w'.leases[l].mine && Live(w', l) ==> SecretOnDisk(w', l)
  {
    UntouchedIsFine(w);
    RunsKeepInvariant(w, events);
  }

  /** However often an acquisition is retried, at most one lease of its request is live, and
      no resource ever has two live leases. */
  lemma RetriesNeverHoldTwoLeases(w: World, events: seq<Event>, l: nat, m: nat)
    requires Untouched(w)
    requires var w' := Execute(w, events);
             && l in w'.leases && m in w'.leases && l != m && Live(w', l) && Live(w', m)
    ensures var w' := Execute(w, events);
            && w'.leases[l].resource != w'.leases[m].resource
            && (w'.leases[l].mine && w'.leases[m].mine ==> w'.leases[l].request != w'.leases[m].request)
  {
    UntouchedIsFine(w);
    RunsKeepInvariant(w, events);
  }

  /** Every lease of this device is the stored answer to its own request. */
  ghost predicate Remembered(w: World) {
    forall l :: l in w.leases && w.leases[l].mine ==>
      && w.leases[l].request in w.records
      && w.records[w.leases[l].request].response.Acquired? && w.records[w.leases[l].request].response.lease == l
  }

  lemma BegunAcquireKeepsStores(w: World, e: Event)
    requires e.BeginAcquire?
    ensures BegunAcquire(w, e).leases == w.leases && BegunAcquire(w, e).records == w.records
  {
  }

  lemma ClientStepKeepsStores(w: World, e: Event)
    requires e.BeginMutate? || e.Send? || e.Proceed? || e.Stop? || e.Drop? || e.Tick? || e.SetPolicy?
    ensures Next(w, e).leases == w.leases && Next(w, e).records == w.records
  {
    match e
    case BeginMutate(_, _, _, _) => BegunMutateKeepsStores(w, e);
    case Send => SendingKeepsStores(w);
    case Proceed => ProceedingKeepsStores(w);
    case _ =>
  }

  lemma BegunMutateKeepsStores(w: World, e: Event)
    requires e.BeginMutate?
    ensures BegunMutate(w, e).leases == w.leases && BegunMutate(w, e).records == w.records
  {
  }

  lemma SendingKeepsStores(w: World)
    ensures Sending(w).leases == w.leases && Sending(w).records == w.records
  {
  }

  lemma ProceedingKeepsStores(w: World)
    ensures Proceeding(w).leases == w.leases && Proceeding(w).records == w.records
  {
    match w.client
    case AcquireAnswered(k, response) =>
    case MutateAnswered(a, _) =>
    case _ =>
  }

  lemma RivalStepKeepsLeases(w: World, e: Event)
    requires e.RivalAcquire? || e.RivalRelease?
    ensures Next(w, e).records == w.records
    ensures forall l :: l in Next(w, e).leases && Next(w, e).leases[l].mine ==> l in w.leases && w.leases[l] == Next(w, e).leases[l]
  {
  }

  lemma AnsweredKeepsStores(w: World, request: nat, response: Response)
    ensures Answered(w, request, response).leases == w.leases && Answered(w, request, response).records == w.records
  {
  }

  lemma SameStoresRemember(w: World, w': World)
    requires Remembered(w) && w'.leases == w.leases && w'.records == w.records
    ensures Remembered(w')
  {
  }

  /** Only a delivery adds to this device's leases, and only forgetting drops a record. */
  lemma StepRemembers(w: World, e: Event)
    requires Inv(w) && Remembered(w) && !e.Forget?
    ensures Remembered(Next(w, e))
  {
    match e
    case Deliver(m, lease, refusal, reaches) =>
      if m in w.wire && lease !in w.leases && Refuses(refusal) {
        var w1 := Handled(w, m, lease, refusal);
        HandlingRemembers(w, m, lease, refusal);
        if reaches {
          AnsweredKeepsStores(w1, m.request, Reply(w, m, lease, refusal));
          SameStoresRemember(w1, Next(w, e));
        }
      }
    case RivalAcquire(_, _, _) => RivalStepKeepsLeases(w, e);
    case RivalRelease(_) => RivalStepKeepsLeases(w, e);
    case BeginAcquire(_, _, _, _, _, _) =>
      BegunAcquireKeepsStores(w, e);
      SameStoresRemember(w, BegunAcquire(w, e));
    case _ =>
      ClientStepKeepsStores(w, e);
      SameStoresRemember(w, Next(w, e));
  }

  lemma HandlingRemembers(w: World, m: Message, lease: nat, refusal: Response)
    requires Inv(w) && Remembered(w) && m in w.wire && lease !in w.leases && Refuses(refusal)
    ensures Remembered(Handled(w, m, lease, refusal))
  {
    if m.request !in w.records {
      ServingRemembers(w, m, lease, refusal);
    }
  }

  lemma ServingRemembers(w: World, m: Message, lease: nat, refusal: Response)
    requires Remembered(w) && lease !in w.leases && m.request !in w.records
    ensures Remembered(Handled(w, m, lease, refusal))
  {
    var leases := Handled(w, m, lease, refusal).leases;
    forall l | l in leases && leases[l].mine && l in w.leases
      ensures w.leases[l].mine && leases[l].request == w.leases[l].request != m.request
    {
    }
  }

  lemma {:induction false} RunsRemember(w: World, events: seq<Event>)
    requires Inv(w) && Remembered(w) && (forall e | e in events :: !e.Forget?)
    ensures Remembered(Execute(w, events))
    decreases |events|
  {
    if events != [] {
      StepKeepsInvariant(w, events[0]);
      StepRemembers(w, events[0]);
      RunsRemember(Next(w, events[0]), events[1..]);
    }
  }

  /** While the provider keeps its replay state, an acquisition creates at most one lease,
      live or not. */
  lemma RetriesNeverCreateASecondLease(w: World, events: seq<Event>)
    requires Untouched(w) && (forall e | e in events :: !e.Forget?)
    ensures var leases := Execute(w, events).leases;
            forall l, m | l in leases && m in leases ::
              leases[l].mine && leases[m].mine && leases[l].request == leases[m].request ==> l == m
  {
    UntouchedIsFine(w);
    RunsRemember(w, events);
  }

  /** Each request ID ever sent carries one payload.  The one exception is the TTL of a
      renewal that leaves it to the advertised default. */
  lemma OneRequestOnePayload(w: World, events: seq<Event>, a: Message, b: Message)
    requires Untouched(w) && a in Execute(w, events).sent && b in Execute(w, events).sent && a.request == b.request
    ensures a.request in Execute(w, events).drawn
    ensures a.body == b.body || (&& Execute(w, events).drawn[a.request].ToRenew? && Execute(w, events).drawn[a.request].chosen.None?
                                 && a.body.Renew? && b.body.Renew? && a.body == b.body.(ttl := a.body.ttl))
  {
    UntouchedIsFine(w);
    RunsKeepInvariant(w, events);
  }

  // ---- what each command and each answer does ----

  /** `acquire` is refused without effect for a TTL outside the advertised bounds, for several
      matching receipts, and for a receipt with another TTL; it takes up the only receipt that
      matches; and it draws a request ID, once, exactly when none does. */
  lemma AcquireBegins(w: World, e: Event)
    requires e.BeginAcquire? && w.client.Idle?
    ensures var ttl := Chosen(w.policy, e.ttl);
            var matching := set k | k in w.pending && k.resource == e.resource && (e.holder.None? || e.holder == Some(k.holder));
            var chosenKey := PendingKey(e.resource, if e.holder.Some? then e.holder.value else e.newHolder);
            && (ttl < w.policy.min || ttl > w.policy.max || |matching| > 1 ==> Next(w, e) == w)
            && (w.policy.min <= ttl <= w.policy.max && |matching| == 1 ==>
                  exists k :: k in matching
                    && Next(w, e) == if w.pending[k].ttl == ttl then w.(client := AcquireReady(k)) else w)
            && (w.policy.min <= ttl <= w.policy.max && matching == {} && e.request !in w.drawn ==>
                  Next(w, e) == w.(drawn := w.drawn[e.request := ToAcquire(chosenKey, e.secret, ttl)],
                                   pending := w.pending[chosenKey := PendingReceipt(e.request, e.secret, ttl)],
                                   client := AcquireReady(chosenKey)))
  {
    var matching := set k | k in w.pending && k.resource == e.resource && (e.holder.None? || e.holder == Some(k.holder));
    assert matching == Matching(w.pending, e.resource, e.holder);
  }

  /** `renew` and `release` are refused without effect without a receipt, for a TTL outside the
      advertised bounds, for a release with a TTL, and while a different mutation waits for its
      answer; the same mutation is taken up again under its own request ID. */
  lemma MutationBegins(w: World, a: ActiveKey, renewing: bool, ttl: Option<nat>, request: nat)
    requires w.client.Idle?
    ensures var w' := Next(w, BeginMutate(a, renewing, ttl, request));
            var chosen := Chosen(w.policy, ttl);
            if a !in w.active || (renewing && (chosen < w.policy.min || chosen > w.policy.max)) || (!renewing && ttl.Some?)
            then w' == w
            else match w.active[a].mutation
              case Some(m) => w' == (if m.renewing == renewing && m.ttl == ttl then w.(client := MutateReady(a, w.policy)) else w)
              case None =>
                request !in w.drawn ==>
                  && w'.client == MutateReady(a, w.policy) && w'.pending == w.pending
                  && w'.active == w.active[a := w.active[a].(mutation := Some(Mutation(renewing, request, ttl)))]
                  && w'.drawn == w.drawn[request := if renewing then ToRenew(a.lease, w.active[a].secret, ttl)
                                                    else ToRelease(a.lease, w.active[a].secret)]
  {
  }

  /** One command at a time: nothing begins while another is under way. */
  lemma BusyClientBeginsNothing(w: World, e: Event)
    requires !w.client.Idle? && (e.BeginAcquire? || e.BeginMutate?)
    ensures Next(w, e) == w
  {
  }

  /** What the receipts are once an answer is written down.  A granted lease is in both
      receipts in between. */
  lemma AcquisitionSettles(w: World, k: PendingKey, answer: Response)
    requires w.client == AcquireAnswered(k, answer) && k in w.pending
    ensures answer.Acquired? ==> Next(w, Proceed).pending == w.pending && ActiveKey(answer.lease, k.holder) in Next(w, Proceed).active
    ensures var w' := if answer.Acquired? then Next(Next(w, Proceed), Proceed) else Next(w, Proceed);
            var r := w.pending[k];
            w' == w.(client := Idle, pending := w.pending - {k},
                     active := if answer.Acquired?
                               then w.active[ActiveKey(answer.lease, k.holder)
                                             := ActiveReceipt(k.resource, r.request, r.secret, answer.expires, None)]
                               else w.active)
  {
  }

  lemma MutationSettles(w: World, a: ActiveKey, answer: Response)
    requires w.client == MutateAnswered(a, answer) && a in w.active
    ensures var receipt := w.active[a];
            Next(w, Proceed)
            == w.(client := Idle,
                  active := match answer
                    case Renewed(expires) => w.active[a := receipt.(expires := expires, mutation := None)]
                    case Released => w.active - {a}
                    case LeaseExpired => w.active - {a}
                    case NotHolder => w.active - {a}
                    case _ => w.active)
  {
  }

  /** A lease is changed only by its holder: by a request that carries its secret while it
      lives, which moves its end within the advertised bounds or releases it. */
  lemma OnlyTheHolderChangesALease(w: World, e: Event, l: nat)
    requires l in w.leases && w.leases[l].mine
    ensures l in Next(w, e).leases
    ensures Next(w, e).leases[l] != w.leases[l] ==>
              && e.Deliver? && e.m in w.wire && e.m.request !in w.records && !e.m.body.Acquire?
              && e.m.body.lease == l && e.m.body.secret == w.leases[l].secret
              && !w.leases[l].released && w.now < w.leases[l].expires
              && Next(w, e).leases[l] == (if e.m.body.Renew? then w.leases[l].(expires := w.now + e.m.body.ttl)
                                          else w.leases[l].(released := true))
              && (e.m.body.Renew? ==> w.policy.min <= e.m.body.ttl <= w.policy.max)
  {
    if e.Deliver? {
      if e.m in w.wire && e.lease !in w.leases && Refuses(e.refusal) {
        HolderIsServed(w, e.m, e.lease, e.refusal, l);
        AnsweredKeepsStores(Handled(w, e.m, e.lease, e.refusal), e.m.request, Reply(w, e.m, e.lease, e.refusal));
      }
    } else if e.RivalAcquire? || e.RivalRelease? {
    } else if e.BeginAcquire? {
      BegunAcquireKeepsStores(w, e);
    } else if !e.Forget? {
      ClientStepKeepsStores(w, e);
    }
  }

  lemma HolderIsServed(w: World, m: Message, lease: nat, refusal: Response, l: nat)
    requires l in w.leases && w.leases[l].mine && lease !in w.leases && Refuses(refusal)
    ensures var w' := Handled(w, m, lease, refusal);
            && l in w'.leases
            && (w'.leases[l] != w.leases[l] ==>
                  && m.request !in w.records && !m.body.Acquire? && m.body.lease == l && m.body.secret == w.leases[l].secret
                  && !w.leases[l].released && w.now < w.leases[l].expires
                  && w'.leases[l] == (if m.body.Renew? then w.leases[l].(expires := w.now + m.body.ttl)
                                      else w.leases[l].(released := true))
                  && (m.body.Renew? ==> w.policy.min <= m.body.ttl <= w.policy.max))
  {
  }

  /** This device gets a lease only for a request it sent, on a resource nobody holds, for a
      TTL within the advertised bounds. */
  lemma LeasesAreGranted(w: World, e: Event, l: nat)
    requires l !in w.leases && l in Next(w, e).leases && Next(w, e).leases[l].mine
    ensures e.Deliver? && e.m in w.wire && e.m.request !in w.records && e.m.body.Acquire? && e.lease == l
    ensures w.policy.min <= e.m.body.ttl <= w.policy.max
    ensures forall other :: other in w.leases && w.leases[other].resource == e.m.body.key.resource ==>
              w.leases[other].released || w.leases[other].expires <= w.now
    ensures Next(w, e).leases[l] == Lease(e.m.body.key.resource, e.m.body.key.holder, e.m.body.secret, e.m.request, true,
                                          w.now + e.m.body.ttl, false)
  {
    if e.Deliver? {
      DeliveryServes(w, e.m, e.lease, e.refusal, e.reaches);
      if Next(w, e).leases != w.leases {
        GrantIsServed(w, e.m, e.lease, e.refusal, l);
      }
    } else {
      OtherStepsGrantNothing(w, e, l);
    }
  }

  lemma DeliveryServes(w: World, m: Message, lease: nat, refusal: Response, reaches: bool)
    ensures Next(w, Deliver(m, lease, refusal, reaches)).leases
         == if m in w.wire && lease !in w.leases && Refuses(refusal) then Handled(w, m, lease, refusal).leases else w.leases
  {
    AnsweredKeepsStores(Handled(w, m, lease, refusal), m.request, Reply(w, m, lease, refusal));
  }

  lemma OtherStepsGrantNothing(w: World, e: Event, l: nat)
    requires !e.Deliver? && l !in w.leases
    ensures l in Next(w, e).leases ==> !Next(w, e).leases[l].mine
  {
    if e.RivalAcquire? || e.RivalRelease? {
      RivalStepKeepsLeases(w, e);
    } else if e.BeginAcquire? {
      BegunAcquireKeepsStores(w, e);
    } else if !e.Forget? {
      ClientStepKeepsStores(w, e);
    }
  }

  lemma GrantIsServed(w: World, m: Message, lease: nat, refusal: Response, l: nat)
    requires l !in w.leases && lease !in w.leases && Refuses(refusal) && l in Handled(w, m, lease, refusal).leases
    ensures m.request !in w.records && m.body.Acquire? && lease == l && w.policy.min <= m.body.ttl <= w.policy.max
    ensures forall other :: other in w.leases && w.leases[other].resource == m.body.key.resource ==> !Live(w, other)
    ensures Handled(w, m, lease, refusal).leases[l]
         == Lease(m.body.key.resource, m.body.key.holder, m.body.secret, m.request, true, w.now + m.body.ttl, false)
  {
  }

  // ---- retrying ----

  lemma FindsTheOnlyReceipt(pending: map<PendingKey, PendingReceipt>, k: PendingKey)
    requires k in pending
    ensures FindPending(pending, k.resource, Some(k.holder)) == One(k)
  {
    assert Matching(pending, k.resource, Some(k.holder)) == {k};
  }

  /** The retry takes up the pending receipt exactly when it asks for the TTL written there
      and the provider still allows that TTL. */
  predicate TakesUp(w: World, k: PendingKey, ttl: nat)
    requires k in w.pending
  {
    ttl == w.pending[k].ttl && WithinPolicy(w.policy, ttl)
  }

  lemma RetryBegins(w: World, k: PendingKey, e: Event)
    requires w.client.Idle? && k in w.pending && e.BeginAcquire? && e.resource == k.resource && e.holder == Some(k.holder)
    ensures Next(w, e) == if TakesUp(w, k, Chosen(w.policy, e.ttl)) then w.(client := AcquireReady(k)) else w
  {
    FindsTheOnlyReceipt(w.pending, k);
  }

  lemma PendingIsSent(w: World, k: PendingKey)
    requires k in w.pending && w.client == AcquireReady(k)
    ensures var m := Message(w.pending[k].request, AcquireBody(k, w.pending[k]));
            Next(w, Send) == w.(wire := w.wire + {m}, sent := w.sent + [m], client := AcquireWaiting(k))
  {
  }

  /** The provider answers a request it remembers, and changes nothing. */
  lemma RememberedIsReplayed(w: World, k: PendingKey, m: Message, lease: nat)
    requires Inv(w) && w.client == AcquireWaiting(k) && m in w.wire && m.request in w.records && lease !in w.leases
    requires k in w.pending && m == Message(w.pending[k].request, AcquireBody(k, w.pending[k]))
    ensures Next(w, Deliver(m, lease, NotFound, true)) == w.(client := AcquireAnswered(k, w.records[m.request].response))
  {
    assert w.records[m.request].body == m.body;
  }

  lemma IdleClientHearsNothing(w: World, m: Message, lease: nat)
    requires w.client.Idle? && m.request in w.records
    ensures Next(w, Send) == w && Next(w, Deliver(m, lease, NotFound, true)) == w && Next(w, Proceed) == w
  {
  }

  lemma GrantedIsRecorded(w: World, k: PendingKey, lease: nat, expires: nat)
    requires k in w.pending && w.client == AcquireAnswered(k, Acquired(lease, expires))
    ensures Next(Next(w, Proceed), Proceed)
         == w.(active := WithLease(w.active, k, w.pending[k], Acquired(lease, expires)), pending := w.pending - {k}, client := Idle)
  {
  }

  /** The retry, from its start to its last write. */
  ghost function RetryOf(w: World, k: PendingKey, begin: Event, lease: nat): seq<Event>
    requires k in w.pending
  {
    [begin, Send, Deliver(Message(w.pending[k].request, AcquireBody(k, w.pending[k])), lease, NotFound, true), Proceed, Proceed]
  }

  lemma RetryIsTakenUp(w: World, k: PendingKey, begin: Event, lease: nat)
    requires Inv(w) && w.client.Idle? && k in w.pending && lease !in w.leases
    requires w.pending[k].request in w.records && w.records[w.pending[k].request].response.Acquired?
    requires begin.BeginAcquire? && begin.resource == k.resource && begin.holder == Some(k.holder)
    requires TakesUp(w, k, Chosen(w.policy, begin.ttl))
    ensures var m := Message(w.pending[k].request, AcquireBody(k, w.pending[k]));
            Execute(w, RetryOf(w, k, begin, lease))
            == w.(wire := w.wire + {m}, sent := w.sent + [m], client := Idle, pending := w.pending - {k},
               active := WithLease(w.active, k, w.pending[k], w.records[m.request].response))
  {
    var m := Message(w.pending[k].request, AcquireBody(k, w.pending[k]));
    RetryBegins(w, k, begin);
    var w1 := w.(client := AcquireReady(k));
    ClientKeepsInvariant(w, AcquireReady(k));
    PendingIsSent(w1, k);
    var w2 := w1.(wire := w.wire + {m}, sent := w.sent + [m], client := AcquireWaiting(k));
    SendKeepsInvariant(w1);
    RememberedIsReplayed(w2, k, m, lease);
    var response := w.records[m.request].response;
    GrantedIsRecorded(w2.(client := AcquireAnswered(k, response)), k, response.lease, response.expires);
    FiveSteps(Next, w, begin, Send, Deliver(m, lease, NotFound, true), Proceed, Proceed);
  }

  lemma RetryIsRefused(w: World, k: PendingKey, begin: Event, lease: nat)
    requires w.client.Idle? && k in w.pending && w.pending[k].request in w.records
    requires begin.BeginAcquire? && begin.resource == k.resource && begin.holder == Some(k.holder)
    requires !TakesUp(w, k, Chosen(w.policy, begin.ttl))
    ensures Execute(w, RetryOf(w, k, begin, lease)) == w
  {
    var m := Message(w.pending[k].request, AcquireBody(k, w.pending[k]));
    RetryBegins(w, k, begin);
    IdleClientHearsNothing(w, m, lease);
    FiveSteps(Next, w, begin, Send, Deliver(m, lease, NotFound, true), Proceed, Proceed);
  }

  lemma UnclaimedIsPending(w: World, l: nat)
    requires Inv(w) && l in w.leases && w.leases[l].mine && Live(w, l) && !HasActive(w, l)
    ensures Unclaimed(w.longest, w.leases[l], l, w.pending, w.records)
    ensures w.pending[PendingKey(w.leases[l].resource, w.leases[l].holder)].secret == w.leases[l].secret
  {
  }

  /** An interrupted acquisition is completed by repeating it - the client ends with the
      active receipt of the very lease it had acquired, and no other lease appears - exactly
      when the repetition asks for the TTL of the pending receipt and the provider's policy
      still allows it.  Otherwise the command refuses and everything is as it was. */
  lemma RetryRecoversTheLease(w: World, l: nat, lease: nat, begin: Event)
    requires Inv(w) && w.client.Idle?
    requires l in w.leases && w.leases[l].mine && Live(w, l) && !HasActive(w, l) && lease !in w.leases
    requires begin.BeginAcquire? && begin.resource == w.leases[l].resource && begin.holder == Some(w.leases[l].holder)
    ensures var k := PendingKey(w.leases[l].resource, w.leases[l].holder);
            && k in w.pending
            && var w' := Execute(w, RetryOf(w, k, begin, lease));
            && w'.leases == w.leases
            && (HasActive(w', l) <==> TakesUp(w, k, Chosen(w.policy, begin.ttl)))
            && (HasActive(w', l) ==> k !in w'.pending && w'.active[ActiveKey(l, k.holder)].secret == w.leases[l].secret)
            && (!HasActive(w', l) ==> w' == w)
  {
    var k := PendingKey(w.leases[l].resource, w.leases[l].holder);
    UnclaimedIsPending(w, l);
    if TakesUp(w, k, Chosen(w.policy, begin.ttl)) {
      RetryIsTakenUp(w, k, begin, lease);
    } else {
      RetryIsRefused(w, k, begin, lease);
    }
  }

  /** What the provider answers when an unanswered renewal without a TTL is repeated: the
      stored answer exactly when the advertised default is still the one first sent.
      Otherwise the request ID is refused, and the receipt keeps it. */
  lemma RepeatedRenewalIsReplayedIff(w: World, a: ActiveKey, lease: nat)
    requires Inv(w) && w.client.Idle? && a in w.active && w.active[a].mutation.Some? && lease !in w.leases
    requires w.active[a].mutation.value.renewing && w.active[a].mutation.value.ttl.None?
    requires w.active[a].mutation.value.request in w.records
    ensures var q := w.active[a].mutation.value.request;
            var m := Message(q, MutationBody(a, w.active[a].secret, w.active[a].mutation.value, w.policy));
            var w' := Execute(w, [BeginMutate(a, true, None, 0), Send, Deliver(m, lease, NotFound, true)]);
            && w.records[q].body.Renew? && w'.client.MutateAnswered? && w'.leases == w.leases
            && (w'.client.response == w.records[q].response <==> w.policy.default == w.records[q].body.ttl)
            && (w.policy.default != w.records[q].body.ttl ==> w'.client.response.RequestIdReused? && Proceeding(w').active == w.active)
  {
    var q := w.active[a].mutation.value.request;
    var m := Message(q, MutationBody(a, w.active[a].secret, w.active[a].mutation.value, w.policy));
    RepeatedRenewalSteps(w, a, m, lease);
    ThreeSteps(Next, w, BeginMutate(a, true, None, 0), Send, Deliver(m, lease, NotFound, true));
    assert Fits(w.records[q].body, w.drawn[q]);
  }

  lemma RepeatedRenewalSteps(w: World, a: ActiveKey, m: Message, lease: nat)
    requires Inv(w) && w.client.Idle? && a in w.active && w.active[a].mutation.Some? && lease !in w.leases
    requires w.active[a].mutation.value.renewing && w.active[a].mutation.value.ttl.None?
    requires m == Message(w.active[a].mutation.value.request, MutationBody(a, w.active[a].secret, w.active[a].mutation.value, w.policy))
    requires m.request in w.records
    ensures Next(Next(Next(w, BeginMutate(a, true, None, 0)), Send), Deliver(m, lease, NotFound, true))
         == w.(wire := w.wire + {m}, sent := w.sent + [m], client := MutateAnswered(a, Replayed(w, m)))
  {
    RenewalBegins(w, a);
    RenewalIsSent(w.(client := MutateReady(a, w.policy)), a, m);
    AnsweredAgain(w.(wire := w.wire + {m}, sent := w.sent + [m], client := MutateWaiting(a)), a, m, lease);
  }

  lemma RenewalBegins(w: World, a: ActiveKey)
    requires ValidPolicy(w.policy) && w.client.Idle? && a in w.active && w.active[a].mutation.Some?
    requires w.active[a].mutation.value.renewing && w.active[a].mutation.value.ttl.None?
    ensures Next(w, BeginMutate(a, true, None, 0)) == w.(client := MutateReady(a, w.policy))
  {
  }

  lemma RenewalIsSent(w: World, a: ActiveKey, m: Message)
    requires w.client == MutateReady(a, w.policy) && a in w.active && w.active[a].mutation.Some?
    requires m == Message(w.active[a].mutation.value.request, MutationBody(a, w.active[a].secret, w.active[a].mutation.value, w.policy))
    ensures Next(w, Send) == w.(wire := w.wire + {m}, sent := w.sent + [m], client := MutateWaiting(a))
  {
  }

  lemma AnsweredAgain(w: World, a: ActiveKey, m: Message, lease: nat)
    requires w.client == MutateWaiting(a) && a in w.active && w.active[a].mutation.Some? && lease !in w.leases
    requires m in w.wire && m.request == w.active[a].mutation.value.request && m.request in w.records
    ensures Next(w, Deliver(m, lease, NotFound, true)) == w.(client := MutateAnswered(a, Replayed(w, m)))
  {
  }

  // ---- reaching a refused renewal ----

  /** Acquire; renew without a TTL and lose the answer; the provider changes its default;
      renew again. */
  ghost function AcquiringRun(k: PendingKey, secret: nat, ttl: nat): seq<Event> {
    [BeginAcquire(k.resource, Some(k.holder), Some(ttl), 0, secret, ""), Send,
     Deliver(Message(0, Acquire(k, secret, ttl)), 0, NotFound, true), Proceed, Proceed]
  }

  ghost function LosingRun(a: ActiveKey, secret: nat, first: Policy, second: Policy): seq<Event> {
    [BeginMutate(a, true, None, 1), Send, Deliver(Message(1, Renew(a.lease, secret, first.default)), 1, NotFound, false), Stop,
     SetPolicy(second)]
  }

  ghost function RetryingRun(a: ActiveKey, secret: nat, second: Policy): seq<Event> {
    [BeginMutate(a, true, None, 0), Send, Deliver(Message(1, Renew(a.lease, secret, second.default)), 1, NotFound, true)]
  }

  ghost function Untouched0(policy: Policy, longest: nat): World {
    World(0, policy, longest, map[], map[], {}, [], map[], map[], map[], Idle)
  }

  /** The world once the lease is acquired. */
  ghost function Holding(k: PendingKey, secret: nat, ttl: nat, policy: Policy, longest: nat): World {
    var body := Acquire(k, secret, ttl);
    World(0, policy, longest, map[0 := Lease(k.resource, k.holder, secret, 0, true, ttl, false)],
          map[0 := Record(body, Acquired(0, ttl), 0)], {Message(0, body)}, [Message(0, body)],
          map[0 := ToAcquire(k, secret, ttl)], map[],
          map[ActiveKey(0, k.holder) := ActiveReceipt(k.resource, 0, secret, ttl, None)], Idle)
  }

  lemma AcquireAndDeliver(k: PendingKey, secret: nat, ttl: nat, policy: Policy, longest: nat)
    requires ValidPolicy(policy) && WithinPolicy(policy, ttl) && policy.max <= longest
    ensures var w := Untouched0(policy, longest);
            var e := AcquiringRun(k, secret, ttl);
            Next(Next(Next(w, e[0]), e[1]), e[2])
            == Holding(k, secret, ttl, policy, longest).(
                 pending := map[k := PendingReceipt(0, secret, ttl)], active := map[], client := AcquireAnswered(k, Acquired(0, ttl)))
  {
    var w := Untouched0(policy, longest);
    var e := AcquiringRun(k, secret, ttl);
    var body := Acquire(k, secret, ttl);
    var drawn: map<nat, Purpose> := map[0 := ToAcquire(k, secret, ttl)];
    var pending := map[k := PendingReceipt(0, secret, ttl)];
    assert FindPending(w.pending, k.resource, Some(k.holder)).Nothing? by {
      assert Matching(w.pending, k.resource, Some(k.holder)) == {};
    }
    var w1 := Next(w, e[0]);
    assert w1 == w.(drawn := drawn, pending := pending, client := AcquireReady(k));
    var w2 := Next(w1, e[1]);
    assert w2 == w1.(wire := {Message(0, body)}, sent := [Message(0, body)], client := AcquireWaiting(k));
    assert Answer(w2, body, 0, NotFound) == Acquired(0, ttl);
  }

  lemma RunToHolding(k: PendingKey, secret: nat, ttl: nat, policy: Policy, longest: nat)
    requires ValidPolicy(policy) && WithinPolicy(policy, ttl) && policy.max <= longest
    ensures Execute(Untouched0(policy, longest), AcquiringRun(k, secret, ttl)) == Holding(k, secret, ttl, policy, longest)
  {
    var e := AcquiringRun(k, secret, ttl);
    AcquireAndDeliver(k, secret, ttl, policy, longest);
    FiveSteps(Next, Untouched0(policy, longest), e[0], e[1], e[2], e[3], e[4]);
    var w3 := Next(Next(Next(Untouched0(policy, longest), e[0]), e[1]), e[2]);
    var w4 := Next(w3, Proceed);
    assert w4.active == map[ActiveKey(0, k.holder) := ActiveReceipt(k.resource, 0, secret, ttl, None)];
    assert w4.pending - {k} == map[];
    assert Next(w4, Proceed) == Holding(k, secret, ttl, policy, longest);
  }

  /** The renewal is recorded at the provider, its answer is lost, and the default changes. */
  lemma RunToChangedPolicy(k: PendingKey, secret: nat, ttl: nat, first: Policy, second: Policy, longest: nat)
    requires ValidPolicy(first) && ValidPolicy(second) && WithinPolicy(first, ttl)
    requires first.max <= longest && second.max <= longest
    ensures var a := ActiveKey(0, k.holder);
            var w := Execute(Holding(k, secret, ttl, first, longest), LosingRun(a, secret, first, second));
            && w.client.Idle? && w.policy == second && 1 !in w.leases
            && a in w.active && w.active[a].mutation == Some(Mutation(true, 1, None)) && w.active[a].secret == secret
            && 1 in w.records && w.records[1].body == Renew(0, secret, first.default)
  {
    var a := ActiveKey(0, k.holder);
    var w := Holding(k, secret, ttl, first, longest);
    var e := LosingRun(a, secret, first, second);
    RenewalGoesUnanswered(w, a, second);
    FiveSteps(Next, w, e[0], e[1], e[2], e[3], e[4]);
  }

  lemma RenewalGoesUnanswered(w: World, a: ActiveKey, second: Policy)
    requires ValidPolicy(w.policy) && w.client.Idle? && a in w.active && w.active[a].mutation.None? && 1 !in w.drawn
    requires 1 !in w.leases && 1 !in w.records && ValidPolicy(second) && second.max <= w.longest
    ensures var e := LosingRun(a, w.active[a].secret, w.policy, second);
            var w' := Next(Next(Next(Next(Next(w, e[0]), e[1]), e[2]), e[3]), e[4]);
            && w'.client.Idle? && w'.policy == second && 1 !in w'.leases
            && w'.active == w.active[a := w.active[a].(mutation := Some(Mutation(true, 1, None)))]
            && 1 in w'.records && w'.records[1].body == Renew(a.lease, w.active[a].secret, w.policy.default)
  {
    var e := LosingRun(a, w.active[a].secret, w.policy, second);
    var m := Message(1, Renew(a.lease, w.active[a].secret, w.policy.default));
    RenewalGoesOut(w, a, m);
    var w2 := Next(Next(w, e[0]), e[1]);
    RenewalIsServed(w2, m, 1);
    StopAndAdvertise(Next(w2, e[2]), second);
  }

  lemma StopAndAdvertise(w: World, policy: Policy)
    requires ValidPolicy(policy) && policy.max <= w.longest
    ensures Next(Next(w, Stop), SetPolicy(policy)) == w.(client := Idle, policy := policy)
  {
  }

  lemma RenewalGoesOut(w: World, a: ActiveKey, m: Message)
    requires ValidPolicy(w.policy) && w.client.Idle? && a in w.active && w.active[a].mutation.None? && 1 !in w.drawn
    requires m == Message(1, Renew(a.lease, w.active[a].secret, w.policy.default))
    ensures var w' := Next(Next(w, BeginMutate(a, true, None, 1)), Send);
            && w'.client == MutateWaiting(a) && w'.policy == w.policy && w'.longest == w.longest && w'.leases == w.leases
            && w'.records == w.records && w'.wire == w.wire + {m}
            && w'.active == w.active[a := w.active[a].(mutation := Some(Mutation(true, 1, None)))]
  {
    var w1 := Next(w, BeginMutate(a, true, None, 1));
    assert w1.client == MutateReady(a, w.policy);
    assert w1.active == w.active[a := w.active[a].(mutation := Some(Mutation(true, 1, None)))];
    RenewalIsSent(w1, a, m);
  }

  lemma RenewalIsServed(w: World, m: Message, lease: nat)
    requires m in w.wire && m.body.Renew? && m.request !in w.records && lease !in w.leases
    ensures var w' := Next(w, Deliver(m, lease, NotFound, false));
            && w'.client == w.client && w'.policy == w.policy && w'.longest == w.longest && w'.active == w.active
            && w'.leases.Keys == w.leases.Keys && m.request in w'.records && w'.records[m.request].body == m.body
  {
  }

  /** The refusal is reached: from an untouched device, with any two policies of different
      defaults, the repeated renewal gets its own request ID refused.  The receipt keeps that
      ID, so that every release is turned down until the provider answers it otherwise. */
  lemma ChangedDefaultRefusesTheRenewal(k: PendingKey, secret: nat, ttl: nat, first: Policy, second: Policy, longest: nat)
    requires ValidPolicy(first) && ValidPolicy(second) && WithinPolicy(first, ttl)
    requires first.max <= longest && second.max <= longest && first.default != second.default
    ensures Untouched(Untouched0(first, longest))
    ensures var a := ActiveKey(0, k.holder);
            var run := (AcquiringRun(k, secret, ttl) + LosingRun(a, secret, first, second)) + RetryingRun(a, secret, second);
            var w := Execute(Untouched0(first, longest), run);
            var w' := Proceeding(w);
            && w.client == MutateAnswered(a, RequestIdReused) && w'.client.Idle?
            && a in w'.active && w'.active[a].mutation == Some(Mutation(true, 1, None))
            && forall request :: Next(w', BeginMutate(a, false, None, request)) == w'
  {
    var a := ActiveKey(0, k.holder);
    var w0 := Untouched0(first, longest);
    var held, lost := AcquiringRun(k, secret, ttl), LosingRun(a, secret, first, second);
    UntouchedIsFine(w0);
    RunToHolding(k, secret, ttl, first, longest);
    RunToChangedPolicy(k, secret, ttl, first, second, longest);
    RunAppends(Next, w0, held, lost);
    RunAppends(Next, w0, held + lost, RetryingRun(a, secret, second));
    RunsKeepInvariant(w0, held + lost);
    RefusedRetry(Execute(w0, held + lost), a, secret, second);
  }

  lemma RefusedRetry(w: World, a: ActiveKey, secret: nat, policy: Policy)
    requires Inv(w) && w.client.Idle? && w.policy == policy && 1 !in w.leases
    requires a in w.active && w.active[a].mutation == Some(Mutation(true, 1, None)) && w.active[a].secret == secret
    requires 1 in w.records && w.records[1].body.Renew? && w.records[1].body.ttl != policy.default
    ensures var w1 := Execute(w, RetryingRun(a, secret, policy));
            var w' := Proceeding(w1);
            && w1.client == MutateAnswered(a, RequestIdReused) && w'.client.Idle?
            && a in w'.active && w'.active[a].mutation == Some(Mutation(true, 1, None))
            && forall request :: Next(w', BeginMutate(a, false, None, request)) == w'
  {
    var m := Message(1, Renew(a.lease, secret, policy.default));
    RepeatedRenewalSteps(w, a, m, 1);
    ThreeSteps(Next, w, BeginMutate(a, true, None, 0), Send, Deliver(m, 1, NotFound, true));
  }

  // ---- the receipt directory ----

  /** The receipts of one project directory, as the commands change them. */
  class ReceiptStore {
    var pending: map<PendingKey, PendingReceipt>
    var active: map<ActiveKey, ActiveReceipt>

    constructor ()
      ensures pending == map[] && active == map[]
    {
      pending, active := map[], map[];
    }

    /** `find_pending_receipt`: walks the directory and refuses an ambiguous match. */
    method FindPendingReceipt(listing: seq<PendingKey>, resource: string, holder: Option<string>) returns (search: Search)
      requires forall k :: k in listing <==> k in pending
      requires forall i, j :: 0 <= i < j < |listing| ==> listing[i] != listing[j]
      ensures search == FindPending(pending, resource, holder)
    {
      var matches: seq<PendingKey> := [];
      for i := 0 to |listing|
        invariant forall k :: k in matches <==> k in listing[..i] && Matches(k, resource, holder)
        invariant forall a, b :: 0 <= a < b < |matches| ==> matches[a] != matches[b]
      {
        if Matches(listing[i], resource, holder) {
          matches := matches + [listing[i]];
        }
      }
      SearchResult(pending, resource, holder, matches);
      search := if |matches| > 1 then Several else if |matches| == 1 then One(matches[0]) else Nothing;
    }

    /** The end of `acquire`, once the provider answered or the answer was lost. */
    method SettleAcquire(k: PendingKey, answer: Option<Response>)
      requires k in pending
      modifies this
      ensures answer.None? ==> pending == old(pending) && active == old(active)
      ensures answer.Some? ==> pending == old(pending) - {k}
      ensures answer.Some? && !answer.value.Acquired? ==> active == old(active)
      ensures answer.Some? && answer.value.Acquired? ==>
                active == WithLease(old(active), k, old(pending)[k], answer.value)
    {
      if answer.None? {
        return;
      }
      if !answer.value.Acquired? {
        pending := pending - {k};
        return;
      }
      var receipt := pending[k];
      active := active[ActiveKey(answer.value.lease, k.holder)
                       := ActiveReceipt(k.resource, receipt.request, receipt.secret, answer.value.expires, None)];
      pending := pending - {k};
    }

    /** The start of `mutate_active_receipt`: the request ID is drawn once and written
        before it is sent; a different mutation is refused. */
    method BeginMutation(a: ActiveKey, renewing: bool, ttl: Option<nat>, request: nat) returns (m: Option<Mutation>)
      modifies this
      ensures pending == old(pending)
      ensures m.None? <==> a !in old(active) || (old(active)[a].mutation.Some? &&
                           (old(active)[a].mutation.value.renewing != renewing || old(active)[a].mutation.value.ttl != ttl))
      ensures m.None? ==> active == old(active)
      ensures m.Some? ==> active == old(active)[a := old(active)[a].(mutation := m)]
      ensures m.Some? ==> m.value.renewing == renewing && m.value.ttl == ttl
      ensures m.Some? && old(active)[a].mutation.Some? ==> m == old(active)[a].mutation
      ensures m.Some? && old(active)[a].mutation.None? ==> m.value.request == request
    {
      if a !in active {
        return None;
      }
      var receipt := active[a];
      match receipt.mutation
      case Some(earlier) =>
        if earlier.renewing == renewing && earlier.ttl == ttl {
          m := Some(earlier);
        } else {
          return None;
        }
      case None =>
        m := Some(Mutation(renewing, request, ttl));
      active := active[a := receipt.(mutation := m)];
    }

    /** The end of `mutate_active_receipt`. */
    method SettleMutation(a: ActiveKey, answer: Option<Response>)
      requires a in active
      modifies this
      ensures pending == old(pending)
      ensures active == if answer.None? then old(active) else AfterMutation(old(active), a, answer.value)
    {
      if answer.Some? {
        if answer.value.Renewed? {
          var receipt := active[a];
          receipt := receipt.(expires := answer.value.expires);
          receipt := receipt.(mutation := None);
          active := active[a := receipt];
        } else if Ends(answer.value) {
          active := active - {a};
        }
      }
    }
  }

  lemma SearchResult(pending: map<PendingKey, PendingReceipt>, resource: string, holder: Option<string>, matches: seq<PendingKey>)
    requires forall k :: k in matches <==> k in pending && Matches(k, resource, holder)
    requires forall a, b :: 0 <= a < b < |matches| ==> matches[a] != matches[b]
    ensures FindPending(pending, resource, holder)
         == if |matches| > 1 then Several else if |matches| == 1 then One(matches[0]) else Nothing
  {
    var found := Matching(pending, resource, holder);
    if |matches| == 0 {
      assert found == {};
    } else if |matches| == 1 {
      assert found == {matches[0]};
    } else {
      assert {matches[0], matches[1]} <= found;
      SubsetIsSmaller({matches[0], matches[1]}, found);
    }
  }
}
