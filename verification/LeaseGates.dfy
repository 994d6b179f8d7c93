/** The readers/exclusive gate of one project: tickets, idempotent leases and the state
    changes made under its lock. */
module LeaseGates {
  import opened Options

  /** Tickets are 64-bit and wrap. */
  const TICKETS: nat := 0x1_0000_0000_0000_0000

  datatype LeaseCall = LeaseCall(session: string, call: string)

  /** Metadata of an activity; each field is absent when the request did not name it. */
  datatype Metadata = Metadata(session: Option<string>, call: Option<string>)

  function CallOf(metadata: Metadata): Option<LeaseCall> {
    if metadata.session.Some? && metadata.call.Some?
    then Some(LeaseCall(metadata.session.value, metadata.call.value))
    else None
  }

  datatype GateState = GateState(
    exclusive: bool,
    nextExclusive: nat,
    exclusiveQueue: seq<nat>,
    leases: map<string, Metadata>,
    leasesByCall: map<LeaseCall, string>)

  const OPEN := GateState(false, 0, [], map[], map[])

  function TakeTicket(g: GateState): GateState {
    g.(nextExclusive := (g.nextExclusive + 1) % TICKETS, exclusiveQueue := g.exclusiveQueue + [g.nextExclusive])
  }

  predicate MayBegin(g: GateState, ticket: nat) {
    !g.exclusive && g.leases == map[] && g.exclusiveQueue != [] && g.exclusiveQueue[0] == ticket
  }

  function Begin(g: GateState): GateState
    requires g.exclusiveQueue != []
  {
    g.(exclusive := true, exclusiveQueue := g.exclusiveQueue[1..])
  }

  function End(g: GateState): GateState { g.(exclusive := false) }

  /** The live lease a repeated call already holds. */
  function Existing(g: GateState, metadata: Metadata): Option<string> {
    match CallOf(metadata)
    case None => None
    case Some(call) =>
      if call in g.leasesByCall && g.leasesByCall[call] in g.leases then Some(g.leasesByCall[call]) else None
  }

  function Admit(g: GateState, metadata: Metadata, id: string): GateState {
    g.(leases := g.leases[id := metadata],
       leasesByCall := if CallOf(metadata).Some? then g.leasesByCall[CallOf(metadata).value := id] else g.leasesByCall)
  }

  function Release(g: GateState, id: string): GateState {
    if id !in g.leases then g
    else
      var call := CallOf(g.leases[id]);
      g.(leases := g.leases - {id},
         leasesByCall := if call.Some? && Lookup(g.leasesByCall, call.value) == Some(id)
                         then g.leasesByCall - {call.value} else g.leasesByCall)
  }

  /** Exclusivity and live leases never coexist, and `leasesByCall` is exactly the inverse
      of `leases` on identified calls, so an identified call has at most one lease. */
  ghost predicate Consistent(g: GateState) {
    && (g.exclusive ==> g.leases == map[])
    && (forall call, id :: call in g.leasesByCall && g.leasesByCall[call] == id
          <==> id in g.leases && CallOf(g.leases[id]) == Some(call))
  }

  /** The gate object.  `changes` counts the calls of `notify_waiters`. */
  class LeaseGate {
    var state: GateState
    var changes: nat

    ghost predicate Valid()
      reads this
    {
      Consistent(state)
    }

    constructor ()
      ensures Valid() && state == OPEN && changes == 0
    {
      state, changes := OPEN, 0;
    }

    /** The first critical section of `begin_exclusive`. */
    method EnqueueExclusive() returns (ticket: nat)
      requires Valid()
      modifies this`state
      ensures Valid() && ticket == old(state).nextExclusive && state == TakeTicket(old(state))
    {
      ticket := state.nextExclusive;
      state := state.(nextExclusive := (ticket + 1) % TICKETS);
      state := state.(exclusiveQueue := state.exclusiveQueue + [ticket]);
    }

    /** The critical section inside the loop of `begin_exclusive`. */
    method TryBeginExclusive(ticket: nat) returns (begun: bool)
      requires Valid()
      modifies this`state
      ensures Valid() && begun == MayBegin(old(state), ticket)
      ensures state == if begun then Begin(old(state)) else old(state)
      ensures begun ==> state.exclusive && state.leases == map[]
    {
      if !state.exclusive && state.leases == map[] && state.exclusiveQueue != [] && state.exclusiveQueue[0] == ticket {
        state := state.(exclusiveQueue := state.exclusiveQueue[1..]);
        state := state.(exclusive := true);
        return true;
      }
      return false;
    }

    method EndExclusive()
      requires Valid()
      modifies this
      ensures Valid() && state == End(old(state)) && changes == old(changes) + 1
    {
      state := state.(exclusive := false);
      changes := changes + 1;
    }

    /** The critical section of `activity`.  No lease is handed out during exclusivity, a
        repeated call gets the lease it already holds, and any other call a new one. */
    method TryActivity(metadata: Metadata, newId: string) returns (id: Option<string>)
      requires Valid() && newId !in state.leases
      modifies this`state
      ensures Valid()
      ensures id == if old(state).exclusive then None
                    else if Existing(old(state), metadata).Some? then Existing(old(state), metadata)
                    else Some(newId)
      ensures state == if id == Some(newId) then Admit(old(state), metadata, newId) else old(state)
      ensures id.Some? ==> id.value in state.leases && CallOf(state.leases[id.value]) == CallOf(metadata)
    {
      if state.exclusive {
        return None;
      }
      var call := CallOf(metadata);
      if call.Some? && call.value in state.leasesByCall && state.leasesByCall[call.value] in state.leases {
        return Some(state.leasesByCall[call.value]);
      }
      AdmissionKeepsConsistency(state, metadata, newId);
      state := state.(leases := state.leases[newId := metadata]);
      if call.Some? {
        state := state.(leasesByCall := state.leasesByCall[call.value := newId]);
      }
      return Some(newId);
    }

    method ReleaseLease(id: string) returns (removed: bool)
      requires Valid()
      modifies this
      ensures Valid() && removed == (id in old(state).leases)
      ensures state == Release(old(state), id) && id !in state.leases
      ensures changes == if removed then old(changes) + 1 else old(changes)
    {
      removed := id in state.leases;
      if removed {
        ReleaseKeepsConsistency(state, id);
        var call := CallOf(state.leases[id]);
        state := state.(leases := state.leases - {id});
        if call.Some? && Lookup(state.leasesByCall, call.value) == Some(id) {
          state := state.(leasesByCall := state.leasesByCall - {call.value});
        }
        changes := changes + 1;
      }
    }
  }

  lemma AdmissionKeepsConsistency(g: GateState, metadata: Metadata, id: string)
    requires Consistent(g) && !g.exclusive && id !in g.leases && Existing(g, metadata).None?
    ensures Consistent(Admit(g, metadata, id))
  {
    var g' := Admit(g, metadata, id);
    forall call, other
      ensures call in g'.leasesByCall && g'.leasesByCall[call] == other
         <==> other in g'.leases && CallOf(g'.leases[other]) == Some(call)
    {
      assert call in g.leasesByCall && g.leasesByCall[call] == other
        <==> other in g.leases && CallOf(g.leases[other]) == Some(call);
    }
  }

  /** Releasing a lease removes it and its call entry, and nothing else: an expiry timer that
      outlives its lease cannot take away a newer lease of the same call. */
  lemma ReleaseKeepsConsistency(g: GateState, id: string)
    requires Consistent(g)
    ensures Consistent(Release(g, id))
    ensures forall other :: other in g.leases && other != id ==>
              && other in Release(g, id).leases && Release(g, id).leases[other] == g.leases[other]
              && (CallOf(g.leases[other]).Some? ==>
                    Lookup(Release(g, id).leasesByCall, CallOf(g.leases[other]).value) == Some(other))
  {
    var g' := Release(g, id);
    forall call, other
      ensures call in g'.leasesByCall && g'.leasesByCall[call] == other
         <==> other in g'.leases && CallOf(g'.leases[other]) == Some(call)
    {
      assert call in g.leasesByCall && g.leasesByCall[call] == other
        <==> other in g.leases && CallOf(g.leases[other]) == Some(call);
    }
  }

  /** A request finds a live lease exactly when it names a session and a call and the lease was
      given to that call of that session. */
  lemma LeaseIsSharedIff(g: GateState, metadata: Metadata, id: string)
    requires Consistent(g)
    ensures Existing(g, metadata) == Some(id)
       <==> && metadata.session.Some? && metadata.call.Some? && id in g.leases
            && g.leases[id].session == metadata.session && g.leases[id].call == metadata.call
  {
    if metadata.session.Some? && metadata.call.Some? {
      var call := LeaseCall(metadata.session.value, metadata.call.value);
      assert call in g.leasesByCall && g.leasesByCall[call] == id <==> id in g.leases && CallOf(g.leases[id]) == Some(call);
    }
  }

  /** Repeating an identified call while its lease lives returns the same lease and changes
      nothing, however often other leases come and go. */
  lemma RepeatedCallKeepsItsLease(g: GateState, metadata: Metadata, id: string)
    requires Consistent(g) && CallOf(metadata).Some?
    requires id in g.leases && CallOf(g.leases[id]) == CallOf(metadata)
    ensures Existing(g, metadata) == Some(id)
    ensures forall other :: other in g.leases && CallOf(g.leases[other]) == CallOf(metadata) ==> other == id
  {
    var call := CallOf(metadata).value;
    assert g.leasesByCall[call] == id;
    forall other | other in g.leases && CallOf(g.leases[other]) == Some(call)
      ensures other == id
    {
      assert g.leasesByCall[call] == other;
    }
  }
}
