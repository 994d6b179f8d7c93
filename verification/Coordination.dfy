/** Any number of daemon tasks around one project's gate, workspace generation and
    workspace, interleaved at their atomic steps: the critical sections, the creation of a
    notification future, and each call of `notify_waiters`. */
module Coordination {
  import opened Options
  import opened LeaseGates
  import Runs

  /** A candidate prepared outside the gate, with the inputs it was prepared from. */
  datatype Plan = Plan(expected: nat, branch: string, target: nat)

  /** `number` is the unbounded arrival number of a task; `ticket` is what the code holds.
      `seen` is the count of notifications when the task created its future. */
  datatype Task =
    | WantsExclusive(plan: Plan)
    | ExclusiveLoop(plan: Plan, ticket: nat, number: nat)
    | ExclusiveCheck(plan: Plan, ticket: nat, number: nat, seen: nat)
    | ExclusiveSleep(plan: Plan, ticket: nat, number: nat, seen: nat)
    | Inside(plan: Plan)
    | Leaving
    | LeftUnnotified
    | ActivityLoop(metadata: Metadata)
    | ActivityCheck(metadata: Metadata, seen: nat)
    | ActivitySleep(metadata: Metadata, seen: nat)
    | Admitted(lease: string)
    | Granted(lease: string, generation: nat, version: nat)
    | Releasing(lease: string)
    | ReleasedUnnotified
    | Finished

  /** How an installation and its bookkeeping end: applied; turned back without a write; failed
      after writing but before HEAD moved; or failed after HEAD moved, so that the catalog
      keeps the old generation. */
  datatype Result = Applied | TurnedBack | StoppedShort | Unrecorded

  /** An installation that moved HEAD: the generation it was prepared from, its branch and
      target, and whether the catalog recorded it. */
  datatype Installation = Installation(expected: nat, branch: string, target: nat, recorded: bool)

  /** `version` counts the installations that wrote to the workspace; `installed` lists those
      that moved HEAD. */
  datatype System = System(
    gate: GateState,
    changes: nat,
    tasks: map<nat, Task>,
    issued: set<string>,
    arrivals: nat,
    granted: seq<nat>,
    generation: nat,
    version: nat,
    branch: string,
    advertised: map<string, nat>,
    installed: seq<Installation>)

  datatype Event =
    | Spawn(task: nat, start: Task)
    | Run(task: nat, newLease: string, timer: nat, result: Result)
    | Advertise(name: string, target: nat)
    | Switch(name: string)

  predicate Startable(task: Task) {
    task.WantsExclusive? || task.ActivityLoop? || task.Releasing?
  }

  function To(s: System, t: nat, task: Task): System { s.(tasks := s.tasks[t := task]) }

  /** The test `reconcile_exclusive` makes under the catalog lock before installing. */
  predicate StillValid(s: System, plan: Plan) {
    s.generation == plan.expected && Lookup(s.advertised, plan.branch) == Some(plan.target) && s.branch == plan.branch
  }

  function Install(s: System, plan: Plan, result: Result): System {
    if !StillValid(s, plan) || result.TurnedBack? then s
    else if result.StoppedShort? then s.(version := s.version + 1)
    else
      s.(version := s.version + 1, generation := if result.Applied? then s.generation + 1 else s.generation,
         installed := s.installed + [Installation(plan.expected, plan.branch, plan.target, result.Applied?)])
  }

  /** One atomic step of task t; a task that cannot move stays where it is. */
  function Step(s: System, t: nat, newLease: string, timer: nat, result: Result): System
    requires t in s.tasks
  {
    match s.tasks[t]
    case WantsExclusive(plan) =>
      // fewer than 2^64 tasks wait for exclusivity at any time
      if |s.gate.exclusiveQueue| >= TICKETS then s
      else To(s.(gate := TakeTicket(s.gate), arrivals := s.arrivals + 1), t,
              ExclusiveLoop(plan, s.gate.nextExclusive, s.arrivals))
    case ExclusiveLoop(plan, ticket, number) => To(s, t, ExclusiveCheck(plan, ticket, number, s.changes))
    case ExclusiveCheck(plan, ticket, number, seen) =>
      if MayBegin(s.gate, ticket)
      then To(s.(gate := Begin(s.gate), granted := s.granted + [number]), t, Inside(plan))
      else To(s, t, ExclusiveSleep(plan, ticket, number, seen))
    case ExclusiveSleep(plan, ticket, number, seen) =>
      if s.changes > seen then To(s, t, ExclusiveLoop(plan, ticket, number)) else s
    case Inside(plan) => To(Install(s, plan, result), t, Leaving)
    case Leaving => To(s.(gate := End(s.gate)), t, LeftUnnotified)
    case LeftUnnotified => To(s.(changes := s.changes + 1), t, Finished)
    case ActivityLoop(metadata) => To(s, t, ActivityCheck(metadata, s.changes))
    case ActivityCheck(metadata, seen) =>
      if s.gate.exclusive then To(s, t, ActivitySleep(metadata, seen))
      else if Existing(s.gate, metadata).Some? then To(s, t, Admitted(Existing(s.gate, metadata).value))
      else if newLease in s.issued || timer in s.tasks then s
      else To(To(s.(gate := Admit(s.gate, metadata, newLease), issued := s.issued + {newLease}),
                 timer, Releasing(newLease)), t, Admitted(newLease))
    case ActivitySleep(metadata, seen) =>
      if s.changes > seen then To(s, t, ActivityLoop(metadata)) else s
    case Admitted(lease) => To(s, t, Granted(lease, s.generation, s.version))
    case Releasing(lease) =>
      To(s.(gate := Release(s.gate, lease)), t, if lease in s.gate.leases then ReleasedUnnotified else Finished)
    case ReleasedUnnotified => To(s.(changes := s.changes + 1), t, Finished)
    case Granted(_, _, _) => s
    case Finished => s
  }

  function Next(s: System, e: Event): System {
    match e
    case Spawn(t, start) => if t in s.tasks || !Startable(start) then s else To(s, t, start)
    case Run(t, newLease, timer, result) => if t in s.tasks then Step(s, t, newLease, timer, result) else s
    case Advertise(name, target) => s.(advertised := s.advertised[name := target])
    case Switch(name) => s.(branch := name)
  }

  ghost function Execute(s: System, events: seq<Event>): System { Runs.Run(Next, s, events) }

  /** The state after the first n events. */
  ghost function At(s: System, events: seq<Event>, n: nat): System
    requires n <= |events|
  {
    Runs.After(Next, s, events, n)
  }

  function Start(generation: nat, branch: string): System {
    System(OPEN, 0, map[], {}, 0, [], generation, 0, branch, map[], [])
  }

  // ---- what every step keeps ----

  predicate Waits(task: Task) { task.ExclusiveLoop? || task.ExclusiveCheck? || task.ExclusiveSleep? }

  predicate Owns(task: Task) { task.Inside? || task.Leaving? }

  /** Tickets are arrival numbers modulo 2^64 and the queue is the contiguous range of the
      numbers not yet granted. */
  ghost predicate QueueInOrder(s: System) {
    && |s.granted| <= s.arrivals
    && |s.gate.exclusiveQueue| == s.arrivals - |s.granted| <= TICKETS
    && s.gate.nextExclusive == s.arrivals % TICKETS
    && (forall i :: 0 <= i < |s.gate.exclusiveQueue| ==>
          s.gate.exclusiveQueue[i] == (|s.granted| + i) % TICKETS)
    && (forall i :: 0 <= i < |s.granted| ==> s.granted[i] == i)
  }

  ghost predicate TicketsMatch(s: System) {
    && (forall t :: t in s.tasks && Waits(s.tasks[t]) ==>
          |s.granted| <= s.tasks[t].number < s.arrivals && s.tasks[t].ticket == s.tasks[t].number % TICKETS)
    && (forall t, u :: t in s.tasks && u in s.tasks && Waits(s.tasks[t]) && Waits(s.tasks[u]) && t != u ==>
          s.tasks[t].number != s.tasks[u].number)
  }

  /** The gate is exclusive exactly while one task owns it. */
  ghost predicate OneOwner(s: System) {
    && (forall t :: t in s.tasks && Owns(s.tasks[t]) ==> s.gate.exclusive)
    && (forall t, u :: t in s.tasks && u in s.tasks && Owns(s.tasks[t]) && Owns(s.tasks[u]) ==> t == u)
    && (s.gate.exclusive ==> exists t :: t in s.tasks && Owns(s.tasks[t]))
  }

  /** The condition a sleeping task is waiting for. */
  predicate GuardHolds(g: GateState, task: Task) {
    (task.ExclusiveSleep? && MayBegin(g, task.ticket)) || (task.ActivitySleep? && !g.exclusive)
  }

  /** The task holds a notification future. */
  predicate Watches(task: Task) {
    task.ExclusiveCheck? || task.ExclusiveSleep? || task.ActivityCheck? || task.ActivitySleep?
  }

  predicate Asleep(s: System, task: Task) {
    (task.ExclusiveSleep? || task.ActivitySleep?) && task.seen == s.changes
  }

  predicate Notifies(task: Task) { task.LeftUnnotified? || task.ReleasedUnnotified? }

  ghost predicate NotificationPending(s: System) {
    exists n :: n in s.tasks && Notifies(s.tasks[n])
  }

  ghost predicate NoLostWakeup(s: System) {
    && (forall t :: t in s.tasks && Watches(s.tasks[t]) ==> s.tasks[t].seen <= s.changes)
    && (forall t :: t in s.tasks && Asleep(s, s.tasks[t]) && GuardHolds(s.gate, s.tasks[t]) ==>
          NotificationPending(s))
  }

  /** What a grant reported stays true while its lease lives. */
  ghost predicate GrantsHold(s: System) {
    && s.gate.leases.Keys <= s.issued
    && (forall t :: t in s.tasks && s.tasks[t].Admitted? ==> s.tasks[t].lease in s.issued)
    && (forall t :: t in s.tasks && s.tasks[t].Granted? ==>
          && s.tasks[t].lease in s.issued
          && (s.tasks[t].lease in s.gate.leases ==>
                s.tasks[t].generation == s.generation && s.tasks[t].version == s.version))
  }

  /** The generation an installation leaves behind. */
  function After(i: Installation): nat { if i.recorded then i.expected + 1 else i.expected }

  /** Each installation starts from the generation the one before it left, and the last one
      left the current generation. */
  ghost predicate InstallsAdvance(s: System) {
    && (forall i :: 0 < i < |s.installed| ==> s.installed[i].expected == After(s.installed[i - 1]))
    && (s.installed != [] ==> s.generation == After(s.installed[|s.installed| - 1]))
  }

  ghost predicate Inv(s: System) {
    && Consistent(s.gate) && QueueInOrder(s) && TicketsMatch(s) && OneOwner(s)
    && NoLostWakeup(s) && GrantsHold(s) && InstallsAdvance(s)
  }

  lemma StepKeepsQueue(s: System, e: Event)
    requires QueueInOrder(s) && TicketsMatch(s)
    ensures QueueInOrder(Next(s, e))
  {
    if e.Run? && e.task in s.tasks {
      var task := s.tasks[e.task];
      if task.WantsExclusive? {
        TicketStep(s, e);
        TicketTakingKeepsQueue(s, Next(s, e));
      } else if task.ExclusiveCheck? && MayBegin(s.gate, task.ticket) {
        FrontIsOldest(s, e.task);
        BeginStep(s, e);
        BeginKeepsQueue(s, Next(s, e));
      } else {
        OtherStep(s, e);
        SameQueue(s, Next(s, e));
      }
    }
  }

  lemma TicketStep(s: System, e: Event)
    requires e.Run? && e.task in s.tasks && s.tasks[e.task].WantsExclusive?
    ensures var s' := Next(s, e);
            || s' == s
            || (&& |s.gate.exclusiveQueue| < TICKETS && s'.gate == TakeTicket(s.gate)
                && s'.arrivals == s.arrivals + 1 && s'.granted == s.granted)
  {
  }

  lemma BeginStep(s: System, e: Event)
    requires e.Run? && e.task in s.tasks && s.tasks[e.task].ExclusiveCheck? && MayBegin(s.gate, s.tasks[e.task].ticket)
    ensures var s' := Next(s, e);
            && s'.gate == Begin(s.gate) && s'.granted == s.granted + [s.tasks[e.task].number] && s'.arrivals == s.arrivals
  {
  }

  lemma OtherStep(s: System, e: Event)
    requires e.Run? && e.task in s.tasks && !s.tasks[e.task].WantsExclusive?
    requires !(s.tasks[e.task].ExclusiveCheck? && MayBegin(s.gate, s.tasks[e.task].ticket))
    ensures var s' := Next(s, e);
            && s'.arrivals == s.arrivals && s'.granted == s.granted
            && s'.gate.exclusiveQueue == s.gate.exclusiveQueue && s'.gate.nextExclusive == s.gate.nextExclusive
  {
  }

  lemma SameQueue(s: System, s': System)
    requires QueueInOrder(s) && s'.arrivals == s.arrivals && s'.granted == s.granted
    requires s'.gate.exclusiveQueue == s.gate.exclusiveQueue && s'.gate.nextExclusive == s.gate.nextExclusive
    ensures QueueInOrder(s')
  {
  }

  lemma TicketTakingKeepsQueue(s: System, s': System)
    requires QueueInOrder(s)
    requires || s' == s
             || (&& |s.gate.exclusiveQueue| < TICKETS && s'.gate == TakeTicket(s.gate)
                 && s'.arrivals == s.arrivals + 1 && s'.granted == s.granted)
    ensures QueueInOrder(s')
  {
  }

  lemma BeginKeepsQueue(s: System, s': System)
    requires QueueInOrder(s) && s.gate.exclusiveQueue != []
    requires s'.gate == Begin(s.gate) && s'.granted == s.granted + [|s.granted|] && s'.arrivals == s.arrivals
    ensures QueueInOrder(s')
  {
    assert forall i :: 0 <= i < |s'.gate.exclusiveQueue| ==> s'.gate.exclusiveQueue[i] == s.gate.exclusiveQueue[i + 1];
  }

  /** A task whose ticket is at the front of the queue holds the oldest arrival number:
      2^64 waiting tasks are needed before wrapping could confuse two tickets. */
  lemma FrontIsOldest(s: System, t: nat)
    requires QueueInOrder(s) && TicketsMatch(s)
    requires t in s.tasks && Waits(s.tasks[t]) && MayBegin(s.gate, s.tasks[t].ticket)
    ensures s.tasks[t].number == |s.granted|
  {
    SameResidue(|s.granted|, s.tasks[t].number);
  }

  lemma SameResidue(a: nat, b: nat)
    requires a <= b < a + TICKETS && a % TICKETS == b % TICKETS
    ensures a == b
  {
  }

  lemma StepKeepsTickets(s: System, e: Event)
    requires QueueInOrder(s) && TicketsMatch(s)
    ensures TicketsMatch(Next(s, e))
  {
    if e.Run? && e.task in s.tasks {
      var task := s.tasks[e.task];
      if task.WantsExclusive? || Waits(task) {
        ExclusiveStepKeepsTickets(s, e);
      } else if Admits(s, e) {
        AdmissionKeepsTickets(s, Next(s, e), e);
      } else {
        OtherStepSetsTask(s, e);
        SetTaskKeepsTickets(s, Next(s, e), e.task);
      }
    }
  }

  lemma ExclusiveStepKeepsTickets(s: System, e: Event)
    requires QueueInOrder(s) && TicketsMatch(s)
    requires e.Run? && e.task in s.tasks && (s.tasks[e.task].WantsExclusive? || Waits(s.tasks[e.task]))
    ensures TicketsMatch(Next(s, e))
  {
    if s.tasks[e.task].ExclusiveCheck? && MayBegin(s.gate, s.tasks[e.task].ticket) {
      FrontIsOldest(s, e.task);
    }
    SetTaskKeepsTickets(s, Next(s, e), e.task);
  }

  /** Any step but a new admission changes the table of tasks in the stepping task alone. */
  lemma StepSetsTask(s: System, e: Event)
    requires e.Run? && e.task in s.tasks && !Admits(s, e)
    ensures e.task in Next(s, e).tasks && Next(s, e).tasks == s.tasks[e.task := Next(s, e).tasks[e.task]]
  {
    assert s.tasks[e.task := s.tasks[e.task]] == s.tasks;
    match s.tasks[e.task] {
      case WantsExclusive(plan) =>
        if |s.gate.exclusiveQueue| < TICKETS {
          assert Next(s, e).tasks == s.tasks[e.task := ExclusiveLoop(plan, s.gate.nextExclusive, s.arrivals)];
        }
      case Inside(plan) =>
        assert Next(s, e).tasks == s.tasks[e.task := Leaving];
      case ActivityCheck(metadata, seen) =>
        if s.gate.exclusive {
          assert Next(s, e).tasks == s.tasks[e.task := ActivitySleep(metadata, seen)];
        }
      case _ =>
    }
  }

  /** No step outside the waiting loop touches the ticket counters or starts to wait. */
  lemma OtherStepSetsTask(s: System, e: Event)
    requires e.Run? && e.task in s.tasks && !Admits(s, e)
    requires !s.tasks[e.task].WantsExclusive? && !Waits(s.tasks[e.task])
    ensures var s' := Next(s, e);
            && e.task in s'.tasks && s'.tasks == s.tasks[e.task := s'.tasks[e.task]]
            && s'.arrivals == s.arrivals && s'.granted == s.granted && !Waits(s'.tasks[e.task])
            && s'.gate.exclusiveQueue == s.gate.exclusiveQueue
  {
    StepSetsTask(s, e);
    OtherStep(s, e);
  }

  /** The step hands out a new lease. */
  predicate Admits(s: System, e: Event) {
    && e.Run? && e.task in s.tasks && s.tasks[e.task].ActivityCheck? && !s.gate.exclusive
    && Existing(s.gate, s.tasks[e.task].metadata).None? && e.newLease !in s.issued && e.timer !in s.tasks
  }

  lemma AdmissionKeepsTickets(s: System, s': System, e: Event)
    requires TicketsMatch(s) && Admits(s, e)
    requires s'.tasks == s.tasks[e.timer := Releasing(e.newLease)][e.task := Admitted(e.newLease)]
    requires s'.arrivals == s.arrivals && s'.granted == s.granted
    ensures TicketsMatch(s')
  {
  }

  lemma SetTaskKeepsTickets(s: System, s': System, t: nat)
    requires TicketsMatch(s) && t in s.tasks && t in s'.tasks && s'.tasks == s.tasks[t := s'.tasks[t]]
    requires |s.granted| <= |s'.granted| <= |s.granted| + 1 && s.arrivals <= s'.arrivals
    requires |s'.granted| > |s.granted| ==> Waits(s.tasks[t]) && s.tasks[t].number == |s.granted| && !Waits(s'.tasks[t])
    requires Waits(s'.tasks[t]) ==>
               && |s'.granted| <= s'.tasks[t].number < s'.arrivals
               && s'.tasks[t].ticket == s'.tasks[t].number % TICKETS
               && (s'.tasks[t].number == s.arrivals
                   || (Waits(s.tasks[t]) && s'.tasks[t].number == s.tasks[t].number))
    ensures TicketsMatch(s')
  {
  }

  lemma StepKeepsOwner(s: System, e: Event)
    requires OneOwner(s)
    ensures OneOwner(Next(s, e))
  {
    if e.Spawn? {
      OwnerStays(s, Next(s, e));
    }
    if e.Run? && e.task in s.tasks {
      if Admits(s, e) {
        OwnerStays(s, Next(s, e));
      } else {
        StepSetsTask(s, e);
        StepMovesOwner(s, e);
        SetTaskKeepsOwner(s, Next(s, e), e.task);
      }
    }
  }

  lemma OwnerStays(s: System, s': System)
    requires OneOwner(s) && s'.gate.exclusive == s.gate.exclusive
    requires forall t :: t in s'.tasks && Owns(s'.tasks[t]) ==> t in s.tasks && Owns(s.tasks[t])
    requires forall t :: t in s.tasks && Owns(s.tasks[t]) ==> t in s'.tasks && Owns(s'.tasks[t])
    ensures OneOwner(s')
  {
  }

  /** The gate becomes exclusive with the task that begins and opens with the one that leaves. */
  lemma StepMovesOwner(s: System, e: Event)
    requires e.Run? && e.task in s.tasks && !Admits(s, e) && e.task in Next(s, e).tasks
    ensures var was, task, s' := s.tasks[e.task], Next(s, e).tasks[e.task], Next(s, e);
            || (s'.gate.exclusive == s.gate.exclusive && Owns(task) == Owns(was))
            || (!s.gate.exclusive && s'.gate.exclusive && Owns(task))
            || (Owns(was) && !s'.gate.exclusive && !Owns(task))
  {
    if !s.tasks[e.task].WantsExclusive? && !Waits(s.tasks[e.task]) {
      LaterStepMovesOwner(s, e);
    }
  }

  lemma LaterStepMovesOwner(s: System, e: Event)
    requires e.Run? && e.task in s.tasks && !Admits(s, e) && e.task in Next(s, e).tasks
    requires !s.tasks[e.task].WantsExclusive? && !Waits(s.tasks[e.task])
    ensures var was, task, s' := s.tasks[e.task], Next(s, e).tasks[e.task], Next(s, e);
            || (s'.gate.exclusive == s.gate.exclusive && Owns(task) == Owns(was))
            || (Owns(was) && !s'.gate.exclusive && !Owns(task))
  {
  }

  lemma SetTaskKeepsOwner(s: System, s': System, t: nat)
    requires OneOwner(s) && t in s.tasks && t in s'.tasks && s'.tasks == s.tasks[t := s'.tasks[t]]
    requires || (s'.gate.exclusive == s.gate.exclusive && Owns(s'.tasks[t]) == Owns(s.tasks[t]))
             || (!s.gate.exclusive && s'.gate.exclusive && Owns(s'.tasks[t]))
             || (Owns(s.tasks[t]) && !s'.gate.exclusive && !Owns(s'.tasks[t]))
    ensures OneOwner(s')
  {
    if s'.gate.exclusive {
      if s.gate.exclusive {
        var owner :| owner in s.tasks && Owns(s.tasks[owner]);
        assert owner in s'.tasks && Owns(s'.tasks[owner]);
      } else {
        assert t in s'.tasks && Owns(s'.tasks[t]);
      }
    }
  }

  lemma StepKeepsGate(s: System, e: Event)
    requires Consistent(s.gate) && GrantsHold(s)
    ensures Consistent(Next(s, e).gate)
  {
    if e.Run? && e.task in s.tasks {
      match s.tasks[e.task]
      case ActivityCheck(metadata, _) =>
        if !s.gate.exclusive && Existing(s.gate, metadata).None? && e.newLease !in s.issued {
          AdmissionKeepsConsistency(s.gate, metadata, e.newLease);
        }
      case Releasing(lease) => ReleaseKeepsConsistency(s.gate, lease);
      case _ =>
    }
  }

  lemma StepKeepsWakeups(s: System, e: Event)
    requires NoLostWakeup(s) && OneOwner(s) && QueueInOrder(s) && TicketsMatch(s)
    ensures NoLostWakeup(Next(s, e))
  {
    if e.Run? && e.task in s.tasks {
      var task := s.tasks[e.task];
      if Notifies(task) {
        NotifyingWakesAll(s, Next(s, e), e.task);
      } else if task.WantsExclusive? || Waits(task) {
        ExclusiveStepKeepsWakeups(s, e);
      } else if Admits(s, e) {
        AdmittingStepKeepsWakeups(s, e);
      } else if task.Leaving? || task.Releasing? {
        OpeningStepKeepsWakeups(s, e);
      } else {
        OtherStepKeepsWakeups(s, e);
      }
    } else {
      OutsideStepKeepsWakeups(s, e);
    }
  }

  lemma OutsideStepKeepsWakeups(s: System, e: Event)
    requires NoLostWakeup(s) && !(e.Run? && e.task in s.tasks)
    ensures NoLostWakeup(Next(s, e))
  {
    if e.Spawn? && e.task !in s.tasks && Startable(e.start) {
      PendingStays(s, Next(s, e), e.task);
    }
  }

  lemma AdmittingStepKeepsWakeups(s: System, e: Event)
    requires NoLostWakeup(s) && Admits(s, e)
    ensures NoLostWakeup(Next(s, e))
  {
    assert e.newLease in Next(s, e).gate.leases;
    AdmissionKeepsWakeups(s, Next(s, e), e.task, e.timer, e.newLease);
  }

  lemma OtherStepKeepsWakeups(s: System, e: Event)
    requires NoLostWakeup(s) && OneOwner(s) && e.Run? && e.task in s.tasks && !Admits(s, e)
    requires var task := s.tasks[e.task];
             !Notifies(task) && !task.WantsExclusive? && !Waits(task) && !task.Leaving? && !task.Releasing?
    ensures NoLostWakeup(Next(s, e))
  {
    OtherStepSetsTask(s, e);
    SetTaskKeepsWakeups(s, Next(s, e), e.task);
  }

  lemma ExclusiveStepKeepsWakeups(s: System, e: Event)
    requires NoLostWakeup(s) && QueueInOrder(s) && TicketsMatch(s)
    requires e.Run? && e.task in s.tasks && (s.tasks[e.task].WantsExclusive? || Waits(s.tasks[e.task]))
    ensures NoLostWakeup(Next(s, e))
  {
    SetTaskKeepsWakeups(s, Next(s, e), e.task);
  }

  /** The two steps that can open a guard leave a notification pending behind them. */
  lemma OpeningStepKeepsWakeups(s: System, e: Event)
    requires NoLostWakeup(s)
    requires e.Run? && e.task in s.tasks && (s.tasks[e.task].Leaving? || s.tasks[e.task].Releasing?)
    ensures NoLostWakeup(Next(s, e))
  {
    var s' := Next(s, e);
    if Notifies(s'.tasks[e.task]) {
      assert NotificationPending(s');
    } else {
      SetTaskKeepsWakeups(s, s', e.task);
    }
  }

  /** A sleeping task moves exactly when a notification was sent after it began to watch, and
      then it tests its condition again. */
  lemma SleepersWakeIff(s: System, e: Event)
    requires e.Run? && e.task in s.tasks && (s.tasks[e.task].ExclusiveSleep? || s.tasks[e.task].ActivitySleep?)
    ensures var task, s' := s.tasks[e.task], Next(s, e);
            if s.changes > task.seen
            then s' == To(s, e.task, if task.ExclusiveSleep? then ExclusiveLoop(task.plan, task.ticket, task.number)
                                     else ActivityLoop(task.metadata))
            else s' == s
  {
  }

  lemma PendingStays(s: System, s': System, t: nat)
    requires t in s.tasks ==> !Notifies(s.tasks[t])
    requires t in s'.tasks && s'.tasks == s.tasks[t := s'.tasks[t]]
    ensures NotificationPending(s) ==> NotificationPending(s')
  {
    if n :| n in s.tasks && Notifies(s.tasks[n]) {
      assert n in s'.tasks && Notifies(s'.tasks[n]);
    }
  }

  lemma NotifyingWakesAll(s: System, s': System, t: nat)
    requires NoLostWakeup(s) && t in s.tasks && Notifies(s.tasks[t])
    requires s'.tasks == s.tasks[t := Finished] && s'.changes == s.changes + 1
    ensures NoLostWakeup(s')
  {
  }

  /** A step that opens no guard, and puts its own task to sleep only on a closed one. */
  lemma SetTaskKeepsWakeups(s: System, s': System, t: nat)
    requires NoLostWakeup(s) && t in s.tasks && t in s'.tasks && s'.tasks == s.tasks[t := s'.tasks[t]]
    requires s'.changes == s.changes && !Notifies(s.tasks[t])
    requires Watches(s'.tasks[t]) ==> s'.tasks[t].seen <= s.changes
    requires GuardHolds(s'.gate, s'.tasks[t]) ==> s'.gate == s.gate && s'.tasks[t] == s.tasks[t]
    requires s'.gate.exclusive == s.gate.exclusive || s'.gate.exclusive
    requires s'.gate.exclusive || (s'.gate.leases == s.gate.leases
               && (s.gate.exclusiveQueue != [] ==> s'.gate.exclusiveQueue != []
                                                   && s'.gate.exclusiveQueue[0] == s.gate.exclusiveQueue[0]))
    requires s.gate.exclusiveQueue == [] && s'.gate.exclusiveQueue != [] ==>
               forall u :: u in s.tasks && s.tasks[u].ExclusiveSleep? ==> s.tasks[u].ticket != s'.gate.exclusiveQueue[0]
    ensures NoLostWakeup(s')
  {
    PendingStays(s, s', t);
    forall u | u in s'.tasks && Asleep(s', s'.tasks[u]) && GuardHolds(s'.gate, s'.tasks[u])
      ensures NotificationPending(s')
    {
      assert u != t || s'.tasks[t] == s.tasks[t];
      assert GuardHolds(s.gate, s.tasks[u]);
    }
  }

  lemma AdmissionKeepsWakeups(s: System, s': System, t: nat, timer: nat, lease: string)
    requires NoLostWakeup(s) && t in s.tasks && !Notifies(s.tasks[t]) && timer !in s.tasks && s'.changes == s.changes
    requires s'.tasks == s.tasks[timer := Releasing(lease)][t := Admitted(lease)]
    requires !s.gate.exclusive && !s'.gate.exclusive && s'.gate.leases != map[]
    ensures NoLostWakeup(s')
  {
    if n :| n in s.tasks && Notifies(s.tasks[n]) {
      assert n in s'.tasks && Notifies(s'.tasks[n]);
    }
    forall u | u in s'.tasks && Asleep(s', s'.tasks[u]) && GuardHolds(s'.gate, s'.tasks[u])
      ensures NotificationPending(s')
    {
      assert u in s.tasks && s.tasks[u] == s'.tasks[u];
    }
  }

  lemma StepKeepsGrants(s: System, e: Event)
    requires Consistent(s.gate) && OneOwner(s) && GrantsHold(s)
    ensures GrantsHold(Next(s, e))
  {
    if e.Run? && e.task in s.tasks {
      if Admits(s, e) {
        AdmissionKeepsGrants(s, Next(s, e), e);
      } else {
        StepSetsTask(s, e);
        OtherStepKeepsGrants(s, e);
      }
    }
  }

  lemma AdmissionKeepsGrants(s: System, s': System, e: Event)
    requires GrantsHold(s) && Admits(s, e)
    requires s'.tasks == s.tasks[e.timer := Releasing(e.newLease)][e.task := Admitted(e.newLease)]
    requires s'.gate.leases.Keys == s.gate.leases.Keys + {e.newLease} && s'.issued == s.issued + {e.newLease}
    requires s'.generation == s.generation && s'.version == s.version
    ensures GrantsHold(s')
  {
  }

  /** Only an installation moves the generation or writes, and it runs with no lease alive. */
  lemma WritesOnlyWithoutLeases(s: System, e: Event)
    requires Consistent(s.gate) && OneOwner(s)
    ensures || (Next(s, e).generation == s.generation && Next(s, e).version == s.version)
            || Next(s, e).gate.leases == s.gate.leases == map[]
  {
    if e.Run? && e.task in s.tasks && s.tasks[e.task].Inside? {
      assert Owns(s.tasks[e.task]);
    }
  }

  lemma LeasesOnlyShrink(s: System, e: Event)
    requires e.Run? && e.task in s.tasks && !Admits(s, e)
    ensures Next(s, e).gate.leases.Keys <= s.gate.leases.Keys && Next(s, e).issued == s.issued
  {
  }

  lemma OtherStepKeepsGrants(s: System, e: Event)
    requires Consistent(s.gate) && OneOwner(s) && GrantsHold(s)
    requires e.Run? && e.task in s.tasks && !Admits(s, e)
    requires e.task in Next(s, e).tasks && Next(s, e).tasks == s.tasks[e.task := Next(s, e).tasks[e.task]]
    ensures GrantsHold(Next(s, e))
  {
    WritesOnlyWithoutLeases(s, e);
    LeasesOnlyShrink(s, e);
    GrantingStep(s, e);
    SetTaskKeepsGrants(s, Next(s, e), e.task);
  }

  /** A grant reports the generation read after its lease was admitted. */
  lemma GrantingStep(s: System, e: Event)
    requires GrantsHold(s) && e.Run? && e.task in s.tasks && !Admits(s, e) && e.task in Next(s, e).tasks
    ensures var task := Next(s, e).tasks[e.task];
            && (task.Admitted? ==> task.lease in s.issued)
            && (task.Granted? ==>
                  || task == s.tasks[e.task]
                  || (s.tasks[e.task].Admitted?
                      && task == Granted(s.tasks[e.task].lease, Next(s, e).generation, Next(s, e).version)))
  {
  }

  lemma SetTaskKeepsGrants(s: System, s': System, t: nat)
    requires GrantsHold(s) && t in s.tasks && t in s'.tasks && s'.tasks == s.tasks[t := s'.tasks[t]]
    requires s'.gate.leases.Keys <= s.gate.leases.Keys && s'.issued == s.issued
    requires s'.gate.leases == map[] || (s'.generation == s.generation && s'.version == s.version)
    requires s'.tasks[t].Admitted? ==> s'.tasks[t].lease in s.issued
    requires s'.tasks[t].Granted? ==>
               || s'.tasks[t] == s.tasks[t]
               || (s.tasks[t].Admitted? && s'.tasks[t] == Granted(s.tasks[t].lease, s'.generation, s'.version))
    ensures GrantsHold(s')
  {
  }

  lemma StepKeepsInstalls(s: System, e: Event)
    requires InstallsAdvance(s)
    ensures InstallsAdvance(Next(s, e))
  {
  }

  lemma StepKeepsInvariant(s: System, e: Event)
    requires Inv(s)
    ensures Inv(Next(s, e))
  {
    StepKeepsQueue(s, e);
    StepKeepsTickets(s, e);
    StepKeepsOwner(s, e);
    StepKeepsGate(s, e);
    StepKeepsWakeups(s, e);
    StepKeepsGrants(s, e);
    StepKeepsInstalls(s, e);
  }

  /** Every run of every number of tasks keeps the invariant. */
  lemma {:induction false} RunsKeepInvariant(s: System, events: seq<Event>)
    requires Inv(s)
    ensures Inv(Execute(s, events))
    decreases |events|
  {
    if events != [] {
      StepKeepsInvariant(s, events[0]);
      RunsKeepInvariant(Next(s, events[0]), events[1..]);
    }
  }

  // ---- what the runs promise ----

  ghost predicate Reachable(s: System) {
    exists generation: nat, branch: string, events: seq<Event> :: s == Execute(Start(generation, branch), events)
  }

  lemma StartIsFine(generation: nat, branch: string)
    ensures Inv(Start(generation, branch))
  {
  }

  lemma ReachableStatesAreFine(s: System)
    requires Reachable(s)
    ensures Inv(s)
  {
    var generation: nat, branch: string, events: seq<Event> :| s == Execute(Start(generation, branch), events);
    StartIsFine(generation, branch);
    RunsKeepInvariant(Start(generation, branch), events);
  }

  /** In every reachable state of any number of tasks: exclusivity excludes leases and has
      one owner; exclusive work was granted strictly in order of arrival; and a task that
      sleeps although its own guard holds has a notification on the way to it. */
  lemma GateIsSafe(s: System)
    requires Reachable(s)
    ensures s.gate.exclusive ==> s.gate.leases == map[]
    ensures forall t, u :: t in s.tasks && u in s.tasks && Owns(s.tasks[t]) && Owns(s.tasks[u]) ==> t == u && s.gate.exclusive
    ensures forall i :: 0 <= i < |s.granted| ==> s.granted[i] == i
    ensures forall t :: t in s.tasks && Asleep(s, s.tasks[t]) && GuardHolds(s.gate, s.tasks[t]) ==>
              exists n :: n in s.tasks && n != t && Notifies(s.tasks[n])
  {
    ReachableStatesAreFine(s);
    forall t | t in s.tasks && Asleep(s, s.tasks[t]) && GuardHolds(s.gate, s.tasks[t])
      ensures exists n :: n in s.tasks && n != t && Notifies(s.tasks[n])
    {
      var n :| n in s.tasks && Notifies(s.tasks[n]);
      assert n != t;
    }
  }

  /** No task of the run released this lease. */
  ghost predicate LeaseSurvives(s: System, events: seq<Event>, lease: string)
    decreases |events|
  {
    lease in s.gate.leases && (events == [] || LeaseSurvives(Next(s, events[0]), events[1..], lease))
  }

  /** One observable call sees one generation: from the moment a grant is answered, for as
      long as its lease is neither released nor expired, the project keeps the reported
      generation and the daemon writes nothing to HEAD, index or worktree. */
  lemma {:induction false} GrantedGenerationIsStable(s: System, t: nat, events: seq<Event>)
    requires Inv(s) && t in s.tasks && s.tasks[t].Granted?
    requires LeaseSurvives(s, events, s.tasks[t].lease)
    ensures Execute(s, events).generation == s.tasks[t].generation
    ensures Execute(s, events).version == s.tasks[t].version
    decreases |events|
  {
    if events != [] {
      StepKeepsInvariant(s, events[0]);
      GrantStaysPut(s, events[0], t);
      GrantedGenerationIsStable(Next(s, events[0]), t, events[1..]);
    }
  }

  lemma GrantStaysPut(s: System, e: Event, t: nat)
    requires t in s.tasks && s.tasks[t].Granted?
    ensures t in Next(s, e).tasks && Next(s, e).tasks[t] == s.tasks[t]
  {
    if e.Run? && e.task in s.tasks && !Admits(s, e) {
      StepSetsTask(s, e);
    }
  }

  /** No installation between the two was recorded. */
  predicate NoneRecorded(installed: seq<Installation>, i: nat, j: nat)
    requires i <= j <= |installed|
  {
    forall k | i <= k < j :: !installed[k].recorded
  }

  lemma {:induction false} GenerationsRise(s: System, i: nat, j: nat)
    requires InstallsAdvance(s) && i <= j < |s.installed|
    ensures s.installed[i].expected <= s.installed[j].expected
    ensures s.installed[i].expected == s.installed[j].expected <==> NoneRecorded(s.installed, i, j)
    decreases j - i
  {
    if i < j {
      GenerationsRise(s, i, j - 1);
    }
  }

  /** Two installations start from the same generation exactly when neither the first of them
      nor any between them was recorded.  So at most one recorded installation starts from
      each generation, and it is the last one that does. */
  lemma GenerationRepeatsIff(s: System, i: nat, j: nat)
    requires Reachable(s) && i < j < |s.installed|
    ensures s.installed[i].expected <= s.installed[j].expected <= s.generation
    ensures s.installed[i].expected == s.installed[j].expected <==> NoneRecorded(s.installed, i, j)
    ensures s.installed[i].recorded && s.installed[j].recorded ==> s.installed[i].expected < s.installed[j].expected
  {
    ReachableStatesAreFine(s);
    GenerationsRise(s, i, j);
    GenerationsRise(s, j, |s.installed| - 1);
  }

  /** The step of a task inside the gate.  It installs exactly when the generation is the one
      its candidate was prepared from, its branch is checked out, and its target is the one
      advertised for that branch; a candidate that no longer matches changes nothing. */
  lemma InstallsIff(s: System, e: Event)
    requires e.Run? && e.task in s.tasks && s.tasks[e.task].Inside?
    ensures var plan, s' := s.tasks[e.task].plan, Next(s, e);
            && e.task in s'.tasks && s'.tasks[e.task] == Leaving
            && s'.branch == s.branch && s'.advertised == s.advertised
            && (if s.generation != plan.expected || s.branch != plan.branch
                   || plan.branch !in s.advertised || s.advertised[plan.branch] != plan.target || e.result == TurnedBack
                then s'.generation == s.generation && s'.version == s.version && s'.installed == s.installed
                else if e.result == StoppedShort
                then s'.generation == s.generation && s'.version == s.version + 1 && s'.installed == s.installed
                else && s'.generation == s.generation + (if e.result == Applied then 1 else 0) && s'.version == s.version + 1
                     && s'.installed == s.installed + [Installation(plan.expected, plan.branch, plan.target, e.result == Applied)])
  {
  }

  /** No other step installs, writes or moves the generation. */
  lemma OthersNeverInstall(s: System, e: Event)
    requires !(e.Run? && e.task in s.tasks && s.tasks[e.task].Inside?)
    ensures Next(s, e).generation == s.generation && Next(s, e).version == s.version && Next(s, e).installed == s.installed
  {
  }

  lemma StepKeepsLog(s: System, e: Event)
    ensures s.installed <= Next(s, e).installed && |Next(s, e).installed| <= |s.installed| + 1
  {
    if e.Run? && e.task in s.tasks && s.tasks[e.task].Inside? {
      InstallsIff(s, e);
    } else {
      OthersNeverInstall(s, e);
    }
  }

  lemma {:induction false} LogOnlyGrows(s: System, events: seq<Event>, m: nat, n: nat)
    requires m <= n <= |events|
    ensures At(s, events, m).installed <= At(s, events, n).installed
    decreases n
  {
    if m < n {
      LogOnlyGrows(s, events, m, n - 1);
      StepKeepsLog(At(s, events, n - 1), events[n - 1]);
    }
  }

  /** Over every run, each installation was made while its branch was checked out, its target
      was the one advertised for that branch, and its generation was the current one. */
  lemma InstallationsWereCurrent(s: System, events: seq<Event>, i: nat) returns (n: nat)
    requires s.installed == [] && i < |Execute(s, events).installed|
    ensures n < |events|
    ensures var at, installation := At(s, events, n), Execute(s, events).installed[i];
            && |at.installed| == i && Next(at, events[n]).installed == at.installed + [installation]
            && at.branch == installation.branch && at.generation == installation.expected
            && Lookup(at.advertised, installation.branch) == Some(installation.target)
  {
    Runs.AfterTheEnd(Next, s, events);
    n := InstallingStepOf(s, events, i);
  }

  lemma InstallingStepOf(s: System, events: seq<Event>, i: nat) returns (n: nat)
    requires s.installed == [] && i < |At(s, events, |events|).installed|
    ensures n < |events|
    ensures var at, installation := At(s, events, n), At(s, events, |events|).installed[i];
            && |at.installed| == i && Next(at, events[n]).installed == at.installed + [installation]
            && at.branch == installation.branch && at.generation == installation.expected
            && Lookup(at.advertised, installation.branch) == Some(installation.target)
  {
    n := StepPast(s, events, i);
    InstallingStep(At(s, events, n), events[n], i);
    LogOnlyGrows(s, events, n + 1, |events|);
    SameEntry(At(s, events, n + 1).installed, At(s, events, |events|).installed, i);
  }

  lemma StepPast(s: System, events: seq<Event>, i: nat) returns (n: nat)
    requires s.installed == [] && i < |At(s, events, |events|).installed|
    ensures n < |events| && |At(s, events, n).installed| <= i < |Next(At(s, events, n), events[n]).installed|
    ensures At(s, events, n + 1) == Next(At(s, events, n), events[n])
  {
    n := Runs.ChangingStep(Next, (w: System) => |w.installed| > i, s, events, 0, |events|);
  }

  lemma SameEntry(before: seq<Installation>, after: seq<Installation>, i: nat)
    requires before <= after && i < |before|
    ensures after[i] == before[i]
  {
  }

  /** The step that makes the installation with number i. */
  lemma InstallingStep(s: System, e: Event, i: nat)
    requires |s.installed| <= i < |Next(s, e).installed|
    ensures var installation := Next(s, e).installed[i];
            && |s.installed| == i && Next(s, e).installed == s.installed + [installation]
            && s.branch == installation.branch && s.generation == installation.expected
            && Lookup(s.advertised, installation.branch) == Some(installation.target)
  {
    if e.Run? && e.task in s.tasks && s.tasks[e.task].Inside? {
      InstallsIff(s, e);
    } else {
      OthersNeverInstall(s, e);
    }
  }

  // ---- reaching a repeated generation ----

  /** One task alone: a target is advertised, prepared for, installed, and not recorded. */
  function InstallRun(t: nat, branch: string, target: nat, generation: nat): seq<Event> {
    var run := Run(t, "", t, Unrecorded);
    [Advertise(branch, target), Spawn(t, WantsExclusive(Plan(generation, branch, target)))] + ([run, run, run] + [run, run, run])
  }

  /** Nobody holds or waits for the gate. */
  predicate Quiescent(s: System) { !s.gate.exclusive && s.gate.leases == map[] && s.gate.exclusiveQueue == [] }

  lemma EntersAlone(s: System, t: nat, plan: Plan)
    requires Quiescent(s) && t in s.tasks && s.tasks[t] == WantsExclusive(plan)
    ensures var run := Run(t, "", t, Unrecorded);
            var s' := Execute(s, [run, run, run]);
            && t in s'.tasks && s'.tasks[t] == Inside(plan) && s'.gate.exclusive
            && s'.gate.leases == map[] && s'.gate.exclusiveQueue == []
            && s'.generation == s.generation && s'.version == s.version && s'.installed == s.installed
            && s'.advertised == s.advertised && s'.branch == s.branch && s'.tasks.Keys == s.tasks.Keys
  {
    var run := Run(t, "", t, Unrecorded);
    Runs.ThreeSteps(Next, s, run, run, run);
    var s1 := Next(s, run);
    assert s1.tasks[t] == ExclusiveLoop(plan, s.gate.nextExclusive, s.arrivals);
    assert s1.gate.exclusiveQueue == [s.gate.nextExclusive];
    var s2 := Next(s1, run);
    assert s2.tasks[t] == ExclusiveCheck(plan, s.gate.nextExclusive, s.arrivals, s.changes);
    assert MayBegin(s2.gate, s.gate.nextExclusive);
  }

  lemma InstallsAlone(s: System, t: nat, plan: Plan)
    requires t in s.tasks && s.tasks[t] == Inside(plan) && StillValid(s, plan)
    requires s.gate.leases == map[] && s.gate.exclusiveQueue == []
    ensures var run := Run(t, "", t, Unrecorded);
            var s' := Execute(s, [run, run, run]);
            && Quiescent(s') && s'.tasks.Keys == s.tasks.Keys && s'.branch == s.branch
            && s'.generation == s.generation && s'.version == s.version + 1
            && s'.installed == s.installed + [Installation(plan.expected, plan.branch, plan.target, false)]
  {
    var run := Run(t, "", t, Unrecorded);
    Runs.ThreeSteps(Next, s, run, run, run);
    var s1 := Next(s, run);
    assert s1.tasks[t] == Leaving;
    var s2 := Next(s1, run);
    assert s2.tasks[t] == LeftUnnotified;
  }

  lemma UnrecordedInstallation(s: System, t: nat, target: nat)
    requires Quiescent(s) && t !in s.tasks
    ensures var s' := Execute(s, InstallRun(t, s.branch, target, s.generation));
            && Quiescent(s') && s'.tasks.Keys == s.tasks.Keys + {t} && s'.branch == s.branch
            && s'.generation == s.generation && s'.version == s.version + 1
            && s'.installed == s.installed + [Installation(s.generation, s.branch, target, false)]
  {
    var plan := Plan(s.generation, s.branch, target);
    var run := Run(t, "", t, Unrecorded);
    var start := [Advertise(s.branch, target), Spawn(t, WantsExclusive(plan))];
    Runs.TwoSteps(Next, s, start[0], start[1]);
    var s1 := Execute(s, start);
    EntersAlone(s1, t, plan);
    var s2 := Execute(s1, [run, run, run]);
    InstallsAlone(s2, t, plan);
    Runs.RunAppends(Next, s1, [run, run, run], [run, run, run]);
    Runs.RunAppends(Next, s, start, [run, run, run] + [run, run, run]);
  }

  /** A generation can repeat: two targets are advertised and installed one after the other,
      both installations move HEAD, neither is recorded, and the generation that access
      grants report is still the first one. */
  lemma GenerationCanRepeat(generation: nat, branch: string, first: nat, second: nat)
    ensures var s := Execute(Start(generation, branch),
                             InstallRun(0, branch, first, generation) + InstallRun(1, branch, second, generation));
            && s.generation == generation && s.version == 2
            && s.installed == [Installation(generation, branch, first, false), Installation(generation, branch, second, false)]
  {
    var s := Start(generation, branch);
    UnrecordedInstallation(s, 0, first);
    var s1 := Execute(s, InstallRun(0, branch, first, generation));
    UnrecordedInstallation(s1, 1, second);
    Runs.RunAppends(Next, s, InstallRun(0, branch, first, generation), InstallRun(1, branch, second, generation));
  }

  /** Once the generation a candidate was prepared from has been used up, the candidate is
      turned back whenever its turn comes, however much later: nothing is installed or written. */
  lemma StalePlanNeverInstalls(s: System, plan: Plan, events: seq<Event>, e: Event)
    requires plan.expected < s.generation
    requires e.Run? && e.task in Execute(s, events).tasks && Execute(s, events).tasks[e.task] == Inside(plan)
    ensures var s1, s2 := Execute(s, events), Next(Execute(s, events), e);
            && s2.generation == s1.generation && s2.version == s1.version && s2.installed == s1.installed
            && s2.tasks[e.task] == Leaving
  {
    GenerationNeverFalls(s, events);
  }

  lemma {:induction false} GenerationNeverFalls(s: System, events: seq<Event>)
    ensures Execute(s, events).generation >= s.generation
    decreases |events|
  {
    if events != [] {
      GenerationNeverFalls(Next(s, events[0]), events[1..]);
    }
  }
}
