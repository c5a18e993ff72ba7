/** Two-phase rebalancing: a plan sends a small TEST transfer, waits for it to arrive, and only then sends MAIN. */
module Rebalance {
  import opened Decimals
  import Breaker

  datatype PlanState =
    | Draft | Planned | AwaitingApproval | TestSent | TestConfirmed | MainSent | MainConfirmed
    | Completed | PlanFailed | Cancelled

  predicate IsTerminal(s: PlanState) {
    s == Completed || s == PlanFailed || s == Cancelled
  }

  function AllowedPlanTransitions(from: PlanState): set<PlanState> {
    match from
    case Draft => {Planned, PlanFailed, Cancelled}
    case Planned => {AwaitingApproval, PlanFailed, Cancelled}
    case AwaitingApproval => {TestSent, PlanFailed, Cancelled}
    case TestSent => {TestConfirmed, PlanFailed, Cancelled}
    case TestConfirmed => {MainSent, PlanFailed, Cancelled}
    case MainSent => {MainConfirmed, PlanFailed, Cancelled}
    case MainConfirmed => {Completed, PlanFailed}
    case _ => {}
  }

  datatype TransitionError = NoError | TerminalState | DryRunStopped | InvalidTransition

  function CheckTransition(state: PlanState, dryRun: bool, next: PlanState): TransitionError {
    if IsTerminal(state) then TerminalState
    else if dryRun && state == Planned && next != PlanFailed && next != Cancelled then DryRunStopped
    else if next !in AllowedPlanTransitions(state) then InvalidTransition
    else NoError
  }

  datatype Phase = Test | Main

  datatype Kind = OnChain | Internal | UnknownKind

  datatype Route = Route(scope: string, approved: bool, feeCap: Option<real>, kind: Kind)

  /** One round of the polling loop. */
  datatype Poll = Poll(cancelled: bool, expired: bool, answer: Option<bool>, cancelledAfter: bool)

  datatype Confirmation = Confirmed | NotConfirmed | CheckFails

  /** How the outside world answers one call. The list of polls ends with the cancellation of the context: every
      real call ends after finitely many rounds. */
  datatype Answers = Answers(
    sentStored: bool, recorded: bool, transfers: bool, statusStored: bool, polls: seq<Poll>,
    confirmedStored: bool, stateStored: bool, completedStored: bool)

  /** What an observer of the plan sees. A transfer notes what was known when the call began. */
  datatype Event =
    | Moved(to: PlanState)
    | Transfer(phase: Phase, accepted: bool, approved: bool, tripped: bool, fee: real, feeCap: Option<real>)
    | Arrived(phase: Phase)

  datatype World = World(state: PlanState, dryRun: bool, breaker: seq<Breaker.Event>, log: seq<Event>)

  datatype Outcome =
    | Done | NotApproved | BreakerTripped | StoreFails | TransferFails | CheckingFails | TimedOut
    | MainBeforeTest | FeeCapExceeded | Refused

  function Note(w: World, x: Event): World {
    w.(log := w.log + [x])
  }

  /** A transition, which changes nothing when it is refused. */
  function Moving(w: World, to: PlanState): (r: World)
    ensures r.dryRun == w.dryRun
  {
    if CheckTransition(w.state, w.dryRun, to) == NoError then Note(w.(state := to), Moved(to)) else w
  }

  function Heard(w: World, x: Breaker.Event): World {
    w.(breaker := w.breaker + [x])
  }

  function Confirming(polls: seq<Poll>, pollInterval: int): Confirmation {
    if polls == [] || polls[0].cancelled then CheckFails
    else if polls[0].expired then NotConfirmed
    else if polls[0].answer.None? then CheckFails
    else if polls[0].answer.value then Confirmed
    else if pollInterval <= 0 then NotConfirmed
    else if polls[0].cancelledAfter then CheckFails
    else Confirming(polls[1..], pollInterval)
  }

  /** From the record of the attempt to the stored confirmation: the part that both phases share. */
  function Delivery(w: World, phase: Phase, route: Route, tripped: bool, fee: real, a: Answers, pollInterval: int)
    : (r: (World, Outcome))
    ensures r.0.dryRun == w.dryRun
  {
    if !a.recorded then (w, StoreFails)
    else
      var accepted := a.transfers && route.kind != UnknownKind;
      var sent := if route.kind == UnknownKind then w
                  else Note(w, Transfer(phase, accepted, route.approved, tripped, fee, route.feeCap));
      if !accepted then (Moving(Heard(sent, Breaker.Failure(route.scope)), PlanFailed), TransferFails)
      else if !a.statusStored then (sent, StoreFails)
      else match Confirming(a.polls, pollInterval)
           case CheckFails => (Moving(Heard(sent, Breaker.Failure(route.scope)), PlanFailed), CheckingFails)
           case NotConfirmed => (Moving(Heard(sent, Breaker.Failure(route.scope)), PlanFailed), TimedOut)
           case Confirmed =>
             var arrived := Note(Heard(sent, Breaker.Success(route.scope)), Arrived(phase));
             (arrived, if a.confirmedStored then Done else StoreFails)
  }

  /** A transition and its storage. */
  function Storing(w: World, to: PlanState, stored: bool): (World, Outcome) {
    if CheckTransition(w.state, w.dryRun, to) != NoError then (w, Refused)
    else (Moving(w, to), if stored then Done else StoreFails)
  }

  ghost predicate IsTripped(w: World, threshold: int, scope: string) {
    Breaker.HasRun(Breaker.SinceReset(w.breaker, scope), Breaker.Needed(threshold))
  }

  ghost function TestSpec(w: World, threshold: int, route: Route, a: Answers, pollInterval: int): (World, Outcome) {
    if !route.approved then (Moving(w, PlanFailed), NotApproved)
    else if IsTripped(w, threshold, route.scope) then (w, BreakerTripped)
    else
      var begun := if w.state == AwaitingApproval then Storing(w, TestSent, a.sentStored) else (w, Done);
      if begun.1 != Done then begun
      else
        var delivered := Delivery(begun.0, Test, route, IsTripped(w, threshold, route.scope), 0.0, a, pollInterval);
        if delivered.1 != Done then delivered else Storing(delivered.0, TestConfirmed, a.stateStored)
  }

  ghost function MainSpec(w: World, threshold: int, route: Route, fee: real, a: Answers, pollInterval: int)
    : (World, Outcome)
  {
    if w.state != TestConfirmed then (w, MainBeforeTest)
    else if !route.approved then (Moving(w, PlanFailed), NotApproved)
    else if IsTripped(w, threshold, route.scope) then (w, BreakerTripped)
    else if route.feeCap.Some? && fee > route.feeCap.value then (Moving(w, PlanFailed), FeeCapExceeded)
    else
      var begun := Storing(w, MainSent, a.sentStored);
      if begun.1 != Done then begun
      else
        var delivered := Delivery(begun.0, Main, route, IsTripped(w, threshold, route.scope), fee, a, pollInterval);
        if delivered.1 != Done then delivered
        else
          var confirmed := Storing(delivered.0, MainConfirmed, a.stateStored);
          if confirmed.1 != Done then confirmed else Storing(confirmed.0, Completed, a.completedStored)
  }

  // ---------------------------------------------------------------------------------------------------------
  // The imperative form.

  class Plan {
    const dryRun: bool
    var state: PlanState
    ghost var log: seq<Event>

    constructor (dryRun: bool)
      ensures this.dryRun == dryRun && state == Draft && log == []
    {
      this.dryRun := dryRun;
      state := Draft;
      log := [];
    }

    method Transition(next: PlanState) returns (err: TransitionError)
      modifies this
      ensures err == CheckTransition(old(state), dryRun, next)
      ensures err == NoError ==> state == next && log == old(log) + [Moved(next)]
      ensures err != NoError ==> state == old(state) && log == old(log)
    {
      if IsTerminal(state) {
        return TerminalState;
      }
      if dryRun && state == Planned && next != PlanFailed && next != Cancelled {
        return DryRunStopped;
      }
      if next !in AllowedPlanTransitions(state) {
        return InvalidTransition;
      }
      state := next;
      log := log + [Moved(next)];
      return NoError;
    }

    ghost method Observe(x: Event)
      modifies this`log
      ensures log == old(log) + [x]
    {
      log := log + [x];
    }
  }

  class Executor {
    const pollInterval: int
    const breaker: Breaker.CircuitBreaker

    constructor (pollInterval: int, breaker: Breaker.CircuitBreaker)
      ensures this.pollInterval == pollInterval && this.breaker == breaker
    {
      this.pollInterval := pollInterval;
      this.breaker := breaker;
    }

    ghost function View(plan: Plan): World
      reads plan, breaker
    {
      World(plan.state, plan.dryRun, breaker.trace, plan.log)
    }

    method WaitConfirmation(polls: seq<Poll>) returns (c: Confirmation)
      ensures c == Confirming(polls, pollInterval)
    {
      var i := 0;
      while i < |polls|
        invariant 0 <= i <= |polls|
        invariant Confirming(polls[i..], pollInterval) == Confirming(polls, pollInterval)
      {
        var p := polls[i];
        if p.cancelled {
          return CheckFails;
        }
        if p.expired {
          return NotConfirmed;
        }
        match p.answer {
          case None => return CheckFails;
          case Some(yes) =>
            if yes {
              return Confirmed;
            }
        }
        if pollInterval <= 0 {
          return NotConfirmed;
        }
        if p.cancelledAfter {
          return CheckFails;
        }
        i := i + 1;
      }
      return CheckFails;
    }

    /** The errors of the transition and of the store are ignored. */
    method FailPlan(plan: Plan)
      modifies plan
      ensures View(plan) == Moving(old(View(plan)), PlanFailed)
    {
      var _ := plan.Transition(PlanFailed);
    }

    method MoveAndStore(plan: Plan, to: PlanState, stored: bool) returns (o: Outcome)
      modifies plan
      ensures (View(plan), o) == Storing(old(View(plan)), to, stored)
    {
      var err := plan.Transition(to);
      if err != NoError {
        return Refused;
      }
      return if stored then Done else StoreFails;
    }

    method Deliver(plan: Plan, phase: Phase, route: Route, ghost tripped: bool, fee: real, a: Answers)
      returns (o: Outcome)
      requires breaker.Valid()
      modifies plan, breaker
      ensures breaker.Valid()
      ensures (View(plan), o) == Delivery(old(View(plan)), phase, route, tripped, fee, a, pollInterval)
    {
      if !a.recorded {
        return StoreFails;
      }
      var accepted := a.transfers && route.kind != UnknownKind;
      if route.kind != UnknownKind {
        plan.Observe(Transfer(phase, accepted, route.approved, tripped, fee, route.feeCap));
      }
      if !accepted {
        breaker.RecordFailure(route.scope);
        FailPlan(plan);
        return TransferFails;
      }
      if !a.statusStored {
        return StoreFails;
      }
      var c := WaitConfirmation(a.polls);
      if c != Confirmed {
        breaker.RecordFailure(route.scope);
        FailPlan(plan);
        return if c == CheckFails then CheckingFails else TimedOut;
      }
      breaker.RecordSuccess(route.scope);
      plan.Observe(Arrived(phase));
      return if a.confirmedStored then Done else StoreFails;
    }

    /** The documentation asks for a plan in AWAITING_APPROVAL or TEST_SENT; neither the code nor this does. */
    method ExecuteTest(plan: Plan, route: Route, a: Answers) returns (o: Outcome)
      requires breaker.Valid()
      modifies plan, breaker
      ensures breaker.Valid()
      ensures (View(plan), o) == TestSpec(old(View(plan)), breaker.threshold, route, a, pollInterval)
    {
      hide Delivery, Breaker.HasRun, Breaker.SinceReset, Breaker.CircuitBreaker.Valid;
      if !route.approved {
        FailPlan(plan);
        return NotApproved;
      }
      var tripped := breaker.IsTripped(route.scope);
      if tripped {
        return BreakerTripped;
      }
      if plan.state == AwaitingApproval {
        o := MoveAndStore(plan, TestSent, a.sentStored);
        if o != Done {
          return;
        }
      }
      o := Deliver(plan, Test, route, tripped, 0.0, a);
      if o != Done {
        return;
      }
      o := MoveAndStore(plan, TestConfirmed, a.stateStored);
    }

    method ExecuteMain(plan: Plan, route: Route, fee: real, a: Answers) returns (o: Outcome)
      requires breaker.Valid()
      modifies plan, breaker
      ensures breaker.Valid()
      ensures (View(plan), o) == MainSpec(old(View(plan)), breaker.threshold, route, fee, a, pollInterval)
    {
      hide Delivery, Breaker.HasRun, Breaker.SinceReset, Breaker.CircuitBreaker.Valid;
      if plan.state != TestConfirmed {
        return MainBeforeTest;
      }
      if !route.approved {
        FailPlan(plan);
        return NotApproved;
      }
      var tripped := breaker.IsTripped(route.scope);
      if tripped {
        return BreakerTripped;
      }
      if route.feeCap.Some? && fee > route.feeCap.value {
        FailPlan(plan);
        return FeeCapExceeded;
      }
      o := MoveAndStore(plan, MainSent, a.sentStored);
      if o != Done {
        return;
      }
      o := Deliver(plan, Main, route, tripped, fee, a);
      if o != Done {
        return;
      }
      o := MoveAndStore(plan, MainConfirmed, a.stateStored);
      if o != Done {
        return;
      }
      o := MoveAndStore(plan, Completed, a.completedStored);
    }
  }

  // ---------------------------------------------------------------------------------------------------------
  // Every sequence of calls.

  /** Callers approve, cancel or fail a plan; only the executor moves it past TEST_SENT. Other plans use the
      same breaker, and operators reset it. */
  datatype Call =
    | CallTest(route: Route, a: Answers)
    | CallMain(route: Route, fee: real, a: Answers)
    | Operator(to: PlanState)
    | BreakerHears(x: Breaker.Event)

  datatype Setup = Setup(threshold: int, pollInterval: int)

  ghost function After(w: World, cfg: Setup, c: Call): World {
    match c
    case CallTest(route, a) => TestSpec(w, cfg.threshold, route, a, cfg.pollInterval).0
    case CallMain(route, fee, a) => MainSpec(w, cfg.threshold, route, fee, a, cfg.pollInterval).0
    case Operator(to) => if to in {Planned, AwaitingApproval, PlanFailed, Cancelled} then Moving(w, to) else w
    case BreakerHears(x) => Heard(w, x)
  }

  ghost function AfterAll(w: World, cfg: Setup, calls: seq<Call>): World
    decreases calls
  {
    if calls == [] then w else AfterAll(After(w, cfg, calls[0]), cfg, calls[1..])
  }

  function NewPlan(dryRun: bool): World {
    World(Draft, dryRun, [], [])
  }

  const CHAIN := [Draft, Planned, AwaitingApproval, TestSent, TestConfirmed, MainSent, MainConfirmed, Completed]

  /** The states a plan has been in. */
  function Path(log: seq<Event>): seq<PlanState> {
    if log == [] then [Draft]
    else Path(log[..|log| - 1]) + if log[|log| - 1].Moved? then [log[|log| - 1].to] else []
  }

  function Transfers(log: seq<Event>, phase: Phase): nat {
    if log == [] then 0
    else Transfers(log[..|log| - 1], phase)
         + if log[|log| - 1].Transfer? && log[|log| - 1].phase == phase then 1 else 0
  }

  predicate MayGo(before: seq<Event>, x: Event) {
    x.Transfer? ==>
      && x.approved && !x.tripped
      && (x.phase == Main ==> Arrived(Test) in before && (x.feeCap.None? || x.fee <= x.feeCap.value))
  }

  predicate Guarded(log: seq<Event>) {
    if log == [] then true else Guarded(log[..|log| - 1]) && MayGo(log[..|log| - 1], log[|log| - 1])
  }

  function Position(s: PlanState): (k: nat)
    ensures !IsTerminal(s) || s == Completed ==> k < |CHAIN| && CHAIN[k] == s
  {
    match s
    case Draft => 0
    case Planned => 1
    case AwaitingApproval => 2
    case TestSent => 3
    case TestConfirmed => 4
    case MainSent => 5
    case MainConfirmed => 6
    case _ => 7
  }

  /** How many states of the chain the plan has been in. */
  predicate Reached(path: seq<PlanState>, s: PlanState, k: nat) {
    1 <= k <= |CHAIN| &&
    if s == PlanFailed || s == Cancelled then k < |CHAIN| && path == CHAIN[..k] + [s]
    else k == Position(s) + 1 && path == CHAIN[..k]
  }

  predicate Facts(w: World, k: nat) {
    && Reached(Path(w.log), w.state, k)
    && (w.dryRun ==> k <= 2)
    && Guarded(w.log)
    && (k >= 5 ==> Arrived(Test) in w.log)
    && Transfers(w.log, Main) <= (if k <= 5 then 0 else 1)
    && (k >= 7 ==> Arrived(Main) in w.log && Transfers(w.log, Main) == 1)
  }

  ghost predicate Invariant(w: World) {
    exists k :: Facts(w, k)
  }

  lemma Noted(log: seq<Event>, x: Event)
    ensures Path(log + [x]) == Path(log) + if x.Moved? then [x.to] else []
    ensures forall p :: Transfers(log + [x], p) == Transfers(log, p) + if x.Transfer? && x.phase == p then 1 else 0
    ensures Guarded(log + [x]) <==> Guarded(log) && MayGo(log, x)
  {
    assert (log + [x])[..|log|] == log;
  }

  lemma MovingKeeps(w: World, to: PlanState, k: nat) returns (j: nat)
    requires Facts(w, k)
    requires to == TestConfirmed ==> Arrived(Test) in w.log
    requires to == MainConfirmed ==> Arrived(Main) in w.log && Transfers(w.log, Main) == 1
    ensures Facts(Moving(w, to), j)
    ensures CheckTransition(w.state, w.dryRun, to) == NoError && to != PlanFailed && to != Cancelled ==> j == k + 1
    ensures to == PlanFailed ==> j == k
  {
    hide Guarded, Path, Transfers;
    Noted(w.log, Moved(to));
    j := if CheckTransition(w.state, w.dryRun, to) == NoError && to != PlanFailed && to != Cancelled then k + 1 else k;
    if j == k + 1 {
      assert CHAIN[k] == to;
      assert CHAIN[..k] + [to] == CHAIN[..k + 1];
    }
  }

  lemma DeliveryKeeps(w: World, phase: Phase, route: Route, tripped: bool, fee: real, a: Answers, pollInterval: int,
                      k: nat)
    requires Facts(w, k) && route.approved && !tripped
    requires phase == Main ==>
      w.state == MainSent && Transfers(w.log, Main) == 0 && (route.feeCap.None? || fee <= route.feeCap.value)
    ensures var d := Delivery(w, phase, route, tripped, fee, a, pollInterval);
            && Facts(d.0, k)
            && (d.1 == Done ==> d.0.state == w.state && Arrived(phase) in d.0.log)
            && (d.1 == Done && phase == Main ==> Transfers(d.0.log, Main) == 1)
  {
    hide Facts, Moving, Confirming, Transfers;
    var x := Transfer(phase, a.transfers && route.kind != UnknownKind, route.approved, tripped, fee, route.feeCap);
    var sent := if route.kind == UnknownKind then w else Note(w, x);
    if route.kind != UnknownKind {
      SendingKeeps(w, x, k);
    }
    var failed := Heard(sent, Breaker.Failure(route.scope));
    HearingKeeps(sent, Breaker.Failure(route.scope), k);
    var _ := MovingKeeps(failed, PlanFailed, k);
    HearingKeeps(sent, Breaker.Success(route.scope), k);
    ArrivingKeeps(Heard(sent, Breaker.Success(route.scope)), phase, k);
  }

  lemma SendingKeeps(w: World, x: Event, k: nat)
    requires Facts(w, k) && x.Transfer? && x.approved && !x.tripped
    requires x.phase == Main ==>
      w.state == MainSent && Transfers(w.log, Main) == 0 && (x.feeCap.None? || x.fee <= x.feeCap.value)
    ensures Facts(Note(w, x), k)
    ensures Transfers(Note(w, x).log, Main) == Transfers(w.log, Main) + if x.phase == Main then 1 else 0
  {
    hide Guarded, Path, Transfers;
    Noted(w.log, x);
  }

  lemma ArrivingKeeps(w: World, phase: Phase, k: nat)
    requires Facts(w, k)
    ensures Facts(Note(w, Arrived(phase)), k) && Arrived(phase) in Note(w, Arrived(phase)).log
    ensures Transfers(Note(w, Arrived(phase)).log, Main) == Transfers(w.log, Main)
  {
    hide Guarded, Path, Transfers;
    Noted(w.log, Arrived(phase));
  }

  lemma TestKeeps(w: World, cfg: Setup, route: Route, a: Answers)
    requires Invariant(w)
    ensures Invariant(TestSpec(w, cfg.threshold, route, a, cfg.pollInterval).0)
  {
    hide Facts, Delivery, IsTripped;
    var k: nat :| Facts(w, k);
    FailingKeeps(w);
    var tripped := IsTripped(w, cfg.threshold, route.scope);
    if route.approved && !tripped {
      var w1, k1 := w, k;
      if w.state == AwaitingApproval {
        w1 := Storing(w, TestSent, a.sentStored).0;
        k1 := MovingKeeps(w, TestSent, k);
      }
      if w.state != AwaitingApproval || Storing(w, TestSent, a.sentStored).1 == Done {
        DeliveryKeeps(w1, Test, route, tripped, 0.0, a, cfg.pollInterval, k1);
        var d := Delivery(w1, Test, route, tripped, 0.0, a, cfg.pollInterval);
        if d.1 == Done {
          var _ := MovingKeeps(d.0, TestConfirmed, k1);
        }
      }
    }
  }

  lemma FailingKeeps(w: World)
    requires Invariant(w)
    ensures Invariant(Moving(w, PlanFailed))
  {
    hide Facts, Moving;
    var k: nat :| Facts(w, k);
    var _ := MovingKeeps(w, PlanFailed, k);
  }

  lemma BeforeMain(w: World, k: nat)
    requires Facts(w, k) && w.state == TestConfirmed
    ensures k == 5 && Transfers(w.log, Main) == 0
  {
    hide Guarded, Path, Transfers;
  }

  lemma CompletingKeeps(w: World, k: nat)
    requires Facts(w, k) && Arrived(Main) in w.log && Transfers(w.log, Main) == 1
    ensures Invariant(Moving(w, MainConfirmed)) && Invariant(Moving(Moving(w, MainConfirmed), Completed))
  {
    hide Facts, Moving;
    var j := MovingKeeps(w, MainConfirmed, k);
    var _ := MovingKeeps(Moving(w, MainConfirmed), Completed, j);
  }

  lemma SendingMainKeeps(w: World, route: Route, tripped: bool, fee: real, a: Answers, pollInterval: int)
    requires Invariant(w) && w.state == TestConfirmed && route.approved && !tripped
    requires route.feeCap.None? || fee <= route.feeCap.value
    ensures var sent := Moving(w, MainSent);
            var d := Delivery(sent, Main, route, tripped, fee, a, pollInterval);
            && Invariant(sent) && Invariant(d.0)
            && (d.1 == Done ==>
                  && Invariant(Moving(d.0, MainConfirmed))
                  && Invariant(Moving(Moving(d.0, MainConfirmed), Completed)))
  {
    var k: nat :| Facts(w, k);
    hide Facts, Delivery;
    BeforeMain(w, k);
    var sent := Moving(w, MainSent);
    var j := MovingKeeps(w, MainSent, k);
    Noted(w.log, Moved(MainSent));
    DeliveryKeeps(sent, Main, route, tripped, fee, a, pollInterval, j);
    var d := Delivery(sent, Main, route, tripped, fee, a, pollInterval);
    if d.1 == Done {
      CompletingKeeps(d.0, j);
    }
  }

  lemma MainKeeps(w: World, cfg: Setup, route: Route, fee: real, a: Answers)
    requires Invariant(w)
    ensures Invariant(MainSpec(w, cfg.threshold, route, fee, a, cfg.pollInterval).0)
  {
    hide Invariant, Delivery, IsTripped, Moving, CheckTransition;
    var tripped := IsTripped(w, cfg.threshold, route.scope);
    FailingKeeps(w);
    if w.state == TestConfirmed && route.approved && !tripped && (route.feeCap.None? || fee <= route.feeCap.value) {
      SendingMainKeeps(w, route, tripped, fee, a, cfg.pollInterval);
    }
  }

  lemma HearingKeeps(w: World, x: Breaker.Event, k: nat)
    requires Facts(w, k)
    ensures Facts(Heard(w, x), k)
  {
    hide Guarded, Path, Transfers;
  }

  lemma AfterKeeps(w: World, cfg: Setup, c: Call)
    requires Invariant(w)
    ensures Invariant(After(w, cfg, c))
  {
    hide Facts, TestSpec, MainSpec;
    var k: nat :| Facts(w, k);
    match c
    case CallTest(route, a) => TestKeeps(w, cfg, route, a);
    case CallMain(route, fee, a) => MainKeeps(w, cfg, route, fee, a);
    case Operator(to) =>
      if to in {Planned, AwaitingApproval, PlanFailed, Cancelled} { var _ := MovingKeeps(w, to, k); }
    case BreakerHears(x) => HearingKeeps(w, x, k);
  }

  lemma {:induction false} AllCallsKeep(w: World, cfg: Setup, calls: seq<Call>)
    requires Invariant(w)
    ensures Invariant(AfterAll(w, cfg, calls))
    decreases calls
  {
    hide After, Invariant;
    if calls != [] {
      AfterKeeps(w, cfg, calls[0]);
      AllCallsKeep(After(w, cfg, calls[0]), cfg, calls[1..]);
    }
  }

  lemma {:induction false} GuardedAt(log: seq<Event>, i: nat)
    requires Guarded(log) && i < |log|
    ensures MayGo(log[..i], log[i])
  {
    if i < |log| - 1 {
      GuardedAt(log[..|log| - 1], i);
      assert log[..|log| - 1][..i] == log[..i];
    }
  }

  /** Main safety result, over every sequence of calls on a new plan and every answer of the store, the exchange
      and the confirmation query. */
  lemma MainIsSentOnceAndOnlyWhenAllowed(dryRun: bool, cfg: Setup, calls: seq<Call>)
    ensures var w := AfterAll(NewPlan(dryRun), cfg, calls);
            && Transfers(w.log, Main) <= 1
            && (forall i :: 0 <= i < |w.log| && w.log[i].Transfer? ==> MayGo(w.log[..i], w.log[i]))
            && (w.state == Completed ==>
                  Path(w.log) == CHAIN && Transfers(w.log, Main) == 1 && Arrived(Main) in w.log)
            && (dryRun ==> AwaitingApproval !in Path(w.log) && Transfers(w.log, Main) == 0)
  {
    var start := NewPlan(dryRun);
    assert Facts(start, 1);
    AllCallsKeep(start, cfg, calls);
    DryRunIsKept(start, cfg, calls);
    var w := AfterAll(start, cfg, calls);
    var k: nat :| Facts(w, k);
    hide AfterAll, Guarded, Path, Transfers;
    forall i | 0 <= i < |w.log| && w.log[i].Transfer? ensures MayGo(w.log[..i], w.log[i]) {
      GuardedAt(w.log, i);
    }
    assert CHAIN[..8] == CHAIN;
    if dryRun {
      assert forall i :: 0 <= i < k ==> CHAIN[..k][i] != AwaitingApproval;
    }
  }

  lemma {:induction false} DryRunIsKept(w: World, cfg: Setup, calls: seq<Call>)
    ensures AfterAll(w, cfg, calls).dryRun == w.dryRun
    decreases calls
  {
    if calls != [] {
      hide IsTripped, Delivery, Moving, CheckTransition;
      DryRunIsKept(After(w, cfg, calls[0]), cfg, calls[1..]);
    }
  }

  /** A confirmation is reported exactly when some round saw it and no earlier round ended the wait. */
  lemma {:induction false} ConfirmedMeansObserved(polls: seq<Poll>, pollInterval: int)
    ensures Confirming(polls, pollInterval) == Confirmed <==>
            exists i :: 0 <= i < |polls| && Observes(polls[i]) && (i > 0 ==> pollInterval > 0)
                        && forall j :: 0 <= j < i ==> GoesOn(polls[j])
    decreases polls
  {
    if polls != [] && GoesOn(polls[0]) && pollInterval > 0 {
      ConfirmedMeansObserved(polls[1..], pollInterval);
      if i :| 0 <= i < |polls| && Observes(polls[i]) && forall j :: 0 <= j < i ==> GoesOn(polls[j]) {
        assert polls[1..][i - 1] == polls[i];
        assert forall j :: 0 <= j < i - 1 ==> polls[1..][j] == polls[j + 1];
      }
      if Confirming(polls[1..], pollInterval) == Confirmed {
        var i :| 0 <= i < |polls| - 1 && Observes(polls[1..][i]) && forall j :: 0 <= j < i ==> GoesOn(polls[1..][j]);
        assert polls[i + 1] == polls[1..][i];
        assert forall j :: 0 < j < i + 1 ==> polls[j] == polls[1..][j - 1];
      }
    } else if polls != [] {
      assert Confirming(polls, pollInterval) == Confirmed <==> Observes(polls[0]);
    }
  }

  /** A wait times out exactly when a round finds the deadline passed, or is the only one allowed and answered no, and
      no earlier round ended the wait. In every other case but confirmation it fails. */
  lemma {:induction false} TimedOutMeansNotSeen(polls: seq<Poll>, pollInterval: int)
    ensures Confirming(polls, pollInterval) == NotConfirmed <==>
            exists i :: 0 <= i < |polls| && GivesUp(polls[i], pollInterval) && (i > 0 ==> pollInterval > 0)
                        && forall j :: 0 <= j < i ==> GoesOn(polls[j])
    decreases polls
  {
    if polls != [] && GoesOn(polls[0]) && pollInterval > 0 {
      TimedOutMeansNotSeen(polls[1..], pollInterval);
      if i :| 0 <= i < |polls| && GivesUp(polls[i], pollInterval) && forall j :: 0 <= j < i ==> GoesOn(polls[j]) {
        assert polls[1..][i - 1] == polls[i];
        assert forall j :: 0 <= j < i - 1 ==> polls[1..][j] == polls[j + 1];
      }
      if Confirming(polls[1..], pollInterval) == NotConfirmed {
        var i :| 0 <= i < |polls| - 1 && GivesUp(polls[1..][i], pollInterval)
                 && forall j :: 0 <= j < i ==> GoesOn(polls[1..][j]);
        assert polls[i + 1] == polls[1..][i];
        assert forall j :: 0 < j < i + 1 ==> polls[j] == polls[1..][j - 1];
      }
    } else if polls != [] {
      assert Confirming(polls, pollInterval) == NotConfirmed <==> GivesUp(polls[0], pollInterval);
    }
  }

  predicate GivesUp(p: Poll, pollInterval: int) {
    !p.cancelled && (p.expired || (p.answer == Some(false) && pollInterval <= 0))
  }

  predicate Observes(p: Poll) {
    !p.cancelled && !p.expired && p.answer == Some(true)
  }

  predicate GoesOn(p: Poll) {
    !p.cancelled && !p.expired && p.answer == Some(false) && !p.cancelledAfter
  }

  /** The state machine, read along the chain: a plan that has not ended can always fail; it can be cancelled until MAIN
      is confirmed; and it can move to the next state of the chain, unless it is a dry run that stands at PLANNED. */
  lemma PlanMovesIff(s: PlanState, dryRun: bool, next: PlanState)
    ensures var err := CheckTransition(s, dryRun, next);
            var ended := s == Completed || s == PlanFailed || s == Cancelled;
            && (err == TerminalState <==> ended)
            && (err == NoError <==>
                  !ended && (|| next == PlanFailed
                             || (next == Cancelled && s != MainConfirmed)
                             || (next in CHAIN && Position(next) == Position(s) + 1 && !(dryRun && s == Planned))))
            && (err == DryRunStopped <==> dryRun && s == Planned && next != PlanFailed && next != Cancelled)
  {
    assert forall i :: 0 <= i < |CHAIN| ==> CHAIN[i] in CHAIN;
    assert next in CHAIN <==> next != PlanFailed && next != Cancelled by {
      assert next != PlanFailed && next != Cancelled ==> CHAIN[Position(next)] == next;
    }
  }

  // ---------------------------------------------------------------------------------------------------------
  // When TEST goes out.

  /** The guards that stand before a TEST transfer. */
  ghost predicate SendsTest(w: World, cfg: Setup, route: Route, a: Answers) {
    && route.approved && route.kind != UnknownKind && !IsTripped(w, cfg.threshold, route.scope)
    && (w.state == AwaitingApproval ==> a.sentStored) && a.recorded
  }

  lemma MovingSendsNothing(w: World, to: PlanState, p: Phase)
    ensures Transfers(Moving(w, to).log, p) == Transfers(w.log, p)
  {
    Noted(w.log, Moved(to));
  }

  /** What a phase adds to the transfers, and where it leaves the plan. */
  lemma DeliverySends(w: World, phase: Phase, route: Route, tripped: bool, fee: real, a: Answers, pollInterval: int,
                      p: Phase)
    ensures var d := Delivery(w, phase, route, tripped, fee, a, pollInterval);
            && Transfers(d.0.log, p) == Transfers(w.log, p)
                                        + (if p == phase && a.recorded && route.kind != UnknownKind then 1 else 0)
            && (IsFailure(d.1) ==> d.0.state == if IsTerminal(w.state) then w.state else PlanFailed)
            && (!IsFailure(d.1) ==> d.0.state == w.state)
            && (IsFailure(d.1) <==>
                  a.recorded && (!a.transfers || route.kind == UnknownKind
                                 || (a.statusStored && Confirming(a.polls, pollInterval) != Confirmed)))
            && (d.1 == Done <==>
                  && a.recorded && a.transfers && route.kind != UnknownKind && a.statusStored
                  && Confirming(a.polls, pollInterval) == Confirmed && a.confirmedStored)
  {
    hide Transfers, Confirming;
    var x := Transfer(phase, a.transfers && route.kind != UnknownKind, route.approved, tripped, fee, route.feeCap);
    Noted(w.log, x);
    Noted(w.log + [x], Arrived(phase));
    MovingSendsNothing(Heard(w, Breaker.Failure(route.scope)), PlanFailed, p);
    MovingSendsNothing(Heard(Note(w, x), Breaker.Failure(route.scope)), PlanFailed, p);
  }

  /** In any state at all, a call of `ExecuteTest` sends one TEST transfer exactly when its guards hold. */
  lemma TestIsSentIff(w: World, cfg: Setup, route: Route, a: Answers)
    ensures Transfers(After(w, cfg, CallTest(route, a)).log, Test)
         == Transfers(w.log, Test) + if SendsTest(w, cfg, route, a) then 1 else 0
  {
    hide Transfers, Delivery, IsTripped, Moving;
    MovingSendsNothing(w, PlanFailed, Test);
    MovingSendsNothing(w, TestSent, Test);
    var begun := if w.state == AwaitingApproval then Moving(w, TestSent) else w;
    var tripped := IsTripped(w, cfg.threshold, route.scope);
    DeliverySends(begun, Test, route, tripped, 0.0, a, cfg.pollInterval, Test);
    MovingSendsNothing(Delivery(begun, Test, route, tripped, 0.0, a, cfg.pollInterval).0, TestConfirmed, Test);
  }

  lemma MainSendsNoTest(w: World, cfg: Setup, route: Route, fee: real, a: Answers)
    ensures Transfers(After(w, cfg, CallMain(route, fee, a)).log, Test) == Transfers(w.log, Test)
  {
    hide Transfers, Delivery, IsTripped, Moving;
    MovingSendsNothing(w, PlanFailed, Test);
    MovingSendsNothing(w, MainSent, Test);
    var begun := Moving(w, MainSent);
    var tripped := IsTripped(w, cfg.threshold, route.scope);
    DeliverySends(begun, Main, route, tripped, fee, a, cfg.pollInterval, Test);
    var d := Delivery(begun, Main, route, tripped, fee, a, cfg.pollInterval).0;
    MovingSendsNothing(d, MainConfirmed, Test);
    MovingSendsNothing(Moving(d, MainConfirmed), Completed, Test);
  }

  /** The number of calls whose guards for TEST hold. */
  ghost function TestSends(w: World, cfg: Setup, calls: seq<Call>): nat
    decreases calls
  {
    if calls == [] then 0
    else (if calls[0].CallTest? && SendsTest(w, cfg, calls[0].route, calls[0].a) then 1 else 0)
         + TestSends(After(w, cfg, calls[0]), cfg, calls[1..])
  }

  lemma {:induction false} TransfersAreSends(w: World, cfg: Setup, calls: seq<Call>)
    ensures Transfers(AfterAll(w, cfg, calls).log, Test) == Transfers(w.log, Test) + TestSends(w, cfg, calls)
    decreases calls
  {
    hide Transfers, SendsTest, TestSpec, MainSpec;
    if calls != [] {
      match calls[0] {
        case CallTest(route, a) => TestIsSentIff(w, cfg, route, a);
        case CallMain(route, fee, a) => MainSendsNoTest(w, cfg, route, fee, a);
        case Operator(to) => MovingSendsNothing(w, to, Test);
        case BreakerHears(_) =>
      }
      TransfersAreSends(After(w, cfg, calls[0]), cfg, calls[1..]);
    }
  }

  predicate IsDocumented(w: World, c: Call) {
    c.CallTest? ==> w.state == AwaitingApproval || w.state == TestSent
  }

  /** Every call of `ExecuteTest` meets the plan in one of the two states that its documentation names. */
  ghost predicate AllDocumented(w: World, cfg: Setup, calls: seq<Call>)
    decreases calls
  {
    calls == [] || (IsDocumented(w, calls[0]) && AllDocumented(After(w, cfg, calls[0]), cfg, calls[1..]))
  }

  lemma {:induction false} DocumentedDryRunSendsNothing(w: World, cfg: Setup, calls: seq<Call>)
    requires Invariant(w) && w.dryRun && AllDocumented(w, cfg, calls)
    ensures TestSends(w, cfg, calls) == 0
    decreases calls
  {
    if calls != [] {
      var k: nat :| Facts(w, k);
      assert w.state != AwaitingApproval && w.state != TestSent by { hide Path, Guarded, Transfers; }
      hide After, Invariant, SendsTest;
      AfterKeeps(w, cfg, calls[0]);
      DryRunIsKept(w, cfg, [calls[0]]);
      assert AfterAll(w, cfg, [calls[0]]) == After(w, cfg, calls[0]);
      DocumentedDryRunSendsNothing(After(w, cfg, calls[0]), cfg, calls[1..]);
    }
  }

  /** A dry run sends no TEST exactly when no call of `ExecuteTest` passes the guards, which no documented call does. */
  lemma DryRunSendsIff(cfg: Setup, calls: seq<Call>)
    ensures Transfers(AfterAll(NewPlan(true), cfg, calls).log, Test) == 0 <==> TestSends(NewPlan(true), cfg, calls) == 0
    ensures AllDocumented(NewPlan(true), cfg, calls) ==> TestSends(NewPlan(true), cfg, calls) == 0
  {
    assert Facts(NewPlan(true), 1);
    TransfersAreSends(NewPlan(true), cfg, calls);
    if AllDocumented(NewPlan(true), cfg, calls) {
      DocumentedDryRunSendsNothing(NewPlan(true), cfg, calls);
    }
  }

  /** The dry-run guard alone does not stop a call that ignores the documentation. */
  lemma DryRunCanSendTest(cfg: Setup, route: Route, a: Answers)
    requires route.approved && route.kind != UnknownKind && a.recorded
    ensures Transfers(AfterAll(NewPlan(true), cfg, [CallTest(route, a)]).log, Test) == 1
  {
    var w := NewPlan(true);
    TestIsSentIff(w, cfg, route, a);
    assert AfterAll(w, cfg, [CallTest(route, a)]) == After(w, cfg, CallTest(route, a));
  }

  /** A call sends TEST and leaves the plan where the documentation allows the next call. */
  ghost predicate Reopens(w: World, cfg: Setup, route: Route, a: Answers) {
    && SendsTest(w, cfg, route, a) && a.transfers
    && (!a.statusStored || (Confirming(a.polls, cfg.pollInterval) == Confirmed && !a.confirmedStored))
  }

  /** The states a plan can be in before a transfer of its own was settled. */
  predicate IsOpen(s: PlanState) {
    s in {Draft, Planned, AwaitingApproval, TestSent}
  }

  /** A documented call that sends TEST can be repeated exactly when the store lost the SENT status, or lost the
      CONFIRMED status of an arrival that was seen. */
  lemma SecondTestIsPossibleIff(w: World, cfg: Setup, route: Route, a: Answers)
    requires w.state == AwaitingApproval || w.state == TestSent
    ensures var after := After(w, cfg, CallTest(route, a));
            && (Transfers(after.log, Test) > Transfers(w.log, Test) && IsOpen(after.state) <==>
                Reopens(w, cfg, route, a))
            && (Reopens(w, cfg, route, a) ==> after.state == TestSent)
  {
    TestIsSentIff(w, cfg, route, a);
    hide Transfers, Delivery, IsTripped, Confirming;
    var begun := if w.state == AwaitingApproval then Moving(w, TestSent) else w;
    DeliverySends(begun, Test, route, IsTripped(w, cfg.threshold, route.scope), 0.0, a, cfg.pollInterval, Test);
  }

  ghost function Reopenings(w: World, cfg: Setup, calls: seq<Call>): nat
    decreases calls
  {
    if calls == [] then 0
    else (if calls[0].CallTest? && Reopens(w, cfg, calls[0].route, calls[0].a) then 1 else 0)
         + Reopenings(After(w, cfg, calls[0]), cfg, calls[1..])
  }

  lemma SettledStaysSettled(w: World, cfg: Setup, c: Call)
    requires IsDocumented(w, c) && !IsOpen(w.state)
    ensures !IsOpen(After(w, cfg, c).state)
  {
    hide Delivery, IsTripped;
    if c.CallMain? {
      DeliverySends(Moving(w, MainSent), Main, c.route, IsTripped(w, cfg.threshold, c.route.scope), c.fee, c.a,
                    cfg.pollInterval, Main);
    }
  }

  /** Over every documented sequence of calls: the number of TEST transfers is that of the calls that could be
      repeated, or one more. */
  lemma {:induction false} TestTransfersAreReopenings(w: World, cfg: Setup, calls: seq<Call>)
    requires AllDocumented(w, cfg, calls)
    ensures var sends := TestSends(w, cfg, calls);
            Reopenings(w, cfg, calls) <= sends <= Reopenings(w, cfg, calls) + if IsOpen(w.state) then 1 else 0
    decreases calls
  {
    if calls != [] {
      var c := calls[0];
      var next := After(w, cfg, c);
      TestTransfersAreReopenings(next, cfg, calls[1..]);
      if c.CallTest? {
        SecondTestIsPossibleIff(w, cfg, c.route, c.a);
        TestIsSentIff(w, cfg, c.route, c.a);
      } else if !IsOpen(w.state) {
        SettledStaysSettled(w, cfg, c);
      }
    }
  }

  /** So a new plan sends TEST at most once unless some call could be repeated. */
  lemma TestIsSentOnceUnlessReopened(dryRun: bool, cfg: Setup, calls: seq<Call>)
    requires AllDocumented(NewPlan(dryRun), cfg, calls)
    ensures var n := Transfers(AfterAll(NewPlan(dryRun), cfg, calls).log, Test);
            var again := Reopenings(NewPlan(dryRun), cfg, calls);
            again <= n <= again + 1
  {
    TransfersAreSends(NewPlan(dryRun), cfg, calls);
    TestTransfersAreReopenings(NewPlan(dryRun), cfg, calls);
  }

  /** And the request id does not stop it then: whenever a call could be repeated, a repetition with a working record
      of attempts sends the test amount again. */
  lemma TestTransferCanRepeat(w: World, cfg: Setup, route: Route, a: Answers, b: Answers)
    requires w.state == AwaitingApproval || w.state == TestSent
    requires Reopens(w, cfg, route, a) && b.recorded
    ensures Transfers(AfterAll(w, cfg, [CallTest(route, a), CallTest(route, b)]).log, Test)
         == Transfers(w.log, Test) + 2
  {
    var calls := [CallTest(route, a), CallTest(route, b)];
    var w1 := After(w, cfg, calls[0]);
    SecondTestIsPossibleIff(w, cfg, route, a);
    TestIsSentIff(w, cfg, route, a);
    BreakerAfterReopening(w, cfg, route, a);
    TestIsSentIff(w1, cfg, route, b);
    hide Transfers, After;
    assert calls[1..] == [calls[1]] && calls[1..][1..] == [];
    var w2 := After(w1, cfg, calls[1]);
    assert AfterAll(w2, cfg, []) == w2;
    assert AfterAll(w1, cfg, calls[1..]) == AfterAll(w2, cfg, calls[1..][1..]);
  }

  lemma BreakerAfterReopening(w: World, cfg: Setup, route: Route, a: Answers)
    requires w.state == AwaitingApproval || w.state == TestSent
    requires Reopens(w, cfg, route, a)
    ensures !IsTripped(After(w, cfg, CallTest(route, a)), cfg.threshold, route.scope)
  {
    var after := After(w, cfg, CallTest(route, a));
    hide IsTripped, Confirming;
    if after.breaker == w.breaker {
      SameBreaker(w, after, cfg.threshold, route.scope);
    } else {
      SuccessTripsNothing(w, after, cfg.threshold, route.scope);
    }
  }

  lemma SameBreaker(w: World, after: World, threshold: int, scope: string)
    requires after.breaker == w.breaker
    ensures IsTripped(after, threshold, scope) == IsTripped(w, threshold, scope)
  {
  }

  predicate IsFailure(o: Outcome) {
    o == TransferFails || o == CheckingFails || o == TimedOut
  }

  // ---------------------------------------------------------------------------------------------------------
  // How a call ends.

  /** Failing a plan that has not ended yet. */
  function Failing(s: PlanState): PlanState {
    if s == Completed || s == Cancelled then s else PlanFailed
  }

  /** The transfer was recorded, accepted and noted, and its arrival was seen and noted. */
  predicate Delivered(route: Route, a: Answers, pollInterval: int) {
    && a.recorded && route.kind != UnknownKind && a.transfers && a.statusStored
    && Confirming(a.polls, pollInterval) == Confirmed && a.confirmedStored
  }

  /** What went wrong with a transfer, if the store did not lose it. */
  predicate DeliveryEnds(o: Outcome, route: Route, a: Answers, pollInterval: int) {
    && (o == TransferFails <==> a.recorded && !(a.transfers && route.kind != UnknownKind))
    && (o == CheckingFails <==>
          && a.recorded && a.transfers && route.kind != UnknownKind && a.statusStored
          && Confirming(a.polls, pollInterval) == CheckFails)
    && (o == TimedOut <==>
          && a.recorded && a.transfers && route.kind != UnknownKind && a.statusStored
          && Confirming(a.polls, pollInterval) == NotConfirmed)
  }

  lemma DeliveryIs(w: World, phase: Phase, route: Route, tripped: bool, fee: real, a: Answers, pollInterval: int)
    ensures var d := Delivery(w, phase, route, tripped, fee, a, pollInterval);
            && DeliveryEnds(d.1, route, a, pollInterval) && (d.1 == Done <==> Delivered(route, a, pollInterval))
            && d.1 in {Done, StoreFails, TransferFails, CheckingFails, TimedOut}
            && d.0.state == if IsFailure(d.1) then Failing(w.state) else w.state
  {
    hide Confirming;
  }

  /** A call of `ExecuteTest`, from any state: which outcome it has, and which state each outcome leaves. */
  lemma TestEnds(w: World, cfg: Setup, route: Route, a: Answers)
    ensures var (after, o) := TestSpec(w, cfg.threshold, route, a, cfg.pollInterval);
            var from := if w.state == AwaitingApproval then TestSent else w.state;
            var goes := route.approved && !IsTripped(w, cfg.threshold, route.scope)
                        && (w.state == AwaitingApproval ==> a.sentStored);
            && (o == NotApproved <==> !route.approved)
            && (o == BreakerTripped <==> route.approved && IsTripped(w, cfg.threshold, route.scope))
            && (goes && !Delivered(route, a, cfg.pollInterval) ==> DeliveryEnds(o, route, a, cfg.pollInterval))
            && (IsFailure(o) ==> goes)
            && (o == Refused <==> goes && Delivered(route, a, cfg.pollInterval) && from != TestSent)
            && (o == Done <==> goes && Delivered(route, a, cfg.pollInterval) && from == TestSent && a.stateStored)
            && o != MainBeforeTest && o != FeeCapExceeded
            && after.state ==
                 if o == NotApproved || IsFailure(o) then Failing(w.state)
                 else if o == BreakerTripped then w.state
                 else if goes && Delivered(route, a, cfg.pollInterval) && from == TestSent then TestConfirmed
                 else from
  {
    hide Confirming, Delivery, IsTripped, Delivered, DeliveryEnds;
    var tripped := IsTripped(w, cfg.threshold, route.scope);
    var begun := if w.state == AwaitingApproval then Moving(w, TestSent) else w;
    DeliveryIs(begun, Test, route, tripped, 0.0, a, cfg.pollInterval);
    EndedOnce(a, route, cfg.pollInterval);
  }

  lemma EndedOnce(a: Answers, route: Route, pollInterval: int)
    ensures Delivered(route, a, pollInterval) ==>
            forall o :: DeliveryEnds(o, route, a, pollInterval) ==> !IsFailure(o)
  {
  }

  /** And a call of `ExecuteMain`. */
  lemma MainEnds(w: World, cfg: Setup, route: Route, fee: real, a: Answers)
    ensures var (after, o) := MainSpec(w, cfg.threshold, route, fee, a, cfg.pollInterval);
            var tripped := IsTripped(w, cfg.threshold, route.scope);
            var tooDear := route.feeCap.Some? && fee > route.feeCap.value;
            var goes := w.state == TestConfirmed && route.approved && !tripped && !tooDear;
            var delivered := goes && a.sentStored && Delivered(route, a, cfg.pollInterval);
            && (o == MainBeforeTest <==> w.state != TestConfirmed)
            && (o == NotApproved <==> w.state == TestConfirmed && !route.approved)
            && (o == BreakerTripped <==> w.state == TestConfirmed && route.approved && tripped)
            && (o == FeeCapExceeded <==> w.state == TestConfirmed && route.approved && !tripped && tooDear)
            && (goes && a.sentStored && !delivered ==> DeliveryEnds(o, route, a, cfg.pollInterval))
            && (IsFailure(o) ==> goes && a.sentStored)
            && (o == Done <==> delivered && a.stateStored && a.completedStored)
            && o != Refused
            && after.state ==
                 if o == NotApproved || o == FeeCapExceeded || IsFailure(o) then PlanFailed
                 else if o == MainBeforeTest || o == BreakerTripped then w.state
                 else if !delivered then MainSent
                 else if a.stateStored then Completed
                 else MainConfirmed
  {
    hide Confirming, Delivery, IsTripped, Delivered, DeliveryEnds;
    if w.state == TestConfirmed {
      var tripped := IsTripped(w, cfg.threshold, route.scope);
      DeliveryIs(Moving(w, MainSent), Main, route, tripped, fee, a, cfg.pollInterval);
      EndedOnce(a, route, cfg.pollInterval);
    }
  }

  /** What the breaker hears of one phase: one failure exactly when the phase failed, which also fails the plan unless
      it has ended already; one success exactly when the transfer arrived; and nothing otherwise. */
  predicate Reported(before: World, after: World, o: Outcome, route: Route, phase: Phase) {
    if IsFailure(o) then
      && after.breaker == before.breaker + [Breaker.Failure(route.scope)]
      && after.state == (if IsTerminal(before.state) then before.state else PlanFailed)
      && Arrivals(after.log, phase) == Arrivals(before.log, phase)
    else if Arrivals(after.log, phase) != Arrivals(before.log, phase) then
      after.breaker == before.breaker + [Breaker.Success(route.scope)]
    else after.breaker == before.breaker
  }

  function Arrivals(log: seq<Event>, phase: Phase): nat {
    if log == [] then 0 else Arrivals(log[..|log| - 1], phase) + if log[|log| - 1] == Arrived(phase) then 1 else 0
  }

  lemma NotedArrival(log: seq<Event>, x: Event, phase: Phase)
    ensures Arrivals(log + [x], phase) == Arrivals(log, phase) + if x == Arrived(phase) then 1 else 0
  {
    assert (log + [x])[..|log|] == log;
  }

  lemma MovingArrivesNothing(w: World, to: PlanState, phase: Phase)
    ensures Arrivals(Moving(w, to).log, phase) == Arrivals(w.log, phase) && Moving(w, to).breaker == w.breaker
  {
    NotedArrival(w.log, Moved(to), phase);
  }

  lemma DeliveryIsReported(w: World, phase: Phase, route: Route, tripped: bool, fee: real, a: Answers,
                           pollInterval: int)
    ensures var d := Delivery(w, phase, route, tripped, fee, a, pollInterval);
            Reported(w, d.0, d.1, route, phase)
  {
    hide Arrivals, Confirming;
    var x := Transfer(phase, a.transfers && route.kind != UnknownKind, route.approved, tripped, fee, route.feeCap);
    NotedArrival(w.log, x, phase);
    NotedArrival(w.log + [x], Arrived(phase), phase);
    MovingArrivesNothing(Heard(w, Breaker.Failure(route.scope)), PlanFailed, phase);
    MovingArrivesNothing(Heard(Note(w, x), Breaker.Failure(route.scope)), PlanFailed, phase);
  }

  lemma TestIsReported(w: World, cfg: Setup, route: Route, a: Answers)
    ensures var r := TestSpec(w, cfg.threshold, route, a, cfg.pollInterval);
            Reported(w, r.0, r.1, route, Test)
  {
    hide Arrivals, Delivery, IsTripped;
    MovingArrivesNothing(w, PlanFailed, Test);
    MovingArrivesNothing(w, TestSent, Test);
    var begun := if w.state == AwaitingApproval then Moving(w, TestSent) else w;
    DeliveryIsReported(begun, Test, route, IsTripped(w, cfg.threshold, route.scope), 0.0, a, cfg.pollInterval);
    var d := Delivery(begun, Test, route, IsTripped(w, cfg.threshold, route.scope), 0.0, a, cfg.pollInterval);
    MovingArrivesNothing(d.0, TestConfirmed, Test);
  }

  lemma MainIsReported(w: World, cfg: Setup, route: Route, fee: real, a: Answers)
    ensures var r := MainSpec(w, cfg.threshold, route, fee, a, cfg.pollInterval);
            Reported(w, r.0, r.1, route, Main)
  {
    hide Arrivals, Delivery, IsTripped;
    MovingArrivesNothing(w, PlanFailed, Main);
    MovingArrivesNothing(w, MainSent, Main);
    var begun := Moving(w, MainSent);
    if w.state == TestConfirmed {
      DeliveryIsReported(begun, Main, route, IsTripped(w, cfg.threshold, route.scope), fee, a, cfg.pollInterval);
      var d := Delivery(begun, Main, route, IsTripped(w, cfg.threshold, route.scope), fee, a, cfg.pollInterval);
      MovingArrivesNothing(d.0, MainConfirmed, Main);
      MovingArrivesNothing(Moving(d.0, MainConfirmed), Completed, Main);
    }
  }

  /** Everything outside works: the store stores, the transfer is accepted and its arrival is seen. */
  predicate AllGoesWell(a: Answers, pollInterval: int) {
    && a.sentStored && a.recorded && a.transfers && a.statusStored && Confirming(a.polls, pollInterval) == Confirmed
    && a.confirmedStored && a.stateStored && a.completedStored
  }

  /** Then an approved plan completes: the guards stop nothing that is in order. */
  lemma GoodPlanCompletes(w: World, cfg: Setup, route: Route, fee: real, a: Answers)
    requires w.state == AwaitingApproval && !IsTripped(w, cfg.threshold, route.scope)
    requires route.approved && route.kind != UnknownKind && (route.feeCap.None? || fee <= route.feeCap.value)
    requires AllGoesWell(a, cfg.pollInterval)
    ensures AfterAll(w, cfg, [CallTest(route, a), CallMain(route, fee, a)]).state == Completed
  {
    hide Confirming, IsTripped;
    var calls := [CallTest(route, a), CallMain(route, fee, a)];
    var w1 := After(w, cfg, calls[0]);
    assert w1.state == TestConfirmed && w1.breaker == w.breaker + [Breaker.Success(route.scope)];
    SuccessTripsNothing(w, w1, cfg.threshold, route.scope);
    var w2 := After(w1, cfg, calls[1]);
    assert w2.state == Completed;
    assert calls[1..] == [calls[1]] && calls[1..][1..] == [];
    assert AfterAll(w2, cfg, []) == w2;
    assert AfterAll(w1, cfg, calls[1..]) == AfterAll(w2, cfg, calls[1..][1..]);
  }

  lemma SuccessTripsNothing(w: World, after: World, threshold: int, scope: string)
    requires !IsTripped(w, threshold, scope) && after.breaker == w.breaker + [Breaker.Success(scope)]
    ensures !IsTripped(after, threshold, scope)
  {
    Breaker.Recorded(w.breaker, Breaker.Success(scope));
    Breaker.RunsOfExtended(Breaker.SinceReset(w.breaker, scope), false, Breaker.Needed(threshold));
  }
}
