/** The persistent state machine of a paired position: two-phase `TransitionTo` with rollback, and what any
    interleaving of callers does to it. */
module Portfolio {
  import opened Decimals

  datatype State =
    | Discovered | Qualified | AwaitingApproval | Preparing | Opening | PartiallyHedged | Hedged
    | Monitoring | ExitRequested | Exiting | Reconciling | Closed | Degraded | Failed

  predicate IsTerminal(s: State) {
    s == Closed || s == Failed
  }

  function AllowedTransitions(from: State): set<State> {
    match from
    case Discovered => {Qualified, Failed}
    case Qualified => {AwaitingApproval, Preparing, Failed}
    case AwaitingApproval => {Preparing, Discovered, Failed}
    case Preparing => {Opening, Failed, Discovered}
    case Opening => {PartiallyHedged, Hedged, Degraded, Failed}
    case PartiallyHedged => {Hedged, Degraded, ExitRequested, Failed}
    case Hedged => {Monitoring, ExitRequested}
    case Monitoring => {ExitRequested, Degraded, Reconciling}
    case ExitRequested => {Exiting, Degraded}
    case Exiting => {Reconciling, Degraded, Failed}
    case Reconciling => {Closed, Degraded, Failed}
    case Degraded => {ExitRequested, Reconciling, Failed, Closed}
    case Closed => {}
    case Failed => {}
  }

  predicate CanTransition(from: State, to: State) {
    to in AllowedTransitions(from)
  }

  datatype Transition = Transition(from: State, to: State, at: int, reason: string, actor: string)

  datatype TransitionError = NoError | PositionTerminal | PersistInProgress | InvalidTransition | PersistFailed

  /** The fields of a position that its mutex guards. */
  datatype PositionState = PositionState(state: State, long: real, short: real, history: seq<Transition>,
                                         persisting: bool)

  /** First critical section of `TransitionTo`. */
  function BeginTransition(p: PositionState, to: State, at: int, reason: string, actor: string)
    : Result<PositionState, TransitionError>
  {
    if IsTerminal(p.state) then Err(PositionTerminal)
    else if p.persisting then Err(PersistInProgress)
    else if !CanTransition(p.state, to) then Err(InvalidTransition)
    else Ok(p.(persisting := true, state := to, history := p.history + [Transition(p.state, to, at, reason, actor)]))
  }

  /** Second critical section after the store accepted the record. */
  function CommitTransition(p: PositionState): PositionState {
    p.(persisting := false)
  }

  /** Second critical section after the store refused the record. */
  function RollbackTransition(p: PositionState, from: State): PositionState {
    p.(state := from, history := if p.history == [] then [] else p.history[..|p.history| - 1], persisting := false)
  }

  function WithQuantities(p: PositionState, long: real, short: real): PositionState {
    if IsTerminal(p.state) then p else p.(long := long, short := short)
  }

  /** The calls of `SetQuantities` other goroutines make while the store is being written. */
  function WithAllQuantities(p: PositionState, calls: seq<(real, real)>): PositionState
    decreases calls
  {
    if calls == [] then p else WithAllQuantities(WithQuantities(p, calls[0].0, calls[0].1), calls[1..])
  }

  /** A whole call of `TransitionTo`; `stored` is the store's answer, None when there is no store. */
  function TransitionSpec(p: PositionState, to: State, at: int, reason: string, actor: string,
                          stored: Option<bool>, meanwhile: seq<(real, real)>): (PositionState, TransitionError)
  {
    match BeginTransition(p, to, at, reason, actor)
    case Err(e) => (p, e)
    case Ok(begun) =>
      var q := WithAllQuantities(begun, meanwhile);
      if stored == Some(false) then (RollbackTransition(q, p.state), PersistFailed)
      else (CommitTransition(q), NoError)
  }

  class Position {
    const id: nat
    var state: State
    var long: real
    var short: real
    var history: seq<Transition>
    var persisting: bool

    ghost function View(): PositionState
      reads this
    {
      PositionState(state, long, short, history, persisting)
    }

    constructor (id: nat)
      ensures this.id == id
      ensures View() == PositionState(Discovered, 0.0, 0.0, [], false)
    {
      this.id := id;
      state, long, short, history, persisting := Discovered, 0.0, 0.0, [], false;
    }

    method SetQuantities(long: real, short: real) returns (ok: bool)
      modifies this
      ensures View() == WithQuantities(old(View()), long, short)
      ensures ok <==> !IsTerminal(old(state))
    {
      if IsTerminal(state) {
        return false;
      }
      this.long := long;
      this.short := short;
      return true;
    }

    /** `meanwhile` is what other goroutines do between the two critical sections; their own calls of
        `TransitionTo` are refused there and change nothing. */
    method TransitionTo(to: State, at: int, reason: string, actor: string, stored: Option<bool>,
                        meanwhile: seq<(real, real)>)
      returns (err: TransitionError)
      modifies this
      ensures (View(), err) == TransitionSpec(old(View()), to, at, reason, actor, stored, meanwhile)
    {
      var from := state;
      if IsTerminal(from) {
        return PositionTerminal;
      }
      if persisting {
        return PersistInProgress;
      }
      if !CanTransition(from, to) {
        return InvalidTransition;
      }
      persisting := true;
      state := to;
      history := history + [Transition(from, to, at, reason, actor)];

      ghost var begun := View();
      var i := 0;
      while i < |meanwhile|
        invariant 0 <= i <= |meanwhile|
        invariant WithAllQuantities(View(), meanwhile[i..]) == WithAllQuantities(begun, meanwhile)
      {
        var _ := SetQuantities(meanwhile[i].0, meanwhile[i].1);
        i := i + 1;
      }

      if stored == Some(false) {
        state := from;
        if |history| > 0 {
          history := history[..|history| - 1];
        }
        persisting := false;
        return PersistFailed;
      }
      persisting := false;
      return NoError;
    }
  }

  // ----- Any number of callers, interleaved at the critical sections -----

  /** Where a caller of `TransitionTo` stands between its two critical sections. */
  datatype Phase = InFlight(t: Transition) | Stored(t: Transition) | Refused(t: Transition)

  /** `log` is the store: the records it has accepted, in order. */
  datatype System = System(pos: PositionState, callers: map<int, Phase>, log: seq<Transition>)

  datatype Step =
    | Begin(caller: int, to: State, at: int, reason: string, actor: string)
    | Persist(caller: int, accepted: bool)
    | Finish(caller: int)
    | SetQuantities(long: real, short: real)

  function Next(s: System, step: Step): System {
    match step
    case Begin(c, to, at, reason, actor) =>
      var begun := BeginTransition(s.pos, to, at, reason, actor);
      if c in s.callers || begun.Err? then s
      else s.(pos := begun.value, callers := s.callers[c := InFlight(Transition(s.pos.state, to, at, reason, actor))])
    case Persist(c, accepted) =>
      if c !in s.callers || !s.callers[c].InFlight? then s
      else if accepted then s.(callers := s.callers[c := Stored(s.callers[c].t)], log := s.log + [s.callers[c].t])
      else s.(callers := s.callers[c := Refused(s.callers[c].t)])
    case Finish(c) =>
      if c !in s.callers || s.callers[c].InFlight? then s
      else s.(pos := if s.callers[c].Stored? then CommitTransition(s.pos)
                     else RollbackTransition(s.pos, s.callers[c].t.from),
              callers := s.callers - {c})
    case SetQuantities(long, short) => s.(pos := WithQuantities(s.pos, long, short))
  }

  function Run(s: System, steps: seq<Step>): System
    decreases steps
  {
    if steps == [] then s else Run(Next(s, steps[0]), steps[1..])
  }

  function Initial(origin: State, long: real, short: real): System {
    System(PositionState(origin, long, short, [], false), map[], [])
  }

  /** A connected path of allowed edges from `origin` to `end`. */
  ghost predicate IsPath(origin: State, history: seq<Transition>, end: State) {
    if history == [] then origin == end
    else
      var last := history[|history| - 1];
      && last.to == end && CanTransition(last.from, last.to)
      && IsPath(origin, history[..|history| - 1], last.from)
  }

  /** The record of the one caller in flight, against the position and the store. */
  ghost predicate InFlightAgrees(pos: PositionState, phase: Phase, log: seq<Transition>) {
    && phase.t.to == pos.state && !IsTerminal(phase.t.from)
    && pos.history != [] && pos.history[|pos.history| - 1] == phase.t
    && pos.history == if phase.Stored? then log else log + [phase.t]
  }

  ghost predicate Invariant(origin: State, s: System) {
    && IsPath(origin, s.pos.history, s.pos.state)
    && (if s.pos.persisting then exists c :: s.callers.Keys == {c} && InFlightAgrees(s.pos, s.callers[c], s.log)
        else s.callers.Keys == {} && s.pos.history == s.log)
  }

  lemma PathExtends(origin: State, history: seq<Transition>, end: State, t: Transition)
    requires IsPath(origin, history, end) && t.from == end && CanTransition(end, t.to)
    ensures IsPath(origin, history + [t], t.to)
  {
    hide CanTransition;
    assert (history + [t])[..|history|] == history;
  }

  lemma BeginKeepsInvariant(origin: State, s: System, c: int, to: State, at: int, reason: string, actor: string)
    requires Invariant(origin, s)
    ensures Invariant(origin, Next(s, Begin(c, to, at, reason, actor)))
  {
    hide AllowedTransitions, IsPath;
    var n := Next(s, Begin(c, to, at, reason, actor));
    if n != s {
      PathExtends(origin, s.pos.history, s.pos.state, Transition(s.pos.state, to, at, reason, actor));
      assert n.callers.Keys == {c};
      assert InFlightAgrees(n.pos, n.callers[c], n.log);
    }
  }

  lemma FinishKeepsInvariant(origin: State, s: System, c: int)
    requires Invariant(origin, s)
    ensures Invariant(origin, Next(s, Finish(c)))
  {
    hide AllowedTransitions;
    var n := Next(s, Finish(c));
    if n != s {
      assert s.callers.Keys == {c};
      assert n.callers.Keys == {};
      assert s.callers[c].Refused? ==> s.pos.history[..|s.pos.history| - 1] == s.log;
    }
  }

  lemma NextKeepsInvariant(origin: State, s: System, step: Step)
    requires Invariant(origin, s)
    ensures Invariant(origin, Next(s, step))
  {
    hide AllowedTransitions, IsPath, BeginTransition;
    var n := Next(s, step);
    match step
    case Begin(c, to, at, reason, actor) => BeginKeepsInvariant(origin, s, c, to, at, reason, actor);
    case Persist(c, accepted) =>
      if n != s { assert n.callers.Keys == {c}; }
    case Finish(c) => FinishKeepsInvariant(origin, s, c);
    case SetQuantities(long, short) =>
      var c: int :| s.pos.persisting ==> s.callers.Keys == {c} && InFlightAgrees(s.pos, s.callers[c], s.log);
      assert s.pos.persisting ==> n.callers.Keys == {c} && InFlightAgrees(n.pos, n.callers[c], n.log);
  }

  lemma {:induction false} RunKeepsInvariant(origin: State, s: System, steps: seq<Step>)
    requires Invariant(origin, s)
    ensures Invariant(origin, Run(s, steps))
    decreases steps
  {
    if steps != [] {
      NextKeepsInvariant(origin, s, steps[0]);
      RunKeepsInvariant(origin, Next(s, steps[0]), steps[1..]);
    }
  }

  /** Over every interleaving: at most one persist in flight, the history is a connected path of allowed edges
      ending at the state, and it is exactly the store's log whenever nothing is being persisted. */
  lemma HistoryAgreesWithLog(origin: State, long: real, short: real, steps: seq<Step>)
    ensures var s := Run(Initial(origin, long, short), steps);
            && |s.callers| <= 1
            && (s.pos.persisting <==> |s.callers| == 1)
            && IsPath(origin, s.pos.history, s.pos.state)
            && (!s.pos.persisting ==> s.pos.history == s.log)
            && s.log <= s.pos.history && |s.pos.history| <= |s.log| + 1
  {
    RunKeepsInvariant(origin, Initial(origin, long, short), steps);
    var s := Run(Initial(origin, long, short), steps);
    if s.pos.persisting {
      var c :| s.callers.Keys == {c};
      assert |s.callers| == |s.callers.Keys| == 1;
    } else {
      assert |s.callers| == |s.callers.Keys| == 0;
    }
  }

  /** A committed CLOSED or FAILED is never left, and nothing about the position changes any more. */
  lemma {:induction false} TerminalIsForever(origin: State, s: System, steps: seq<Step>)
    requires Invariant(origin, s) && IsTerminal(s.pos.state) && !s.pos.persisting
    ensures Run(s, steps) == s
    decreases steps
  {
    if steps != [] {
      assert Next(s, steps[0]) == s;
      TerminalIsForever(origin, s, steps[1..]);
    }
  }

  ghost function StepOf(step: Step): Option<int> {
    match step
    case Begin(c, _, _, _, _) => Some(c)
    case Persist(c, _) => Some(c)
    case Finish(c) => Some(c)
    case SetQuantities(_, _) => None
  }

  /** The quantities after the `SetQuantities` calls among `steps`. */
  ghost function LastQuantities(quantities: (real, real), steps: seq<Step>): (real, real)
    decreases steps
  {
    if steps == [] then quantities
    else if steps[0].SetQuantities? then LastQuantities((steps[0].long, steps[0].short), steps[1..])
    else LastQuantities(quantities, steps[1..])
  }

  /** While caller c is in flight, everything the others do can only move the quantities. */
  lemma {:induction false} OthersOnlyMoveQuantities(origin: State, s: System, c: int, steps: seq<Step>)
    requires Invariant(origin, s) && c in s.callers
    requires forall step | step in steps :: StepOf(step) != Some(c)
    ensures var q := LastQuantities((s.pos.long, s.pos.short), steps);
            Run(s, steps) == if IsTerminal(s.pos.state) then s else s.(pos := s.pos.(long := q.0, short := q.1))
    decreases steps
  {
    if steps != [] {
      var n := Next(s, steps[0]);
      assert steps[0] in steps;
      NextKeepsInvariant(origin, s, steps[0]);
      assert !steps[0].SetQuantities? ==> n == s;
      OthersOnlyMoveQuantities(origin, n, c, steps[1..]);
    } else {
      assert s.pos == s.pos.(long := s.pos.long, short := s.pos.short);
    }
  }

  lemma {:induction false} RunConcat(s: System, a: seq<Step>, b: seq<Step>)
    ensures Run(s, a + b) == Run(Run(s, a), b)
    decreases a
  {
    if a == [] {
      assert a + b == b;
    } else {
      assert (a + b)[1..] == a[1..] + b;
      RunConcat(Next(s, a[0]), a[1..], b);
    }
  }

  /** A transition the store refuses leaves no trace, whatever the other callers do before and after the
      refusal: its own record is gone, the state is back, and the quantity updates made meanwhile are kept,
      except that a tentative CLOSED or FAILED turned them away. */
  lemma RollbackIsExact(origin: State, s: System, c: int, to: State, at: int, reason: string, actor: string,
                        before: seq<Step>, after: seq<Step>)
    requires Invariant(origin, s) && !s.pos.persisting
    requires !IsTerminal(s.pos.state) && CanTransition(s.pos.state, to)
    requires forall step | step in before + after :: StepOf(step) != Some(c)
    ensures var q := LastQuantities(LastQuantities((s.pos.long, s.pos.short), before), after);
            Run(s, [Begin(c, to, at, reason, actor)] + before + [Persist(c, false)] + after + [Finish(c)]) ==
            if IsTerminal(to) then s else s.(pos := s.pos.(long := q.0, short := q.1))
  {
    var begin := Begin(c, to, at, reason, actor);
    var s1 := Next(s, begin);
    NextKeepsInvariant(origin, s, begin);
    forall step | step in before ensures StepOf(step) != Some(c) { assert step in before + after; }
    forall step | step in after ensures StepOf(step) != Some(c) { assert step in before + after; }
    OthersOnlyMoveQuantities(origin, s1, c, before);
    RunKeepsInvariant(origin, s1, before);
    var s2 := Run(s1, before);
    var s3 := Next(s2, Persist(c, false));
    NextKeepsInvariant(origin, s2, Persist(c, false));
    OthersOnlyMoveQuantities(origin, s3, c, after);
    var s4 := Run(s3, after);
    var s5 := Next(s4, Finish(c));
    assert s4.pos.history[..|s4.pos.history| - 1] == s.pos.history;
    assert s5.callers == s.callers;
    RunConcat(s, [begin] + before + [Persist(c, false)] + after, [Finish(c)]);
    RunConcat(s, [begin] + before + [Persist(c, false)], after);
    RunConcat(s, [begin] + before, [Persist(c, false)]);
    RunConcat(s, [begin], before);
    assert Run(s, [begin]) == s1;
    assert Run(s2, [Persist(c, false)]) == s3;
    assert Run(s4, [Finish(c)]) == s5;
  }

  /** The one-caller call of `TransitionTo` is one of these interleavings. */
  lemma {:induction false} TransitionIsARun(s: System, c: int, to: State, at: int, reason: string, actor: string,
                                            accepted: bool, meanwhile: seq<(real, real)>)
    requires s.callers == map[]
    ensures var calls := seq(|meanwhile|, i requires 0 <= i < |meanwhile| =>
                                            SetQuantities(meanwhile[i].0, meanwhile[i].1));
            var run := [Begin(c, to, at, reason, actor)] + calls + [Persist(c, accepted), Finish(c)];
            BeginTransition(s.pos, to, at, reason, actor).Ok? ==>
            Run(s, run).pos == TransitionSpec(s.pos, to, at, reason, actor, Some(accepted), meanwhile).0
  {
    if BeginTransition(s.pos, to, at, reason, actor).Ok? {
      var begin := Begin(c, to, at, reason, actor);
      var calls := seq(|meanwhile|, i requires 0 <= i < |meanwhile| => SetQuantities(meanwhile[i].0, meanwhile[i].1));
      var s1 := Next(s, begin);
      RunOfQuantities(s1, meanwhile, calls);
      var s2 := Run(s1, calls);
      RunConcat(s, [begin] + calls, [Persist(c, accepted), Finish(c)]);
      RunConcat(s, [begin], calls);
      assert Run(s, [begin]) == s1;
      var s3 := Next(s2, Persist(c, accepted));
      assert [Persist(c, accepted), Finish(c)][1..] == [Finish(c)];
      assert Run(s2, [Persist(c, accepted), Finish(c)]) == Run(s3, [Finish(c)]) == Next(s3, Finish(c));
    }
  }

  lemma {:induction false} RunOfQuantities(s: System, meanwhile: seq<(real, real)>, calls: seq<Step>)
    requires |calls| == |meanwhile|
    requires forall i :: 0 <= i < |calls| ==> calls[i] == SetQuantities(meanwhile[i].0, meanwhile[i].1)
    ensures Run(s, calls) == s.(pos := WithAllQuantities(s.pos, meanwhile))
    decreases calls
  {
    if calls != [] {
      RunOfQuantities(Next(s, calls[0]), meanwhile[1..], calls[1..]);
    }
  }

  /** The states in which no order has been sent yet, and FAILED. */
  predicate IsEarly(s: State) {
    s in {Discovered, Qualified, AwaitingApproval, Preparing, Failed}
  }

  /** Every other state is reached through OPENING only. */
  lemma {:induction false} OpeningComesFirst(origin: State, history: seq<Transition>, end: State)
    requires IsPath(origin, history, end) && IsEarly(origin) && !IsEarly(end)
    ensures exists i :: 0 <= i < |history| && history[i].to == Opening
  {
    var last := history[|history| - 1];
    if last.to != Opening {
      assert !IsEarly(last.from);
      OpeningComesFirst(origin, history[..|history| - 1], last.from);
      var i :| 0 <= i < |history| - 1 && history[..|history| - 1][i].to == Opening;
      assert history[i].to == Opening;
    }
  }

  /** CLOSED is reached only from RECONCILING or DEGRADED, and MONITORING only from HEDGED. */
  lemma LastEdge(origin: State, history: seq<Transition>, end: State)
    requires IsPath(origin, history, end) && history != []
    ensures var from := history[|history| - 1].from;
            && (end == Closed ==> from in {Reconciling, Degraded})
            && (end == Monitoring ==> from == Hedged)
            && (end == Exiting ==> from == ExitRequested)
  {
  }

  /** The table read backwards: from where each state can be entered. A position can fail from anywhere but HEDGED,
      MONITORING, EXIT_REQUESTED and a final state. */
  lemma EnteredFromIff(from: State, to: State)
    ensures CanTransition(from, to) <==>
            match to
            case Discovered => from in {AwaitingApproval, Preparing}
            case Qualified => from == Discovered
            case AwaitingApproval => from == Qualified
            case Preparing => from in {Qualified, AwaitingApproval}
            case Opening => from == Preparing
            case PartiallyHedged => from == Opening
            case Hedged => from in {Opening, PartiallyHedged}
            case Monitoring => from == Hedged
            case ExitRequested => from in {PartiallyHedged, Hedged, Monitoring, Degraded}
            case Exiting => from == ExitRequested
            case Reconciling => from in {Monitoring, Exiting, Degraded}
            case Closed => from in {Reconciling, Degraded}
            case Degraded => from in {Opening, PartiallyHedged, Monitoring, ExitRequested, Exiting, Reconciling}
            case Failed => from !in {Hedged, Monitoring, ExitRequested, Closed, Failed}
  {
  }

  /** A whole call of `TransitionTo`, case by case. A refused call changes nothing. A record that the store takes is
      appended to the history and the state is the new one; one that it refuses leaves state and history as they were.
      Either way the quantities are the last ones that were set meanwhile, unless the new state is final. */
  lemma TransitionIs(p: PositionState, to: State, at: int, reason: string, actor: string, stored: Option<bool>,
                     meanwhile: seq<(real, real)>)
    ensures var (q, err) := TransitionSpec(p, to, at, reason, actor, stored, meanwhile);
            var final := p.state == Closed || p.state == Failed;
            var begins := !final && !p.persisting && CanTransition(p.state, to);
            && (err == PositionTerminal <==> final)
            && (err == PersistInProgress <==> !final && p.persisting)
            && (err == InvalidTransition <==> !final && !p.persisting && !CanTransition(p.state, to))
            && (err == PersistFailed <==> begins && stored == Some(false))
            && (!begins ==> q == p)
            && (begins ==>
                  && !q.persisting
                  && q.state == (if stored == Some(false) then p.state else to)
                  && q.history == (if stored == Some(false) then p.history
                                   else p.history + [Transition(p.state, to, at, reason, actor)])
                  && (q.long, q.short) == if meanwhile == [] || to == Closed || to == Failed then (p.long, p.short)
                                          else meanwhile[|meanwhile| - 1])
  {
    hide CanTransition;
    if !IsTerminal(p.state) && !p.persisting && CanTransition(p.state, to) {
      var begun := BeginTransition(p, to, at, reason, actor).value;
      LastCallCounts(begun, meanwhile);
      assert begun.history[..|p.history|] == p.history;
    }
  }

  lemma {:induction false} LastCallCounts(p: PositionState, calls: seq<(real, real)>)
    ensures var q := WithAllQuantities(p, calls);
            && q == p.(long := q.long, short := q.short)
            && (q.long, q.short) == if calls == [] || p.state == Closed || p.state == Failed then (p.long, p.short)
                                    else calls[|calls| - 1]
    decreases calls
  {
    if calls != [] {
      LastCallCounts(WithQuantities(p, calls[0].0, calls[0].1), calls[1..]);
    }
  }
}
