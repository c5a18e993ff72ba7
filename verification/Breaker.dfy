/** The withdrawal circuit breaker. Its mutex makes every interleaving of callers one sequence of events. */
module Breaker {

  datatype Event = Failure(scope: string) | Success(scope: string) | ResetBy(scope: string)

  datatype ScopeState = ScopeState(failures: nat, tripped: bool)

  const UNTOUCHED := ScopeState(0, false)

  function Lookup(states: map<string, ScopeState>, scope: string): ScopeState {
    if scope in states then states[scope] else UNTOUCHED
  }

  class CircuitBreaker {
    const threshold: int
    var states: map<string, ScopeState>
    ghost var trace: seq<Event>

    ghost predicate Valid()
      reads this
    {
      forall scope :: Lookup(states, scope) == Meaning(threshold, SinceReset(trace, scope))
    }

    constructor (threshold: int)
      ensures this.threshold == threshold && trace == [] && Valid()
    {
      this.threshold := threshold;
      states := map[];
      trace := [];
    }

    method IsTripped(scope: string) returns (tripped: bool)
      requires Valid()
      ensures tripped <==> HasRun(SinceReset(trace, scope), Needed(threshold))
    {
      return scope in states && states[scope].tripped;
    }

    method FailuresCount(scope: string) returns (n: nat)
      requires Valid()
      ensures var outcomes := SinceReset(trace, scope);
              n == if HasRun(outcomes, Needed(threshold)) then Needed(threshold) else TrailingRun(outcomes)
    {
      return if scope in states then states[scope].failures else 0;
    }

    method RecordFailure(scope: string)
      requires Valid()
      modifies this
      ensures Valid() && trace == old(trace) + [Failure(scope)]
    {
      hide HasRun, TrailingRun;
      Recorded(trace, Failure(scope));
      FailureMeans(threshold, SinceReset(trace, scope));
      var s := Lookup(states, scope);
      states := states[scope := s];
      if !s.tripped {
        s := s.(failures := s.failures + 1);
        if s.failures >= threshold {
          s := s.(tripped := true);
        }
        states := states[scope := s];
      }
      trace := trace + [Failure(scope)];
    }

    method RecordSuccess(scope: string)
      requires Valid()
      modifies this
      ensures Valid() && trace == old(trace) + [Success(scope)]
    {
      Recorded(trace, Success(scope));
      SuccessMeans(threshold, SinceReset(trace, scope));
      var s := Lookup(states, scope);
      states := states[scope := if s.tripped then s else s.(failures := 0)];
      trace := trace + [Success(scope)];
    }

    method Reset(scope: string)
      requires Valid()
      modifies this
      ensures Valid() && trace == old(trace) + [ResetBy(scope)]
    {
      Recorded(trace, ResetBy(scope));
      states := states[scope := UNTOUCHED];
      trace := trace + [ResetBy(scope)];
    }
  }

  // ---------------------------------------------------------------------------------------------------------
  // The meaning of a history.

  /** The outcomes of one scope after its last reset, oldest first; true is a failure. */
  function SinceReset(trace: seq<Event>, scope: string): seq<bool> {
    if trace == [] then []
    else
      var before := SinceReset(trace[..|trace| - 1], scope);
      var x := trace[|trace| - 1];
      if x.scope != scope then before
      else match x
           case Failure(_) => before + [true]
           case Success(_) => before + [false]
           case ResetBy(_) => []
  }

  /** A threshold below 1 still needs one failure. */
  function Needed(threshold: int): (k: nat)
    ensures k >= 1
  {
    if threshold < 1 then 1 else threshold
  }

  predicate FailuresFrom(outcomes: seq<bool>, i: nat, k: nat) {
    i + k <= |outcomes| && forall m :: i <= m < i + k ==> outcomes[m]
  }

  /** Some k consecutive outcomes are failures. */
  ghost predicate HasRun(outcomes: seq<bool>, k: nat) {
    exists i: nat :: FailuresFrom(outcomes, i, k)
  }

  /** The length of the run of failures at the end. */
  function TrailingRun(outcomes: seq<bool>): (n: nat)
    ensures n <= |outcomes| && FailuresFrom(outcomes, |outcomes| - n, n)
    ensures n < |outcomes| ==> !outcomes[|outcomes| - n - 1]
  {
    if outcomes == [] || !outcomes[|outcomes| - 1] then 0
    else
      var rest := outcomes[..|outcomes| - 1];
      assert forall m :: 0 <= m < |rest| ==> rest[m] == outcomes[m];
      TrailingRun(rest) + 1
  }

  ghost function Meaning(threshold: int, outcomes: seq<bool>): ScopeState {
    if HasRun(outcomes, Needed(threshold)) then ScopeState(Needed(threshold), true)
    else ScopeState(TrailingRun(outcomes), false)
  }

  lemma Recorded(trace: seq<Event>, x: Event)
    ensures forall scope :: SinceReset(trace + [x], scope) ==
                            if x.scope != scope then SinceReset(trace, scope)
                            else match x
                                 case Failure(_) => SinceReset(trace, scope) + [true]
                                 case Success(_) => SinceReset(trace, scope) + [false]
                                 case ResetBy(_) => []
  {
    assert (trace + [x])[..|trace|] == trace;
  }

  /** One more outcome makes a run only at the end. */
  lemma RunsOfExtended(outcomes: seq<bool>, x: bool, k: nat)
    requires k >= 1
    ensures HasRun(outcomes + [x], k) <==> HasRun(outcomes, k) || TrailingRun(outcomes + [x]) >= k
  {
    var more := outcomes + [x];
    if HasRun(outcomes, k) {
      var i: nat :| FailuresFrom(outcomes, i, k);
      assert FailuresFrom(more, i, k);
    }
    if TrailingRun(more) >= k {
      assert FailuresFrom(more, |more| - k, k);
    }
    if HasRun(more, k) && TrailingRun(more) < k {
      var i: nat :| FailuresFrom(more, i, k);
      assert i + k <= |outcomes|;
      assert forall m :: 0 <= m < |outcomes| ==> outcomes[m] == more[m];
      assert FailuresFrom(outcomes, i, k);
    }
  }

  lemma FailureMeans(threshold: int, outcomes: seq<bool>)
    ensures var s := Meaning(threshold, outcomes);
            Meaning(threshold, outcomes + [true]) ==
            if s.tripped then s else ScopeState(s.failures + 1, s.failures + 1 >= threshold)
  {
    RunsOfExtended(outcomes, true, Needed(threshold));
    assert (outcomes + [true])[..|outcomes|] == outcomes;
    NoLongerTrail(outcomes, Needed(threshold));
  }

  lemma SuccessMeans(threshold: int, outcomes: seq<bool>)
    ensures var s := Meaning(threshold, outcomes);
            Meaning(threshold, outcomes + [false]) == if s.tripped then s else ScopeState(0, false)
  {
    RunsOfExtended(outcomes, false, Needed(threshold));
  }

  lemma NoLongerTrail(outcomes: seq<bool>, k: nat)
    ensures HasRun(outcomes, k) || TrailingRun(outcomes) < k
  {
    if TrailingRun(outcomes) >= k {
      assert FailuresFrom(outcomes, |outcomes| - k, k);
    }
  }

  /** Other scopes' events can be put anywhere in a history, or taken out of it, without any effect on a scope. */
  lemma {:induction false} ScopesAreIndependent(trace: seq<Event>, scope: string)
    ensures SinceReset(trace, scope) == SinceReset(OnlyOf(trace, scope), scope)
  {
    if trace != [] {
      var before := trace[..|trace| - 1];
      ScopesAreIndependent(before, scope);
      Recorded(before, trace[|trace| - 1]);
      Recorded(OnlyOf(before, scope), trace[|trace| - 1]);
      assert before + [trace[|trace| - 1]] == trace;
      assert OnlyOf(before, scope) + [] == OnlyOf(before, scope);
    }
  }

  function OnlyOf(trace: seq<Event>, scope: string): seq<Event> {
    if trace == [] then []
    else
      OnlyOf(trace[..|trace| - 1], scope)
      + if trace[|trace| - 1].scope == scope then [trace[|trace| - 1]] else []
  }

  /** Once tripped, a scope stays so until its reset. */
  lemma {:induction false} OnlyResetClears(threshold: int, trace: seq<Event>, more: seq<Event>, scope: string)
    requires HasRun(SinceReset(trace, scope), Needed(threshold)) && ResetBy(scope) !in more
    ensures HasRun(SinceReset(trace + more, scope), Needed(threshold))
  {
    if more == [] {
      assert trace + more == trace;
    } else {
      var x := more[|more| - 1];
      var shorter := more[..|more| - 1];
      OnlyResetClears(threshold, trace, shorter, scope);
      assert trace + more == (trace + shorter) + [x];
      Recorded(trace + shorter, x);
      var outcomes := SinceReset(trace + shorter, scope);
      if x.scope == scope {
        RunsOfExtended(outcomes, x.Failure?, Needed(threshold));
      }
    }
  }
}
