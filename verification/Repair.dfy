/** Repair of a delta mismatch after entry: one top-up of the lagging leg, then one reduce-only order on the
    heavier one. */
module Repair {
  import opened Decimals
  import opened Exchange

  datatype RepairAction = RepairNone | RepairTopUpShortLeg | RepairReduceExcess

  datatype RepairDecision = RepairDecision(action: RepairAction, shortfall: real, excess: real, common: real,
                                           reason: string)

  datatype TopUpResult = TopUpResult(success: bool, filled: real, newLong: real, newShort: real)

  function AnalyzeMismatch(long: real, short: real, tolerance: real): RepairDecision {
    if Abs(long - short) <= tolerance then
      RepairDecision(RepairNone, 0.0, 0.0, Min(long, short), "delta within tolerance")
    else if long > short then
      RepairDecision(RepairTopUpShortLeg, long - short, 0.0, short, "short leg underfilled, attempt top-up")
    else
      RepairDecision(RepairTopUpShortLeg, short - long, 0.0, long, "long leg underfilled, attempt top-up")
  }

  function ApplyTopUp(decision: RepairDecision, topUp: TopUpResult, tolerance: real): RepairDecision {
    var common := Min(topUp.newLong, topUp.newShort);
    if !topUp.success || topUp.filled == 0.0 then
      RepairDecision(RepairReduceExcess, 0.0, Max(decision.shortfall - topUp.filled, 0.0), common,
                     "top-up failed, reduce excess on heavier leg")
    else
      var diff := Abs(topUp.newLong - topUp.newShort);
      if diff <= tolerance then RepairDecision(RepairNone, 0.0, 0.0, common, "top-up succeeded, delta within tolerance")
      else RepairDecision(RepairReduceExcess, 0.0, diff, common, "top-up partial, reduce remaining excess")
  }

  /** The side of the reduce-only order for a leg with an excess. */
  function ReduceExcessAction(legSide: Side): Side {
    if legSide == Long then Short else Long
  }

  function TopUpOrder(side: Side, qty: real, price: real): Order {
    Order(side, qty, Some(price), false)
  }

  /** A market order: the only kind of order the engine sends without a price. */
  function ReduceOrder(legSide: Side, qty: real): Order {
    Order(ReduceExcessAction(legSide), qty, None, true)
  }

  /** What a top-up books: the reported fill, at most what was asked for, and nothing on any error. */
  function TopUpFill(r: Result<PlaceResult, Error>, shortfall: real): real {
    if r.Ok? then if r.value.filled > shortfall then shortfall else r.value.filled else 0.0
  }

  function TopUp(leg: Leg, hasExecutor: bool, side: Side, shortfall: real, price: real): (Leg, real) {
    if hasExecutor then
      var o := TopUpOrder(side, shortfall, price);
      (Serve(leg, o), TopUpFill(PlaceOutcome(leg, o), shortfall))
    else (leg, 0.0)
  }

  /** The leg after the reduce-only order, and whether the order returned without an error. */
  function Reduce(leg: Leg, hasExecutor: bool, legSide: Side, excess: real): (Leg, bool) {
    if hasExecutor then
      var o := ReduceOrder(legSide, excess);
      (Serve(leg, o), PlaceOutcome(leg, o).Ok?)
    else (leg, false)
  }

  datatype RepairOutcome = RepairOutcome(longFilled: real, shortFilled: real, long: Leg, short: Leg,
                                         after: RepairDecision)

  /** First half of `repairImbalance`: the single top-up, and the decision that follows from it. */
  function TopUpLagging(decision: RepairDecision, longFilled: real, shortFilled: real, long: Leg, short: Leg,
                        longExec: bool, shortExec: bool, longPx: real, shortPx: real, tolerance: real): RepairOutcome
  {
    var lagIsLong := longFilled < shortFilled;
    var (l, s, top) :=
      if lagIsLong then var (leg, f) := TopUp(long, longExec, Long, decision.shortfall, longPx); (leg, short, f)
      else var (leg, f) := TopUp(short, shortExec, Short, decision.shortfall, shortPx); (long, leg, f);
    var newLong := if lagIsLong then longFilled + top else longFilled;
    var newShort := if lagIsLong then shortFilled else shortFilled + top;
    RepairOutcome(newLong, newShort, l, s,
                  ApplyTopUp(decision, TopUpResult(top > 0.0, top, newLong, newShort), tolerance))
  }

  /** Second half: the single reduce-only order; a nil error is read as the whole excess executed. */
  function ReduceHeavy(o: RepairOutcome, longExec: bool, shortExec: bool): RepairOutcome {
    if o.after.action != RepairReduceExcess || o.after.excess <= 0.0 then o
    else
      var heavyIsLong := o.longFilled > o.shortFilled;
      var (leg, ok) := if heavyIsLong then Reduce(o.long, longExec, Long, o.after.excess)
                       else Reduce(o.short, shortExec, Short, o.after.excess);
      var served := if heavyIsLong then o.(long := leg) else o.(short := leg);
      var common := Min(o.longFilled, o.shortFilled);
      if ok then served.(longFilled := common, shortFilled := common) else served
  }

  function RepairSpec(decision: RepairDecision, longFilled: real, shortFilled: real, long: Leg, short: Leg,
                      longExec: bool, shortExec: bool, longPx: real, shortPx: real, tolerance: real): RepairOutcome
  {
    ReduceHeavy(TopUpLagging(decision, longFilled, shortFilled, long, short, longExec, shortExec, longPx, shortPx,
                             tolerance),
                longExec, shortExec)
  }

  // ----- The code -----

  method PlaceReduceOrder(exec: OrderExecutor, excess: real, legSide: Side) returns (err: Option<Error>)
    modifies exec.adapter
    ensures excess > 0.0 ==>
              && exec.adapter.leg == Serve(old(exec.adapter.leg), ReduceOrder(legSide, excess))
              && (err.None? <==> PlaceOutcome(old(exec.adapter.leg), ReduceOrder(legSide, excess)).Ok?)
    ensures excess <= 0.0 ==> err.None? && exec.adapter.leg == old(exec.adapter.leg)
  {
    if excess <= 0.0 {
      return None;
    }
    var r := exec.Place(ReduceOrder(legSide, excess));
    if r.Err? {
      return Some(r.error);
    }
    return None;
  }

  method TopUpLeg(exec: OrderExecutor, hasExecutor: bool, side: Side, shortfall: real, price: real)
    returns (filled: real)
    modifies exec.adapter
    ensures (exec.adapter.leg, filled) == TopUp(old(exec.adapter.leg), hasExecutor, side, shortfall, price)
  {
    filled := 0.0;
    if hasExecutor {
      var res := exec.Place(TopUpOrder(side, shortfall, price));
      if res.Ok? {
        filled := res.value.filled;
        if filled > shortfall {
          filled := shortfall;
        }
      }
    }
  }

  method ReduceLeg(exec: OrderExecutor, hasExecutor: bool, legSide: Side, excess: real) returns (ok: bool)
    requires excess > 0.0
    modifies exec.adapter
    ensures (exec.adapter.leg, ok) == Reduce(old(exec.adapter.leg), hasExecutor, legSide, excess)
  {
    ok := false;
    if hasExecutor {
      var err := PlaceReduceOrder(exec, excess, legSide);
      ok := err.None?;
    }
  }

  /** `longExec` and `shortExec` say which legs have an executor configured. */
  method RepairImbalance(decision: RepairDecision, longFilled0: real, shortFilled0: real,
                         longLeg: OrderExecutor, shortLeg: OrderExecutor, longExec: bool, shortExec: bool,
                         longPx: real, shortPx: real, tolerance: real)
    returns (longFilled: real, shortFilled: real)
    requires longLeg.adapter != shortLeg.adapter
    modifies longLeg.adapter, shortLeg.adapter
    ensures var o := RepairSpec(decision, longFilled0, shortFilled0,
                                old(longLeg.adapter.leg), old(shortLeg.adapter.leg),
                                longExec, shortExec, longPx, shortPx, tolerance);
            && (longFilled, shortFilled) == (o.longFilled, o.shortFilled)
            && longLeg.adapter.leg == o.long && shortLeg.adapter.leg == o.short
  {
    hide TopUp, Reduce, ApplyTopUp;
    longFilled, shortFilled := longFilled0, shortFilled0;
    var lagIsLong := longFilled < shortFilled;
    var topFilled;
    if lagIsLong {
      topFilled := TopUpLeg(longLeg, longExec, Long, decision.shortfall, longPx);
      longFilled := longFilled + topFilled;
    } else {
      topFilled := TopUpLeg(shortLeg, shortExec, Short, decision.shortfall, shortPx);
      shortFilled := shortFilled + topFilled;
    }

    var after := ApplyTopUp(decision, TopUpResult(topFilled > 0.0, topFilled, longFilled, shortFilled), tolerance);
    if after.action == RepairReduceExcess && after.excess > 0.0 {
      var heavyIsLong := longFilled > shortFilled;
      var reduced;
      if heavyIsLong {
        reduced := ReduceLeg(longLeg, longExec, Long, after.excess);
      } else {
        reduced := ReduceLeg(shortLeg, shortExec, Short, after.excess);
      }
      if reduced {
        var common := Min(longFilled, shortFilled);
        longFilled, shortFilled := common, common;
      }
    }
  }

  // ----- Main result -----

  lemma TopUpStaysWithinShortfall(leg: Leg, hasExecutor: bool, side: Side, shortfall: real, price: real)
    requires shortfall >= 0.0
    ensures var (after, filled) := TopUp(leg, hasExecutor, side, shortfall, price);
            && 0.0 <= filled <= shortfall
            && leg.log <= after.log && |after.log| <= |leg.log| + 1
  {
  }

  lemma ReduceSendsOneOrder(leg: Leg, hasExecutor: bool, legSide: Side, excess: real)
    ensures var (after, _) := Reduce(leg, hasExecutor, legSide, excess);
            leg.log <= after.log && |after.log| <= |leg.log| + 1
  {
  }

  /** The excess computed after a top-up within the shortfall is the delta that is left. */
  lemma ExcessIsDelta(decision: RepairDecision, topUp: TopUpResult, tolerance: real)
    requires topUp.success <==> topUp.filled > 0.0
    requires 0.0 <= topUp.filled <= decision.shortfall
    requires Abs(topUp.newLong - topUp.newShort) == decision.shortfall - topUp.filled
    ensures var after := ApplyTopUp(decision, topUp, tolerance);
            && (after.action == RepairReduceExcess || after.action == RepairNone)
            && (after.action == RepairReduceExcess ==> after.excess == Abs(topUp.newLong - topUp.newShort))
            && (after.action == RepairNone ==> Abs(topUp.newLong - topUp.newShort) <= tolerance)
  {
  }

  /** Repair never worsens the hedge, whatever the exchanges do: the excess it computes is the actual delta,
      both legs stay between the original minimum and maximum, |delta| never grows, at most one order per step
      goes out, and the delta ends at 0, within tolerance, or where the top-up left it (then the engine degrades). */
  lemma RepairNeverWorsens(long: real, short: real, longLeg: Leg, shortLeg: Leg, longExec: bool, shortExec: bool,
                           longPx: real, shortPx: real, tolerance: real)
    requires long >= 0.0 && short >= 0.0
    requires AnalyzeMismatch(long, short, tolerance).action != RepairNone
    ensures var decision := AnalyzeMismatch(long, short, tolerance);
            var top := TopUpLagging(decision, long, short, longLeg, shortLeg, longExec, shortExec, longPx, shortPx,
                                    tolerance);
            var o := RepairSpec(decision, long, short, longLeg, shortLeg, longExec, shortExec, longPx, shortPx,
                                tolerance);
            && (top.after.action == RepairReduceExcess ==> top.after.excess == Abs(top.longFilled - top.shortFilled))
            && (top.after.action == RepairNone ==> Abs(top.longFilled - top.shortFilled) <= tolerance)
            && Min(long, short) <= o.longFilled <= Max(long, short)
            && Min(long, short) <= o.shortFilled <= Max(long, short)
            && Abs(o.longFilled - o.shortFilled) <= Abs(top.longFilled - top.shortFilled) <= Abs(long - short)
            && longLeg.log <= o.long.log && shortLeg.log <= o.short.log
            && |o.long.log| + |o.short.log| <= |longLeg.log| + |shortLeg.log| + 2
            && (|| o.longFilled == o.shortFilled
                || Abs(o.longFilled - o.shortFilled) <= tolerance
                || (o.longFilled == top.longFilled && o.shortFilled == top.shortFilled))
            && (top.after.action == RepairReduceExcess ==>
                  o.longFilled == o.shortFilled ||
                  (o.longFilled - o.shortFilled == top.longFilled - top.shortFilled
                   && Abs(o.longFilled - o.shortFilled) == top.after.excess))
  {
    hide TopUp, Reduce, ApplyTopUp;
    var decision := AnalyzeMismatch(long, short, tolerance);
    if long < short {
      TopUpStaysWithinShortfall(longLeg, longExec, Long, decision.shortfall, longPx);
    } else {
      TopUpStaysWithinShortfall(shortLeg, shortExec, Short, decision.shortfall, shortPx);
    }
    var top := TopUpLagging(decision, long, short, longLeg, shortLeg, longExec, shortExec, longPx, shortPx, tolerance);
    var filled := (top.longFilled - long) + (top.shortFilled - short);
    ExcessIsDelta(decision, TopUpResult(filled > 0.0, filled, top.longFilled, top.shortFilled), tolerance);
    ReduceSendsOneOrder(top.long, longExec, Long, top.after.excess);
    ReduceSendsOneOrder(top.short, shortExec, Short, top.after.excess);
  }

  lemma TopUpOnExchange(leg: Leg, hasExecutor: bool, side: Side, shortfall: real, price: real)
    requires shortfall >= 0.0
    ensures var after := TopUp(leg, hasExecutor, side, shortfall, price).0;
            leg.exposure <= after.exposure <= leg.exposure + shortfall
  {
  }

  lemma ReduceOnExchange(leg: Leg, hasExecutor: bool, legSide: Side, excess: real)
    requires excess >= 0.0
    ensures var after := Reduce(leg, hasExecutor, legSide, excess).0;
            leg.exposure - excess <= after.exposure <= leg.exposure
  {
  }

  /** On the exchanges, too, repair never worsens a hedge that was booked right, whatever is executed, lost or even
      misreported: both open quantities stay between the original minimum and maximum, and their difference does
      not grow. */
  lemma RepairOnExchange(long: real, short: real, longLeg: Leg, shortLeg: Leg, longExec: bool, shortExec: bool,
                         longPx: real, shortPx: real, tolerance: real)
    requires longLeg.exposure == long && shortLeg.exposure == short
    requires AnalyzeMismatch(long, short, tolerance).action != RepairNone
    ensures var o := RepairSpec(AnalyzeMismatch(long, short, tolerance), long, short, longLeg, shortLeg,
                                longExec, shortExec, longPx, shortPx, tolerance);
            && Min(long, short) <= o.long.exposure <= Max(long, short)
            && Min(long, short) <= o.short.exposure <= Max(long, short)
            && Abs(o.long.exposure - o.short.exposure) <= Abs(long - short)
  {
    hide TopUp, Reduce, ApplyTopUp;
    var decision := AnalyzeMismatch(long, short, tolerance);
    RepairNeverWorsens(long, short, longLeg, shortLeg, longExec, shortExec, longPx, shortPx, tolerance);
    TopUpOnExchange(longLeg, longExec, Long, decision.shortfall, longPx);
    TopUpOnExchange(shortLeg, shortExec, Short, decision.shortfall, shortPx);
    TopUpStaysWithinShortfall(longLeg, longExec, Long, decision.shortfall, longPx);
    TopUpStaysWithinShortfall(shortLeg, shortExec, Short, decision.shortfall, shortPx);
    var top := TopUpLagging(decision, long, short, longLeg, shortLeg, longExec, shortExec, longPx, shortPx, tolerance);
    if top.after.excess >= 0.0 {
      ReduceOnExchange(top.long, longExec, Long, top.after.excess);
      ReduceOnExchange(top.short, shortExec, Short, top.after.excess);
    }
  }

  // ----- The orders of a repair -----

  /** The decision in front of a repair: something is to be done exactly when the fills differ by more than the
      tolerance, and then what the smaller one lacks. */
  lemma MismatchIs(long: real, short: real, tolerance: real)
    ensures var d := AnalyzeMismatch(long, short, tolerance);
            && (d.action == RepairNone <==> long - short <= tolerance && short - long <= tolerance)
            && (d.action != RepairNone ==>
                  d.action == RepairTopUpShortLeg && d.shortfall >= 0.0 && d.excess == 0.0
                  && (d.shortfall == long - short || d.shortfall == short - long))
            && (d.action == RepairNone ==> d.shortfall == d.excess == 0.0)
            && d.common <= long && d.common <= short && (d.common == long || d.common == short)
  {
  }

  /** The one order with which the smaller leg is topped up, as it was served, if there is an executor for it. */
  ghost predicate ToppedUp(before: Leg, after: Leg, hasExecutor: bool, side: Side, missing: real, price: real) {
    && before.log <= after.log
    && if !hasExecutor then after == before
       else |after.log| == |before.log| + 1 && after == Serve(before, Order(side, missing, Some(price), false))
  }

  /** What was booked for it. */
  ghost function TopUpBooked(before: Leg, after: Leg): real {
    if |after.log| > |before.log| then Booked(after.log[|before.log|]) else 0.0
  }

  /** The one market order with which the larger leg is reduced, sent if something is missing still, unless a top-up
      that executed brought the legs within tolerance. */
  ghost predicate Reduced(before: Leg, after: Leg, hasExecutor: bool, legSide: Side, missing: real, topped: real,
                          tolerance: real)
  {
    && before.log <= after.log
    && if hasExecutor && missing > 0.0 && (topped == 0.0 || missing > tolerance) then
         && |after.log| == |before.log| + 1
         && after == Serve(before, Order(if legSide == Long then Short else Long, missing, None, true))
       else after == before
  }

  /** The market order, if it was sent, came back without an error. */
  ghost predicate ReduceSucceeded(before: Leg, after: Leg) {
    |after.log| > |before.log| && !Ambiguous(after.log[|before.log|]) && !Refused(after.log[|before.log|])
  }

  /** The fills booked after a repair of a leg that had `small` and one that had `large`. */
  ghost function MendedFills(small: real, large: real, topped: real, reduced: bool): (real, real) {
    if reduced then (small + topped, small + topped) else (small + topped, large)
  }

  /** All of a repair, in terms of the orders on the two legs: the smaller leg gets one limit order on its own side for
      exactly what it lacks, at its own entry price; the larger leg gets one reduce-only market order against its side
      for exactly the delta that is left; and the larger fill is then set to the smaller one exactly when that order
      had no error. */
  lemma RepairIs(long: real, short: real, longLeg: Leg, shortLeg: Leg, longExec: bool, shortExec: bool,
                 longPx: real, shortPx: real, tolerance: real)
    requires long - short > tolerance || short - long > tolerance
    requires long >= 0.0 && short >= 0.0
    ensures var o := RepairSpec(AnalyzeMismatch(long, short, tolerance), long, short, longLeg, shortLeg,
                                longExec, shortExec, longPx, shortPx, tolerance);
            if long < short then
              var topped := TopUpBooked(longLeg, o.long);
              && ToppedUp(longLeg, o.long, longExec, Long, short - long, longPx)
              && Reduced(shortLeg, o.short, shortExec, Short, short - long - topped, topped, tolerance)
              && (o.longFilled, o.shortFilled) == MendedFills(long, short, topped, ReduceSucceeded(shortLeg, o.short))
            else
              var topped := TopUpBooked(shortLeg, o.short);
              && ToppedUp(shortLeg, o.short, shortExec, Short, long - short, shortPx)
              && Reduced(longLeg, o.long, longExec, Long, long - short - topped, topped, tolerance)
              && (o.shortFilled, o.longFilled) == MendedFills(short, long, topped, ReduceSucceeded(longLeg, o.long))
  {
    if long < short {
      LongIsMended(long, short, longLeg, shortLeg, longExec, shortExec, longPx, shortPx, tolerance);
    } else {
      ShortIsMended(long, short, longLeg, shortLeg, longExec, shortExec, longPx, shortPx, tolerance);
    }
  }

  lemma LongIsMended(long: real, short: real, longLeg: Leg, shortLeg: Leg, longExec: bool, shortExec: bool,
                     longPx: real, shortPx: real, tolerance: real)
    requires short - long > tolerance && 0.0 <= long < short
    ensures var o := RepairSpec(AnalyzeMismatch(long, short, tolerance), long, short, longLeg, shortLeg,
                                longExec, shortExec, longPx, shortPx, tolerance);
            var topped := TopUpBooked(longLeg, o.long);
            && ToppedUp(longLeg, o.long, longExec, Long, short - long, longPx)
            && Reduced(shortLeg, o.short, shortExec, Short, short - long - topped, topped, tolerance)
            && (o.longFilled, o.shortFilled) == MendedFills(long, short, topped, ReduceSucceeded(shortLeg, o.short))
  {
    hide Serve, NextTrade, TopUp, Reduce, ToppedUp, TopUpBooked, Ambiguous, Refused, ApplyTopUp;
    var decision := AnalyzeMismatch(long, short, tolerance);
    var top := TopUpLagging(decision, long, short, longLeg, shortLeg, longExec, shortExec, longPx, shortPx, tolerance);
    TopUpIs(longLeg, longExec, Long, short - long, longPx);
    LeftIs(decision, top, short - long, TopUpBooked(longLeg, top.long), tolerance);
    ReduceIs(shortLeg, shortExec, Short, top.after.excess);
  }

  lemma ShortIsMended(long: real, short: real, longLeg: Leg, shortLeg: Leg, longExec: bool, shortExec: bool,
                      longPx: real, shortPx: real, tolerance: real)
    requires long - short > tolerance && 0.0 <= short <= long
    ensures var o := RepairSpec(AnalyzeMismatch(long, short, tolerance), long, short, longLeg, shortLeg,
                                longExec, shortExec, longPx, shortPx, tolerance);
            var topped := TopUpBooked(shortLeg, o.short);
            && ToppedUp(shortLeg, o.short, shortExec, Short, long - short, shortPx)
            && Reduced(longLeg, o.long, longExec, Long, long - short - topped, topped, tolerance)
            && (o.shortFilled, o.longFilled) == MendedFills(short, long, topped, ReduceSucceeded(longLeg, o.long))
  {
    hide Serve, NextTrade, TopUp, Reduce, ToppedUp, TopUpBooked, Ambiguous, Refused, ApplyTopUp;
    var decision := AnalyzeMismatch(long, short, tolerance);
    var top := TopUpLagging(decision, long, short, longLeg, shortLeg, longExec, shortExec, longPx, shortPx, tolerance);
    TopUpIs(shortLeg, shortExec, Short, long - short, shortPx);
    LeftIs(decision, top, long - short, TopUpBooked(shortLeg, top.short), tolerance);
    ReduceIs(longLeg, longExec, Long, top.after.excess);
  }

  /** After the top-up: a reduce order is due exactly when something is missing still and the top-up did nothing or
      left more than the tolerance, and it is due for just that. */
  lemma LeftIs(decision: RepairDecision, top: RepairOutcome, missing: real, topped: real, tolerance: real)
    requires 0.0 <= topped <= missing && Abs(top.longFilled - top.shortFilled) == missing - topped
    requires decision.shortfall == missing && top.after ==
             ApplyTopUp(decision, TopUpResult(topped > 0.0, topped, top.longFilled, top.shortFilled), tolerance)
    ensures top.after.excess >= 0.0
    ensures top.after.action == RepairReduceExcess && top.after.excess > 0.0 <==>
            missing - topped > 0.0 && (topped == 0.0 || missing - topped > tolerance)
    ensures top.after.action == RepairReduceExcess ==> top.after.excess == missing - topped
  {
  }

  lemma TopUpIs(leg: Leg, hasExecutor: bool, side: Side, missing: real, price: real)
    requires missing >= 0.0
    ensures var (after, filled) := TopUp(leg, hasExecutor, side, missing, price);
            && ToppedUp(leg, after, hasExecutor, side, missing, price) && filled == TopUpBooked(leg, after)
            && 0.0 <= filled <= missing
  {
  }

  lemma ReduceIs(leg: Leg, hasExecutor: bool, legSide: Side, excess: real)
    requires excess >= 0.0
    ensures var (after, ok) := Reduce(leg, hasExecutor, legSide, excess);
            if hasExecutor then
              && leg.log <= after.log && |after.log| == |leg.log| + 1 && (ok <==> ReduceSucceeded(leg, after))
              && after == Serve(leg, Order(if legSide == Long then Short else Long, excess, None, true))
            else after == leg && !ok
  {
  }
}
