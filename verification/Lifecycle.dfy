/** The life of one position as the engine drives it: open both legs, repair, hedge, monitor, close. */
module Lifecycle {
  import opened Decimals
  import opened Exchange
  import opened Close
  import opened Repair
  import P = Portfolio

  type Positive = r: real | r > 0.0 witness 1.0

  datatype Instrument = Instrument(tickSize: real, qtyStep: Positive, minQty: real)

  datatype Config = Config(
    targetQty: real, tolerance: real, protectionTicks: int, maxRequotes: int,
    maxOpen: int, ordersEnabled: bool, exitIfFundingSignChanges: bool)

  /** Everything outside the engine that one opening meets: registry, market data, executors and the store. */
  datatype OpenEnv = OpenEnv(
    longInst: Option<Instrument>, shortInst: Option<Instrument>,
    bestAsk: Option<real>, bestBid: Option<real>,
    longExec: bool, shortExec: bool,
    stored: P.State -> bool, at: int)

  /** The same for one close; `resolved` says whether the registry knows both symbols. */
  datatype CloseEnv = CloseEnv(resolved: bool, tickSize: real, books: Books, stored: P.State -> bool, at: int)

  /** A position together with its two legs on the exchanges. */
  datatype Record = Record(pos: P.PositionState, long: Leg, short: Leg)

  datatype OpenOutcome = OpenOutcome(rec: Record, registered: bool)

  datatype CloseEffect = Kept | Handled | Forgotten

  /** The order quantity, None when it is below what the exchanges accept. */
  function EntryQty(env: OpenEnv, cfg: Config): Option<real> {
    if env.longInst.None? || env.shortInst.None? then None
    else
      var li, si := env.longInst.value, env.shortInst.value;
      var qty := Quantize(cfg.targetQty, Max(li.qtyStep, si.qtyStep));
      if qty <= 0.0 || qty < Max(li.minQty, si.minQty) then None else Some(qty)
  }

  function EntryProtection(env: OpenEnv, cfg: Config): real
    requires env.longInst.Some? && env.shortInst.Some?
  {
    Max(env.longInst.value.tickSize, env.shortInst.value.tickSize) * cfg.protectionTicks as real
  }

  function Transit(p: P.PositionState, to: P.State, reason: string, stored: P.State -> bool, at: int)
    : (P.PositionState, bool)
  {
    var (q, err) := P.TransitionSpec(p, to, at, reason, "system:engine", Some(stored(to)), []);
    (q, err == P.NoError)
  }

  const NEW_POSITION := P.PositionState(P.Discovered, 0.0, 0.0, [], false)

  function EnterLeg(leg: Leg, hasExecutor: bool, side: Side, qty: real, price: real): (Leg, LegAttempt) {
    if hasExecutor then
      var o := Order(side, qty, Some(price), false);
      (Serve(leg, o), Classify(PlaceOutcome(leg, o), qty))
    else (leg, LegAttempt(0.0, false, Some(OtherError)))
  }

  /** From the fills of the two entry orders to HEDGED and MONITORING, or to DEGRADED or FAILED. */
  function Settle(p: P.PositionState, long: Leg, short: Leg, lr: LegAttempt, sr: LegAttempt,
                  longPx: real, shortPx: real, env: OpenEnv, cfg: Config): OpenOutcome
  {
    if lr.ambiguous || sr.ambiguous then
      var degraded := Transit(p, P.Degraded, "entry leg state unknown (ack+query timeout)", env.stored, env.at).0;
      OpenOutcome(Record(degraded, long, short), true)
    else if lr.filled == 0.0 && sr.filled == 0.0 then
      OpenOutcome(Record(Transit(p, P.Failed, "no fills on entry", env.stored, env.at).0, long, short), false)
    else
      var q := P.WithQuantities(p, lr.filled, sr.filled);
      var decision := AnalyzeMismatch(lr.filled, sr.filled, cfg.tolerance);
      if decision.action == RepairNone then Hedge(q, long, short, env)
      else Mend(q, long, short, decision, longPx, shortPx, env, cfg)
  }

  /** The mismatched branch of an opening: repair, and degrade when that did not align the legs. */
  function Mend(p: P.PositionState, long: Leg, short: Leg, decision: RepairDecision,
                longPx: real, shortPx: real, env: OpenEnv, cfg: Config): OpenOutcome
  {
    var (partial, ok) := Transit(p, P.PartiallyHedged, decision.reason, env.stored, env.at);
    if !ok then OpenOutcome(Record(partial, long, short), false)
    else
      var o := RepairSpec(decision, p.long, p.short, long, short, env.longExec, env.shortExec, longPx, shortPx,
                          cfg.tolerance);
      var r := P.WithQuantities(partial, o.longFilled, o.shortFilled);
      if Abs(o.longFilled - o.shortFilled) > cfg.tolerance || (o.longFilled == 0.0 && o.shortFilled == 0.0) then
        var degraded := Transit(r, P.Degraded, "delta mismatch not repaired", env.stored, env.at).0;
        OpenOutcome(Record(degraded, o.long, o.short), true)
      else Hedge(r, o.long, o.short, env)
  }

  function Hedge(p: P.PositionState, long: Leg, short: Leg, env: OpenEnv): OpenOutcome {
    var (hedged, ok) := Transit(p, P.Hedged, "hedged", env.stored, env.at);
    if !ok then OpenOutcome(Record(hedged, long, short), false)
    else
      var (monitoring, started) := Transit(hedged, P.Monitoring, "entering monitoring", env.stored, env.at);
      OpenOutcome(Record(monitoring, long, short), started)
  }

  /** The transitions before any order is sent. */
  function Prepare(env: OpenEnv): (P.PositionState, bool) {
    var (qualified, ok1) := Transit(NEW_POSITION, P.Qualified, "passed filters+eligibility", env.stored, env.at);
    if !ok1 then (qualified, false)
    else
      var (preparing, ok2) := Transit(qualified, P.Preparing, "preflight", env.stored, env.at);
      if !ok2 then (preparing, false)
      else Transit(preparing, P.Opening, "placing entry orders", env.stored, env.at)
  }

  function OpenSpec(long: Leg, short: Leg, env: OpenEnv, cfg: Config): OpenOutcome {
    var qty := EntryQty(env, cfg);
    if qty.None? then OpenOutcome(Record(NEW_POSITION, long, short), false)
    else
      var (opening, ok) := Prepare(env);
      if !ok then OpenOutcome(Record(opening, long, short), false)
      else if env.bestAsk.None? || env.bestBid.None? then
        var failed := Transit(opening, P.Failed, "market data missing at entry", env.stored, env.at).0;
        OpenOutcome(Record(failed, long, short), false)
      else
        var longPx := env.bestAsk.value + EntryProtection(env, cfg);
        var shortPx := env.bestBid.value - EntryProtection(env, cfg);
        var (l, lr) := EnterLeg(long, env.longExec, Long, qty.value, longPx);
        var (s, sr) := EnterLeg(short, env.shortExec, Short, qty.value, shortPx);
        Settle(opening, l, s, lr, sr, longPx, shortPx, env, cfg)
  }

  /** The two transitions in front of the orders of a close. */
  function StartExit(p: P.PositionState, reason: string, env: CloseEnv): (P.PositionState, bool) {
    var (requested, ok) := if p.state == P.ExitRequested then (p, true)
                           else Transit(p, P.ExitRequested, reason, env.stored, env.at);
    if !ok then (requested, false) else Transit(requested, P.Exiting, reason, env.stored, env.at)
  }

  /** What the outcome of the coordinated close does to the position. */
  function FinishExit(p: P.PositionState, err: CloseError, why: string, reason: string, env: CloseEnv)
    : (P.PositionState, CloseEffect)
  {
    match err
    case NoError =>
      var reconciling := Transit(p, P.Reconciling, "close complete, verifying", env.stored, env.at).0;
      var (closed, ok) := Transit(reconciling, P.Closed, reason, env.stored, env.at);
      (closed, if ok then Forgotten else Kept)
    case CloseAmbiguous =>
      var reconciling := Transit(p, P.Reconciling, why, env.stored, env.at).0;
      (Transit(reconciling, P.Degraded, "ambiguous close: manual reconciliation required", env.stored, env.at).0,
       Handled)
    case CloseIncomplete =>
      (Transit(p, P.Degraded, why, env.stored, env.at).0, Handled)
  }

  function CloseConfigOf(env: CloseEnv, cfg: Config): CloseConfig {
    CloseConfig(cfg.protectionTicks, cfg.maxRequotes, env.tickSize)
  }

  function ClosePositionSpec(r: Record, reason: string, env: CloseEnv, cfg: Config): (Record, CloseEffect) {
    if !env.resolved then (r, Kept)
    else
      var (exiting, ok) := StartExit(r.pos, reason, env);
      if !ok then (r.(pos := exiting), Kept)
      else
        var o := CloseSpec(exiting.long, exiting.short, r.long, r.short, env.books, CloseConfigOf(env, cfg));
        var booked := P.WithQuantities(exiting, exiting.long - o.result.longClosed,
                                       exiting.short - o.result.shortClosed);
        var (p, effect) := FinishExit(booked, o.err, Words(o.result.reason), reason, env);
        (Record(p, o.long, o.short), effect)
  }

  /** What `monitor` decides to do with one registered position. */
  function MonitorSpec(r: Record, requested: Option<string>, flipped: bool, env: CloseEnv, cfg: Config)
    : (Record, CloseEffect)
  {
    if r.pos.state == P.Monitoring then
      if requested.Some? then ClosePositionSpec(r, requested.value, env, cfg)
      else if cfg.exitIfFundingSignChanges && flipped then ClosePositionSpec(r, "funding spread sign changed", env, cfg)
      else (r, Kept)
    else if r.pos.state == P.Degraded then
      if requested.Some? then ClosePositionSpec(r, requested.value, env, cfg) else (r, Kept)
    else if P.IsTerminal(r.pos.state) then (r, Forgotten)
    else (r, Kept)
  }

  // ----- The account of a leg -----

  /** What the engine writes into its book for one order. A market order is the reduce-only repair order,
      whose fill is never looked at: without an error it counts as fully executed. */
  function BookEffect(t: Trade): real {
    if !t.order.reduceOnly then Booked(t)
    else if t.order.price.Some? then -Booked(t)
    else if Decide(t.ack, t.answer).Ok? then -t.order.qty
    else 0.0
  }

  /** What the order did to the open quantity on the exchange. */
  function TradeEffect(t: Trade): real {
    if t.order.reduceOnly then 0.0 - t.executed else t.executed
  }

  ghost function BookTotal(log: seq<Trade>): real {
    if log == [] then 0.0 else BookTotal(log[..|log| - 1]) + BookEffect(log[|log| - 1])
  }

  ghost function TradeTotal(log: seq<Trade>): real {
    if log == [] then 0.0 else TradeTotal(log[..|log| - 1]) + TradeEffect(log[|log| - 1])
  }

  /** Trade i is what the exchange's script makes of the i-th order. */
  ghost predicate Genuine(leg: Leg) {
    forall i :: 0 <= i < |leg.log| ==> FromScript(leg.behave(i), leg.log[i])
  }

  ghost predicate FromScript(b: Behaviour, t: Trade) {
    && t.ack == b.ack && t.answer == AnswerOf(b, t.executed)
    && 0.0 <= t.executed <= t.order.qty && (t.executed > 0.0 ==> Reaches(b))
  }

  /** The open quantity is exactly the effect of the orders the leg has received. */
  ghost predicate LegSound(leg: Leg) {
    leg.exposure == TradeTotal(leg.log) && Genuine(leg)
  }

  /** No entry order ended ambiguous: the entry order is the first one a leg ever gets. */
  predicate EntryKnown(r: Record) {
    && (r.long.log != [] ==> !Ambiguous(r.long.log[0]))
    && (r.short.log != [] ==> !Ambiguous(r.short.log[0]))
  }

  /** Book and exchange of one leg. An ambiguous entry leaves the books of both legs at 0. */
  ghost predicate LegLedger(known: bool, book: real, leg: Leg) {
    && book == (if known then BookTotal(leg.log) else 0.0) >= 0.0
    && LegSound(leg)
  }

  /** The invariant of every position, whatever the exchanges, the store and the operator do. */
  ghost predicate BookInvariant(tolerance: real, r: Record) {
    && !r.pos.persisting
    && LegLedger(EntryKnown(r), r.pos.long, r.long)
    && LegLedger(EntryKnown(r), r.pos.short, r.short)
    && (r.pos.state == P.Hedged || r.pos.state == P.Monitoring ==>
          Abs(r.pos.long - r.pos.short) <= tolerance && !(r.pos.long == 0.0 && r.pos.short == 0.0))
  }

  // ----- Transitions, orders and repairs keep the account -----

  lemma TransitFacts(p: P.PositionState, to: P.State, reason: string, stored: P.State -> bool, at: int)
    requires !p.persisting
    ensures var (q, ok) := Transit(p, to, reason, stored, at);
            && !q.persisting && q.long == p.long && q.short == p.short
            && (ok <==> !P.IsTerminal(p.state) && P.CanTransition(p.state, to) && stored(to))
            && (if ok then q.state == to else q == p)
  {
    hide P.AllowedTransitions;
    var t := P.Transition(p.state, to, at, reason, "system:engine");
    assert (p.history + [t])[..|p.history|] == p.history;
  }

  lemma PrepareFacts(env: OpenEnv)
    ensures var (p, ok) := Prepare(env);
            && !p.persisting && p.long == p.short == 0.0
            && p.state in {P.Discovered, P.Qualified, P.Preparing, P.Opening}
            && (ok ==> p.state == P.Opening)
  {
    hide Transit;
    TransitFacts(NEW_POSITION, P.Qualified, "passed filters+eligibility", env.stored, env.at);
    var qualified := Transit(NEW_POSITION, P.Qualified, "passed filters+eligibility", env.stored, env.at).0;
    TransitFacts(qualified, P.Preparing, "preflight", env.stored, env.at);
    var preparing := Transit(qualified, P.Preparing, "preflight", env.stored, env.at).0;
    TransitFacts(preparing, P.Opening, "placing entry orders", env.stored, env.at);
  }

  /** One more order on a leg moves both totals by its own effects. */
  lemma ServeMovesTotals(leg: Leg, o: Order)
    requires LegSound(leg) && o.qty >= 0.0
    ensures var after := Serve(leg, o);
            && after.log == leg.log + [NextTrade(leg, o)] && leg.log < after.log
            && BookTotal(after.log) == BookTotal(leg.log) + BookEffect(NextTrade(leg, o))
            && LegSound(after)
  {
    var after := Serve(leg, o);
    assert after.log[..|after.log| - 1] == leg.log;
  }

  /** Reading the outcome of `Place` books what the trade books, and sees ambiguity exactly when there is one. */
  lemma ClassifyBooks(leg: Leg, o: Order)
    requires o.qty >= 0.0
    ensures var a := Classify(PlaceOutcome(leg, o), o.qty);
            var t := NextTrade(leg, o);
            t.order == o && 0.0 <= a.filled == Booked(t) <= o.qty && (a.ambiguous <==> Ambiguous(t))
  {
  }

  lemma EnterLegFacts(leg: Leg, hasExecutor: bool, side: Side, qty: real, price: real)
    requires leg.log == [] && leg.exposure == 0.0 && qty > 0.0
    ensures var (after, a) := EnterLeg(leg, hasExecutor, side, qty, price);
            && 0.0 <= a.filled <= qty
            && BookTotal(after.log) == a.filled
            && LegSound(after)
            && (a.ambiguous <==> after.log != [] && Ambiguous(after.log[0]))
  {
    hide Serve, NextTrade, PlaceOutcome, Classify, Ambiguous;
    assert BookTotal(leg.log) == TradeTotal(leg.log) == 0.0;
    if hasExecutor {
      var o := Order(side, qty, Some(price), false);
      ServeMovesTotals(leg, o);
      ClassifyBooks(leg, o);
    }
  }

  lemma TopUpFacts(leg: Leg, hasExecutor: bool, side: Side, shortfall: real, price: real)
    requires shortfall >= 0.0 && LegSound(leg)
    ensures var (after, filled) := TopUp(leg, hasExecutor, side, shortfall, price);
            && BookTotal(after.log) == BookTotal(leg.log) + filled
            && LegSound(after)
            && leg.log <= after.log && (!hasExecutor ==> after == leg)
  {
    if hasExecutor {
      ServeMovesTotals(leg, TopUpOrder(side, shortfall, price));
    }
  }

  lemma ReduceFacts(leg: Leg, hasExecutor: bool, legSide: Side, excess: real)
    requires LegSound(leg) && excess >= 0.0
    ensures var (after, ok) := Reduce(leg, hasExecutor, legSide, excess);
            && BookTotal(after.log) == BookTotal(leg.log) - (if ok then excess else 0.0)
            && LegSound(after)
            && leg.log <= after.log && (!hasExecutor ==> after == leg)
  {
    if hasExecutor {
      ServeMovesTotals(leg, ReduceOrder(legSide, excess));
    }
  }

  lemma TopUpKeepsLedger(decision: RepairDecision, long: real, short: real, longLeg: Leg, shortLeg: Leg, longExec: bool,
                         shortExec: bool, longPx: real, shortPx: real, tolerance: real)
    requires decision.shortfall >= 0.0
    requires LegLedger(true, long, longLeg) && LegLedger(true, short, shortLeg)
    ensures var o := TopUpLagging(decision, long, short, longLeg, shortLeg, longExec, shortExec, longPx, shortPx,
                                  tolerance);
            && o.longFilled == BookTotal(o.long.log) && LegSound(o.long)
            && o.shortFilled == BookTotal(o.short.log) && LegSound(o.short)
            && longLeg.log <= o.long.log && shortLeg.log <= o.short.log
            && (!longExec ==> o.long == longLeg) && (!shortExec ==> o.short == shortLeg)
  {
    hide TopUp, BookTotal, TradeTotal, ApplyTopUp;
    TopUpFacts(longLeg, longExec, Long, decision.shortfall, longPx);
    TopUpFacts(shortLeg, shortExec, Short, decision.shortfall, shortPx);
  }

  lemma ReduceKeepsLedger(top: RepairOutcome, longExec: bool, shortExec: bool)
    requires top.longFilled == BookTotal(top.long.log) && LegSound(top.long)
    requires top.shortFilled == BookTotal(top.short.log) && LegSound(top.short)
    requires top.after.action == RepairReduceExcess ==> top.after.excess == Abs(top.longFilled - top.shortFilled)
    ensures var o := ReduceHeavy(top, longExec, shortExec);
            && o.longFilled == BookTotal(o.long.log) && LegSound(o.long)
            && o.shortFilled == BookTotal(o.short.log) && LegSound(o.short)
            && top.long.log <= o.long.log && top.short.log <= o.short.log
            && (!longExec ==> o.long == top.long) && (!shortExec ==> o.short == top.short)
  {
    hide Reduce, BookTotal, TradeTotal;
    if top.after.action == RepairReduceExcess {
      ReduceFacts(top.long, longExec, Long, top.after.excess);
      ReduceFacts(top.short, shortExec, Short, top.after.excess);
    }
  }

  /** Whatever the exchanges do, repair books for each leg exactly the effects of the orders it sent. */
  lemma RepairKeepsLedger(long: real, short: real, longLeg: Leg, shortLeg: Leg, longExec: bool, shortExec: bool,
                          longPx: real, shortPx: real, tolerance: real)
    requires AnalyzeMismatch(long, short, tolerance).action != RepairNone
    requires LegLedger(true, long, longLeg) && LegLedger(true, short, shortLeg)
    ensures var o := RepairSpec(AnalyzeMismatch(long, short, tolerance), long, short, longLeg, shortLeg,
                                longExec, shortExec, longPx, shortPx, tolerance);
            && LegLedger(true, o.longFilled, o.long) && LegLedger(true, o.shortFilled, o.short)
            && longLeg.log <= o.long.log && shortLeg.log <= o.short.log
            && (!longExec ==> o.long == longLeg) && (!shortExec ==> o.short == shortLeg)
  {
    hide TopUpLagging, ReduceHeavy, BookTotal, TradeTotal;
    var decision := AnalyzeMismatch(long, short, tolerance);
    RepairNeverWorsens(long, short, longLeg, shortLeg, longExec, shortExec, longPx, shortPx, tolerance);
    TopUpKeepsLedger(decision, long, short, longLeg, shortLeg, longExec, shortExec, longPx, shortPx, tolerance);
    ReduceKeepsLedger(TopUpLagging(decision, long, short, longLeg, shortLeg, longExec, shortExec, longPx, shortPx,
                                   tolerance),
                      longExec, shortExec);
  }

  lemma {:induction false} ExitMovesTotals(log: seq<Trade>, trades: seq<Trade>, leg: Leg, outstanding: real, side: Side)
    requires Requotes(trades, outstanding, side)
    requires leg.log == log && LegSound(leg)
    requires Replay(leg, trades).log == log + trades
    ensures BookTotal(log + trades) == BookTotal(log) - SumBooked(trades)
    ensures LegSound(Replay(leg, trades))
    decreases trades
  {
    if trades == [] {
      assert log + trades == log;
    } else {
      var t := trades[0];
      var mid := Serve(leg, t.order);
      ReplayExtends(mid, trades[1..]);
      assert (log + trades)[|log|] == t == NextTrade(leg, t.order);
      ServeMovesTotals(leg, t.order);
      assert log + trades == mid.log + trades[1..];
      ExitMovesTotals(mid.log, trades[1..], mid, outstanding - Booked(t), side);
    }
  }

  // ----- The invariant over a whole life -----

  lemma HedgeKeepsInvariant(p: P.PositionState, long: Leg, short: Leg, env: OpenEnv, tolerance: real)
    requires !p.persisting && p.state != P.Hedged && p.state != P.Monitoring
    requires EntryKnown(Record(p, long, short))
    requires LegLedger(true, p.long, long) && LegLedger(true, p.short, short)
    requires Abs(p.long - p.short) <= tolerance && !(p.long == 0.0 && p.short == 0.0)
    ensures BookInvariant(tolerance, Hedge(p, long, short, env).rec)
    ensures var o := Hedge(p, long, short, env); o.registered ==> o.rec.pos.state == P.Monitoring
  {
    hide Transit, LegLedger, Ambiguous;
    TransitFacts(p, P.Hedged, "hedged", env.stored, env.at);
    var hedged := Transit(p, P.Hedged, "hedged", env.stored, env.at).0;
    TransitFacts(hedged, P.Monitoring, "entering monitoring", env.stored, env.at);
  }

  lemma MendKeepsInvariant(p: P.PositionState, long: Leg, short: Leg, decision: RepairDecision,
                           longPx: real, shortPx: real, env: OpenEnv, cfg: Config)
    requires !p.persisting && p.state == P.Opening
    requires decision == AnalyzeMismatch(p.long, p.short, cfg.tolerance) && decision.action != RepairNone
    requires LegLedger(true, p.long, long) && LegLedger(true, p.short, short)
    requires EntryKnown(Record(p, long, short))
    requires (long.log == [] ==> !env.longExec) && (short.log == [] ==> !env.shortExec)
    ensures BookInvariant(cfg.tolerance, Mend(p, long, short, decision, longPx, shortPx, env, cfg).rec)
  {
    hide Transit, Ambiguous, RepairSpec, Hedge, BookTotal, TradeTotal, AnalyzeMismatch;
    var (partial, ok) := Transit(p, P.PartiallyHedged, decision.reason, env.stored, env.at);
    TransitFacts(p, P.PartiallyHedged, decision.reason, env.stored, env.at);
    RepairKeepsLedger(p.long, p.short, long, short, env.longExec, env.shortExec, longPx, shortPx, cfg.tolerance);
    var o := RepairSpec(decision, p.long, p.short, long, short, env.longExec, env.shortExec, longPx, shortPx,
                        cfg.tolerance);
    var r := P.WithQuantities(partial, o.longFilled, o.shortFilled);
    assert EntryKnown(Record(r, o.long, o.short));
    TransitFacts(r, P.Degraded, "delta mismatch not repaired", env.stored, env.at);
    if ok && Abs(o.longFilled - o.shortFilled) <= cfg.tolerance && !(o.longFilled == 0.0 && o.shortFilled == 0.0) {
      HedgeKeepsInvariant(r, o.long, o.short, env, cfg.tolerance);
    }
  }

  lemma SettleKeepsInvariant(p: P.PositionState, long: Leg, short: Leg, lr: LegAttempt, sr: LegAttempt,
                             longPx: real, shortPx: real, env: OpenEnv, cfg: Config)
    requires !p.persisting && p.state == P.Opening && p.long == p.short == 0.0
    requires LegLedger(true, lr.filled, long) && LegLedger(true, sr.filled, short)
    requires lr.ambiguous <==> long.log != [] && Ambiguous(long.log[0])
    requires sr.ambiguous <==> short.log != [] && Ambiguous(short.log[0])
    requires (long.log == [] ==> !env.longExec) && (short.log == [] ==> !env.shortExec)
    ensures BookInvariant(cfg.tolerance, Settle(p, long, short, lr, sr, longPx, shortPx, env, cfg).rec)
  {
    hide Transit, Ambiguous, Mend, Hedge, BookTotal, TradeTotal;
    TransitFacts(p, P.Degraded, "entry leg state unknown (ack+query timeout)", env.stored, env.at);
    TransitFacts(p, P.Failed, "no fills on entry", env.stored, env.at);
    if !lr.ambiguous && !sr.ambiguous && !(lr.filled == 0.0 && sr.filled == 0.0) {
      var q := P.WithQuantities(p, lr.filled, sr.filled);
      var decision := AnalyzeMismatch(lr.filled, sr.filled, cfg.tolerance);
      if decision.action == RepairNone {
        HedgeKeepsInvariant(q, long, short, env, cfg.tolerance);
      } else {
        MendKeepsInvariant(q, long, short, decision, longPx, shortPx, env, cfg);
      }
    }
  }

  ghost predicate Fresh(leg: Leg) {
    leg.log == [] && leg.exposure == 0.0
  }

  /** Every opening, whatever happens in it, leaves a position that satisfies the invariant. */
  lemma OpenKeepsInvariant(long: Leg, short: Leg, env: OpenEnv, cfg: Config)
    requires Fresh(long) && Fresh(short)
    ensures BookInvariant(cfg.tolerance, OpenSpec(long, short, env, cfg).rec)
  {
    hide Transit, Prepare, EnterLeg, Settle, Quantize, EntryProtection, Ambiguous;
    assert BookTotal([]) == TradeTotal([]) == 0.0;
    PrepareFacts(env);
    var (opening, ok) := Prepare(env);
    TransitFacts(opening, P.Failed, "market data missing at entry", env.stored, env.at);
    var qty := EntryQty(env, cfg);
    if qty.Some? && ok && env.bestAsk.Some? && env.bestBid.Some? {
      var longPx := env.bestAsk.value + EntryProtection(env, cfg);
      var shortPx := env.bestBid.value - EntryProtection(env, cfg);
      EnterLegFacts(long, env.longExec, Long, qty.value, longPx);
      EnterLegFacts(short, env.shortExec, Short, qty.value, shortPx);
      EnterLegSends(long, env.longExec, Long, qty.value, longPx);
      EnterLegSends(short, env.shortExec, Short, qty.value, shortPx);
      var (l, lr) := EnterLeg(long, env.longExec, Long, qty.value, longPx);
      var (s, sr) := EnterLeg(short, env.shortExec, Short, qty.value, shortPx);
      SettleKeepsInvariant(opening, l, s, lr, sr, longPx, shortPx, env, cfg);
    }
  }

  lemma EnterLegSends(leg: Leg, hasExecutor: bool, side: Side, qty: real, price: real)
    ensures EnterLeg(leg, hasExecutor, side, qty, price).0.log == [] ==> !hasExecutor
  {
  }

  lemma CloseLegKeepsLedger(before: Leg, after: Leg, target: real, closed: real, residual: real, side: Side,
                            budget: int)
    requires LegAccount(before, after, target, closed, residual, side, budget)
    requires LegSound(before)
    ensures BookTotal(after.log) == BookTotal(before.log) - closed
    ensures LegSound(after)
  {
    var trades := TradesSince(before, after);
    assert after.log == before.log + trades;
    ExitMovesTotals(before.log, trades, before, target, side);
  }

  /** What a coordinated close does to a record, apart from the state: its target is min(long, short). */
  lemma CloseSpecKeepsLedger(r: Record, books: Books, cfg: CloseConfig)
    requires LegLedger(EntryKnown(r), r.pos.long, r.long) && LegLedger(EntryKnown(r), r.pos.short, r.short)
    ensures var o := CloseSpec(r.pos.long, r.pos.short, r.long, r.short, books, cfg);
            var known := EntryKnown(Record(r.pos, o.long, o.short));
            && known == EntryKnown(r)
            && LegLedger(known, r.pos.long - o.result.longClosed, o.long)
            && LegLedger(known, r.pos.short - o.result.shortClosed, o.short)
            && (o.err == NoError ==> o.result.longClosed == o.result.shortClosed == Min(r.pos.long, r.pos.short))
  {
    var target := Min(r.pos.long, r.pos.short);
    var o := CloseSpec(r.pos.long, r.pos.short, r.long, r.short, books, cfg);
    if target > 0.0 {
      CloseConserves(r.pos.long, r.pos.short, r.long, r.short, books, cfg);
      hide CloseSpec, Ambiguous;
      CloseLegKeepsLedger(r.long, o.long, target, o.result.longClosed, o.result.residualLong, Short,
                          cfg.maxRequotes + 1);
      CloseLegKeepsLedger(r.short, o.short, target, o.result.shortClosed, o.result.residualShort, Long,
                          cfg.maxRequotes + 1);
      assert r.long.log != [] && r.short.log != [];
    }
  }

  lemma StartExitFacts(p: P.PositionState, reason: string, env: CloseEnv)
    requires !p.persisting
    ensures var (q, ok) := StartExit(p, reason, env);
            && !q.persisting && q.long == p.long && q.short == p.short
            && (if ok then q.state == P.Exiting else q == p || q.state == P.ExitRequested)
            && (p.state == P.Monitoring || p.state == P.Degraded ==>
                  (ok <==> env.stored(P.ExitRequested) && env.stored(P.Exiting)))
  {
    hide Transit;
    TransitFacts(p, P.ExitRequested, reason, env.stored, env.at);
    var requested := if p.state == P.ExitRequested then p
                     else Transit(p, P.ExitRequested, reason, env.stored, env.at).0;
    TransitFacts(requested, P.Exiting, reason, env.stored, env.at);
  }

  lemma FinishExitFacts(p: P.PositionState, err: CloseError, why: string, reason: string, env: CloseEnv)
    requires !p.persisting && p.state == P.Exiting
    ensures var (q, effect) := FinishExit(p, err, why, reason, env);
            && !q.persisting && q.long == p.long && q.short == p.short
            && q.state in {P.Exiting, P.Reconciling, P.Closed, P.Degraded}
            && (q.state == P.Closed <==> err == NoError && env.stored(P.Reconciling) && env.stored(P.Closed))
            && (effect == Forgotten <==> q.state == P.Closed)
  {
    hide Transit;
    TransitFacts(p, P.Reconciling, "close complete, verifying", env.stored, env.at);
    TransitFacts(Transit(p, P.Reconciling, "close complete, verifying", env.stored, env.at).0, P.Closed, reason,
                 env.stored, env.at);
    TransitFacts(p, P.Reconciling, why, env.stored, env.at);
    TransitFacts(Transit(p, P.Reconciling, why, env.stored, env.at).0, P.Degraded,
                 "ambiguous close: manual reconciliation required", env.stored, env.at);
    TransitFacts(p, P.Degraded, why, env.stored, env.at);
  }

  /** Every close, whatever happens in it, keeps the invariant. */
  lemma CloseKeepsInvariant(r: Record, reason: string, env: CloseEnv, cfg: Config)
    requires BookInvariant(cfg.tolerance, r)
    ensures BookInvariant(cfg.tolerance, ClosePositionSpec(r, reason, env, cfg).0)
  {
    hide StartExit, FinishExit, CloseSpec, LegLedger, Ambiguous, Words;
    StartExitFacts(r.pos, reason, env);
    var (exiting, ok) := StartExit(r.pos, reason, env);
    if env.resolved && ok {
      CloseSpecKeepsLedger(r, env.books, CloseConfigOf(env, cfg));
      var o := CloseSpec(exiting.long, exiting.short, r.long, r.short, env.books, CloseConfigOf(env, cfg));
      FinishExitFacts(P.WithQuantities(exiting, exiting.long - o.result.longClosed,
                                       exiting.short - o.result.shortClosed),
                      o.err, Words(o.result.reason), reason, env);
    }
  }

  /** One thing that happens to a registered position: the operator may have asked for a close, the funding
      spread may have flipped, and the exchanges and the store answer as `env` says. */
  datatype Event = Event(requested: Option<string>, flipped: bool, env: CloseEnv)

  function Live(r: Record, events: seq<Event>, cfg: Config): Record
    decreases events
  {
    if events == [] then r
    else Live(MonitorSpec(r, events[0].requested, events[0].flipped, events[0].env, cfg).0, events[1..], cfg)
  }

  lemma {:induction false} LifeKeepsInvariant(r: Record, events: seq<Event>, cfg: Config)
    requires BookInvariant(cfg.tolerance, r)
    ensures BookInvariant(cfg.tolerance, Live(r, events, cfg))
    decreases events
  {
    if events != [] {
      hide ClosePositionSpec, BookInvariant;
      MonitorKeepsInvariant(r, events[0].requested, events[0].flipped, events[0].env, cfg);
      LifeKeepsInvariant(MonitorSpec(r, events[0].requested, events[0].flipped, events[0].env, cfg).0, events[1..],
                         cfg);
    }
  }

  lemma MonitorKeepsInvariant(r: Record, requested: Option<string>, flipped: bool, env: CloseEnv, cfg: Config)
    requires BookInvariant(cfg.tolerance, r)
    ensures BookInvariant(cfg.tolerance, MonitorSpec(r, requested, flipped, env, cfg).0)
  {
    hide ClosePositionSpec, BookInvariant;
    CloseKeepsInvariant(r, "funding spread sign changed", env, cfg);
    if requested.Some? {
      CloseKeepsInvariant(r, requested.value, env, cfg);
    }
  }

  // ----- Main results -----

  /** The whole-run delta invariant: over every opening and every sequence of ticks, close requests, exchange
      outcomes and store failures, the recorded quantities are never negative, and a position in HEDGED or
      MONITORING is within tolerance and not 0/0. */
  lemma WholeRunDelta(long: Leg, short: Leg, open: OpenEnv, events: seq<Event>, cfg: Config)
    requires Fresh(long) && Fresh(short)
    ensures var r := Live(OpenSpec(long, short, open, cfg).rec, events, cfg);
            && r.pos.long >= 0.0 && r.pos.short >= 0.0
            && (r.pos.state == P.Hedged || r.pos.state == P.Monitoring ==>
                  Abs(r.pos.long - r.pos.short) <= cfg.tolerance && !(r.pos.long == 0.0 && r.pos.short == 0.0))
  {
    hide OpenSpec;
    OpenKeepsInvariant(long, short, open, cfg);
    LifeKeepsInvariant(OpenSpec(long, short, open, cfg).rec, events, cfg);
  }

  lemma LedgerIsNonNegative(known: bool, book: real, leg: Leg)
    requires LegLedger(known, book, leg)
    ensures book >= 0.0
  {
  }

  /** A position ends CLOSED exactly when nothing in its close failed. It then has one leg at exactly 0 and an
      unchanged delta; from MONITORING the other leg is within tolerance. The books are flat if and only if the
      two legs were equal. */
  lemma ClosedMeansOneLegZero(r: Record, reason: string, env: CloseEnv, cfg: Config)
    requires BookInvariant(cfg.tolerance, r) && (r.pos.state == P.Monitoring || r.pos.state == P.Degraded)
    ensures var (q, effect) := ClosePositionSpec(r, reason, env, cfg);
            && (q.pos.state == P.Closed <==>
                  && env.resolved && env.stored(P.ExitRequested) && env.stored(P.Exiting)
                  && env.stored(P.Reconciling) && env.stored(P.Closed)
                  && CloseSpec(r.pos.long, r.pos.short, r.long, r.short, env.books,
                               CloseConfigOf(env, cfg)).err == NoError)
            && (effect == Forgotten <==> q.pos.state == P.Closed)
            && (q.pos.state == P.Closed ==>
                  && Min(q.pos.long, q.pos.short) == 0.0
                  && q.pos.long - q.pos.short == r.pos.long - r.pos.short
                  && (r.pos.state == P.Monitoring ==> Max(q.pos.long, q.pos.short) <= cfg.tolerance)
                  && (q.pos.long == 0.0 && q.pos.short == 0.0 <==> r.pos.long == r.pos.short))
  {
    hide StartExit, FinishExit, CloseSpec, Ambiguous, LegLedger, Words;
    StartExitFacts(r.pos, reason, env);
    var (exiting, ok) := StartExit(r.pos, reason, env);
    LedgerIsNonNegative(EntryKnown(r), r.pos.long, r.long);
    LedgerIsNonNegative(EntryKnown(r), r.pos.short, r.short);
    if env.resolved && ok {
      CloseSpecKeepsLedger(r, env.books, CloseConfigOf(env, cfg));
      var o := CloseSpec(exiting.long, exiting.short, r.long, r.short, env.books, CloseConfigOf(env, cfg));
      FinishExitFacts(P.WithQuantities(exiting, exiting.long - o.result.longClosed,
                                       exiting.short - o.result.shortClosed),
                      o.err, Words(o.result.reason), reason, env);
    }
  }

  /** Every query was answered, and a repair order without an error executed in full. */
  ghost predicate Clean(leg: Leg) {
    forall t :: t in leg.log ==> CleanTrade(t)
  }

  predicate CleanTrade(t: Trade) {
    && Answered(t)
    && (t.order.reduceOnly && t.order.price.None? && Decide(t.ack, t.answer).Ok? ==> t.executed == t.order.qty)
  }

  lemma {:induction false} CleanTotalsAgree(behave: nat -> Behaviour, log: seq<Trade>)
    requires Truthful(behave)
    requires forall i :: 0 <= i < |log| ==> FromScript(behave(i), log[i])
    requires forall t :: t in log ==> CleanTrade(t)
    ensures BookTotal(log) == TradeTotal(log)
  {
    if log != [] {
      var n := |log| - 1;
      assert log[n] in log;
      assert !behave(n).query.Misreports?;
      CleanTotalsAgree(behave, log[..n]);
    }
  }

  predicate IsMarket(t: Trade) {
    t.order.reduceOnly && t.order.price.None?
  }

  /** By how much one order moves the open quantity more than the book: what executed and was not booked, and for the
      market order of a repair the difference between what counts as executed and what did. */
  function Gap(t: Trade): real {
    if IsMarket(t) then if Decide(t.ack, t.answer).Ok? then t.order.qty - t.executed else 0.0 - t.executed
    else if t.order.reduceOnly then Booked(t) - t.executed
    else t.executed - Booked(t)
  }

  /** The gap when no reply misstates a fill: only what executed while the answer was lost can be missing. */
  function LostGap(t: Trade): real {
    if !IsMarket(t) && Answered(t) then 0.0
    else if IsMarket(t) && Decide(t.ack, t.answer).Ok? then t.order.qty - t.executed
    else if t.order.reduceOnly then 0.0 - t.executed
    else t.executed
  }

  ghost function GapTotal(log: seq<Trade>): real {
    if log == [] then 0.0 else GapTotal(log[..|log| - 1]) + Gap(log[|log| - 1])
  }

  ghost function LostTotal(log: seq<Trade>): real {
    if log == [] then 0.0 else LostTotal(log[..|log| - 1]) + LostGap(log[|log| - 1])
  }

  lemma {:induction false} GapIsExact(behave: nat -> Behaviour, log: seq<Trade>)
    requires forall i :: 0 <= i < |log| ==> FromScript(behave(i), log[i])
    ensures TradeTotal(log) == BookTotal(log) + GapTotal(log)
    ensures Truthful(behave) ==> GapTotal(log) == LostTotal(log)
  {
    if log != [] {
      var n := |log| - 1;
      assert Truthful(behave) ==> !behave(n).query.Misreports?;
      GapIsExact(behave, log[..n]);
    }
  }

  /** Book against exchange, for one leg of a record. */
  ghost predicate LegGap(known: bool, book: real, leg: Leg) {
    && (known ==>
          && leg.exposure - book == GapTotal(leg.log)
          && (book == leg.exposure <==> GapTotal(leg.log) == 0.0))
    && (Truthful(leg.behave) ==> GapTotal(leg.log) == LostTotal(leg.log))
    && (Truthful(leg.behave) && known && Clean(leg) ==> book == leg.exposure)
    && (!known ==> book == 0.0 && (book == leg.exposure <==> leg.exposure == 0.0))
  }

  lemma LedgerGap(known: bool, book: real, leg: Leg)
    requires LegLedger(known, book, leg)
    ensures LegGap(known, book, leg)
  {
    hide BookTotal, TradeTotal;
    GapIsExact(leg.behave, leg.log);
    if Truthful(leg.behave) && Clean(leg) {
      CleanTotalsAgree(leg.behave, leg.log);
    }
  }

  /** Books against the exchanges over every life, whatever was refused, partially filled, repaired, lost or not
      stored. After an unambiguous entry the open quantity of a leg differs from the recorded one by exactly the gaps
      of its orders, and agrees with it exactly when they cancel. With true reports the only gaps are those of lost
      answers and of market orders, and there is none when every answer came and every market order executed in full.
      After an ambiguous entry the books say 0 on both legs, whatever is open. */
  lemma BooksMatchExchange(long: Leg, short: Leg, open: OpenEnv, events: seq<Event>, cfg: Config)
    requires Fresh(long) && Fresh(short)
    ensures var r := Live(OpenSpec(long, short, open, cfg).rec, events, cfg);
            LegGap(EntryKnown(r), r.pos.long, r.long) && LegGap(EntryKnown(r), r.pos.short, r.short)
  {
    hide OpenSpec, Ambiguous, LegLedger, LegGap;
    OpenKeepsInvariant(long, short, open, cfg);
    LifeKeepsInvariant(OpenSpec(long, short, open, cfg).rec, events, cfg);
    var r := Live(OpenSpec(long, short, open, cfg).rec, events, cfg);
    LedgerGap(EntryKnown(r), r.pos.long, r.long);
    LedgerGap(EntryKnown(r), r.pos.short, r.short);
  }

  /** What is open on a leg beyond the gaps of its orders. */
  ghost function Net(leg: Leg): real {
    leg.exposure - GapTotal(leg.log)
  }

  ghost predicate HedgedOnExchanges(tolerance: real, r: Record) {
    && Abs(Net(r.long) - Net(r.short)) <= tolerance && !(Net(r.long) == 0.0 && Net(r.short) == 0.0)
    && Abs(r.long.exposure - r.short.exposure) <= tolerance + Abs(GapTotal(r.long.log) - GapTotal(r.short.log))
    && (Truthful(r.long.behave) && Truthful(r.short.behave) && Clean(r.long) && Clean(r.short) ==>
          Abs(r.long.exposure - r.short.exposure) <= tolerance)
  }

  /** The hedge on the exchanges: over every life, while a position with a known entry is hedged or watched, what is
      open on its legs, less the gaps of their orders, is within tolerance and not empty; so the delta on the exchanges
      is off by no more than the tolerance and the difference of the gaps, and is within tolerance where the exchanges
      report the truth and answer every time. */
  lemma ExchangesAreHedged(long: Leg, short: Leg, open: OpenEnv, events: seq<Event>, cfg: Config)
    requires Fresh(long) && Fresh(short)
    ensures var r := Live(OpenSpec(long, short, open, cfg).rec, events, cfg);
            EntryKnown(r) && (r.pos.state == P.Hedged || r.pos.state == P.Monitoring) ==>
              HedgedOnExchanges(cfg.tolerance, r)
  {
    hide OpenSpec, Live, EntryKnown, Truthful, Clean, GapTotal, LostTotal;
    WholeRunDelta(long, short, open, events, cfg);
    BooksMatchExchange(long, short, open, events, cfg);
  }

  /** What a position that ends CLOSED leaves on the exchanges, when its entry is known: beyond the gaps of the orders
      one leg has nothing open, the other has what the legs differed by before the close, and that is within tolerance
      if the position was watched. */
  lemma ClosedOnExchanges(r: Record, reason: string, env: CloseEnv, cfg: Config)
    requires BookInvariant(cfg.tolerance, r) && (r.pos.state == P.Monitoring || r.pos.state == P.Degraded)
    requires EntryKnown(r)
    ensures var q := ClosePositionSpec(r, reason, env, cfg).0;
            q.pos.state == P.Closed ==>
              && EntryKnown(q) && Min(Net(q.long), Net(q.short)) == 0.0
              && Net(q.long) - Net(q.short) == Net(r.long) - Net(r.short)
              && (r.pos.state == P.Monitoring ==> Max(Net(q.long), Net(q.short)) <= cfg.tolerance)
              && (Truthful(q.long.behave) && Truthful(q.short.behave) && Clean(q.long) && Clean(q.short) ==>
                    Min(q.long.exposure, q.short.exposure) == 0.0
                    && (r.pos.state == P.Monitoring ==> Max(q.long.exposure, q.short.exposure) <= cfg.tolerance))
  {
    ClosedMeansOneLegZero(r, reason, env, cfg);
    CloseKeepsInvariant(r, reason, env, cfg);
    CloseKeepsKnown(r, reason, env, cfg);
    hide ClosePositionSpec, EntryKnown, Truthful, Clean, GapTotal, LostTotal, LegLedger;
    var q := ClosePositionSpec(r, reason, env, cfg).0;
    LedgerGap(true, r.pos.long, r.long);
    LedgerGap(true, r.pos.short, r.short);
    LedgerGap(EntryKnown(q), q.pos.long, q.long);
    LedgerGap(EntryKnown(q), q.pos.short, q.short);
  }

  lemma CloseKeepsKnown(r: Record, reason: string, env: CloseEnv, cfg: Config)
    requires BookInvariant(cfg.tolerance, r)
    ensures EntryKnown(ClosePositionSpec(r, reason, env, cfg).0) == EntryKnown(r)
  {
    hide StartExit, FinishExit, CloseSpec, LegLedger, Ambiguous, Words;
    StartExitFacts(r.pos, reason, env);
    CloseSpecKeepsLedger(r, env.books, CloseConfigOf(env, cfg));
  }

  /** A CLOSED position has one empty leg, on its books and, beyond the gaps, on its exchange. */
  ghost predicate ClosedIsOneSided(r: Record) {
    r.pos.state == P.Closed ==>
      && Min(r.pos.long, r.pos.short) == 0.0
      && (EntryKnown(r) ==> Min(Net(r.long), Net(r.short)) == 0.0)
  }

  lemma HedgeIsNotClosed(p: P.PositionState, long: Leg, short: Leg, env: OpenEnv)
    requires !p.persisting && p.state != P.Closed
    ensures Hedge(p, long, short, env).rec.pos.state != P.Closed
  {
    hide Transit;
    TransitFacts(p, P.Hedged, "hedged", env.stored, env.at);
    TransitFacts(Transit(p, P.Hedged, "hedged", env.stored, env.at).0, P.Monitoring, "entering monitoring", env.stored,
                 env.at);
  }

  lemma MendedIsNotClosed(p: P.PositionState, long: Leg, short: Leg, decision: RepairDecision,
                          longPx: real, shortPx: real, env: OpenEnv, cfg: Config)
    requires !p.persisting && p.state == P.Opening
    ensures Mend(p, long, short, decision, longPx, shortPx, env, cfg).rec.pos.state != P.Closed
  {
    hide Transit, RepairSpec, Hedge, Abs;
    TransitFacts(p, P.PartiallyHedged, decision.reason, env.stored, env.at);
    var o := RepairSpec(decision, p.long, p.short, long, short, env.longExec, env.shortExec, longPx, shortPx,
                        cfg.tolerance);
    var r := P.WithQuantities(Transit(p, P.PartiallyHedged, decision.reason, env.stored, env.at).0, o.longFilled,
                              o.shortFilled);
    TransitFacts(r, P.Degraded, "delta mismatch not repaired", env.stored, env.at);
    HedgeIsNotClosed(r, o.long, o.short, env);
  }

  lemma SettledIsNotClosed(p: P.PositionState, long: Leg, short: Leg, lr: LegAttempt, sr: LegAttempt,
                           longPx: real, shortPx: real, env: OpenEnv, cfg: Config)
    requires !p.persisting && p.state == P.Opening
    ensures Settle(p, long, short, lr, sr, longPx, shortPx, env, cfg).rec.pos.state != P.Closed
  {
    hide Transit, Mend, Hedge, AnalyzeMismatch;
    TransitFacts(p, P.Degraded, "entry leg state unknown (ack+query timeout)", env.stored, env.at);
    TransitFacts(p, P.Failed, "no fills on entry", env.stored, env.at);
    var q := P.WithQuantities(p, lr.filled, sr.filled);
    HedgeIsNotClosed(q, long, short, env);
    MendedIsNotClosed(q, long, short, AnalyzeMismatch(lr.filled, sr.filled, cfg.tolerance), longPx, shortPx, env, cfg);
  }

  lemma OpenedIsNotClosed(long: Leg, short: Leg, env: OpenEnv, cfg: Config)
    ensures OpenSpec(long, short, env, cfg).rec.pos.state != P.Closed
  {
    hide Transit, Prepare, EnterLeg, Settle, EntryProtection, EntryQty;
    PrepareFacts(env);
    var opening := Prepare(env).0;
    TransitFacts(opening, P.Failed, "market data missing at entry", env.stored, env.at);
    if Enters(env, cfg) {
      PrepareSucceedsIff(env);
      QtyNeedsInstruments(env, cfg);
      var qty := EntryQty(env, cfg).value;
      var longPx := env.bestAsk.value + EntryProtection(env, cfg);
      var shortPx := env.bestBid.value - EntryProtection(env, cfg);
      var (l, lr) := EnterLeg(long, env.longExec, Long, qty, longPx);
      var (s, sr) := EnterLeg(short, env.shortExec, Short, qty, shortPx);
      SettledIsNotClosed(opening, l, s, lr, sr, longPx, shortPx, env, cfg);
    } else {
      PrepareSucceedsIff(env);
    }
  }

  lemma CloseLeavesOneSide(r: Record, reason: string, env: CloseEnv, cfg: Config)
    requires BookInvariant(cfg.tolerance, r) && (r.pos.state == P.Monitoring || r.pos.state == P.Degraded)
    ensures ClosedIsOneSided(ClosePositionSpec(r, reason, env, cfg).0)
  {
    ClosedMeansOneLegZero(r, reason, env, cfg);
    CloseKeepsKnown(r, reason, env, cfg);
    hide ClosePositionSpec, BookInvariant, EntryKnown, Net;
    if EntryKnown(r) {
      ClosedOnExchanges(r, reason, env, cfg);
    }
  }

  lemma {:induction false} LifeKeepsOneSided(r: Record, events: seq<Event>, cfg: Config)
    requires BookInvariant(cfg.tolerance, r) && ClosedIsOneSided(r)
    ensures ClosedIsOneSided(Live(r, events, cfg))
    decreases events
  {
    hide ClosePositionSpec, BookInvariant, ClosedIsOneSided;
    if events != [] {
      var e := events[0];
      if r.pos.state == P.Monitoring || r.pos.state == P.Degraded {
        CloseLeavesOneSide(r, "funding spread sign changed", e.env, cfg);
        if e.requested.Some? {
          CloseLeavesOneSide(r, e.requested.value, e.env, cfg);
        }
      }
      MonitorKeepsInvariant(r, e.requested, e.flipped, e.env, cfg);
      LifeKeepsOneSided(MonitorSpec(r, e.requested, e.flipped, e.env, cfg).0, events[1..], cfg);
    }
  }

  /** A position is CLOSED only through a close, so over every life it is one-sided then. */
  lemma ClosedLivesAreOneSided(long: Leg, short: Leg, open: OpenEnv, events: seq<Event>, cfg: Config)
    requires Fresh(long) && Fresh(short)
    ensures ClosedIsOneSided(Live(OpenSpec(long, short, open, cfg).rec, events, cfg))
  {
    OpenedIsNotClosed(long, short, open, cfg);
    OpenKeepsInvariant(long, short, open, cfg);
    hide OpenSpec;
    LifeKeepsOneSided(OpenSpec(long, short, open, cfg).rec, events, cfg);
  }

  /** What an opening on two fresh legs and any events after it can make of a position. */
  ghost predicate IsLife(cfg: Config, r: Record) {
    exists long, short, open, events :: IsLifeOf(cfg, r, long, short, open, events)
  }

  ghost predicate IsLifeOf(cfg: Config, r: Record, long: Leg, short: Leg, open: OpenEnv, events: seq<Event>) {
    Fresh(long) && Fresh(short) && r == Live(OpenSpec(long, short, open, cfg).rec, events, cfg)
  }

  lemma OpenedIsLife(long: Leg, short: Leg, open: OpenEnv, cfg: Config)
    requires Fresh(long) && Fresh(short)
    ensures IsLife(cfg, OpenSpec(long, short, open, cfg).rec)
  {
    hide OpenSpec;
    assert IsLifeOf(cfg, OpenSpec(long, short, open, cfg).rec, long, short, open, []);
  }

  lemma {:induction false} OneMoreEvent(r: Record, events: seq<Event>, e: Event, cfg: Config)
    ensures Live(r, events + [e], cfg)
         == MonitorSpec(Live(r, events, cfg), e.requested, e.flipped, e.env, cfg).0
    decreases events
  {
    hide MonitorSpec;
    if events == [] {
      assert ([] + [e])[1..] == [];
    } else {
      assert (events + [e])[1..] == events[1..] + [e];
      OneMoreEvent(MonitorSpec(r, events[0].requested, events[0].flipped, events[0].env, cfg).0, events[1..], e, cfg);
    }
  }

  /** What `monitor` does to a life is an event of that life. */
  lemma LifeGoesOn(r: Record, e: Event, cfg: Config)
    requires IsLife(cfg, r)
    ensures IsLife(cfg, MonitorSpec(r, e.requested, e.flipped, e.env, cfg).0)
  {
    hide OpenSpec, MonitorSpec, Live;
    var long, short, open, events :| IsLifeOf(cfg, r, long, short, open, events);
    OneMoreEvent(OpenSpec(long, short, open, cfg).rec, events, e, cfg);
    assert IsLifeOf(cfg, MonitorSpec(r, e.requested, e.flipped, e.env, cfg).0, long, short, open, events + [e]);
  }

  /** Every life keeps the invariant, is hedged on the exchanges while it says so, and one-sided when it has ended
      CLOSED. */
  ghost predicate IsSound(cfg: Config, r: Record) {
    && BookInvariant(cfg.tolerance, r) && ClosedIsOneSided(r)
    && (EntryKnown(r) && (r.pos.state == P.Hedged || r.pos.state == P.Monitoring) ==>
          HedgedOnExchanges(cfg.tolerance, r))
  }

  lemma LifeIsSound(r: Record, cfg: Config)
    requires IsLife(cfg, r)
    ensures IsSound(cfg, r)
  {
    hide OpenSpec, Live, BookInvariant, ClosedIsOneSided, HedgedOnExchanges, EntryKnown;
    var long, short, open, events :| IsLifeOf(cfg, r, long, short, open, events);
    OpenKeepsInvariant(long, short, open, cfg);
    LifeKeepsInvariant(OpenSpec(long, short, open, cfg).rec, events, cfg);
    ClosedLivesAreOneSided(long, short, open, events, cfg);
    ExchangesAreHedged(long, short, open, events, cfg);
  }

  /** A leg whose entry order executes while its answer is lost and its state is not seen as unknown: the order is
      acknowledged, or the query ends with a definite error. */
  predicate IsUnread(b: Behaviour) {
    && b.appetite == 1.0 && b.query.QueryFails? && b.query.error != OrderNotFound
    && (b.ack.Acked? || (IsTransport(b.ack.error) && !IsTransport(b.query.error)))
  }

  function UnreadLeg(first: Behaviour): Leg {
    Leg((i: nat) => if i == 0 then first else Behaviour(1.0, Acked(New), Answers(Filled)), 0.0, [])
  }

  lemma UnreadEntry(first: Behaviour, price: real)
    requires IsUnread(first)
    ensures var (l, lr) := EnterLeg(UnreadLeg(first), true, Long, 1.0, price);
            && lr.filled == 0.0 && !lr.ambiguous && |l.log| == 1 && !Ambiguous(l.log[0])
            && l.exposure == 1.0 && l.behave == UnreadLeg(first).behave
  {
  }

  lemma GoodEntry(price: real)
    ensures var (s, sr) := EnterLeg(GOOD_LEG, true, Short, 1.0, price);
            sr == LegAttempt(1.0, false, None) && |s.log| == 1 && !Ambiguous(s.log[0]) && s.exposure == 1.0
  {
  }

  lemma RepairBuysAgain(l: Leg, first: Behaviour, s: Leg, longPx: real, shortPx: real, tolerance: real)
    requires |l.log| == 1 && l.exposure == 1.0 && l.behave == UnreadLeg(first).behave && 0.0 <= tolerance < 1.0
    ensures var o := RepairSpec(AnalyzeMismatch(0.0, 1.0, tolerance), 0.0, 1.0, l, s, true, true, longPx, shortPx,
                                tolerance);
            && o.longFilled == o.shortFilled == 1.0 && o.long.exposure == 2.0 && o.short == s && l.log <= o.long.log
  {
    var order := TopUpOrder(Long, 1.0, longPx);
    assert NextTrade(l, order).executed == 1.0;
    assert TopUp(l, true, Long, 1.0, longPx) == (Serve(l, order), 1.0);
  }

  /** Unambiguous and hedged on the books, and open on the exchanges by one unit more: the entry of the long leg
      executes without being read, so the top-up buys the same quantity again. */
  lemma UnreadEntryIsBoughtTwice(first: Behaviour, open: OpenEnv, cfg: Config)
    requires IsUnread(first)
    requires open.longInst == open.shortInst == Some(Instrument(1.0, 1.0, 1.0)) && cfg.targetQty == 1.0
    requires open.bestAsk == open.bestBid == Some(10.0) && open.longExec && open.shortExec
    requires 0.0 <= cfg.tolerance < 1.0 && forall s :: open.stored(s)
    ensures var o := OpenSpec(UnreadLeg(first), GOOD_LEG, open, cfg);
            && o.registered && o.rec.pos.state == P.Monitoring && EntryKnown(o.rec)
            && o.rec.pos.long == o.rec.pos.short == 1.0
            && o.rec.long.exposure == 2.0 && o.rec.short.exposure == 1.0
  {
    hide EntryQty, EntryProtection, Prepare, EnterLeg, Settle, Ambiguous, RepairSpec, EntryKnown;
    TargetIsEntered(open, cfg);
    PrepareFacts(open);
    PrepareSucceedsIff(open);
    var p := Prepare(open).0;
    var protection := EntryProtection(open, cfg);
    var longPx, shortPx := 10.0 + protection, 10.0 - protection;
    UnreadEntry(first, longPx);
    GoodEntry(shortPx);
    var (l, lr) := EnterLeg(UnreadLeg(first), true, Long, 1.0, longPx);
    var (s, sr) := EnterLeg(GOOD_LEG, true, Short, 1.0, shortPx);
    RepairBuysAgain(l, first, s, longPx, shortPx, cfg.tolerance);
    UnreadSettles(p, l, s, lr, sr, longPx, shortPx, open, cfg);
    assert OpenSpec(UnreadLeg(first), GOOD_LEG, open, cfg) == Settle(p, l, s, lr, sr, longPx, shortPx, open, cfg);
  }

  lemma UnreadSettles(p: P.PositionState, l: Leg, s: Leg, lr: LegAttempt, sr: LegAttempt, longPx: real, shortPx: real,
                      open: OpenEnv, cfg: Config)
    requires !p.persisting && p.state == P.Opening && p.long == p.short == 0.0 && forall s :: open.stored(s)
    requires lr.filled == 0.0 && !lr.ambiguous && sr.filled == 1.0 && !sr.ambiguous && 0.0 <= cfg.tolerance < 1.0
    requires open.longExec && open.shortExec
    requires |l.log| == 1 && !Ambiguous(l.log[0]) && |s.log| == 1 && !Ambiguous(s.log[0])
    requires var o := RepairSpec(AnalyzeMismatch(0.0, 1.0, cfg.tolerance), 0.0, 1.0, l, s, true, true, longPx, shortPx,
                                 cfg.tolerance);
             o.longFilled == o.shortFilled == 1.0 && o.long.exposure == 2.0 && o.short == s && l.log <= o.long.log
    ensures var o := Settle(p, l, s, lr, sr, longPx, shortPx, open, cfg);
            && o.registered && o.rec.pos.state == P.Monitoring && EntryKnown(o.rec)
            && o.rec.pos.long == o.rec.pos.short == 1.0
            && o.rec.long.exposure == 2.0 && o.rec.short.exposure == s.exposure
  {
    hide Transit, RepairSpec, Ambiguous;
    var decision := AnalyzeMismatch(0.0, 1.0, cfg.tolerance);
    var q := P.WithQuantities(p, 0.0, 1.0);
    TransitFacts(q, P.PartiallyHedged, decision.reason, open.stored, open.at);
    var partial := P.WithQuantities(Transit(q, P.PartiallyHedged, decision.reason, open.stored, open.at).0, 1.0, 1.0);
    TransitFacts(partial, P.Hedged, "hedged", open.stored, open.at);
    TransitFacts(Transit(partial, P.Hedged, "hedged", open.stored, open.at).0, P.Monitoring, "entering monitoring",
                 open.stored, open.at);
  }

  /** A leg whose entry order executes while its acknowledgement and its query are lost, and a well-behaved leg. */
  const LOST_LEG := Leg((i: nat) => Behaviour(1.0, PlaceFails(Timeout), QueryFails(Timeout)), 0.0, [])
  const GOOD_LEG := Leg((i: nat) => Behaviour(1.0, Acked(New), Answers(Filled)), 0.0, [])

  lemma AmbiguousEntryDegrades(p: P.PositionState, longPx: real, shortPx: real, open: OpenEnv, cfg: Config)
    requires !p.persisting && p.state == P.Opening && p.long == p.short == 0.0 && forall s :: open.stored(s)
    ensures var (l, lr) := EnterLeg(LOST_LEG, true, Long, 1.0, longPx);
            var (s, sr) := EnterLeg(GOOD_LEG, true, Short, 1.0, shortPx);
            var o := Settle(p, l, s, lr, sr, longPx, shortPx, open, cfg);
            && o.registered && o.rec.pos.state == P.Degraded && o.rec.pos.long == o.rec.pos.short == 0.0
            && o.rec.long.exposure == o.rec.short.exposure == 1.0
  {
    hide Transit, Mend, Hedge;
    TransitFacts(p, P.Degraded, "entry leg state unknown (ack+query timeout)", open.stored, open.at);
  }


  lemma AmbiguousEntryOpens(open: OpenEnv, cfg: Config)
    requires open.longInst == open.shortInst == Some(Instrument(1.0, 1.0, 1.0))
    requires open.bestAsk == open.bestBid == Some(10.0) && open.longExec && open.shortExec
    requires cfg.targetQty == 1.0 && forall s :: open.stored(s)
    ensures var o := OpenSpec(LOST_LEG, GOOD_LEG, open, cfg);
            && o.registered && o.rec.pos.state == P.Degraded && o.rec.pos.long == o.rec.pos.short == 0.0
            && o.rec.long.exposure == o.rec.short.exposure == 1.0
  {
    hide EntryQty, EntryProtection, Prepare, EnterLeg, Settle;
    TargetIsEntered(open, cfg);
    PrepareFacts(open);
    PrepareSucceedsIff(open);
    var p := Prepare(open).0;
    var protection := EntryProtection(open, cfg);
    var longPx, shortPx := 10.0 + protection, 10.0 - protection;
    AmbiguousEntryDegrades(p, longPx, shortPx, open, cfg);
    var (l, lr) := EnterLeg(LOST_LEG, true, Long, 1.0, longPx);
    var (s, sr) := EnterLeg(GOOD_LEG, true, Short, 1.0, shortPx);
    assert OpenSpec(LOST_LEG, GOOD_LEG, open, cfg) == Settle(p, l, s, lr, sr, longPx, shortPx, open, cfg);
  }

  lemma TargetIsEntered(open: OpenEnv, cfg: Config)
    requires open.longInst == open.shortInst == Some(Instrument(1.0, 1.0, 1.0)) && cfg.targetQty == 1.0
    ensures EntryQty(open, cfg) == Some(1.0)
  {
    assert Quantize(cfg.targetQty, 1.0) == 1.0;
  }

  /** Whatever is open on the exchanges: a DEGRADED position with empty books is closed without a single order. */
  lemma EmptyBooksCloseSilently(r: Record, reason: string, env: CloseEnv, cfg: Config)
    requires !r.pos.persisting && r.pos.state == P.Degraded && r.pos.long == r.pos.short == 0.0
    requires env.resolved && forall s :: env.stored(s)
    ensures var (q, effect) := ClosePositionSpec(r, reason, env, cfg);
            && q.pos.state == P.Closed && effect == Forgotten
            && q.long == r.long && q.short == r.short && q.pos.long == q.pos.short == 0.0
  {
    hide StartExit, FinishExit;
    StartExitFacts(r.pos, reason, env);
    var exiting := StartExit(r.pos, reason, env).0;
    FinishExitFacts(P.WithQuantities(exiting, 0.0, 0.0), NoError, "", reason, env);
  }

  /** An ambiguous entry is the exception, and a CLOSED position can be open on the exchange: the long order
      executes, its acknowledgement and its query are lost, and the operator's close finds nothing to do. */
  lemma AmbiguousEntryIsForgotten(open: OpenEnv, close: CloseEnv, cfg: Config)
    requires open.longInst == open.shortInst == Some(Instrument(1.0, 1.0, 1.0))
    requires open.bestAsk == open.bestBid == Some(10.0) && open.longExec && open.shortExec
    requires cfg.targetQty == 1.0 && close.resolved
    requires forall s :: open.stored(s) && close.stored(s)
    ensures var entered := OpenSpec(LOST_LEG, GOOD_LEG, open, cfg);
            var (closed, effect) := ClosePositionSpec(entered.rec, "operator request", close, cfg);
            && entered.registered && entered.rec.pos.state == P.Degraded
            && closed.pos.state == P.Closed && effect == Forgotten
            && closed.pos.long == closed.pos.short == 0.0
            && closed.long.exposure == closed.short.exposure == 1.0
  {
    OpenKeepsInvariant(LOST_LEG, GOOD_LEG, open, cfg);
    hide OpenSpec, ClosePositionSpec, LegLedger, EntryKnown;
    AmbiguousEntryOpens(open, cfg);
    EmptyBooksCloseSilently(OpenSpec(LOST_LEG, GOOD_LEG, open, cfg).rec, "operator request", close, cfg);
  }

  /** Whether the store lets a hedged position be watched. */
  predicate StoresHedge(env: OpenEnv) {
    env.stored(P.Hedged) && env.stored(P.Monitoring)
  }

  /** Whether a position with this mismatch, on these legs, is kept: repair failed, or what it left is stored. */
  predicate KeepsMended(long: real, short: real, l: Leg, s: Leg, longPx: real, shortPx: real, env: OpenEnv,
                        cfg: Config) {
    && env.stored(P.PartiallyHedged)
    && var o := RepairSpec(AnalyzeMismatch(long, short, cfg.tolerance), long, short, l, s, env.longExec, env.shortExec,
                           longPx, shortPx, cfg.tolerance);
       || Abs(o.longFilled - o.shortFilled) > cfg.tolerance
       || (o.longFilled == 0.0 && o.shortFilled == 0.0)
       || StoresHedge(env)
  }

  /** When an opening whose entry orders have returned ends in the registry. */
  predicate Registers(l: Leg, s: Leg, lr: LegAttempt, sr: LegAttempt, longPx: real, shortPx: real, env: OpenEnv,
                      cfg: Config) {
    || lr.ambiguous || sr.ambiguous
    || (&& !(lr.filled == 0.0 && sr.filled == 0.0)
        && if AnalyzeMismatch(lr.filled, sr.filled, cfg.tolerance).action == RepairNone then StoresHedge(env)
           else KeepsMended(lr.filled, sr.filled, l, s, longPx, shortPx, env, cfg))
  }

  lemma HedgeRegistersIff(p: P.PositionState, long: Leg, short: Leg, env: OpenEnv)
    requires !p.persisting && p.state in {P.Opening, P.PartiallyHedged}
    ensures Hedge(p, long, short, env).registered <==> StoresHedge(env)
  {
    hide Transit;
    TransitFacts(p, P.Hedged, "hedged", env.stored, env.at);
    TransitFacts(Transit(p, P.Hedged, "hedged", env.stored, env.at).0, P.Monitoring, "entering monitoring", env.stored,
                 env.at);
  }

  lemma MendRegistersIff(p: P.PositionState, long: Leg, short: Leg, longPx: real, shortPx: real, env: OpenEnv,
                         cfg: Config)
    requires !p.persisting && p.state == P.Opening
    ensures Mend(p, long, short, AnalyzeMismatch(p.long, p.short, cfg.tolerance), longPx, shortPx, env, cfg).registered
            <==> KeepsMended(p.long, p.short, long, short, longPx, shortPx, env, cfg)
  {
    hide Transit, RepairSpec, Hedge, AnalyzeMismatch;
    var decision := AnalyzeMismatch(p.long, p.short, cfg.tolerance);
    TransitFacts(p, P.PartiallyHedged, decision.reason, env.stored, env.at);
    var partial := Transit(p, P.PartiallyHedged, decision.reason, env.stored, env.at).0;
    var o := RepairSpec(decision, p.long, p.short, long, short, env.longExec, env.shortExec, longPx, shortPx,
                        cfg.tolerance);
    if env.stored(P.PartiallyHedged) {
      HedgeRegistersIff(P.WithQuantities(partial, o.longFilled, o.shortFilled), o.long, o.short, env);
    }
  }

  /** Once the entry orders have returned: when the opening is registered, and what the books say when it is not. */
  lemma SettleRegistersIff(p: P.PositionState, l: Leg, s: Leg, lr: LegAttempt, sr: LegAttempt,
                           longPx: real, shortPx: real, env: OpenEnv, cfg: Config)
    requires !p.persisting && p.state == P.Opening && p.long == p.short == 0.0
    ensures var o := Settle(p, l, s, lr, sr, longPx, shortPx, env, cfg);
            && (o.registered <==> Registers(l, s, lr, sr, longPx, shortPx, env, cfg))
            && (lr.filled == 0.0 && sr.filled == 0.0 && !o.registered ==> o.rec.pos.long == o.rec.pos.short == 0.0)
  {
    hide Transit, Mend, Hedge, KeepsMended, StoresHedge;
    TransitFacts(p, P.Failed, "no fills on entry", env.stored, env.at);
    var q := P.WithQuantities(p, lr.filled, sr.filled);
    HedgeRegistersIff(q, l, s, env);
    MendRegistersIff(q, l, s, longPx, shortPx, env, cfg);
  }

  /** Orders are sent only with quotes, a quantity and three stored transitions. */
  predicate Enters(env: OpenEnv, cfg: Config) {
    && EntryQty(env, cfg).Some? && env.bestAsk.Some? && env.bestBid.Some?
    && env.stored(P.Qualified) && env.stored(P.Preparing) && env.stored(P.Opening)
  }

  lemma PrepareSucceedsIff(env: OpenEnv)
    ensures Prepare(env).1 <==> env.stored(P.Qualified) && env.stored(P.Preparing) && env.stored(P.Opening)
  {
    hide Transit;
    TransitFacts(NEW_POSITION, P.Qualified, "passed filters+eligibility", env.stored, env.at);
    var qualified := Transit(NEW_POSITION, P.Qualified, "passed filters+eligibility", env.stored, env.at).0;
    TransitFacts(qualified, P.Preparing, "preflight", env.stored, env.at);
    var preparing := Transit(qualified, P.Preparing, "preflight", env.stored, env.at).0;
    TransitFacts(preparing, P.Opening, "placing entry orders", env.stored, env.at);
  }

  /** An opening is registered exactly when its orders were sent and `Registers` says so of their results. */
  lemma OpenRegistersIff(long: Leg, short: Leg, env: OpenEnv, cfg: Config)
    ensures var o := OpenSpec(long, short, env, cfg);
            && (o.registered <==> Enters(env, cfg) && EntryRegisters(long, short, env, cfg))
            && (!Enters(env, cfg) ==>
                  o.rec.pos.long == o.rec.pos.short == 0.0 && o.rec.long == long && o.rec.short == short)
  {
    hide Transit, Prepare, EnterLeg, Settle, EntryQty, EntryProtection, Registers;
    PrepareFacts(env);
    PrepareSucceedsIff(env);
    TransitFacts(Prepare(env).0, P.Failed, "market data missing at entry", env.stored, env.at);
    if Enters(env, cfg) {
      var qty := EntryQty(env, cfg).value;
      QtyNeedsInstruments(env, cfg);
      var longPx := env.bestAsk.value + EntryProtection(env, cfg);
      var shortPx := env.bestBid.value - EntryProtection(env, cfg);
      var (l, lr) := EnterLeg(long, env.longExec, Long, qty, longPx);
      var (s, sr) := EnterLeg(short, env.shortExec, Short, qty, shortPx);
      SettleRegistersIff(Prepare(env).0, l, s, lr, sr, longPx, shortPx, env, cfg);
    }
  }

  lemma QtyNeedsInstruments(env: OpenEnv, cfg: Config)
    requires EntryQty(env, cfg).Some?
    ensures env.longInst.Some? && env.shortInst.Some? && EntryQty(env, cfg).value > 0.0
  {
  }

  /** `Registers`, of what the two entry orders return. */
  predicate EntryRegisters(long: Leg, short: Leg, env: OpenEnv, cfg: Config)
    requires Enters(env, cfg)
  {
    var qty := EntryQty(env, cfg).value;
    var longPx := env.bestAsk.value + EntryProtection(env, cfg);
    var shortPx := env.bestBid.value - EntryProtection(env, cfg);
    var (l, lr) := EnterLeg(long, env.longExec, Long, qty, longPx);
    var (s, sr) := EnterLeg(short, env.shortExec, Short, qty, shortPx);
    Registers(l, s, lr, sr, longPx, shortPx, env, cfg)
  }

  lemma UnregisteredIsEmpty(long: Leg, short: Leg, env: OpenEnv, cfg: Config)
    requires env.stored(P.PartiallyHedged) && StoresHedge(env)
    ensures var o := OpenSpec(long, short, env, cfg);
            !o.registered ==> o.rec.pos.long == o.rec.pos.short == 0.0
  {
    hide Transit, Prepare, EnterLeg, Settle, Quantize, EntryProtection;
    PrepareFacts(env);
    var opening := Prepare(env).0;
    TransitFacts(opening, P.Failed, "market data missing at entry", env.stored, env.at);
    var qty := EntryQty(env, cfg);
    if qty.Some? && Prepare(env).1 && env.bestAsk.Some? && env.bestBid.Some? {
      var longPx := env.bestAsk.value + EntryProtection(env, cfg);
      var shortPx := env.bestBid.value - EntryProtection(env, cfg);
      var (l, lr) := EnterLeg(long, env.longExec, Long, qty.value, longPx);
      var (s, sr) := EnterLeg(short, env.shortExec, Short, qty.value, shortPx);
      SettleRegistersIff(opening, l, s, lr, sr, longPx, shortPx, env, cfg);
    }
  }

  /** As long as the store accepts PARTIALLY_HEDGED, HEDGED and MONITORING, an opening that is not registered has
      nothing on its books, and on its exchanges nothing but the gaps of its orders; so nothing at all where every
      answer came. */
  lemma OpenForgetsNothing(long: Leg, short: Leg, env: OpenEnv, cfg: Config)
    requires Fresh(long) && Fresh(short) && env.stored(P.PartiallyHedged) && StoresHedge(env)
    ensures var o := OpenSpec(long, short, env, cfg);
            !o.registered ==>
              && o.rec.pos.long == o.rec.pos.short == 0.0
              && LegGap(EntryKnown(o.rec), 0.0, o.rec.long) && LegGap(EntryKnown(o.rec), 0.0, o.rec.short)
  {
    hide OpenSpec, EntryKnown, LegGap;
    UnregisteredIsEmpty(long, short, env, cfg);
    BooksMatchExchange(long, short, env, [], cfg);
    assert Live(OpenSpec(long, short, env, cfg).rec, [], cfg) == OpenSpec(long, short, env, cfg).rec;
  }

  /** The store is the exception: when it refuses HEDGED or MONITORING, an opening with both legs filled and equal is
      not registered. */
  lemma RefusedHedgeIsForgotten(env: OpenEnv, cfg: Config)
    requires Enters(env, cfg) && EntryQty(env, cfg) == Some(1.0)
    requires env.longExec && env.shortExec && cfg.tolerance >= 0.0
    requires !StoresHedge(env)
    ensures var o := OpenSpec(GOOD_LEG, GOOD_LEG, env, cfg);
            !o.registered && o.rec.long.exposure == o.rec.short.exposure == 1.0
  {
    QtyNeedsInstruments(env, cfg);
    PrepareFacts(env);
    PrepareSucceedsIff(env);
    var longPx := env.bestAsk.value + EntryProtection(env, cfg);
    var shortPx := env.bestBid.value - EntryProtection(env, cfg);
    CooperativeEntry(GOOD_LEG, Long, 1.0, longPx);
    CooperativeEntry(GOOD_LEG, Short, 1.0, shortPx);
    hide Transit, Mend, Prepare, EnterLeg, EntryQty, EntryProtection, StoresHedge;
    assert AnalyzeMismatch(1.0, 1.0, cfg.tolerance).action == RepairNone;
    HedgeRegistersIff(P.WithQuantities(Prepare(env).0, 1.0, 1.0), EnterLeg(GOOD_LEG, true, Long, 1.0, longPx).0,
                      EnterLeg(GOOD_LEG, true, Short, 1.0, shortPx).0, env);
  }

  /** And when it refuses PARTIALLY_HEDGED, so is one with a single leg filled. */
  lemma RefusedMendIsForgotten(env: OpenEnv, cfg: Config)
    requires Enters(env, cfg) && EntryQty(env, cfg) == Some(1.0)
    requires env.longExec && !env.shortExec && 0.0 <= cfg.tolerance < 1.0
    requires !env.stored(P.PartiallyHedged)
    ensures var o := OpenSpec(GOOD_LEG, GOOD_LEG, env, cfg);
            !o.registered && o.rec.long.exposure == 1.0 && o.rec.short.exposure == 0.0
  {
    QtyNeedsInstruments(env, cfg);
    PrepareFacts(env);
    PrepareSucceedsIff(env);
    var longPx := env.bestAsk.value + EntryProtection(env, cfg);
    var shortPx := env.bestBid.value - EntryProtection(env, cfg);
    CooperativeEntry(GOOD_LEG, Long, 1.0, longPx);
    assert EnterLeg(GOOD_LEG, false, Short, 1.0, shortPx) == (GOOD_LEG, LegAttempt(0.0, false, Some(OtherError)));
    hide Transit, Prepare, EnterLeg, EntryQty, EntryProtection, Settle;
    RefusedMend(Prepare(env).0, EnterLeg(GOOD_LEG, true, Long, 1.0, longPx).0, GOOD_LEG, LegAttempt(1.0, false, None),
                LegAttempt(0.0, false, Some(OtherError)), longPx, shortPx, env, cfg);
  }

  lemma RefusedMend(p: P.PositionState, l: Leg, s: Leg, lr: LegAttempt, sr: LegAttempt, longPx: real, shortPx: real,
                    env: OpenEnv, cfg: Config)
    requires !p.persisting && p.state == P.Opening && !env.stored(P.PartiallyHedged)
    requires !lr.ambiguous && !sr.ambiguous && !(lr.filled == 0.0 && sr.filled == 0.0)
    requires AnalyzeMismatch(lr.filled, sr.filled, cfg.tolerance).action != RepairNone
    ensures var o := Settle(p, l, s, lr, sr, longPx, shortPx, env, cfg);
            !o.registered && o.rec.long == l && o.rec.short == s
  {
    hide Transit, RepairSpec, Hedge, AnalyzeMismatch;
    var decision := AnalyzeMismatch(lr.filled, sr.filled, cfg.tolerance);
    TransitFacts(P.WithQuantities(p, lr.filled, sr.filled), P.PartiallyHedged, decision.reason, env.stored, env.at);
  }

  // ----- The orders of an opening -----

  lemma RepairOnlyAppends(decision: RepairDecision, long: real, short: real, longLeg: Leg, shortLeg: Leg,
                          longExec: bool, shortExec: bool, longPx: real, shortPx: real, tolerance: real)
    ensures var o := RepairSpec(decision, long, short, longLeg, shortLeg, longExec, shortExec, longPx, shortPx,
                                tolerance);
            && longLeg.log <= o.long.log && shortLeg.log <= o.short.log
            && (!longExec ==> o.long == longLeg) && (!shortExec ==> o.short == shortLeg)
  {
    hide ApplyTopUp, TopUpFill, PlaceOutcome, NextTrade;
  }

  lemma SettleOnlyAppends(p: P.PositionState, long: Leg, short: Leg, lr: LegAttempt, sr: LegAttempt,
                          longPx: real, shortPx: real, env: OpenEnv, cfg: Config)
    ensures var o := Settle(p, long, short, lr, sr, longPx, shortPx, env, cfg);
            && long.log <= o.rec.long.log && short.log <= o.rec.short.log
            && (!env.longExec ==> o.rec.long == long) && (!env.shortExec ==> o.rec.short == short)
  {
    hide Transit, RepairSpec, AnalyzeMismatch;
    var q := P.WithQuantities(p, lr.filled, sr.filled);
    RepairOnlyAppends(AnalyzeMismatch(lr.filled, sr.filled, cfg.tolerance), q.long, q.short, long, short,
                      env.longExec, env.shortExec, longPx, shortPx, cfg.tolerance);
  }

  /** The first order of a leg, if it ever gets one, is its entry order. */
  predicate EntersWith(leg: Leg, o: Order) {
    leg.log != [] ==> leg.log[0].order == o
  }

  lemma EnterLegOrder(leg: Leg, hasExecutor: bool, side: Side, qty: real, price: real)
    requires leg.log == []
    ensures var after := EnterLeg(leg, hasExecutor, side, qty, price).0;
            if hasExecutor then |after.log| == 1 && after.log[0].order == Order(side, qty, Some(price), false)
            else after == leg
  {
  }

  lemma ProtectionIs(env: OpenEnv, cfg: Config)
    requires env.longInst.Some? && env.shortInst.Some?
    ensures var li, si := env.longInst.value, env.shortInst.value;
            var tick := if li.tickSize >= si.tickSize then li.tickSize else si.tickSize;
            && EntryProtection(env, cfg) == cfg.protectionTicks as real * tick
            && (cfg.protectionTicks >= 0 && tick >= 0.0 ==> EntryProtection(env, cfg) >= 0.0)
  {
  }

  /** Both entry orders ask for the same quantity: the largest multiple of the coarser step within the target, which
      is positive and no less than either exchange accepts. The long leg pays up to the ask and the configured number of
      the coarser ticks, the short leg sells down to the bid less as much; so with a number of ticks that is not
      negative neither order is limited short of the quote. */
  lemma EntryOrdersMatch(long: Leg, short: Leg, env: OpenEnv, cfg: Config)
    requires Fresh(long) && Fresh(short)
    ensures var r := OpenSpec(long, short, env, cfg).rec;
            r.long.log != [] || r.short.log != [] ==>
              && env.longInst.Some? && env.shortInst.Some? && env.bestAsk.Some? && env.bestBid.Some?
              && var li, si := env.longInst.value, env.shortInst.value;
                 var step := Max(li.qtyStep, si.qtyStep);
                 var qty := Quantize(cfg.targetQty, step);
                 var tick := if li.tickSize >= si.tickSize then li.tickSize else si.tickSize;
                 var longPx := env.bestAsk.value + cfg.protectionTicks as real * tick;
                 var shortPx := env.bestBid.value - cfg.protectionTicks as real * tick;
                 && 0.0 < qty <= cfg.targetQty < qty + step && qty >= li.minQty && qty >= si.minQty
                 && EntersWith(r.long, Order(Long, qty, Some(longPx), false))
                 && EntersWith(r.short, Order(Short, qty, Some(shortPx), false))
                 && longPx - env.bestAsk.value == env.bestBid.value - shortPx
                 && (cfg.protectionTicks >= 0 && tick >= 0.0 ==>
                       longPx >= env.bestAsk.value && shortPx <= env.bestBid.value)
  {
    hide Transit, Prepare, EnterLeg, Settle, EntryProtection;
    var qty := EntryQty(env, cfg);
    if qty.Some? && Prepare(env).1 && env.bestAsk.Some? && env.bestBid.Some? {
      QuantizeIsLargest(cfg.targetQty, Max(env.longInst.value.qtyStep, env.shortInst.value.qtyStep));
      ProtectionIs(env, cfg);
      hide Quantize;
      var longPx := env.bestAsk.value + EntryProtection(env, cfg);
      var shortPx := env.bestBid.value - EntryProtection(env, cfg);
      EnterLegOrder(long, env.longExec, Long, qty.value, longPx);
      EnterLegOrder(short, env.shortExec, Short, qty.value, shortPx);
      var (l, lr) := EnterLeg(long, env.longExec, Long, qty.value, longPx);
      var (s, sr) := EnterLeg(short, env.shortExec, Short, qty.value, shortPx);
      SettleOnlyAppends(Prepare(env).0, l, s, lr, sr, longPx, shortPx, env, cfg);
    }
  }

  // ----- A cooperative market -----

  /** When both exchanges execute and answer and the store accepts, an opening ends in MONITORING with equal legs. */
  lemma CooperativeOpenMonitors(long: Leg, short: Leg, env: OpenEnv, cfg: Config)
    requires Fresh(long) && Fresh(short) && EntryQty(env, cfg).Some? && env.bestAsk.Some? && env.bestBid.Some?
    requires Cooperates(long, EntryQty(env, cfg).value) && Cooperates(short, EntryQty(env, cfg).value)
    requires env.longExec && env.shortExec && cfg.tolerance >= 0.0 && forall s :: env.stored(s)
    ensures var o := OpenSpec(long, short, env, cfg);
            var qty := EntryQty(env, cfg).value;
            && o.registered && o.rec.pos.state == P.Monitoring && o.rec.pos.long == o.rec.pos.short == qty
            && o.rec.long.exposure == o.rec.short.exposure == qty
  {
    var qty := EntryQty(env, cfg).value;
    PrepareFacts(env);
    PrepareSucceedsIff(env);
    var p := Prepare(env).0;
    var longPx := env.bestAsk.value + EntryProtection(env, cfg);
    var shortPx := env.bestBid.value - EntryProtection(env, cfg);
    CooperativeEntry(long, Long, qty, longPx);
    CooperativeEntry(short, Short, qty, shortPx);
    hide Transit, Prepare, EnterLeg, EntryProtection, Quantize, EntryQty, Mend;
    var q := P.WithQuantities(p, qty, qty);
    HedgeSucceeds(q, EnterLeg(long, true, Long, qty, longPx).0, EnterLeg(short, true, Short, qty, shortPx).0, env);
    assert AnalyzeMismatch(qty, qty, cfg.tolerance).action == RepairNone;
  }

  lemma CooperativeEntry(leg: Leg, side: Side, qty: real, price: real)
    requires Fresh(leg) && Cooperates(leg, qty) && qty > 0.0
    ensures var (after, a) := EnterLeg(leg, true, side, qty, price);
            a == LegAttempt(qty, false, None) && after.exposure == qty
  {
  }

  lemma HedgeSucceeds(p: P.PositionState, long: Leg, short: Leg, env: OpenEnv)
    requires !p.persisting && p.state == P.Opening && forall s :: env.stored(s)
    ensures var o := Hedge(p, long, short, env);
            && o.registered && o.rec.pos.state == P.Monitoring && o.rec.long == long && o.rec.short == short
            && o.rec.pos.long == p.long && o.rec.pos.short == p.short
  {
    hide Transit;
    TransitFacts(p, P.Hedged, "hedged", env.stored, env.at);
    TransitFacts(Transit(p, P.Hedged, "hedged", env.stored, env.at).0, P.Monitoring, "entering monitoring", env.stored,
                 env.at);
  }

  /** And then the operator's request closes it: min(long, short) is closed on both exchanges with one order each. */
  lemma OperatorCanClose(r: Record, reason: string, flipped: bool, env: CloseEnv, cfg: Config)
    requires BookInvariant(cfg.tolerance, r) && (r.pos.state == P.Monitoring || r.pos.state == P.Degraded)
    requires env.resolved && cfg.maxRequotes >= 0 && forall s :: env.stored(s)
    requires var T := Min(r.pos.long, r.pos.short);
             && T > 0.0 && env.books.bestBid(0).Some? && env.books.bestAsk(0).Some?
             && Cooperates(r.long, T) && Cooperates(r.short, T) && T <= r.long.exposure && T <= r.short.exposure
    ensures var T := Min(r.pos.long, r.pos.short);
            var (q, effect) := MonitorSpec(r, Some(reason), flipped, env, cfg);
            && q.pos.state == P.Closed && effect == Forgotten
            && q.long.exposure == r.long.exposure - T && q.short.exposure == r.short.exposure - T
  {
    CooperativeCloseSucceeds(r.pos.long, r.pos.short, r.long, r.short, env.books, CloseConfigOf(env, cfg));
    hide StartExit, FinishExit, CloseSpec, LegLedger, EntryKnown, Cooperates;
    ClosedMeansOneLegZero(r, reason, env, cfg);
    StartExitFacts(r.pos, reason, env);
  }
}
