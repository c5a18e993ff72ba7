/** Where every path ends: what an opening, a close and one pass of the monitor do to a position in every case, in terms
    of the store's answers and of the orders that were sent. */
module Outcomes {
  import opened Decimals
  import opened Exchange
  import opened Close
  import opened Repair
  import opened Lifecycle
  import P = Portfolio

  // ----- Sides -----

  /** On a leg an order reduces exactly when its side is opposite to the leg. */
  ghost predicate Sided(leg: Leg, side: Side) {
    forall i :: 0 <= i < |leg.log| ==> (leg.log[i].order.reduceOnly <==> leg.log[i].order.side != side)
  }

  ghost predicate AreSided(r: Record) {
    Sided(r.long, Long) && Sided(r.short, Short)
  }

  lemma ServeKeepsSide(leg: Leg, o: Order, side: Side)
    requires Sided(leg, side) && (o.reduceOnly <==> o.side != side)
    ensures Sided(Serve(leg, o), side)
  {
  }

  lemma EnterKeepsSide(leg: Leg, hasExecutor: bool, side: Side, qty: real, price: real)
    requires Sided(leg, side)
    ensures Sided(EnterLeg(leg, hasExecutor, side, qty, price).0, side)
  {
    ServeKeepsSide(leg, Order(side, qty, Some(price), false), side);
  }

  lemma RepairKeepsSides(long: real, short: real, longLeg: Leg, shortLeg: Leg, longExec: bool, shortExec: bool,
                         longPx: real, shortPx: real, tolerance: real)
    requires long >= 0.0 && short >= 0.0 && AnalyzeMismatch(long, short, tolerance).action != RepairNone
    requires Sided(longLeg, Long) && Sided(shortLeg, Short)
    ensures var o := RepairSpec(AnalyzeMismatch(long, short, tolerance), long, short, longLeg, shortLeg,
                                longExec, shortExec, longPx, shortPx, tolerance);
            Sided(o.long, Long) && Sided(o.short, Short)
  {
    MismatchIs(long, short, tolerance);
    RepairIs(long, short, longLeg, shortLeg, longExec, shortExec, longPx, shortPx, tolerance);
    hide RepairSpec, AnalyzeMismatch, Serve, TopUpBooked, ReduceSucceeded, Sided;
    forall o: Order | !o.reduceOnly && o.side == Long ensures Sided(Serve(longLeg, o), Long) {
      ServeKeepsSide(longLeg, o, Long);
    }
    forall o: Order | o.reduceOnly && o.side == Short ensures Sided(Serve(longLeg, o), Long) {
      ServeKeepsSide(longLeg, o, Long);
    }
    forall o: Order | !o.reduceOnly && o.side == Short ensures Sided(Serve(shortLeg, o), Short) {
      ServeKeepsSide(shortLeg, o, Short);
    }
    forall o: Order | o.reduceOnly && o.side == Long ensures Sided(Serve(shortLeg, o), Short) {
      ServeKeepsSide(shortLeg, o, Short);
    }
  }

  lemma {:induction false} RequotesReduce(trades: seq<Trade>, outstanding: real, side: Side)
    requires Requotes(trades, outstanding, side)
    ensures forall i :: 0 <= i < |trades| ==> trades[i].order.reduceOnly && trades[i].order.side == side
  {
    if trades != [] {
      RequotesReduce(trades[1..], outstanding - Booked(trades[0]), side);
      assert forall i :: 0 < i < |trades| ==> trades[i] == trades[1..][i - 1];
    }
  }

  lemma CloseKeepsSides(r: Record, reason: string, env: CloseEnv, cfg: Config)
    requires Sided(r.long, Long) && Sided(r.short, Short)
    ensures var q := ClosePositionSpec(r, reason, env, cfg).0;
            Sided(q.long, Long) && Sided(q.short, Short)
  {
    hide StartExit, FinishExit, CloseSpec, Words;
    var (exiting, ok) := StartExit(r.pos, reason, env);
    var o := CloseSpec(exiting.long, exiting.short, r.long, r.short, env.books, CloseConfigOf(env, cfg));
    var target := Min(exiting.long, exiting.short);
    CloseEnds(exiting.long, exiting.short, r.long, r.short, env.books, CloseConfigOf(env, cfg));
    if target > 0.0 {
      CloseConserves(exiting.long, exiting.short, r.long, r.short, env.books, CloseConfigOf(env, cfg));
      RequotesReduce(TradesSince(r.long, o.long), target, Short);
      RequotesReduce(TradesSince(r.short, o.short), target, Long);
    }
  }

  // ----- Openings -----

  /** A new state if the store takes its record, the old one otherwise. */
  function IfStored(env: OpenEnv, from: P.State, to: P.State): P.State {
    if env.stored(to) then to else from
  }

  /** HEDGED and then MONITORING, as far as the store takes them. */
  function Watching(env: OpenEnv, from: P.State): P.State {
    if env.stored(P.Hedged) then IfStored(env, P.Hedged, P.Monitoring) else from
  }

  predicate IsApart(long: real, short: real, tolerance: real) {
    long - short > tolerance || short - long > tolerance
  }

  /** The record that is left once the entry orders have brought the legs to `l` and `s`, with these fills booked and
      `unknown` if the fate of one of the orders is. */
  ghost predicate SettledAs(r: Record, l: Leg, s: Leg, long: real, short: real, unknown: bool,
                            longPx: real, shortPx: real, env: OpenEnv, cfg: Config)
  {
    if unknown || long == short == 0.0 then
      && r.long == l && r.short == s && r.pos.long == r.pos.short == 0.0
      && r.pos.state == IfStored(env, P.Opening, if unknown then P.Degraded else P.Failed)
    else if !IsApart(long, short, cfg.tolerance) then
      && r.long == l && r.short == s && r.pos.long == long && r.pos.short == short
      && r.pos.state == Watching(env, P.Opening)
    else if !env.stored(P.PartiallyHedged) then
      r.long == l && r.short == s && r.pos.long == long && r.pos.short == short && r.pos.state == P.Opening
    else
      var m := RepairSpec(AnalyzeMismatch(long, short, cfg.tolerance), long, short, l, s, env.longExec, env.shortExec,
                          longPx, shortPx, cfg.tolerance);
      && r.long == m.long && r.short == m.short && r.pos.long == m.longFilled && r.pos.short == m.shortFilled
      && r.pos.state == if IsApart(m.longFilled, m.shortFilled, cfg.tolerance) || m.longFilled == m.shortFilled == 0.0
                        then IfStored(env, P.PartiallyHedged, P.Degraded)
                        else Watching(env, P.PartiallyHedged)
  }

  lemma HedgeIs(p: P.PositionState, long: Leg, short: Leg, env: OpenEnv)
    requires !p.persisting && p.state in {P.Opening, P.PartiallyHedged}
    ensures var r := Hedge(p, long, short, env).rec;
            && r.pos.state == Watching(env, p.state) && r.pos.long == p.long && r.pos.short == p.short
            && r.long == long && r.short == short
  {
    hide Transit;
    TransitFacts(p, P.Hedged, "hedged", env.stored, env.at);
    TransitFacts(Transit(p, P.Hedged, "hedged", env.stored, env.at).0, P.Monitoring, "entering monitoring", env.stored,
                 env.at);
  }

  lemma MendIs(p: P.PositionState, long: Leg, short: Leg, longPx: real, shortPx: real, env: OpenEnv, cfg: Config)
    requires !p.persisting && p.state == P.Opening
    requires IsApart(p.long, p.short, cfg.tolerance) && !(p.long == p.short == 0.0)
    ensures var decision := AnalyzeMismatch(p.long, p.short, cfg.tolerance);
            SettledAs(Mend(p, long, short, decision, longPx, shortPx, env, cfg).rec, long, short, p.long, p.short,
                      false, longPx, shortPx, env, cfg)
  {
    hide Transit, RepairSpec, Hedge, AnalyzeMismatch;
    var decision := AnalyzeMismatch(p.long, p.short, cfg.tolerance);
    TransitFacts(p, P.PartiallyHedged, decision.reason, env.stored, env.at);
    var o := RepairSpec(decision, p.long, p.short, long, short, env.longExec, env.shortExec, longPx, shortPx,
                        cfg.tolerance);
    var r := P.WithQuantities(Transit(p, P.PartiallyHedged, decision.reason, env.stored, env.at).0, o.longFilled,
                              o.shortFilled);
    TransitFacts(r, P.Degraded, "delta mismatch not repaired", env.stored, env.at);
    if env.stored(P.PartiallyHedged) {
      HedgeIs(r, o.long, o.short, env);
    }
  }

  lemma SettleIs(p: P.PositionState, l: Leg, s: Leg, lr: LegAttempt, sr: LegAttempt, longPx: real, shortPx: real,
                 env: OpenEnv, cfg: Config)
    requires !p.persisting && p.state == P.Opening && p.long == p.short == 0.0
    ensures SettledAs(Settle(p, l, s, lr, sr, longPx, shortPx, env, cfg).rec, l, s, lr.filled, sr.filled,
                      lr.ambiguous || sr.ambiguous, longPx, shortPx, env, cfg)
  {
    hide Transit, Mend, Hedge, AnalyzeMismatch, RepairSpec;
    TransitFacts(p, P.Degraded, "entry leg state unknown (ack+query timeout)", env.stored, env.at);
    TransitFacts(p, P.Failed, "no fills on entry", env.stored, env.at);
    var q := P.WithQuantities(p, lr.filled, sr.filled);
    MismatchIs(lr.filled, sr.filled, cfg.tolerance);
    HedgeIs(q, l, s, env);
    if IsApart(lr.filled, sr.filled, cfg.tolerance) && !(lr.filled == sr.filled == 0.0) {
      MendIs(q, l, s, longPx, shortPx, env, cfg);
    }
  }

  /** The quantity of an entry exists exactly when both instruments are known and the target, rounded down to the
      coarser step, is positive and enough for either exchange. */
  lemma EntryQtyIs(env: OpenEnv, cfg: Config)
    ensures EntryQty(env, cfg).Some? <==>
            && env.longInst.Some? && env.shortInst.Some?
            && var li, si := env.longInst.value, env.shortInst.value;
               var qty := Quantize(cfg.targetQty, if li.qtyStep >= si.qtyStep then li.qtyStep else si.qtyStep);
               qty > 0.0 && qty >= li.minQty && qty >= si.minQty
    ensures EntryQty(env, cfg).Some? ==>
            var li, si := env.longInst.value, env.shortInst.value;
            EntryQty(env, cfg).value
              == Quantize(cfg.targetQty, if li.qtyStep >= si.qtyStep then li.qtyStep else si.qtyStep)
  {
  }

  /** How far the entry prices are moved from the quotes. */
  function EntryOffset(env: OpenEnv, cfg: Config): real
    requires env.longInst.Some? && env.shortInst.Some?
  {
    var li, si := env.longInst.value, env.shortInst.value;
    cfg.protectionTicks as real * if li.tickSize >= si.tickSize then li.tickSize else si.tickSize
  }

  /** The leg after its entry order, if there is an executor for it. */
  ghost function Entered(leg: Leg, hasExecutor: bool, o: Order): Leg {
    if hasExecutor then Serve(leg, o) else leg
  }

  ghost function EntryFill(leg: Leg): real {
    if leg.log == [] then 0.0 else Booked(leg.log[0])
  }

  ghost predicate EntryUnknown(leg: Leg) {
    leg.log != [] && Ambiguous(leg.log[0])
  }

  /** The state in which an opening ends that sends no orders. */
  function BeforeOrders(env: OpenEnv, cfg: Config): P.State {
    if EntryQty(env, cfg).None? || !env.stored(P.Qualified) then P.Discovered
    else if !env.stored(P.Preparing) then P.Qualified
    else if !env.stored(P.Opening) then P.Preparing
    else IfStored(env, P.Opening, P.Failed)
  }

  lemma PrepareIs(env: OpenEnv)
    ensures var (p, ok) := Prepare(env);
            && !p.persisting && p.long == p.short == 0.0
            && (ok <==> p.state == P.Opening)
            && p.state == if !env.stored(P.Qualified) then P.Discovered
                          else if !env.stored(P.Preparing) then P.Qualified
                          else if !env.stored(P.Opening) then P.Preparing
                          else P.Opening
  {
    hide Transit;
    TransitFacts(NEW_POSITION, P.Qualified, "passed filters+eligibility", env.stored, env.at);
    var qualified := Transit(NEW_POSITION, P.Qualified, "passed filters+eligibility", env.stored, env.at).0;
    TransitFacts(qualified, P.Preparing, "preflight", env.stored, env.at);
    var preparing := Transit(qualified, P.Preparing, "preflight", env.stored, env.at).0;
    TransitFacts(preparing, P.Opening, "placing entry orders", env.stored, env.at);
  }

  lemma EnterLegIs(leg: Leg, hasExecutor: bool, side: Side, qty: real, price: real)
    requires Fresh(leg) && qty > 0.0
    ensures var (after, a) := EnterLeg(leg, hasExecutor, side, qty, price);
            && after == Entered(leg, hasExecutor, Order(side, qty, Some(price), false))
            && a.filled == EntryFill(after) && (a.ambiguous <==> EntryUnknown(after))
  {
  }

  /** The record that is left by an opening that sends its entry orders on the fresh legs `long` and `short`. */
  ghost predicate EnteredAs(r: Record, long: Leg, short: Leg, env: OpenEnv, cfg: Config)
    requires Enters(env, cfg)
  {
    QtyNeedsInstruments(env, cfg);
    var qty := EntryQty(env, cfg).value;
    var longPx := env.bestAsk.value + EntryOffset(env, cfg);
    var shortPx := env.bestBid.value - EntryOffset(env, cfg);
    var l := Entered(long, env.longExec, Order(Long, qty, Some(longPx), false));
    var s := Entered(short, env.shortExec, Order(Short, qty, Some(shortPx), false));
    SettledAs(r, l, s, EntryFill(l), EntryFill(s), EntryUnknown(l) || EntryUnknown(s), longPx, shortPx, env, cfg)
  }

  /** Every opening. Without a quantity, the three records in front of the orders, or quotes, no order is sent and
      nothing is booked. Otherwise each leg with an executor gets one limit order for the whole quantity, the long one
      at the ask plus the offset and the short one at the bid less it, and what follows depends on the fills alone. */
  lemma OpeningIs(long: Leg, short: Leg, env: OpenEnv, cfg: Config)
    requires Fresh(long) && Fresh(short)
    ensures var r := OpenSpec(long, short, env, cfg).rec;
            if !Enters(env, cfg) then
              && r.long == long && r.short == short && r.pos.long == r.pos.short == 0.0
              && r.pos.state == BeforeOrders(env, cfg)
            else EnteredAs(r, long, short, env, cfg)
  {
    hide Transit, Prepare, EnterLeg, Settle, Entered, EntryFill, EntryUnknown, EntryQty, SettledAs;
    PrepareIs(env);
    TransitFacts(Prepare(env).0, P.Failed, "market data missing at entry", env.stored, env.at);
    if Enters(env, cfg) {
      QtyNeedsInstruments(env, cfg);
      var qty := EntryQty(env, cfg).value;
      ProtectionIs(env, cfg);
      var longPx, shortPx := env.bestAsk.value + EntryOffset(env, cfg), env.bestBid.value - EntryOffset(env, cfg);
      EnterLegIs(long, env.longExec, Long, qty, longPx);
      EnterLegIs(short, env.shortExec, Short, qty, shortPx);
      var (l, lr) := EnterLeg(long, env.longExec, Long, qty, longPx);
      var (s, sr) := EnterLeg(short, env.shortExec, Short, qty, shortPx);
      SettleIs(Prepare(env).0, l, s, lr, sr, longPx, shortPx, env, cfg);
      assert OpenSpec(long, short, env, cfg)
          == Settle(Prepare(env).0, l, s, lr, sr, longPx, shortPx, env, cfg);
    }
  }

  lemma SettledKeepsSides(r: Record, l: Leg, s: Leg, long: real, short: real, unknown: bool,
                          longPx: real, shortPx: real, env: OpenEnv, cfg: Config)
    requires SettledAs(r, l, s, long, short, unknown, longPx, shortPx, env, cfg) && Sided(l, Long) && Sided(s, Short)
    requires long >= 0.0 && short >= 0.0
    ensures Sided(r.long, Long) && Sided(r.short, Short)
  {
    hide Sided, RepairSpec, AnalyzeMismatch;
    MismatchIs(long, short, cfg.tolerance);
    if IsApart(long, short, cfg.tolerance) {
      RepairKeepsSides(long, short, l, s, env.longExec, env.shortExec, longPx, shortPx, cfg.tolerance);
    }
  }

  lemma EnteredIsSided(leg: Leg, hasExecutor: bool, side: Side, qty: real, price: real)
    requires Fresh(leg) && qty > 0.0
    ensures var after := Entered(leg, hasExecutor, Order(side, qty, Some(price), false));
            Sided(after, side) && EntryFill(after) >= 0.0
  {
  }

  lemma EnteredKeepsSides(r: Record, long: Leg, short: Leg, env: OpenEnv, cfg: Config)
    requires Fresh(long) && Fresh(short) && Enters(env, cfg) && EnteredAs(r, long, short, env, cfg)
    ensures Sided(r.long, Long) && Sided(r.short, Short)
  {
    hide EntryQty, Entered, EntryFill, EntryUnknown, SettledAs, EntryOffset, Sided;
    QtyNeedsInstruments(env, cfg);
    var qty := EntryQty(env, cfg).value;
    var longPx, shortPx := env.bestAsk.value + EntryOffset(env, cfg), env.bestBid.value - EntryOffset(env, cfg);
    EnteredIsSided(long, env.longExec, Long, qty, longPx);
    EnteredIsSided(short, env.shortExec, Short, qty, shortPx);
    var l := Entered(long, env.longExec, Order(Long, qty, Some(longPx), false));
    var s := Entered(short, env.shortExec, Order(Short, qty, Some(shortPx), false));
    SettledKeepsSides(r, l, s, EntryFill(l), EntryFill(s), EntryUnknown(l) || EntryUnknown(s), longPx, shortPx, env,
                      cfg);
  }

  lemma OpeningIsSided(long: Leg, short: Leg, env: OpenEnv, cfg: Config)
    requires Fresh(long) && Fresh(short)
    ensures var r := OpenSpec(long, short, env, cfg).rec;
            Sided(r.long, Long) && Sided(r.short, Short)
  {
    OpeningIs(long, short, env, cfg);
    hide OpenSpec, EntryQty, EnteredAs;
    if Enters(env, cfg) {
      EnteredKeepsSides(OpenSpec(long, short, env, cfg).rec, long, short, env, cfg);
    }
  }

  // ----- Closes -----

  /** The record of a close that has sent its orders: state and effect by the error of the coordinated close. */
  function AfterClose(env: CloseEnv, err: CloseError): (P.State, CloseEffect) {
    match err
    case NoError =>
      if !env.stored(P.Reconciling) then (P.Exiting, Kept)
      else if !env.stored(P.Closed) then (P.Reconciling, Kept)
      else (P.Closed, Forgotten)
    case CloseAmbiguous =>
      (if env.stored(P.Degraded) then P.Degraded
       else if env.stored(P.Reconciling) then P.Reconciling else P.Exiting, Handled)
    case CloseIncomplete => (if env.stored(P.Degraded) then P.Degraded else P.Exiting, Handled)
  }

  lemma FinishIs(p: P.PositionState, err: CloseError, why: string, reason: string, env: CloseEnv)
    requires !p.persisting && p.state == P.Exiting
    ensures var (q, effect) := FinishExit(p, err, why, reason, env);
            && (q.state, effect) == AfterClose(env, err) && q.long == p.long && q.short == p.short
  {
    hide Transit;
    TransitFacts(p, P.Reconciling, "close complete, verifying", env.stored, env.at);
    TransitFacts(Transit(p, P.Reconciling, "close complete, verifying", env.stored, env.at).0, P.Closed, reason,
                 env.stored, env.at);
    TransitFacts(p, P.Reconciling, why, env.stored, env.at);
    TransitFacts(Transit(p, P.Reconciling, why, env.stored, env.at).0, P.Degraded,
                 "ambiguous close: manual reconciliation required", env.stored, env.at);
    TransitFacts(p, P.Degraded, why, env.stored, env.at);
  }

  /** Every close of a watched or degraded position. Without symbols or the record of EXIT_REQUESTED nothing happens,
      without that of EXITING only the state changes. Otherwise the coordinated close runs on what the books hold, its
      fills are booked, and its error decides. */
  lemma ClosingIs(r: Record, reason: string, env: CloseEnv, cfg: Config)
    requires !r.pos.persisting && (r.pos.state == P.Monitoring || r.pos.state == P.Degraded)
    ensures var (q, effect) := ClosePositionSpec(r, reason, env, cfg);
            if !env.resolved || !env.stored(P.ExitRequested) then q == r && effect == Kept
            else if !env.stored(P.Exiting) then
              && q.pos.state == P.ExitRequested && effect == Kept
              && q.pos.long == r.pos.long && q.pos.short == r.pos.short && q.long == r.long && q.short == r.short
            else
              var o := CloseSpec(r.pos.long, r.pos.short, r.long, r.short, env.books,
                                 CloseConfig(cfg.protectionTicks, cfg.maxRequotes, env.tickSize));
              && q.long == o.long && q.short == o.short
              && q.pos.long == r.pos.long - o.result.longClosed && q.pos.short == r.pos.short - o.result.shortClosed
              && (q.pos.state, effect) == AfterClose(env, o.err)
  {
    hide StartExit, FinishExit, CloseSpec, Words, AfterClose;
    StartExitIs(r.pos, reason, env);
    var (exiting, ok) := StartExit(r.pos, reason, env);
    if env.resolved && ok {
      var o := CloseSpec(exiting.long, exiting.short, r.long, r.short, env.books, CloseConfigOf(env, cfg));
      FinishIs(P.WithQuantities(exiting, exiting.long - o.result.longClosed, exiting.short - o.result.shortClosed),
               o.err, Words(o.result.reason), reason, env);
    }
  }

  lemma StartExitIs(p: P.PositionState, reason: string, env: CloseEnv)
    requires !p.persisting && (p.state == P.Monitoring || p.state == P.Degraded)
    ensures var (q, ok) := StartExit(p, reason, env);
            && !q.persisting && q.long == p.long && q.short == p.short
            && (ok <==> env.stored(P.ExitRequested) && env.stored(P.Exiting))
            && (!env.stored(P.ExitRequested) ==> q == p)
            && (env.stored(P.ExitRequested) ==> q.state == IfStoredAt(env, P.ExitRequested, P.Exiting))
  {
    hide Transit;
    TransitFacts(p, P.ExitRequested, reason, env.stored, env.at);
    TransitFacts(Transit(p, P.ExitRequested, reason, env.stored, env.at).0, P.Exiting, reason, env.stored, env.at);
  }

  function IfStoredAt(env: CloseEnv, from: P.State, to: P.State): P.State {
    if env.stored(to) then to else from
  }

  /** A close whose two exit records are stored ends DEGRADED exactly when it left something on a leg and DEGRADED is
      stored; with a store that accepts everything it ends CLOSED or DEGRADED, CLOSED exactly when nothing was left; and
      the request is dropped exactly when something was left or CLOSED was reached. */
  lemma CloseDegradesIff(r: Record, reason: string, env: CloseEnv, cfg: Config)
    requires BookInvariant(cfg.tolerance, r) && (r.pos.state == P.Monitoring || r.pos.state == P.Degraded)
    requires env.resolved && env.stored(P.ExitRequested) && env.stored(P.Exiting)
    ensures var (q, effect) := ClosePositionSpec(r, reason, env, cfg);
            var T := Min(r.pos.long, r.pos.short);
            var left := r.pos.long - q.pos.long < T || r.pos.short - q.pos.short < T;
            && (q.pos.state == P.Degraded <==> left && env.stored(P.Degraded))
            && ((forall s :: env.stored(s)) ==> q.pos.state == if left then P.Degraded else P.Closed)
            && (effect != Kept <==> left || q.pos.state == P.Closed)
            && (effect == Forgotten <==> q.pos.state == P.Closed)
  {
    ClosingIs(r, reason, env, cfg);
    LedgerIsNonNegative(EntryKnown(r), r.pos.long, r.long);
    LedgerIsNonNegative(EntryKnown(r), r.pos.short, r.short);
    hide ClosePositionSpec, CloseSpec, BookInvariant, AfterClose;
    AfterCloseFacts(env, CloseSpec(r.pos.long, r.pos.short, r.long, r.short, env.books,
                                   CloseConfig(cfg.protectionTicks, cfg.maxRequotes, env.tickSize)).err);
    LeftIffError(r.pos.long, r.pos.short, r.long, r.short, env.books,
                 CloseConfig(cfg.protectionTicks, cfg.maxRequotes, env.tickSize));
  }

  lemma AfterCloseFacts(env: CloseEnv, err: CloseError)
    ensures var (state, effect) := AfterClose(env, err);
            && (state == P.Degraded <==> err != NoError && env.stored(P.Degraded))
            && (env.stored(P.Reconciling) && env.stored(P.Closed) && env.stored(P.Degraded) ==>
                  state == if err == NoError then P.Closed else P.Degraded)
            && (effect != Kept <==> err != NoError || state == P.Closed)
            && (effect == Forgotten <==> state == P.Closed)
  {
  }

  lemma LeftIffError(long: real, short: real, longLeg: Leg, shortLeg: Leg, books: Books, cfg: CloseConfig)
    requires long >= 0.0 && short >= 0.0
    ensures var o := CloseSpec(long, short, longLeg, shortLeg, books, cfg);
            var T := Min(long, short);
            o.err != NoError <==> o.result.longClosed < T || o.result.shortClosed < T
  {
    hide CloseSpec, LegAccount, EndsAs;
    if Min(long, short) > 0.0 {
      CloseConserves(long, short, longLeg, shortLeg, books, cfg);
    } else {
      CloseEnds(long, short, longLeg, shortLeg, books, cfg);
    }
  }

  // ----- What is recorded -----

  /** A transition as it is recorded: where to and why. */
  datatype Step = Step(to: P.State, why: string)

  function StepsOf(history: seq<P.Transition>): (steps: seq<Step>)
    ensures |steps| == |history|
  {
    seq(|history|, i requires 0 <= i < |history| => Step(history[i].to, history[i].reason))
  }

  /** After `before`, exactly these steps were recorded. */
  ghost predicate Records(before: P.PositionState, after: P.PositionState, steps: seq<Step>) {
    StepsOf(after.history) == StepsOf(before.history) + steps
  }

  lemma StepsLength(before: seq<P.Transition>, after: seq<P.Transition>, steps: seq<Step>)
    requires StepsOf(after) == StepsOf(before) + steps
    ensures |after| == |before| + |steps|
  {
  }

  /** A transition that succeeds appends one record with its time and the engine as its actor; one that fails appends
      none. */
  lemma TransitRecords(p: P.PositionState, to: P.State, why: string, stored: P.State -> bool, at: int)
    requires !p.persisting
    ensures var (q, ok) := Transit(p, to, why, stored, at);
            && q.history == p.history + (if ok then [P.Transition(p.state, to, at, why, "system:engine")] else [])
            && Records(p, q, if ok then [Step(to, why)] else [])
  {
    TransitFacts(p, to, why, stored, at);
    hide P.CanTransition;
    assert p.history + [] == p.history;
  }

  lemma RecordsFollow(a: P.PositionState, b: P.PositionState, c: P.PositionState, first: seq<Step>, second: seq<Step>)
    requires Records(a, b, first) && Records(b, c, second)
    ensures Records(a, c, first + second)
  {
    assert StepsOf(a.history) + (first + second) == (StepsOf(a.history) + first) + second;
  }

  /** What is recorded once the coordinated close has returned. */
  function FinishSteps(env: CloseEnv, err: CloseError, why: string, reason: string): seq<Step> {
    match err
    case NoError =>
      if !env.stored(P.Reconciling) then []
      else [Step(P.Reconciling, "close complete, verifying")]
           + if env.stored(P.Closed) then [Step(P.Closed, reason)] else []
    case CloseAmbiguous =>
      (if env.stored(P.Reconciling) then [Step(P.Reconciling, why)] else [])
      + if env.stored(P.Degraded) then [Step(P.Degraded, "ambiguous close: manual reconciliation required")] else []
    case CloseIncomplete => if env.stored(P.Degraded) then [Step(P.Degraded, why)] else []
  }

  function CloseSteps(r: Record, reason: string, env: CloseEnv, cfg: Config): seq<Step> {
    if !env.resolved || !env.stored(P.ExitRequested) then []
    else if !env.stored(P.Exiting) then [Step(P.ExitRequested, reason)]
    else
      var o := CloseSpec(r.pos.long, r.pos.short, r.long, r.short, env.books,
                         CloseConfig(cfg.protectionTicks, cfg.maxRequotes, env.tickSize));
      [Step(P.ExitRequested, reason), Step(P.Exiting, reason)]
      + FinishSteps(env, o.err, Words(o.result.reason), reason)
  }

  lemma FinishTrail(p: P.PositionState, err: CloseError, why: string, reason: string, env: CloseEnv)
    requires !p.persisting && p.state == P.Exiting
    ensures Records(p, FinishExit(p, err, why, reason, env).0, FinishSteps(env, err, why, reason))
  {
    hide Transit, Records;
    var lost := "ambiguous close: manual reconciliation required";
    var first := if err == NoError then "close complete, verifying" else why;
    var mid := Transit(p, P.Reconciling, first, env.stored, env.at).0;
    TransitFacts(p, P.Reconciling, first, env.stored, env.at);
    TransitRecords(p, P.Reconciling, first, env.stored, env.at);
    var steps := if env.stored(P.Reconciling) then [Step(P.Reconciling, first)] else [];
    match err
    case NoError =>
      TransitFacts(mid, P.Closed, reason, env.stored, env.at);
      TransitRecords(mid, P.Closed, reason, env.stored, env.at);
      var ok := Transit(mid, P.Closed, reason, env.stored, env.at).1;
      var last := if ok then [Step(P.Closed, reason)] else [];
      RecordsFollow(p, mid, Transit(mid, P.Closed, reason, env.stored, env.at).0, steps, last);
    case CloseAmbiguous =>
      TransitFacts(mid, P.Degraded, lost, env.stored, env.at);
      TransitRecords(mid, P.Degraded, lost, env.stored, env.at);
      var last := if env.stored(P.Degraded) then [Step(P.Degraded, lost)] else [];
      RecordsFollow(p, mid, Transit(mid, P.Degraded, lost, env.stored, env.at).0, steps, last);
    case CloseIncomplete =>
      TransitFacts(p, P.Degraded, why, env.stored, env.at);
      TransitRecords(p, P.Degraded, why, env.stored, env.at);
  }

  lemma StartTrail(p: P.PositionState, reason: string, env: CloseEnv)
    requires !p.persisting && (p.state == P.Monitoring || p.state == P.Degraded)
    ensures Records(p, StartExit(p, reason, env).0,
                    if !env.stored(P.ExitRequested) then []
                    else if !env.stored(P.Exiting) then [Step(P.ExitRequested, reason)]
                    else [Step(P.ExitRequested, reason), Step(P.Exiting, reason)])
  {
    hide Transit, Records;
    TransitFacts(p, P.ExitRequested, reason, env.stored, env.at);
    TransitRecords(p, P.ExitRequested, reason, env.stored, env.at);
    if env.stored(P.ExitRequested) {
      var mid := Transit(p, P.ExitRequested, reason, env.stored, env.at).0;
      TransitFacts(mid, P.Exiting, reason, env.stored, env.at);
      TransitRecords(mid, P.Exiting, reason, env.stored, env.at);
      var last := if env.stored(P.Exiting) then [Step(P.Exiting, reason)] else [];
      RecordsFollow(p, mid, Transit(mid, P.Exiting, reason, env.stored, env.at).0, [Step(P.ExitRequested, reason)],
                    last);
      assert [Step(P.ExitRequested, reason)] + last
          == if env.stored(P.Exiting) then [Step(P.ExitRequested, reason), Step(P.Exiting, reason)]
             else [Step(P.ExitRequested, reason)];
    }
  }

  /** The records of a close, in every case: the request and the exit for the given reason, and then what the
      coordinated close came to, in its words. */
  lemma CloseTrail(r: Record, reason: string, env: CloseEnv, cfg: Config)
    requires !r.pos.persisting && (r.pos.state == P.Monitoring || r.pos.state == P.Degraded)
    ensures Records(r.pos, ClosePositionSpec(r, reason, env, cfg).0.pos, CloseSteps(r, reason, env, cfg))
  {
    hide StartExit, FinishExit, CloseSpec, Records, FinishSteps, Words;
    StartExitIs(r.pos, reason, env);
    StartTrail(r.pos, reason, env);
    var (exiting, ok) := StartExit(r.pos, reason, env);
    NothingRecorded(r.pos);
    if env.resolved && ok {
      var o := CloseSpec(exiting.long, exiting.short, r.long, r.short, env.books, CloseConfigOf(env, cfg));
      var booked := P.WithQuantities(exiting, exiting.long - o.result.longClosed,
                                     exiting.short - o.result.shortClosed);
      FinishTrail(booked, o.err, Words(o.result.reason), reason, env);
      SameRecords(exiting, booked);
      RecordsFollow(exiting, booked, FinishExit(booked, o.err, Words(o.result.reason), reason, env).0, [],
                    FinishSteps(env, o.err, Words(o.result.reason), reason));
      var first, second := [Step(P.ExitRequested, reason), Step(P.Exiting, reason)],
                           FinishSteps(env, o.err, Words(o.result.reason), reason);
      assert [] + second == second;
      RecordsFollow(r.pos, exiting, FinishExit(booked, o.err, Words(o.result.reason), reason, env).0, first, second);
    }
  }

  lemma NothingRecorded(p: P.PositionState)
    ensures Records(p, p, [])
  {
  }

  lemma SameRecords(p: P.PositionState, q: P.PositionState)
    requires p.history == q.history
    ensures Records(p, q, [])
  {
  }

  function Taken(env: OpenEnv, to: P.State, why: string): seq<Step> {
    if env.stored(to) then [Step(to, why)] else []
  }

  function WatchSteps(env: OpenEnv): seq<Step> {
    if env.stored(P.Hedged) then [Step(P.Hedged, "hedged")] + Taken(env, P.Monitoring, "entering monitoring") else []
  }

  /** What is recorded after the entry orders have returned. */
  ghost function SettledSteps(l: Leg, s: Leg, long: real, short: real, unknown: bool, longPx: real, shortPx: real,
                              env: OpenEnv, cfg: Config): seq<Step>
  {
    if unknown then Taken(env, P.Degraded, "entry leg state unknown (ack+query timeout)")
    else if long == short == 0.0 then Taken(env, P.Failed, "no fills on entry")
    else if !IsApart(long, short, cfg.tolerance) then WatchSteps(env)
    else if !env.stored(P.PartiallyHedged) then []
    else
      var m := RepairSpec(AnalyzeMismatch(long, short, cfg.tolerance), long, short, l, s, env.longExec, env.shortExec,
                          longPx, shortPx, cfg.tolerance);
      [Step(P.PartiallyHedged, if long > short then "short leg underfilled, attempt top-up"
                               else "long leg underfilled, attempt top-up")]
      + if IsApart(m.longFilled, m.shortFilled, cfg.tolerance) || m.longFilled == m.shortFilled == 0.0
        then Taken(env, P.Degraded, "delta mismatch not repaired") else WatchSteps(env)
  }

  function PrepareSteps(env: OpenEnv): seq<Step> {
    if !env.stored(P.Qualified) then []
    else if !env.stored(P.Preparing) then [Step(P.Qualified, "passed filters+eligibility")]
    else [Step(P.Qualified, "passed filters+eligibility"), Step(P.Preparing, "preflight")]
         + Taken(env, P.Opening, "placing entry orders")
  }

  lemma HedgeTrail(p: P.PositionState, long: Leg, short: Leg, env: OpenEnv)
    requires !p.persisting && p.state in {P.Opening, P.PartiallyHedged}
    ensures Records(p, Hedge(p, long, short, env).rec.pos, WatchSteps(env))
  {
    hide Transit, Records;
    TransitFacts(p, P.Hedged, "hedged", env.stored, env.at);
    TransitRecords(p, P.Hedged, "hedged", env.stored, env.at);
    if env.stored(P.Hedged) {
      var hedged := Transit(p, P.Hedged, "hedged", env.stored, env.at).0;
      TransitFacts(hedged, P.Monitoring, "entering monitoring", env.stored, env.at);
      TransitRecords(hedged, P.Monitoring, "entering monitoring", env.stored, env.at);
      RecordsFollow(p, hedged, Transit(hedged, P.Monitoring, "entering monitoring", env.stored, env.at).0,
                    [Step(P.Hedged, "hedged")], Taken(env, P.Monitoring, "entering monitoring"));
    }
  }

  lemma MendTrail(p: P.PositionState, long: Leg, short: Leg, longPx: real, shortPx: real, env: OpenEnv, cfg: Config)
    requires !p.persisting && p.state == P.Opening
    requires IsApart(p.long, p.short, cfg.tolerance) && !(p.long == p.short == 0.0)
    ensures var decision := AnalyzeMismatch(p.long, p.short, cfg.tolerance);
            Records(p, Mend(p, long, short, decision, longPx, shortPx, env, cfg).rec.pos,
                    SettledSteps(long, short, p.long, p.short, false, longPx, shortPx, env, cfg))
  {
    hide Transit, RepairSpec, Hedge, Records, WatchSteps;
    var decision := AnalyzeMismatch(p.long, p.short, cfg.tolerance);
    var partial := Transit(p, P.PartiallyHedged, decision.reason, env.stored, env.at).0;
    TransitFacts(p, P.PartiallyHedged, decision.reason, env.stored, env.at);
    TransitRecords(p, P.PartiallyHedged, decision.reason, env.stored, env.at);
    if env.stored(P.PartiallyHedged) {
      var o := RepairSpec(decision, p.long, p.short, long, short, env.longExec, env.shortExec, longPx, shortPx,
                          cfg.tolerance);
      var r := P.WithQuantities(partial, o.longFilled, o.shortFilled);
      SameRecords(partial, r);
      var first := [Step(P.PartiallyHedged, decision.reason)];
      RecordsFollow(p, partial, r, first, []);
      assert first + [] == first;
      var steps := SettledSteps(long, short, p.long, p.short, false, longPx, shortPx, env, cfg);
      var end := Mend(p, long, short, decision, longPx, shortPx, env, cfg).rec.pos;
      hide AnalyzeMismatch;
      TransitFacts(r, P.Degraded, "delta mismatch not repaired", env.stored, env.at);
      TransitRecords(r, P.Degraded, "delta mismatch not repaired", env.stored, env.at);
      if IsApart(o.longFilled, o.shortFilled, cfg.tolerance) || o.longFilled == o.shortFilled == 0.0 {
        assert end == Transit(r, P.Degraded, "delta mismatch not repaired", env.stored, env.at).0;
        assert steps == first + Taken(env, P.Degraded, "delta mismatch not repaired");
        RecordsFollow(p, r, end, first, Taken(env, P.Degraded, "delta mismatch not repaired"));
      } else {
        HedgeTrail(r, o.long, o.short, env);
        assert end == Hedge(r, o.long, o.short, env).rec.pos && steps == first + WatchSteps(env);
        RecordsFollow(p, r, end, first, WatchSteps(env));
      }
    }
  }

  lemma SettleTrail(p: P.PositionState, l: Leg, s: Leg, lr: LegAttempt, sr: LegAttempt, longPx: real, shortPx: real,
                    env: OpenEnv, cfg: Config)
    requires !p.persisting && p.state == P.Opening && p.long == p.short == 0.0
    ensures Records(p, Settle(p, l, s, lr, sr, longPx, shortPx, env, cfg).rec.pos,
                    SettledSteps(l, s, lr.filled, sr.filled, lr.ambiguous || sr.ambiguous, longPx, shortPx, env, cfg))
  {
    hide Transit, Mend, Hedge, AnalyzeMismatch, RepairSpec, Records, WatchSteps;
    TransitFacts(p, P.Degraded, "entry leg state unknown (ack+query timeout)", env.stored, env.at);
    TransitRecords(p, P.Degraded, "entry leg state unknown (ack+query timeout)", env.stored, env.at);
    TransitFacts(p, P.Failed, "no fills on entry", env.stored, env.at);
    TransitRecords(p, P.Failed, "no fills on entry", env.stored, env.at);
    if !lr.ambiguous && !sr.ambiguous && !(lr.filled == sr.filled == 0.0) {
      var q := P.WithQuantities(p, lr.filled, sr.filled);
      SameRecords(p, q);
      MismatchIs(lr.filled, sr.filled, cfg.tolerance);
      var steps := SettledSteps(l, s, lr.filled, sr.filled, false, longPx, shortPx, env, cfg);
      if IsApart(lr.filled, sr.filled, cfg.tolerance) {
        MendTrail(q, l, s, longPx, shortPx, env, cfg);
      } else {
        HedgeTrail(q, l, s, env);
      }
      RecordsFollow(p, q, Settle(p, l, s, lr, sr, longPx, shortPx, env, cfg).rec.pos, [], steps);
      assert [] + steps == steps;
    }
  }

  lemma PrepareTrail(env: OpenEnv)
    ensures Records(NEW_POSITION, Prepare(env).0, PrepareSteps(env))
  {
    hide Transit, Records;
    var q, r, o := "passed filters+eligibility", "preflight", "placing entry orders";
    NothingRecorded(NEW_POSITION);
    TransitFacts(NEW_POSITION, P.Qualified, q, env.stored, env.at);
    TransitRecords(NEW_POSITION, P.Qualified, q, env.stored, env.at);
    if env.stored(P.Qualified) {
      var qualified := Transit(NEW_POSITION, P.Qualified, q, env.stored, env.at).0;
      TransitFacts(qualified, P.Preparing, r, env.stored, env.at);
      TransitRecords(qualified, P.Preparing, r, env.stored, env.at);
      if env.stored(P.Preparing) {
        var preparing := Transit(qualified, P.Preparing, r, env.stored, env.at).0;
        RecordsFollow(NEW_POSITION, qualified, preparing, [Step(P.Qualified, q)], [Step(P.Preparing, r)]);
        assert [Step(P.Qualified, q)] + [Step(P.Preparing, r)] == [Step(P.Qualified, q), Step(P.Preparing, r)];
        TransitFacts(preparing, P.Opening, o, env.stored, env.at);
        TransitRecords(preparing, P.Opening, o, env.stored, env.at);
        RecordsFollow(NEW_POSITION, preparing, Transit(preparing, P.Opening, o, env.stored, env.at).0,
                      [Step(P.Qualified, q), Step(P.Preparing, r)], Taken(env, P.Opening, o));
      }
    }
  }

  /** The records of an opening, in every case. */
  ghost function OpeningSteps(long: Leg, short: Leg, env: OpenEnv, cfg: Config): seq<Step> {
    if EntryQty(env, cfg).None? then []
    else if !(env.stored(P.Qualified) && env.stored(P.Preparing) && env.stored(P.Opening)) then PrepareSteps(env)
    else if env.bestAsk.None? || env.bestBid.None? then
      PrepareSteps(env) + Taken(env, P.Failed, "market data missing at entry")
    else
      QtyNeedsInstruments(env, cfg);
      var qty := EntryQty(env, cfg).value;
      var longPx := env.bestAsk.value + EntryOffset(env, cfg);
      var shortPx := env.bestBid.value - EntryOffset(env, cfg);
      var l := Entered(long, env.longExec, Order(Long, qty, Some(longPx), false));
      var s := Entered(short, env.shortExec, Order(Short, qty, Some(shortPx), false));
      PrepareSteps(env)
      + SettledSteps(l, s, EntryFill(l), EntryFill(s), EntryUnknown(l) || EntryUnknown(s), longPx, shortPx, env, cfg)
  }

  /** The history of a position after its opening is exactly that. */
  lemma OpeningTrail(long: Leg, short: Leg, env: OpenEnv, cfg: Config)
    requires Fresh(long) && Fresh(short)
    ensures StepsOf(OpenSpec(long, short, env, cfg).rec.pos.history) == OpeningSteps(long, short, env, cfg)
  {
    hide Transit, Prepare, EnterLeg, Settle, Entered, EntryFill, EntryUnknown, EntryQty, SettledSteps, PrepareSteps;
    PrepareIs(env);
    PrepareTrail(env);
    var p := Prepare(env).0;
    var why := "market data missing at entry";
    TransitFacts(p, P.Failed, why, env.stored, env.at);
    if EntryQty(env, cfg).Some? && p.state == P.Opening {
      if env.bestAsk.None? || env.bestBid.None? {
        TransitRecords(p, P.Failed, why, env.stored, env.at);
        RecordsFollow(NEW_POSITION, p, Transit(p, P.Failed, why, env.stored, env.at).0, PrepareSteps(env),
                      Taken(env, P.Failed, why));
      } else {
        QtyNeedsInstruments(env, cfg);
        ProtectionIs(env, cfg);
        var qty := EntryQty(env, cfg).value;
        var longPx, shortPx := env.bestAsk.value + EntryOffset(env, cfg), env.bestBid.value - EntryOffset(env, cfg);
        EnterLegIs(long, env.longExec, Long, qty, longPx);
        EnterLegIs(short, env.shortExec, Short, qty, shortPx);
        var (l, lr) := EnterLeg(long, env.longExec, Long, qty, longPx);
        var (s, sr) := EnterLeg(short, env.shortExec, Short, qty, shortPx);
        SettleTrail(p, l, s, lr, sr, longPx, shortPx, env, cfg);
        var steps := SettledSteps(l, s, lr.filled, sr.filled, lr.ambiguous || sr.ambiguous, longPx, shortPx, env, cfg);
        RecordsFollow(NEW_POSITION, p, Settle(p, l, s, lr, sr, longPx, shortPx, env, cfg).rec.pos, PrepareSteps(env),
                      steps);
        assert OpeningSteps(long, short, env, cfg) == PrepareSteps(env) + steps;
      }
    }
  }

  // ----- The monitor -----

  /** Whether a position is to be closed now: it is watched, and the operator asked for it or the exit on a flipped
      spread is configured and the spread has flipped; or it is degraded and the operator asked. */
  predicate IsToClose(state: P.State, requested: Option<string>, flipped: bool, cfg: Config) {
    || (state == P.Monitoring && (requested.Some? || (flipped && cfg.exitIfFundingSignChanges)))
    || (state == P.Degraded && requested.Some?)
  }

  /** One pass of the monitor over a position: it is closed, for the operator's reason if there is one; or, if it has
      ended, it is dropped; or nothing about it changes, and its request stays. With known symbols and a store that
      takes EXIT_REQUESTED something is recorded exactly when the position is to be closed. */
  lemma MonitorActsIff(r: Record, requested: Option<string>, flipped: bool, env: CloseEnv, cfg: Config)
    requires BookInvariant(cfg.tolerance, r)
    ensures var (q, effect) := MonitorSpec(r, requested, flipped, env, cfg);
            && (!IsToClose(r.pos.state, requested, flipped, cfg) ==>
                  q == r && effect == if r.pos.state in {P.Closed, P.Failed} then Forgotten else Kept)
            && (IsToClose(r.pos.state, requested, flipped, cfg) ==>
                  (q, effect) == ClosePositionSpec(r, if requested.Some? then requested.value
                                                      else "funding spread sign changed", env, cfg))
            && (env.resolved && env.stored(P.ExitRequested) ==>
                  (|q.pos.history| > |r.pos.history| <==> IsToClose(r.pos.state, requested, flipped, cfg)))
            && (env.resolved && (forall s :: env.stored(s)) && r.pos.state == P.Monitoring ==>
                  (q.pos.state != P.Monitoring <==>
                     requested.Some? || (flipped && cfg.exitIfFundingSignChanges)))
  {
    hide ClosePositionSpec, BookInvariant;
    var reason := if requested.Some? then requested.value else "funding spread sign changed";
    if r.pos.state == P.Monitoring || r.pos.state == P.Degraded {
      NotPersisting(r, cfg);
      ClosingIs(r, reason, env, cfg);
      CloseTrail(r, reason, env, cfg);
      hide CloseSteps;
      StepsLength(r.pos.history, ClosePositionSpec(r, reason, env, cfg).0.pos.history,
                  CloseSteps(r, reason, env, cfg));
      if env.resolved && env.stored(P.ExitRequested) {
        SomethingIsRecorded(r, reason, env, cfg);
      }
    }
  }

  lemma SomethingIsRecorded(r: Record, reason: string, env: CloseEnv, cfg: Config)
    requires env.resolved && env.stored(P.ExitRequested)
    ensures CloseSteps(r, reason, env, cfg) != []
  {
  }

  lemma NotPersisting(r: Record, cfg: Config)
    requires BookInvariant(cfg.tolerance, r)
    ensures !r.pos.persisting
  {
  }

  lemma {:induction false} LiveKeepsSides(r: Record, events: seq<Event>, cfg: Config)
    requires Sided(r.long, Long) && Sided(r.short, Short)
    ensures var q := Live(r, events, cfg);
            Sided(q.long, Long) && Sided(q.short, Short)
    decreases events
  {
    hide Sided, ClosePositionSpec;
    if events != [] {
      var e := events[0];
      CloseKeepsSides(r, "funding spread sign changed", e.env, cfg);
      if e.requested.Some? {
        CloseKeepsSides(r, e.requested.value, e.env, cfg);
      }
      LiveKeepsSides(MonitorSpec(r, e.requested, e.flipped, e.env, cfg).0, events[1..], cfg);
    }
  }

  /** Over every life, an order on a leg is reduce-only exactly when its side is opposite to the leg: entries and
      top-ups buy on the long leg and sell on the short one, repairs and exits do the reverse. */
  lemma LifeIsSided(r: Record, cfg: Config)
    requires IsLife(cfg, r)
    ensures Sided(r.long, Long) && Sided(r.short, Short)
  {
    hide OpenSpec, Live, Sided;
    var long, short, open, events :| IsLifeOf(cfg, r, long, short, open, events);
    OpeningIsSided(long, short, open, cfg);
    LiveKeepsSides(OpenSpec(long, short, open, cfg).rec, events, cfg);
  }

  /** A flipped spread closes a position without any request, when the exit is configured and the legs cooperate. */
  lemma FlipCloses(r: Record, env: CloseEnv, cfg: Config)
    requires BookInvariant(cfg.tolerance, r) && r.pos.state == P.Monitoring && cfg.exitIfFundingSignChanges
    requires env.resolved && cfg.maxRequotes >= 0 && forall s :: env.stored(s)
    requires var T := Min(r.pos.long, r.pos.short);
             && T > 0.0 && env.books.bestBid(0).Some? && env.books.bestAsk(0).Some?
             && Cooperates(r.long, T) && Cooperates(r.short, T) && T <= r.long.exposure && T <= r.short.exposure
    ensures var T := Min(r.pos.long, r.pos.short);
            var (q, effect) := MonitorSpec(r, None, true, env, cfg);
            && q.pos.state == P.Closed && effect == Forgotten
            && q.long.exposure == r.long.exposure - T && q.short.exposure == r.short.exposure - T
            && MonitorSpec(r, None, false, env, cfg) == (r, Kept)
  {
    MonitorActsIff(r, None, true, env, cfg);
    ClosingIs(r, "funding spread sign changed", env, cfg);
    var cc := CloseConfig(cfg.protectionTicks, cfg.maxRequotes, env.tickSize);
    CooperativeCloseSucceeds(r.pos.long, r.pos.short, r.long, r.short, env.books, cc);
  }
}
