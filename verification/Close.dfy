/** `CoordinatedClose`: the bounded requote loop that shrinks both legs by the same target. */
module Close {
  import opened Decimals
  import opened Exchange

  datatype CloseConfig = CloseConfig(protectionTicks: int, maxRequotes: int, tickSize: real)

  datatype Reason =
    | NoReason
    | NoLongBid
    | NoShortAsk
    | LegStateUnknown(long: bool, short: bool)
    | BothLegsFailed
    | RequotesExhausted

  /** The reason in words, as it is recorded with the position. */
  function Words(reason: Reason): string {
    match reason
    case NoReason => ""
    case NoLongBid => "no long bid for close price"
    case NoShortAsk => "no short ask for close price"
    case LegStateUnknown(long, short) =>
      (if long && short then "both" else if short then "short" else "long")
      + " leg state unknown (ack+query timeout)"
    case BothLegsFailed => "both legs failed during close"
    case RequotesExhausted => "max requotes exhausted with residual"
  }

  datatype CloseResult = CloseResult(
    longClosed: real, shortClosed: real,
    residualLong: real, residualShort: real,
    degraded: bool, reason: Reason)

  datatype CloseError = NoError | CloseIncomplete | CloseAmbiguous

  /** What the book providers answer at each attempt. */
  datatype Books = Books(bestBid: nat -> Option<real>, bestAsk: nat -> Option<real>)

  datatype LegAttempt = LegAttempt(filled: real, ambiguous: bool, err: Option<Error>)

  const IDLE := LegAttempt(0.0, false, None)

  datatype CloseState = CloseState(
    longLeft: real, shortLeft: real,
    longClosed: real, shortClosed: real,
    long: Leg, short: Leg)

  datatype CloseOutcome = CloseOutcome(result: CloseResult, err: CloseError, long: Leg, short: Leg)

  /** How `placeCloseLeg` reads the outcome of `Place`, booking at most `capQty`. */
  function Classify(r: Result<PlaceResult, Error>, capQty: real): LegAttempt {
    match r
    case Ok(p) => LegAttempt(if p.filled > capQty then capQty else p.filled, false, None)
    case Err(e) =>
      if e == OrderNotFound then LegAttempt(0.0, false, Some(e))
      else LegAttempt(0.0, IsAmbiguousTimeout(e), Some(e))
  }

  function ExitOrder(side: Side, qty: real, limit: real): Order {
    Order(side, qty, Some(limit), true)
  }

  /** One leg's part of an attempt: nothing at all once the leg has no quantity left. */
  function LegTurn(leg: Leg, left: real, side: Side, limit: real): (Leg, LegAttempt) {
    if left > 0.0 then
      var o := ExitOrder(side, left, limit);
      (Serve(leg, o), Classify(PlaceOutcome(leg, o), left))
    else (leg, IDLE)
  }

  function Degraded(r: CloseResult, longLeft: real, shortLeft: real, reason: Reason): CloseResult {
    r.(residualLong := Max(longLeft, 0.0), residualShort := Max(shortLeft, 0.0), degraded := true, reason := reason)
  }

  function Stop(st: CloseState, reason: Reason, err: CloseError): CloseOutcome {
    CloseOutcome(
      Degraded(CloseResult(st.longClosed, st.shortClosed, 0.0, 0.0, false, NoReason), st.longLeft, st.shortLeft,
               reason),
      err, st.long, st.short)
  }

  function Finish(st: CloseState): CloseOutcome {
    if st.longLeft > 0.0 || st.shortLeft > 0.0 then Stop(st, RequotesExhausted, CloseIncomplete)
    else CloseOutcome(CloseResult(st.longClosed, st.shortClosed, 0.0, 0.0, false, NoReason), NoError, st.long, st.short)
  }

  function Protection(cfg: CloseConfig): real {
    cfg.tickSize * cfg.protectionTicks as real
  }

  function LimitOf(quote: Option<real>, offset: real): real {
    if quote.Some? then quote.value + offset else 0.0
  }

  /** Both legs' orders of one attempt, and the state after their fills are booked. */
  function Attempt(st: CloseState, attempt: nat, books: Books, protection: real): (CloseState, LegAttempt, LegAttempt) {
    var (l, lr) := LegTurn(st.long, st.longLeft, Short, LimitOf(books.bestBid(attempt), -protection));
    var (s, sr) := LegTurn(st.short, st.shortLeft, Long, LimitOf(books.bestAsk(attempt), protection));
    (CloseState(st.longLeft - lr.filled, st.shortLeft - sr.filled,
                st.longClosed + lr.filled, st.shortClosed + sr.filled, l, s), lr, sr)
  }

  function CloseLoop(st: CloseState, attempt: nat, books: Books, protection: real, maxRequotes: int): CloseOutcome
    decreases maxRequotes + 1 - attempt
  {
    if attempt > maxRequotes || (st.longLeft <= 0.0 && st.shortLeft <= 0.0) then Finish(st)
    else if st.longLeft > 0.0 && books.bestBid(attempt).None? then Stop(st, NoLongBid, CloseIncomplete)
    else if st.shortLeft > 0.0 && books.bestAsk(attempt).None? then Stop(st, NoShortAsk, CloseIncomplete)
    else
      var (next, lr, sr) := Attempt(st, attempt, books, protection);
      if lr.ambiguous || sr.ambiguous then Stop(next, LegStateUnknown(lr.ambiguous, sr.ambiguous), CloseAmbiguous)
      else if lr.err.Some? && sr.err.Some? && lr.filled == 0.0 && sr.filled == 0.0 then
        Stop(next, BothLegsFailed, CloseIncomplete)
      else CloseLoop(next, attempt + 1, books, protection, maxRequotes)
  }

  function CloseSpec(longRemaining: real, shortRemaining: real, long: Leg, short: Leg, books: Books, cfg: CloseConfig)
    : CloseOutcome
  {
    var target := Min(longRemaining, shortRemaining);
    if target <= 0.0 then CloseOutcome(CloseResult(0.0, 0.0, 0.0, 0.0, false, NoReason), NoError, long, short)
    else CloseLoop(CloseState(target, target, 0.0, 0.0, long, short), 0, books, Protection(cfg), cfg.maxRequotes)
  }

  // ----- The code -----

  method PlaceCloseLeg(exec: OrderExecutor, o: Order, capQty: real) returns (a: LegAttempt)
    modifies exec.adapter
    ensures exec.adapter.leg == Serve(old(exec.adapter.leg), o)
    ensures a == Classify(PlaceOutcome(old(exec.adapter.leg), o), capQty)
  {
    var res := exec.Place(o);
    if res.Ok? {
      var filled: real := res.value.filled;
      if filled > capQty {
        filled := capQty;
      }
      return LegAttempt(filled, false, None);
    }
    if res.error == OrderNotFound {
      return LegAttempt(0.0, false, Some(res.error));
    }
    if IsAmbiguousTimeout(res.error) {
      return LegAttempt(0.0, true, Some(res.error));
    }
    return LegAttempt(0.0, false, Some(res.error));
  }

  lemma AttemptIs(st: CloseState, attempt: nat, books: Books, protection: real, long: Leg, short: Leg,
                  longRes: LegAttempt, shortRes: LegAttempt)
    requires (long, longRes) == if st.longLeft > 0.0
                                then LegTurn(st.long, st.longLeft, Short, LimitOf(books.bestBid(attempt), -protection))
                                else (st.long, IDLE)
    requires (short, shortRes) == if st.shortLeft > 0.0
                                  then LegTurn(st.short, st.shortLeft, Long,
                                               LimitOf(books.bestAsk(attempt), protection))
                                  else (st.short, IDLE)
    ensures Attempt(st, attempt, books, protection) ==
            (CloseState(st.longLeft - longRes.filled, st.shortLeft - shortRes.filled,
                        st.longClosed + longRes.filled, st.shortClosed + shortRes.filled, long, short),
             longRes, shortRes)
  {
  }

  /** The goroutine of one leg: started only while that leg has something left to close. */
  method CloseLeg(exec: OrderExecutor, left: real, side: Side, limit: real) returns (a: LegAttempt)
    modifies exec.adapter
    ensures (exec.adapter.leg, a) ==
            if left > 0.0 then LegTurn(old(exec.adapter.leg), left, side, limit) else (old(exec.adapter.leg), IDLE)
  {
    a := IDLE;
    if left > 0.0 {
      a := PlaceCloseLeg(exec, ExitOrder(side, left, limit), left);
    }
  }

  /** The two goroutines of an attempt touch different adapters, so they are run one after the other. */
  method CoordinatedClose(longRemaining: real, shortRemaining: real, longExec: OrderExecutor, shortExec: OrderExecutor,
                          books: Books, cfg: CloseConfig)
    returns (result: CloseResult, err: CloseError)
    requires longExec.adapter != shortExec.adapter
    modifies longExec.adapter, shortExec.adapter
    ensures CloseOutcome(result, err, longExec.adapter.leg, shortExec.adapter.leg) ==
            CloseSpec(longRemaining, shortRemaining, old(longExec.adapter.leg), old(shortExec.adapter.leg), books, cfg)
  {
    hide LegTurn;
    result, err := CloseResult(0.0, 0.0, 0.0, 0.0, false, NoReason), NoError;
    var target := Min(longRemaining, shortRemaining);
    if target <= 0.0 {
      return;
    }
    var longLeft, shortLeft := target, target;
    var protection := Protection(cfg);
    ghost var spec := CloseSpec(longRemaining, shortRemaining, longExec.adapter.leg, shortExec.adapter.leg, books, cfg);
    var attempt := 0;
    while attempt <= cfg.maxRequotes && (longLeft > 0.0 || shortLeft > 0.0)
      invariant result == CloseResult(result.longClosed, result.shortClosed, 0.0, 0.0, false, NoReason)
      invariant CloseLoop(CloseState(longLeft, shortLeft, result.longClosed, result.shortClosed,
                                     longExec.adapter.leg, shortExec.adapter.leg),
                          attempt, books, protection, cfg.maxRequotes) == spec
      decreases cfg.maxRequotes + 1 - attempt
    {
      ghost var st := CloseState(longLeft, shortLeft, result.longClosed, result.shortClosed,
                                 longExec.adapter.leg, shortExec.adapter.leg);
      var longLimit, shortLimit := 0.0, 0.0;
      if longLeft > 0.0 {
        var bid := books.bestBid(attempt);
        if bid.None? {
          return Degraded(result, longLeft, shortLeft, NoLongBid), CloseIncomplete;
        }
        longLimit := bid.value - protection;
      }
      if shortLeft > 0.0 {
        var ask := books.bestAsk(attempt);
        if ask.None? {
          return Degraded(result, longLeft, shortLeft, NoShortAsk), CloseIncomplete;
        }
        shortLimit := ask.value + protection;
      }

      var longRes := CloseLeg(longExec, longLeft, Short, longLimit);
      var shortRes := CloseLeg(shortExec, shortLeft, Long, shortLimit);
      AttemptIs(st, attempt, books, protection, longExec.adapter.leg, shortExec.adapter.leg, longRes, shortRes);
      if longRes.ambiguous || shortRes.ambiguous {
        result := result.(longClosed := result.longClosed + longRes.filled,
                          shortClosed := result.shortClosed + shortRes.filled);
        return Degraded(result, longLeft - longRes.filled, shortLeft - shortRes.filled,
                        LegStateUnknown(longRes.ambiguous, shortRes.ambiguous)), CloseAmbiguous;
      }
      longLeft := longLeft - longRes.filled;
      shortLeft := shortLeft - shortRes.filled;
      result := result.(longClosed := result.longClosed + longRes.filled,
                        shortClosed := result.shortClosed + shortRes.filled);
      if longRes.err.Some? && shortRes.err.Some? && longRes.filled == 0.0 && shortRes.filled == 0.0 {
        return Degraded(result, longLeft, shortLeft, BothLegsFailed), CloseIncomplete;
      }
      attempt := attempt + 1;
    }
    if longLeft > 0.0 || shortLeft > 0.0 {
      return Degraded(result, longLeft, shortLeft, RequotesExhausted), CloseIncomplete;
    }
  }

  // ----- What the orders of a close add up to -----

  ghost function SumBooked(trades: seq<Trade>): real {
    if trades == [] then 0.0 else Booked(trades[0]) + SumBooked(trades[1..])
  }

  ghost function SumExecuted(trades: seq<Trade>): real {
    if trades == [] then 0.0 else trades[0].executed + SumExecuted(trades[1..])
  }

  /** Executed and not booked, whatever the reason: the answer was lost, or the one reply lagged behind the execution
      or misstated it. */
  ghost function SumUnbooked(trades: seq<Trade>): real {
    if trades == [] then 0.0 else trades[0].executed - Booked(trades[0]) + SumUnbooked(trades[1..])
  }

  /** No reply shows more than is executed in the end. */
  ghost predicate NeverOverstated(trades: seq<Trade>) {
    forall t :: t in trades ==> Booked(t) <= t.executed
  }

  ghost predicate FullyBooked(trades: seq<Trade>) {
    forall t :: t in trades ==> Booked(t) == t.executed
  }

  /** Executed, but the answer went missing: the fills no book can contain. */
  ghost function SumHidden(trades: seq<Trade>): real {
    if trades == [] then 0.0 else (if Answered(trades[0]) then 0.0 else trades[0].executed) + SumHidden(trades[1..])
  }

  /** The leg after it has served the same orders again: the log holds nothing the exchange did not do. */
  ghost function Replay(leg: Leg, trades: seq<Trade>): Leg
    decreases trades
  {
    if trades == [] then leg else Replay(Serve(leg, trades[0].order), trades[1..])
  }

  /** Every order is a reduce-only order for exactly what was outstanding, and something was. */
  ghost predicate Requotes(trades: seq<Trade>, outstanding: real, side: Side) {
    trades != [] ==>
      && trades[0].order.side == side && trades[0].order.reduceOnly && trades[0].order.price.Some?
      && trades[0].order.qty == outstanding > 0.0
      && 0.0 <= Booked(trades[0]) <= outstanding
      && Requotes(trades[1..], outstanding - Booked(trades[0]), side)
  }

  /** The account of one leg over a close that took it from `before` to `after`. */
  ghost predicate LegAccount(before: Leg, after: Leg, left: real, closed: real, residual: real, side: Side,
                             budget: int) {
    && before.log <= after.log && after.behave == before.behave
    && |after.log| - |before.log| <= AtLeastZero(budget)
    && Requotes(TradesSince(before, after), left, side)
    && closed == SumBooked(TradesSince(before, after))
    && residual == left - closed >= 0.0
    && after == Replay(before, TradesSince(before, after))
  }

  ghost function AtLeastZero(n: int): int {
    if n < 0 then 0 else n
  }

  /** The first order of a close in front of the account of the orders that follow it. */
  lemma LegAccountStep(before: Leg, left: real, side: Side, limit: real, after: Leg,
                       closed: real, residual: real, budget: int)
    requires left >= 0.0 && budget > 0
    requires var (mid, a) := LegTurn(before, left, side, limit);
             LegAccount(mid, after, left - a.filled, closed, residual, side, budget - 1)
    ensures LegAccount(before, after, left, closed + LegTurn(before, left, side, limit).1.filled, residual, side,
                       budget)
  {
    var (mid, a) := LegTurn(before, left, side, limit);
    if left > 0.0 {
      var rest := TradesSince(mid, after);
      var t := NextTrade(before, ExitOrder(side, left, limit));
      assert a.filled == Booked(t);
      assert TradesSince(before, after) == [t] + rest;
      assert ([t] + rest)[1..] == rest;
    } else {
      assert mid == before;
    }
  }

  /** A leg that fails or whose state is unknown had something left and booked nothing. */
  lemma FailedLegKeepsResidual(leg: Leg, left: real, side: Side, limit: real)
    ensures var a := LegTurn(leg, left, side, limit).1;
            && (left >= 0.0 ==> 0.0 <= a.filled <= left)
            && (a.ambiguous ==> a.err.Some?)
            && (a.err.Some? ==> left > 0.0 && a.filled == 0.0)
  {
  }

  lemma EmptyAccount(leg: Leg, left: real, side: Side, budget: int)
    requires left >= 0.0
    ensures LegAccount(leg, leg, left, 0.0, left, side, budget)
  {
  }

  lemma {:induction false} CloseLoopAccounts(st: CloseState, attempt: nat, books: Books, protection: real,
                                             maxRequotes: int)
    requires st.longLeft >= 0.0 && st.shortLeft >= 0.0
    ensures var o := CloseLoop(st, attempt, books, protection, maxRequotes);
            var budget := maxRequotes + 1 - attempt;
            && LegAccount(st.long, o.long, st.longLeft, o.result.longClosed - st.longClosed, o.result.residualLong,
                          Short, budget)
            && LegAccount(st.short, o.short, st.shortLeft, o.result.shortClosed - st.shortClosed,
                          o.result.residualShort, Long, budget)
            && (o.err == NoError <==> o.result.residualLong == 0.0 && o.result.residualShort == 0.0)
            && (o.err == NoError <==> !o.result.degraded)
    decreases maxRequotes + 1 - attempt
  {
    hide LegTurn, LegAccount;
    EmptyAccount(st.long, st.longLeft, Short, maxRequotes + 1 - attempt);
    EmptyAccount(st.short, st.shortLeft, Long, maxRequotes + 1 - attempt);
    if attempt <= maxRequotes && (st.longLeft > 0.0 || st.shortLeft > 0.0)
       && !(st.longLeft > 0.0 && books.bestBid(attempt).None?)
       && !(st.shortLeft > 0.0 && books.bestAsk(attempt).None?) {
      var budget := maxRequotes + 1 - attempt;
      var bid, ask := LimitOf(books.bestBid(attempt), -protection), LimitOf(books.bestAsk(attempt), protection);
      var (next, lr, sr) := Attempt(st, attempt, books, protection);
      FailedLegKeepsResidual(st.long, st.longLeft, Short, bid);
      FailedLegKeepsResidual(st.short, st.shortLeft, Long, ask);
      EmptyAccount(next.long, next.longLeft, Short, budget - 1);
      EmptyAccount(next.short, next.shortLeft, Long, budget - 1);
      CloseLoopAccounts(next, attempt + 1, books, protection, maxRequotes);
      var o := CloseLoop(st, attempt, books, protection, maxRequotes);
      LegAccountStep(st.long, st.longLeft, Short, bid, o.long,
                     o.result.longClosed - next.longClosed, o.result.residualLong, budget);
      LegAccountStep(st.short, st.shortLeft, Long, ask, o.short,
                     o.result.shortClosed - next.shortClosed, o.result.residualShort, budget);
    }
  }

  // ----- Main results -----

  /** Conservation and termination. With target T = min(long, short) > 0 both legs satisfy
      closed + residual = T at every exit, the error is nil exactly when nothing is left, every order asks
      for exactly the outstanding quantity (so it never rises and a filled leg gets no further order), and
      each leg gets at most maxRequotes + 1 orders. */
  lemma CloseConserves(longRemaining: real, shortRemaining: real, long: Leg, short: Leg, books: Books, cfg: CloseConfig)
    requires Min(longRemaining, shortRemaining) > 0.0
    ensures var o := CloseSpec(longRemaining, shortRemaining, long, short, books, cfg);
            var T := Min(longRemaining, shortRemaining);
            && o.result.longClosed + o.result.residualLong == T
            && o.result.shortClosed + o.result.residualShort == T
            && 0.0 <= o.result.longClosed <= T && 0.0 <= o.result.shortClosed <= T
            && 0.0 <= o.result.residualLong <= T && 0.0 <= o.result.residualShort <= T
            && (o.err == NoError <==> o.result.residualLong == 0.0 && o.result.residualShort == 0.0)
            && LegAccount(long, o.long, T, o.result.longClosed, o.result.residualLong, Short, cfg.maxRequotes + 1)
            && LegAccount(short, o.short, T, o.result.shortClosed, o.result.residualShort, Long, cfg.maxRequotes + 1)
  {
    var T := Min(longRemaining, shortRemaining);
    CloseLoopAccounts(CloseState(T, T, 0.0, 0.0, long, short), 0, books, Protection(cfg), cfg.maxRequotes);
    var o := CloseSpec(longRemaining, shortRemaining, long, short, books, cfg);
    BookedWithinTarget(TradesSince(long, o.long), T, Short);
    BookedWithinTarget(TradesSince(short, o.short), T, Long);
  }

  lemma {:induction false} BookedWithinTarget(trades: seq<Trade>, outstanding: real, side: Side)
    requires Requotes(trades, outstanding, side)
    ensures SumBooked(trades) >= 0.0
  {
    if trades != [] {
      BookedWithinTarget(trades[1..], outstanding - Booked(trades[0]), side);
    }
  }

  /** Replaying reduce-only orders: what left the leg is what executed, and that is what was booked and what was not. */
  lemma {:induction false} ReplayTotals(before: Leg, trades: seq<Trade>, outstanding: real, side: Side)
    requires Requotes(trades, outstanding, side)
    requires Replay(before, trades).log == before.log + trades
    ensures Replay(before, trades).exposure == before.exposure - SumExecuted(trades)
    ensures SumExecuted(trades) == SumBooked(trades) + SumUnbooked(trades)
    ensures SumExecuted(trades) >= 0.0
    decreases trades
  {
    if trades != [] {
      var t := trades[0];
      var mid := Serve(before, t.order);
      ReplayExtends(mid, trades[1..]);
      assert (before.log + trades)[|before.log|] == t;
      assert Replay(before, trades).log[|before.log|] == NextTrade(before, t.order);
      assert before.log + trades == mid.log + trades[1..];
      ReplayTotals(mid, trades[1..], outstanding - Booked(t), side);
    }
  }

  lemma {:induction false} UnbookedIsNonNegative(trades: seq<Trade>)
    requires NeverOverstated(trades)
    ensures SumUnbooked(trades) >= 0.0
    ensures SumUnbooked(trades) == 0.0 <==> FullyBooked(trades)
  {
    if trades != [] {
      assert trades == [trades[0]] + trades[1..];
      UnbookedIsNonNegative(trades[1..]);
    }
  }

  /** With true reports the part that was not booked is the executed part of the orders whose answer went missing. */
  lemma {:induction false} UnbookedIsHidden(before: Leg, trades: seq<Trade>, outstanding: real, side: Side)
    requires Requotes(trades, outstanding, side) && Truthful(before.behave)
    requires Replay(before, trades).log == before.log + trades
    ensures NeverOverstated(trades) && SumUnbooked(trades) == SumHidden(trades)
    ensures FullyBooked(trades) <==> forall t | t in trades && !Answered(t) :: t.executed == 0.0
    decreases trades
  {
    if trades != [] {
      var t := trades[0];
      var mid := Serve(before, t.order);
      ReplayExtends(mid, trades[1..]);
      assert (before.log + trades)[|before.log|] == t;
      assert Replay(before, trades).log[|before.log|] == NextTrade(before, t.order);
      PlaceIsSound(before, t.order);
      assert before.log + trades == mid.log + trades[1..];
      UnbookedIsHidden(mid, trades[1..], outstanding - Booked(t), side);
      assert trades == [t] + trades[1..];
    }
  }

  lemma {:induction false} ReplayExtends(leg: Leg, trades: seq<Trade>)
    ensures leg.log <= Replay(leg, trades).log && |Replay(leg, trades).log| == |leg.log| + |trades|
    ensures Replay(leg, trades).behave == leg.behave
    decreases trades
  {
    if trades != [] {
      ReplayExtends(Serve(leg, trades[0].order), trades[1..]);
    }
  }

  /** Books against the exchange, for every behaviour of the two legs. What executed never exceeds the starting
      position, and differs from what is booked as closed by exactly what was not booked. Unless a reply overstates a
      fill, the booked quantity never exceeds the executed one, and equals it exactly when every order was booked in
      full. With true reports the difference is the executed part of the orders whose answer went missing. */
  lemma CloseSimulatesExchange(longRemaining: real, shortRemaining: real, long: Leg, short: Leg,
                               books: Books, cfg: CloseConfig)
    ensures var o := CloseSpec(longRemaining, shortRemaining, long, short, books, cfg);
            && LegSimulated(long, o.long, o.result.longClosed)
            && LegSimulated(short, o.short, o.result.shortClosed)
  {
    var T := Min(longRemaining, shortRemaining);
    if T > 0.0 {
      CloseConserves(longRemaining, shortRemaining, long, short, books, cfg);
      var o := CloseSpec(longRemaining, shortRemaining, long, short, books, cfg);
      LegIsSimulated(long, o.long, T, o.result.longClosed, o.result.residualLong, Short, cfg.maxRequotes + 1);
      LegIsSimulated(short, o.short, T, o.result.shortClosed, o.result.residualShort, Long, cfg.maxRequotes + 1);
    }
  }

  ghost predicate LegSimulated(before: Leg, after: Leg, closed: real) {
    var executed := before.exposure - after.exposure;
    && before.log <= after.log && after.behave == before.behave
    && 0.0 <= closed && 0.0 <= executed <= before.exposure
    && executed == closed + SumUnbooked(TradesSince(before, after))
    && (NeverOverstated(TradesSince(before, after)) ==>
          closed <= executed && (closed == executed <==> FullyBooked(TradesSince(before, after))))
    && (Truthful(before.behave) ==>
          && closed <= executed == closed + SumHidden(TradesSince(before, after))
          && (closed == executed <==> forall t | t in TradesSince(before, after) && !Answered(t) :: t.executed == 0.0))
  }

  lemma LegIsSimulated(before: Leg, after: Leg, left: real, closed: real, residual: real, side: Side, budget: int)
    requires LegAccount(before, after, left, closed, residual, side, budget)
    ensures LegSimulated(before, after, closed)
  {
    var trades := TradesSince(before, after);
    assert after.log == before.log + trades;
    ReplayTotals(before, trades, left, side);
    BookedWithinTarget(trades, left, side);
    if NeverOverstated(trades) {
      UnbookedIsNonNegative(trades);
    }
    if Truthful(before.behave) {
      UnbookedIsHidden(before, trades, left, side);
    }
  }

  // ----- How a close ends -----

  /** In how many attempts the two lists of orders were sent. */
  ghost function Rounds(long: seq<Trade>, short: seq<Trade>): nat {
    if |long| > |short| then |long| else |short|
  }

  ghost predicate EndsUnknown(trades: seq<Trade>) {
    trades != [] && Ambiguous(trades[|trades| - 1])
  }

  /** Both legs' orders of the last attempt ended in a definite error. */
  ghost predicate BothRefused(long: seq<Trade>, short: seq<Trade>) {
    |long| == |short| > 0 && Refused(long[|long| - 1]) && Refused(short[|short| - 1])
  }

  /** No attempt before the last one gave a reason to stop. */
  ghost predicate WentOn(long: seq<Trade>, short: seq<Trade>) {
    && (forall i :: 0 <= i < Rounds(long, short) - 1 && i < |long| ==> !Ambiguous(long[i]))
    && (forall i :: 0 <= i < Rounds(long, short) - 1 && i < |short| ==> !Ambiguous(short[i]))
    && (forall i :: 0 <= i < Rounds(long, short) - 1 && i < |long| && i < |short| ==>
          !(Refused(long[i]) && Refused(short[i])))
  }

  /** What the orders of a close say about its end: `longLeft` and `shortLeft` were outstanding before the first of
      them, which was sent at attempt `attempt`. */
  ghost predicate EndsAs(long: seq<Trade>, short: seq<Trade>, longLeft: real, shortLeft: real, attempt: nat,
                         books: Books, maxRequotes: int, err: CloseError, reason: Reason)
  {
    var next := attempt + Rounds(long, short);
    var longOpen, shortOpen := longLeft > SumBooked(long), shortLeft > SumBooked(short);
    var unknown := EndsUnknown(long) || EndsUnknown(short);
    var noBid, noAsk := longOpen && books.bestBid(next).None?, shortOpen && books.bestAsk(next).None?;
    && WentOn(long, short)
    && (err == CloseAmbiguous <==> unknown)
    && (err == CloseIncomplete <==>
          && (longOpen || shortOpen) && !unknown
          && (next > maxRequotes || noBid || noAsk || BothRefused(long, short)))
    && (err == NoError <==> !longOpen && !shortOpen)
    && reason == if unknown then LegStateUnknown(EndsUnknown(long), EndsUnknown(short))
                 else if !longOpen && !shortOpen then NoReason
                 else if BothRefused(long, short) then BothLegsFailed
                 else if next > maxRequotes then RequotesExhausted
                 else if noBid then NoLongBid
                 else NoShortAsk
  }

  /** One leg's orders with the one of an attempt that was followed by others in front. */
  ghost predicate Follows(trades: seq<Trade>, left: real, rest: seq<Trade>, restLeft: real) {
    if left > 0.0 then
      trades != [] && rest == trades[1..] && restLeft == left - Booked(trades[0]) && !Ambiguous(trades[0])
    else trades == rest == [] && restLeft == left
  }

  lemma EndsAsStep(long: seq<Trade>, short: seq<Trade>, longLeft: real, shortLeft: real,
                   longRest: seq<Trade>, shortRest: seq<Trade>, longThen: real, shortThen: real, attempt: nat,
                   books: Books, maxRequotes: int, err: CloseError, reason: Reason)
    requires Follows(long, longLeft, longRest, longThen) && Follows(short, shortLeft, shortRest, shortThen)
    requires longLeft > 0.0 || shortLeft > 0.0
    requires longLeft > 0.0 && shortLeft > 0.0 ==> !(Refused(long[0]) && Refused(short[0]))
    requires EndsAs(longRest, shortRest, longThen, shortThen, attempt + 1, books, maxRequotes, err, reason)
    ensures EndsAs(long, short, longLeft, shortLeft, attempt, books, maxRequotes, err, reason)
  {
    hide Ambiguous, Refused, Booked;
    assert Rounds(long, short) == Rounds(longRest, shortRest) + 1;
    assert WentOn(long, short) by {
      assert forall i :: 0 < i < |long| ==> long[i] == longRest[i - 1];
      assert forall i :: 0 < i < |short| ==> short[i] == shortRest[i - 1];
    }
  }

  /** What one turn of a leg sends, and how its attempt reads. */
  lemma TurnSends(leg: Leg, left: real, side: Side, limit: real)
    ensures var (after, a) := LegTurn(leg, left, side, limit);
            if left > 0.0 then
              var t := NextTrade(leg, ExitOrder(side, left, limit));
              && after.log == leg.log + [t] && a.filled == Booked(t)
              && (a.ambiguous <==> Ambiguous(t)) && (a.err.Some? <==> Ambiguous(t) || Refused(t))
              && (a.err.Some? ==> a.filled == 0.0)
            else after == leg && a == IDLE
  {
  }

  lemma SinceTurn(leg: Leg, mid: Leg, after: Leg, t: Trade)
    requires mid.log == leg.log + [t] && mid.log <= after.log
    ensures leg.log <= after.log && TradesSince(leg, after) == [t] + TradesSince(mid, after)
    ensures TradesSince(leg, after)[1..] == TradesSince(mid, after) && TradesSince(leg, after)[0] == t
  {
  }

  lemma StopEnds(st: CloseState, attempt: nat, books: Books, protection: real, maxRequotes: int)
    requires st.longLeft >= 0.0 && st.shortLeft >= 0.0 && (st.longLeft > 0.0 || st.shortLeft > 0.0)
    requires var (next, lr, sr) := Attempt(st, attempt, books, protection);
             lr.ambiguous || sr.ambiguous || (lr.err.Some? && sr.err.Some?)
    ensures var (next, lr, sr) := Attempt(st, attempt, books, protection);
            && st.long.log <= next.long.log && st.short.log <= next.short.log
            && EndsAs(TradesSince(st.long, next.long), TradesSince(st.short, next.short), st.longLeft, st.shortLeft,
                      attempt, books, maxRequotes,
                      if lr.ambiguous || sr.ambiguous then CloseAmbiguous else CloseIncomplete,
                      if lr.ambiguous || sr.ambiguous then LegStateUnknown(lr.ambiguous, sr.ambiguous)
                      else BothLegsFailed)
  {
    hide LegTurn, Ambiguous, Refused, Booked;
    TurnSends(st.long, st.longLeft, Short, LimitOf(books.bestBid(attempt), -protection));
    TurnSends(st.short, st.shortLeft, Long, LimitOf(books.bestAsk(attempt), protection));
    var next := Attempt(st, attempt, books, protection).0;
    var long, short := TradesSince(st.long, next.long), TradesSince(st.short, next.short);
    assert |long| <= 1 && |short| <= 1;
    assert SumBooked([]) == 0.0;
    assert long != [] ==> long[1..] == [];
    assert short != [] ==> short[1..] == [];
  }

  lemma CloseLoopExtends(st: CloseState, next: CloseState, lr: LegAttempt, sr: LegAttempt, bid: real, ask: real,
                         o: CloseOutcome, attempt: nat, books: Books, maxRequotes: int)
    requires st.longLeft >= 0.0 && st.shortLeft >= 0.0 && (st.longLeft > 0.0 || st.shortLeft > 0.0)
    requires (next.long, lr) == LegTurn(st.long, st.longLeft, Short, bid) && next.longLeft == st.longLeft - lr.filled
    requires (next.short, sr) == LegTurn(st.short, st.shortLeft, Long, ask)
             && next.shortLeft == st.shortLeft - sr.filled
    requires !lr.ambiguous && !sr.ambiguous && !(lr.err.Some? && sr.err.Some?)
    requires next.long.log <= o.long.log && next.short.log <= o.short.log
    requires next.longLeft == 0.0 ==> o.long == next.long
    requires next.shortLeft == 0.0 ==> o.short == next.short
    requires EndsAs(TradesSince(next.long, o.long), TradesSince(next.short, o.short), next.longLeft, next.shortLeft,
                    attempt + 1, books, maxRequotes, o.err, o.result.reason)
    ensures st.long.log <= o.long.log && st.short.log <= o.short.log
    ensures EndsAs(TradesSince(st.long, o.long), TradesSince(st.short, o.short), st.longLeft, st.shortLeft, attempt,
                   books, maxRequotes, o.err, o.result.reason)
  {
    hide LegTurn, Ambiguous, Refused, Booked, EndsAs;
    TurnSends(st.long, st.longLeft, Short, bid);
    TurnSends(st.short, st.shortLeft, Long, ask);
    if st.longLeft > 0.0 {
      SinceTurn(st.long, next.long, o.long, next.long.log[|st.long.log|]);
    }
    if st.shortLeft > 0.0 {
      SinceTurn(st.short, next.short, o.short, next.short.log[|st.short.log|]);
    }
    EndsAsStep(TradesSince(st.long, o.long), TradesSince(st.short, o.short), st.longLeft, st.shortLeft,
               TradesSince(next.long, o.long), TradesSince(next.short, o.short), next.longLeft, next.shortLeft, attempt,
               books, maxRequotes, o.err, o.result.reason);
  }

  /** A leg with nothing left gets no further order. */
  lemma {:induction false} ClosedLegRests(st: CloseState, attempt: nat, books: Books, protection: real,
                                          maxRequotes: int)
    ensures var o := CloseLoop(st, attempt, books, protection, maxRequotes);
            && (st.longLeft == 0.0 ==> o.long == st.long) && (st.shortLeft == 0.0 ==> o.short == st.short)
    decreases maxRequotes + 1 - attempt
  {
    if attempt <= maxRequotes && (st.longLeft > 0.0 || st.shortLeft > 0.0) {
      ClosedLegRests(Attempt(st, attempt, books, protection).0, attempt + 1, books, protection, maxRequotes);
    }
  }

  lemma {:induction false} CloseLoopEnds(st: CloseState, attempt: nat, books: Books, protection: real, maxRequotes: int)
    requires st.longLeft >= 0.0 && st.shortLeft >= 0.0
    ensures var o := CloseLoop(st, attempt, books, protection, maxRequotes);
            && st.long.log <= o.long.log && st.short.log <= o.short.log
            && EndsAs(TradesSince(st.long, o.long), TradesSince(st.short, o.short), st.longLeft, st.shortLeft, attempt,
                      books, maxRequotes, o.err, o.result.reason)
    decreases maxRequotes + 1 - attempt
  {
    hide LegTurn, Ambiguous, Refused, Booked, LimitOf;
    if attempt <= maxRequotes && (st.longLeft > 0.0 || st.shortLeft > 0.0)
       && !(st.longLeft > 0.0 && books.bestBid(attempt).None?)
       && !(st.shortLeft > 0.0 && books.bestAsk(attempt).None?) {
      var bid, ask := LimitOf(books.bestBid(attempt), -protection), LimitOf(books.bestAsk(attempt), protection);
      var (next, lr, sr) := Attempt(st, attempt, books, protection);
      TurnSends(st.long, st.longLeft, Short, bid);
      TurnSends(st.short, st.shortLeft, Long, ask);
      if lr.ambiguous || sr.ambiguous || (lr.err.Some? && sr.err.Some?) {
        StopEnds(st, attempt, books, protection, maxRequotes);
      } else {
        FailedLegKeepsResidual(st.long, st.longLeft, Short, bid);
        FailedLegKeepsResidual(st.short, st.shortLeft, Long, ask);
        CloseLoopEnds(next, attempt + 1, books, protection, maxRequotes);
        ClosedLegRests(next, attempt + 1, books, protection, maxRequotes);
        CloseLoopExtends(st, next, lr, sr, bid, ask, CloseLoop(next, attempt + 1, books, protection, maxRequotes),
                         attempt, books, maxRequotes);
      }
    } else {
      assert SumBooked([]) == 0.0;
    }
  }

  /** How a close ends, read off the orders it sent. With nothing to close there is no order and no error. Otherwise the
      fate of a leg is unknown exactly when its last order is ambiguous; the close is incomplete exactly when something
      is left, nothing is unknown and one of these holds after the last attempt: the requotes are used up, a leg with a
      residual has no quote, both legs' last orders were refused. No earlier attempt gave a reason to stop, and the
      reported reason names the one there is. */
  lemma CloseEnds(longRemaining: real, shortRemaining: real, long: Leg, short: Leg, books: Books, cfg: CloseConfig)
    ensures var o := CloseSpec(longRemaining, shortRemaining, long, short, books, cfg);
            var T := Min(longRemaining, shortRemaining);
            && long.log <= o.long.log && short.log <= o.short.log
            && (o.result.degraded <==> o.err != NoError)
            && if T <= 0.0 then
                 o == CloseOutcome(CloseResult(0.0, 0.0, 0.0, 0.0, false, NoReason), NoError, long, short)
               else EndsAs(TradesSince(long, o.long), TradesSince(short, o.short), T, T, 0, books, cfg.maxRequotes,
                           o.err, o.result.reason)
  {
    hide EndsAs;
    var T := Min(longRemaining, shortRemaining);
    if T > 0.0 {
      var st := CloseState(T, T, 0.0, 0.0, long, short);
      CloseLoopEnds(st, 0, books, Protection(cfg), cfg.maxRequotes);
      CloseLoopAccounts(st, 0, books, Protection(cfg), cfg.maxRequotes);
    }
  }

  // ----- Prices -----

  /** The i-th order of a leg goes out at attempt i, at that attempt's quote moved by the protection. */
  ghost predicate PricedAt(trades: seq<Trade>, quote: nat -> Option<real>, offset: real, attempt: nat)
    decreases trades
  {
    trades != [] ==>
      && quote(attempt).Some? && trades[0].order.price == Some(quote(attempt).value + offset)
      && PricedAt(trades[1..], quote, offset, attempt + 1)
  }

  /** An order is limited to the quote of an attempt and an offset, which moves it towards the other side of the book
      or leaves it at the quote. */
  ghost predicate IsLimited(t: Trade, quote: Option<real>, offset: real) {
    && quote.Some? && t.order.price.Some? && t.order.price.value == quote.value + offset
    && (offset >= 0.0 ==> t.order.price.value >= quote.value)
    && (offset <= 0.0 ==> t.order.price.value <= quote.value)
  }

  lemma {:induction false} PricedByIndex(trades: seq<Trade>, quote: nat -> Option<real>, offset: real, attempt: nat,
                                         i: nat)
    requires PricedAt(trades, quote, offset, attempt) && i < |trades|
    ensures IsLimited(trades[i], quote(attempt + i), offset)
    decreases trades
  {
    if i == 0 {
      assert attempt + i == attempt;
    } else {
      PricedByIndex(trades[1..], quote, offset, attempt + 1, i - 1);
      assert attempt + 1 + (i - 1) == attempt + i;
    }
  }

  lemma PricedStep(before: Leg, left: real, side: Side, quote: nat -> Option<real>, offset: real, attempt: nat,
                   after: Leg, closed: real, residual: real, budget: int)
    requires left >= 0.0 && (left > 0.0 ==> quote(attempt).Some?)
    requires var (mid, a) := LegTurn(before, left, side, LimitOf(quote(attempt), offset));
             && LegAccount(mid, after, left - a.filled, closed, residual, side, budget)
             && PricedAt(TradesSince(mid, after), quote, offset, attempt + 1)
    ensures before.log <= after.log && PricedAt(TradesSince(before, after), quote, offset, attempt)
  {
    var mid := LegTurn(before, left, side, LimitOf(quote(attempt), offset)).0;
    var rest := TradesSince(mid, after);
    if left > 0.0 {
      var t := NextTrade(before, ExitOrder(side, left, LimitOf(quote(attempt), offset)));
      assert TradesSince(before, after) == [t] + rest;
      assert ([t] + rest)[1..] == rest;
    } else {
      assert rest == [];
    }
  }

  lemma {:induction false} CloseLoopPrices(st: CloseState, attempt: nat, books: Books, protection: real,
                                           maxRequotes: int)
    requires st.longLeft >= 0.0 && st.shortLeft >= 0.0
    ensures var o := CloseLoop(st, attempt, books, protection, maxRequotes);
            && st.long.log <= o.long.log && PricedAt(TradesSince(st.long, o.long), books.bestBid, -protection, attempt)
            && st.short.log <= o.short.log
            && PricedAt(TradesSince(st.short, o.short), books.bestAsk, protection, attempt)
    decreases maxRequotes + 1 - attempt
  {
    hide LegTurn, LegAccount, LimitOf;
    if attempt <= maxRequotes && (st.longLeft > 0.0 || st.shortLeft > 0.0)
       && !(st.longLeft > 0.0 && books.bestBid(attempt).None?)
       && !(st.shortLeft > 0.0 && books.bestAsk(attempt).None?) {
      var budget := maxRequotes - attempt;
      var bid, ask := LimitOf(books.bestBid(attempt), -protection), LimitOf(books.bestAsk(attempt), protection);
      var (next, lr, sr) := Attempt(st, attempt, books, protection);
      FailedLegKeepsResidual(st.long, st.longLeft, Short, bid);
      FailedLegKeepsResidual(st.short, st.shortLeft, Long, ask);
      EmptyAccount(next.long, next.longLeft, Short, budget);
      EmptyAccount(next.short, next.shortLeft, Long, budget);
      CloseLoopAccounts(next, attempt + 1, books, protection, maxRequotes);
      CloseLoopPrices(next, attempt + 1, books, protection, maxRequotes);
      var o := CloseLoop(st, attempt, books, protection, maxRequotes);
      PricedStep(st.long, st.longLeft, Short, books.bestBid, -protection, attempt, o.long,
                 o.result.longClosed - next.longClosed, o.result.residualLong, budget);
      PricedStep(st.short, st.shortLeft, Long, books.bestAsk, protection, attempt, o.short,
                 o.result.shortClosed - next.shortClosed, o.result.residualShort, budget);
    }
  }

  /** The long leg is sold at the bid less the protection and the short leg bought back at the ask plus it, each
      order at the quotes of its own attempt. */
  lemma CloseOrdersArePriced(longRemaining: real, shortRemaining: real, long: Leg, short: Leg, books: Books,
                             cfg: CloseConfig)
    ensures var o := CloseSpec(longRemaining, shortRemaining, long, short, books, cfg);
            && long.log <= o.long.log && PricedAt(TradesSince(long, o.long), books.bestBid, -Protection(cfg), 0)
            && short.log <= o.short.log && PricedAt(TradesSince(short, o.short), books.bestAsk, Protection(cfg), 0)
  {
    var T := Min(longRemaining, shortRemaining);
    if T > 0.0 {
      CloseLoopPrices(CloseState(T, T, 0.0, 0.0, long, short), 0, books, Protection(cfg), cfg.maxRequotes);
    }
  }

  /** In numbers: the i-th order of the long leg is limited to the i-th bid less the configured number of ticks, and the
      i-th order of the short leg to the i-th ask plus as much; so with a number of ticks that is not negative no order
      is limited short of the quote. */
  lemma CloseOrdersCross(longRemaining: real, shortRemaining: real, long: Leg, short: Leg, books: Books,
                         cfg: CloseConfig)
    ensures var o := CloseSpec(longRemaining, shortRemaining, long, short, books, cfg);
            var offset := cfg.protectionTicks as real * cfg.tickSize;
            && long.log <= o.long.log && short.log <= o.short.log
            && (forall i :: 0 <= i < |TradesSince(long, o.long)| ==>
                  IsLimited(TradesSince(long, o.long)[i], books.bestBid(i), -offset))
            && (forall i :: 0 <= i < |TradesSince(short, o.short)| ==>
                  IsLimited(TradesSince(short, o.short)[i], books.bestAsk(i), offset))
  {
    CloseOrdersArePriced(longRemaining, shortRemaining, long, short, books, cfg);
    hide CloseSpec, PricedAt, IsLimited;
    assert Protection(cfg) == cfg.protectionTicks as real * cfg.tickSize;
    hide Protection;
    var o := CloseSpec(longRemaining, shortRemaining, long, short, books, cfg);
    forall i | 0 <= i < |TradesSince(long, o.long)|
      ensures IsLimited(TradesSince(long, o.long)[i], books.bestBid(i), -Protection(cfg))
    {
      PricedByIndex(TradesSince(long, o.long), books.bestBid, -Protection(cfg), 0, i);
      assert 0 + i == i;
    }
    forall i | 0 <= i < |TradesSince(short, o.short)|
      ensures IsLimited(TradesSince(short, o.short)[i], books.bestAsk(i), Protection(cfg))
    {
      PricedByIndex(TradesSince(short, o.short), books.bestAsk, Protection(cfg), 0, i);
      assert 0 + i == i;
    }
  }

  // ----- A cooperative market -----

  /** The next order, up to `qty`, is executed in full and the answer to the query arrives. */
  predicate Cooperates(leg: Leg, qty: real) {
    var b := leg.behave(|leg.log|);
    b.appetite >= qty && b.ack.Acked? && b.query.Answers?
  }

  /** Given quotes and two cooperative legs, one order on each closes the whole target. */
  lemma CooperativeCloseSucceeds(longRemaining: real, shortRemaining: real, long: Leg, short: Leg, books: Books,
                                 cfg: CloseConfig)
    requires var T := Min(longRemaining, shortRemaining);
             && T > 0.0 && cfg.maxRequotes >= 0 && books.bestBid(0).Some? && books.bestAsk(0).Some?
             && Cooperates(long, T) && Cooperates(short, T) && T <= long.exposure && T <= short.exposure
    ensures var T := Min(longRemaining, shortRemaining);
            var o := CloseSpec(longRemaining, shortRemaining, long, short, books, cfg);
            && o.err == NoError && o.result == CloseResult(T, T, 0.0, 0.0, false, NoReason)
            && o.long.exposure == long.exposure - T && o.short.exposure == short.exposure - T
            && |o.long.log| == |long.log| + 1 && |o.short.log| == |short.log| + 1
  {
    var T := Min(longRemaining, shortRemaining);
    CooperativeTurn(long, T, Short, LimitOf(books.bestBid(0), -Protection(cfg)));
    CooperativeTurn(short, T, Long, LimitOf(books.bestAsk(0), Protection(cfg)));
    hide LegTurn;
    var next := Attempt(CloseState(T, T, 0.0, 0.0, long, short), 0, books, Protection(cfg)).0;
    assert CloseLoop(next, 1, books, Protection(cfg), cfg.maxRequotes) == Finish(next);
  }

  lemma CooperativeTurn(leg: Leg, qty: real, side: Side, limit: real)
    requires 0.0 < qty <= leg.exposure && Cooperates(leg, qty)
    ensures var (after, a) := LegTurn(leg, qty, side, limit);
            a == LegAttempt(qty, false, None) && after.exposure == leg.exposure - qty && |after.log| == |leg.log| + 1
  {
  }

  /** The exchange refuses the order: it executes nothing and says so. */
  predicate Refuses(b: Behaviour) {
    b.ack.PlaceFails? && (!IsTransport(b.ack.error) || b.query == QueryFails(OrderNotFound))
  }

  /** The next k orders are refused, and the one after them, up to `qty`, is executed in full and answered. */
  ghost predicate CooperatesAfter(leg: Leg, k: nat, qty: real) {
    && (forall i :: |leg.log| <= i < |leg.log| + k ==> Refuses(leg.behave(i)))
    && var b := leg.behave(|leg.log| + k);
       b.appetite >= qty && b.ack.Acked? && b.query.Answers?
  }

  lemma RefusedTurn(leg: Leg, k: nat, qty: real, side: Side, limit: real)
    requires 0.0 < qty && k > 0 && CooperatesAfter(leg, k, qty)
    ensures var (after, a) := LegTurn(leg, qty, side, limit);
            && a.filled == 0.0 && !a.ambiguous && a.err.Some? && after.exposure == leg.exposure
            && |after.log| == |leg.log| + 1 && CooperatesAfter(after, k - 1, qty)
  {
    assert Refuses(leg.behave(|leg.log|));
  }

  /** The leg that is left, alone, after the other one is closed. */
  lemma {:induction false} LoneLegCloses(st: CloseState, k: nat, attempt: nat, books: Books, protection: real,
                                         maxRequotes: int)
    requires (0.0 < st.longLeft <= st.long.exposure && st.shortLeft == 0.0 && CooperatesAfter(st.long, k, st.longLeft))
             || (0.0 < st.shortLeft <= st.short.exposure && st.longLeft == 0.0
                 && CooperatesAfter(st.short, k, st.shortLeft))
    requires attempt + k <= maxRequotes
    requires forall i :: attempt <= i <= attempt + k ==> books.bestBid(i).Some? && books.bestAsk(i).Some?
    ensures var o := CloseLoop(st, attempt, books, protection, maxRequotes);
            && o.err == NoError && o.result.longClosed == st.longClosed + st.longLeft
            && o.result.shortClosed == st.shortClosed + st.shortLeft
            && o.long.exposure == st.long.exposure - st.longLeft
            && o.short.exposure == st.short.exposure - st.shortLeft
    decreases k
  {
    var bid, ask := LimitOf(books.bestBid(attempt), -protection), LimitOf(books.bestAsk(attempt), protection);
    var next := Attempt(st, attempt, books, protection).0;
    if k == 0 {
      if st.longLeft > 0.0 {
        CooperativeTurn(st.long, st.longLeft, Short, bid);
      } else {
        CooperativeTurn(st.short, st.shortLeft, Long, ask);
      }
      hide LegTurn, CooperatesAfter;
      assert CloseLoop(next, attempt + 1, books, protection, maxRequotes) == Finish(next);
    } else {
      if st.longLeft > 0.0 {
        RefusedTurn(st.long, k, st.longLeft, Short, bid);
      } else {
        RefusedTurn(st.short, k, st.shortLeft, Long, ask);
      }
      hide LegTurn, CooperatesAfter;
      LoneLegCloses(next, k - 1, attempt + 1, books, protection, maxRequotes);
    }
  }

  /** One leg cooperates at once and the other is refused up to maxRequotes times before it does: the close goes on
      and closes the target on both. */
  lemma RefusedLegIsRequoted(longRemaining: real, shortRemaining: real, long: Leg, short: Leg, k: nat, l: nat,
                             books: Books, cfg: CloseConfig)
    requires k == 0 || l == 0
    requires var T := Min(longRemaining, shortRemaining);
             && T > 0.0 && k <= cfg.maxRequotes && l <= cfg.maxRequotes && T <= long.exposure && T <= short.exposure
             && CooperatesAfter(long, k, T) && CooperatesAfter(short, l, T)
    requires forall i :: 0 <= i <= k + l ==> books.bestBid(i).Some? && books.bestAsk(i).Some?
    ensures var T := Min(longRemaining, shortRemaining);
            var o := CloseSpec(longRemaining, shortRemaining, long, short, books, cfg);
            && o.err == NoError && o.result.longClosed == o.result.shortClosed == T
            && o.long.exposure == long.exposure - T && o.short.exposure == short.exposure - T
  {
    var T := Min(longRemaining, shortRemaining);
    var protection := Protection(cfg);
    var bid, ask := LimitOf(books.bestBid(0), -protection), LimitOf(books.bestAsk(0), protection);
    if k == 0 {
      CooperativeTurn(long, T, Short, bid);
    } else {
      RefusedTurn(long, k, T, Short, bid);
    }
    if l == 0 {
      CooperativeTurn(short, T, Long, ask);
    } else {
      RefusedTurn(short, l, T, Long, ask);
    }
    hide LegTurn, CooperatesAfter;
    var next := Attempt(CloseState(T, T, 0.0, 0.0, long, short), 0, books, protection).0;
    if k + l == 0 {
      assert CloseLoop(next, 1, books, protection, cfg.maxRequotes) == Finish(next);
    } else {
      LoneLegCloses(next, k + l - 1, 1, books, protection, cfg.maxRequotes);
    }
  }
}
