/** One leg on one exchange, and `OrderExecutor.Place` (QUERY_THEN_DECIDE) on top of it.

    The exchange is an arbitrary script: for every order it may execute any part, lose the
    acknowledgement and lose the answer to the follow-up query. Quantifying over the script
    quantifies over every behaviour of the exchange. */
module Exchange {
  import opened Decimals

  datatype Side = Long | Short

  datatype Error = Timeout | Network | OrderNotFound | OtherError

  datatype Status = New | Acknowledged | PartiallyFilled | Filled | Cancelled | Rejected | Expired

  datatype Order = Order(side: Side, qty: real, price: Option<real>, reduceOnly: bool)

  datatype Ack = Acked(status: Status) | PlaceFails(error: Error)

  /** `Answers` reports the true fill. `Misreports` is the faulty answer the caps guard against. */
  datatype Query = Answers(status: Status) | Misreports(fill: Qty, status: Status) | QueryFails(error: Error)

  /** What the exchange does with one order: how much it would like to execute, and its replies. */
  datatype Behaviour = Behaviour(appetite: Qty, ack: Ack, query: Query)

  datatype Answer = Found(filled: Qty, status: Status) | Failed(error: Error)

  /** One order as it happened: `answer` is None when no query was made. */
  datatype Trade = Trade(order: Order, executed: Qty, ack: Ack, answer: Option<Answer>)

  /** The exchange's side of one leg: the open quantity and every order received. */
  datatype Leg = Leg(behave: nat -> Behaviour, exposure: Qty, log: seq<Trade>)

  predicate IsTransport(e: Error) {
    e == Timeout || e == Network
  }

  /** The order exists on the exchange unless it was refused or the exchange denies knowing it. */
  predicate Reaches(b: Behaviour) {
    !(b.ack.PlaceFails? && !IsTransport(b.ack.error)) && b.query != QueryFails(OrderNotFound)
  }

  /** A reduce-only order never executes more than the open quantity. */
  function Executes(b: Behaviour, o: Order, exposure: Qty): (e: Qty)
    ensures e <= Max(o.qty, 0.0)
    ensures o.reduceOnly ==> e <= exposure
    ensures e > 0.0 ==> Reaches(b) && e <= b.appetite
  {
    if !Reaches(b) then 0.0
    else Max(0.0, Min(b.appetite, if o.reduceOnly then Min(o.qty, exposure) else o.qty))
  }

  function AnswerOf(b: Behaviour, executed: Qty): Option<Answer> {
    if b.ack.PlaceFails? && !IsTransport(b.ack.error) then None
    else Some(match b.query
              case Answers(status) => Found(executed, status)
              case Misreports(fill, status) => Found(fill, status)
              case QueryFails(e) => Failed(e))
  }

  function NextTrade(leg: Leg, o: Order): Trade {
    var b := leg.behave(|leg.log|);
    var e := Executes(b, o, leg.exposure);
    Trade(o, e, b.ack, AnswerOf(b, e))
  }

  /** The leg after it has received `o`. */
  function Serve(leg: Leg, o: Order): Leg {
    var t := NextTrade(leg, o);
    leg.(exposure := if o.reduceOnly then leg.exposure - t.executed else leg.exposure + t.executed,
         log := leg.log + [t])
  }

  /** The orders sent between two moments of one leg. */
  ghost function TradesSince(before: Leg, after: Leg): seq<Trade>
    requires |before.log| <= |after.log|
  {
    after.log[|before.log|..]
  }

  // ----- OrderExecutor.Place -----

  datatype Source = SourceAck | SourceQuery

  datatype PlaceResult = PlaceResult(filled: Qty, status: Status, source: Source)

  predicate IsTerminalNegative(s: Status) {
    s == Cancelled || s == Rejected || s == Expired
  }

  /** What `Place` returns for an order the exchange treats as `ack` and then `answer`. */
  function Decide(ack: Ack, answer: Option<Answer>): Result<PlaceResult, Error> {
    match ack
    case Acked(s) =>
      (match answer
       case Some(Found(f, q)) => Ok(PlaceResult(f, q, if IsTerminalNegative(q) then SourceQuery else SourceAck))
       case _ => Ok(PlaceResult(0.0, s, SourceAck)))
    case PlaceFails(e) =>
      (match answer
       case None => Err(e)
       case Some(Found(f, q)) => Ok(PlaceResult(f, q, SourceQuery))
       case Some(Failed(q)) => Err(q))
  }

  function PlaceOutcome(leg: Leg, o: Order): Result<PlaceResult, Error> {
    var t := NextTrade(leg, o);
    Decide(t.ack, t.answer)
  }

  /** The adapter of one exchange, for the leg of one position: it serves orders from its script. */
  class Adapter {
    const position: nat
    var leg: Leg
    var pending: Option<Answer>

    constructor (position: nat, leg: Leg)
      ensures this.position == position && this.leg == leg
    {
      this.position := position;
      this.leg := leg;
      pending := None;
    }

    method PlaceOrder(o: Order) returns (ack: Ack)
      modifies this
      ensures leg == Serve(old(leg), o)
      ensures ack == old(leg).behave(|old(leg).log|).ack
      ensures pending == NextTrade(old(leg), o).answer
    {
      var b := leg.behave(|leg.log|);
      var t := NextTrade(leg, o);
      leg := Serve(leg, o);
      pending := t.answer;
      ack := b.ack;
    }

    method GetOrder() returns (a: Answer)
      requires pending.Some?
      ensures a == pending.value
    {
      a := pending.value;
    }
  }

  class OrderExecutor {
    const adapter: Adapter

    constructor (adapter: Adapter)
      ensures this.adapter == adapter
    {
      this.adapter := adapter;
    }

    /** Never a blind retry: one order, at most one query, and a decision from what is known. */
    method Place(o: Order) returns (r: Result<PlaceResult, Error>)
      modifies adapter
      ensures adapter.leg == Serve(old(adapter.leg), o)
      ensures r == PlaceOutcome(old(adapter.leg), o)
    {
      var ack := adapter.PlaceOrder(o);
      if ack.Acked? {
        var q := adapter.GetOrder();
        if q.Found? {
          if IsTerminalNegative(q.status) {
            return Ok(PlaceResult(q.filled, q.status, SourceQuery));
          }
          return Ok(PlaceResult(q.filled, q.status, SourceAck));
        }
        return Ok(PlaceResult(0.0, ack.status, SourceAck));
      }
      if ack.error != Timeout && ack.error != Network {
        return Err(ack.error);
      }
      var queried := adapter.GetOrder();
      if queried.Found? {
        return Ok(PlaceResult(queried.filled, queried.status, SourceQuery));
      }
      if queried.error == OrderNotFound {
        return Err(OrderNotFound);
      }
      return Err(queried.error);
    }
  }

  predicate IsSafeRetry(e: Error) {
    e == OrderNotFound
  }

  predicate IsAmbiguousTimeout(e: Error) {
    e == Timeout || e == Network
  }

  // ----- What a caller may conclude from Place -----

  /** No reply of the exchange misstates a fill. */
  ghost predicate Truthful(behave: nat -> Behaviour) {
    forall i: nat :: !behave(i).query.Misreports?
  }

  /** The quantity a caller books for a trade that asked for `order.qty`. */
  function Booked(t: Trade): real {
    match t.answer
    case Some(Found(f, _)) => Min(f, t.order.qty)
    case _ => 0.0
  }

  /** The exchange was asked, or refused the order: its answer never went missing. */
  predicate Answered(t: Trade) {
    match t.answer
    case Some(Failed(e)) => e == OrderNotFound
    case _ => true
  }

  /** Neither the acknowledgement nor the query told what became of the order. */
  predicate Ambiguous(t: Trade) {
    t.ack.PlaceFails? &&
      match t.answer
      case None => IsTransport(t.ack.error)
      case Some(Failed(e)) => IsTransport(e)
      case Some(Found(_, _)) => false
  }

  /** The order ended in an error that is no question of transport. */
  predicate Refused(t: Trade) {
    t.ack.PlaceFails? &&
      match t.answer
      case None => !IsTransport(t.ack.error)
      case Some(Failed(e)) => !IsTransport(e)
      case Some(Found(_, _)) => false
  }

  /** What `Place` reports, in terms of the replies: an error exactly when the order was refused or its fate is unknown,
      and then the last error heard; otherwise what the query found, or the acknowledged status without a fill. The
      query is named as the source of what contradicts or replaces the acknowledgement. */
  lemma PlaceReports(leg: Leg, o: Order)
    ensures var r := PlaceOutcome(leg, o);
            var t := NextTrade(leg, o);
            && (r.Err? <==> Ambiguous(t) || Refused(t))
            && (r.Err? ==> (IsAmbiguousTimeout(r.error) <==> Ambiguous(t)))
            && (r.Err? ==> (IsSafeRetry(r.error) <==>
                              t.answer == Some(Failed(OrderNotFound)) || t.ack.error == OrderNotFound))
            && (r.Err? ==> r.error == if t.answer.None? then t.ack.error else t.answer.value.error)
            && (r.Ok? ==>
                  if t.answer.value.Found? then
                    && r.value.filled == t.answer.value.filled && r.value.status == t.answer.value.status
                    && (r.value.source == SourceQuery <==>
                          t.ack.PlaceFails? || r.value.status in {Cancelled, Rejected, Expired})
                  else t.ack.Acked? && r.value == PlaceResult(0.0, t.ack.status, SourceAck))
            && (t.answer.None? <==> t.ack.PlaceFails? && t.ack.error !in {Timeout, Network})
  {
  }

  /** A safe-to-retry error really means nothing executed, a reported fill is the executed one,
      and what `Place` reports never exceeds what executed. */
  lemma PlaceIsSound(leg: Leg, o: Order)
    requires Truthful(leg.behave) && o.qty >= 0.0
    ensures var r := PlaceOutcome(leg, o);
            var t := NextTrade(leg, o);
            && (r.Ok? ==> Min(r.value.filled, o.qty) == Booked(t) <= t.executed)
            && (r.Err? ==> Booked(t) == 0.0)
            && (r.Err? && IsSafeRetry(r.error) ==> t.executed == 0.0)
            && (Answered(t) ==> Booked(t) == t.executed)
            && (t.executed > 0.0 && !Answered(t) ==> Booked(t) == 0.0)
  {
    var b := leg.behave(|leg.log|);
    assert !b.query.Misreports?;
  }
}
