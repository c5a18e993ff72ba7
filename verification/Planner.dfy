/** The 50/50 planner: one transfer between two exchanges, in whole cents. */
module Planner {
  import opened Decimals

  datatype Config = Config(tolerancePct: real, minTransfer: real, reserve: real)

  datatype Proposal = Proposal(from: string, to: string, amount: real)

  datatype Error = BadConfig | WrongCount | NegativeEquity(exchange: string)

  const CENT := 0.01

  function NewPlanner(cfg: Config): (r: Result<Config, Error>)
    ensures r.Ok? <==> cfg.tolerancePct >= 0.0 && cfg.minTransfer >= 0.0 && cfg.reserve >= 0.0
  {
    if cfg.tolerancePct < 0.0 || cfg.minTransfer < 0.0 || cfg.reserve < 0.0 then Err(BadConfig) else Ok(cfg)
  }

  function ReserveOf(cfg: Config, reserves: map<string, real>, exchange: string): real {
    if exchange in reserves then reserves[exchange] else cfg.reserve
  }

  /** The amount to move from the richer exchange, 0 when there is nothing to propose. */
  function Amount(cfg: Config, fromEq: real, toEq: real, reserve: real): real
    requires fromEq + toEq > 0.0
  {
    var target := (fromEq + toEq) / 2.0;
    var excess := fromEq - target;
    if excess / target * 100.0 < cfg.tolerancePct then 0.0
    else
      var available := fromEq - reserve;
      var wanted := Min(excess, target - toEq);
      var amount := if wanted > available then available else wanted;
      if available <= 0.0 || amount < cfg.minTransfer || amount == 0.0 then 0.0
      else
        var quantized := Quantize(amount, CENT);
        if quantized < cfg.minTransfer then 0.0 else quantized
  }

  function FirstNegative(equity: map<string, real>, order: seq<string>): Option<string>
    requires forall x :: x in order ==> x in equity
  {
    if order == [] then None
    else if equity[order[0]] < 0.0 then Some(order[0])
    else FirstNegative(equity, order[1..])
  }

  /** `order` is the order in which the map of equities happens to be visited. */
  predicate Visits(order: seq<string>, equity: map<string, real>) {
    && |order| == |equity|
    && (forall x :: x in order ==> x in equity) && (forall x :: x in equity ==> x in order)
    && (forall i, j :: 0 <= i < j < |order| ==> order[i] != order[j])
  }

  function Propose(cfg: Config, equity: map<string, real>, order: seq<string>, reserves: map<string, real>)
    : Result<Option<Proposal>, Error>
    requires Visits(order, equity)
  {
    if |order| != 2 then Err(WrongCount)
    else match FirstNegative(equity, order)
         case Some(x) => Err(NegativeEquity(x))
         case None =>
           var a, b := order[0], order[1];
           if equity[a] + equity[b] == 0.0 then Ok(None)
           else
             var from, to := if equity[a] > equity[b] then a else b, if equity[a] > equity[b] then b else a;
             assert FirstNegative(equity, order[1..]).None?;
             var amount := Amount(cfg, equity[from], equity[to], ReserveOf(cfg, reserves, from));
             Ok(if amount == 0.0 then None else Some(Proposal(from, to, amount)))
  }

  /** The balances once a proposal has been carried out, before any fee. */
  function Applied(equity: map<string, real>, p: Proposal): map<string, real>
    requires p.from in equity && p.to in equity
  {
    equity[p.from := equity[p.from] - p.amount][p.to := equity[p.to] + p.amount]
  }

  predicate WholeCents(x: real) {
    x == (x * 100.0).Floor as real / 100.0
  }

  lemma Quantized(d: real)
    ensures var q := Quantize(d, CENT);
            q <= d < q + CENT && WholeCents(q) && (d >= 0.0 ==> q >= 0.0)
  {
    QuantizeIsLargest(d, CENT);
    var n := (d / CENT).Floor;
    assert Quantize(d, CENT) * 100.0 == n as real;
  }

  /** What the amount is, whatever the intermediate steps: half the gap, or what the reserve leaves of it, cut down
      to whole cents; unless the gap is within the tolerance or the amount below the minimum. */
  lemma AmountIs(cfg: Config, fromEq: real, toEq: real, reserve: real)
    requires NewPlanner(cfg).Ok? && 0.0 <= toEq <= fromEq && fromEq > 0.0
    ensures var target := (fromEq + toEq) / 2.0;
            var room := Max(0.0, Min(fromEq - target, fromEq - reserve));
            var cents := Quantize(room, CENT);
            var due := (fromEq - target) * 100.0 >= cfg.tolerancePct * target && cents >= cfg.minTransfer;
            Amount(cfg, fromEq, toEq, reserve) == if due then cents else 0.0
  {
    var target := (fromEq + toEq) / 2.0;
    var excess := fromEq - target;
    assert excess / target * 100.0 < cfg.tolerancePct <==> excess * 100.0 < cfg.tolerancePct * target by {
      Scaled(excess, target, cfg.tolerancePct);
    }
    var room := Max(0.0, Min(excess, fromEq - reserve));
    Quantized(room);
    assert Quantize(0.0, CENT) == 0.0;
  }

  lemma Scaled(x: real, y: real, t: real)
    requires y > 0.0
    ensures x / y * 100.0 < t <==> x * 100.0 < t * y
  {
    var q := x / y;
    assert q * y == x;
    if q * 100.0 < t {
      assert (t - q * 100.0) * y > 0.0;
    } else {
      assert (q * 100.0 - t) * y >= 0.0;
    }
  }

  /** Every proposal moves a positive number of whole cents from the richer exchange to the poorer one, leaves the
      source its target and its reserve, does not overfill the destination, and keeps the total. */
  lemma ProposalIsSafe(cfg: Config, equity: map<string, real>, order: seq<string>, reserves: map<string, real>)
    requires NewPlanner(cfg).Ok? && Visits(order, equity)
    ensures match Propose(cfg, equity, order, reserves)
            case Ok(Some(p)) =>
              && p.from in equity && p.to in equity && p.from != p.to && equity[p.from] > equity[p.to]
              && var target := (equity[p.from] + equity[p.to]) / 2.0;
                 var after := Applied(equity, p);
                 && p.amount > 0.0 && p.amount >= cfg.minTransfer && WholeCents(p.amount)
                 && after[p.from] >= target && after[p.from] >= ReserveOf(cfg, reserves, p.from)
                 && after[p.to] <= target
                 && after[p.from] + after[p.to] == equity[p.from] + equity[p.to]
            case _ => true
  {
    match Propose(cfg, equity, order, reserves)
    case Ok(Some(p)) =>
      RicherToPoorer(cfg, equity, order, reserves);
      AmountIs(cfg, equity[p.from], equity[p.to], ReserveOf(cfg, reserves, p.from));
      var room := Max(0.0, Min((equity[p.from] - equity[p.to]) / 2.0,
                               equity[p.from] - ReserveOf(cfg, reserves, p.from)));
      Quantized(room);
      assert room >= p.amount > 0.0;
    case _ =>
  }

  lemma RicherToPoorer(cfg: Config, equity: map<string, real>, order: seq<string>, reserves: map<string, real>)
    requires NewPlanner(cfg).Ok? && Visits(order, equity) && Propose(cfg, equity, order, reserves).Ok?
    requires Propose(cfg, equity, order, reserves).value.Some?
    ensures var p := Propose(cfg, equity, order, reserves).value.value;
            && p.from in order && p.to in order && p.from != p.to && 0.0 <= equity[p.to] <= equity[p.from]
            && equity[p.from] > 0.0
            && p.amount == Amount(cfg, equity[p.from], equity[p.to], ReserveOf(cfg, reserves, p.from)) != 0.0
  {
    assert FirstNegative(equity, order[1..]).None?;
  }

  lemma NothingLeft(cfg: Config, fromEq: real, toEq: real, reserve: real, other: real)
    requires NewPlanner(cfg).Ok? && 0.0 <= toEq <= fromEq && fromEq > 0.0
    requires Amount(cfg, fromEq, toEq, reserve) != 0.0
    ensures var amount := Amount(cfg, fromEq, toEq, reserve);
            var richer, poorer := fromEq - amount, toEq + amount;
            && richer >= poorer >= 0.0 && richer > 0.0
            && Amount(cfg, richer, poorer, reserve) == 0.0
            && (richer == poorer ==> Amount(cfg, poorer, richer, other) == 0.0)
  {
    AmountIs(cfg, fromEq, toEq, reserve);
    var target := (fromEq + toEq) / 2.0;
    var room := Max(0.0, Min(fromEq - target, fromEq - reserve));
    Quantized(room);
    var amount := Amount(cfg, fromEq, toEq, reserve);
    assert 0.0 < amount <= room;
    var richer, poorer := fromEq - amount, toEq + amount;
    assert (richer + poorer) / 2.0 == target;
    LessThanACent(cfg, richer, poorer, reserve);
    if richer == poorer {
      LessThanACent(cfg, poorer, richer, other);
    }
  }

  lemma LessThanACent(cfg: Config, fromEq: real, toEq: real, reserve: real)
    requires NewPlanner(cfg).Ok? && 0.0 <= toEq <= fromEq && fromEq > 0.0
    requires Min(fromEq - (fromEq + toEq) / 2.0, fromEq - reserve) < CENT
    ensures Amount(cfg, fromEq, toEq, reserve) == 0.0
  {
    AmountIs(cfg, fromEq, toEq, reserve);
    var room := Max(0.0, Min(fromEq - (fromEq + toEq) / 2.0, fromEq - reserve));
    assert 0.0 <= room / CENT < 1.0;
  }

  lemma TwoVisited(order: seq<string>, equity: map<string, real>, a: string, b: string)
    requires Visits(order, equity) && |order| == 2 && a in equity && b in equity && a != b
    ensures order == [a, b] || order == [b, a]
  {
    assert a in order && b in order;
  }

  /** Carrying a proposal out reaches a fixed point: the planner has nothing more to propose. */
  lemma OneStepIsEnough(cfg: Config, equity: map<string, real>, order: seq<string>, again: seq<string>,
                        reserves: map<string, real>, p: Proposal)
    requires NewPlanner(cfg).Ok? && Visits(order, equity)
    requires Propose(cfg, equity, order, reserves) == Ok(Some(p))
    requires p.from in equity && p.to in equity && Visits(again, Applied(equity, p))
    ensures Propose(cfg, Applied(equity, p), again, reserves) == Ok(None)
  {
    hide Amount, Visits, FirstNegative;
    RicherToPoorer(cfg, equity, order, reserves);
    var after := Applied(equity, p);
    NothingLeft(cfg, equity[p.from], equity[p.to], ReserveOf(cfg, reserves, p.from), ReserveOf(cfg, reserves, p.to));
    assert after.Keys == equity.Keys;
    SameCount(order, again, equity, after);
    hide Propose;
    TwoVisited(again, after, p.from, p.to);
    if again == [p.from, p.to] {
      NothingForTwo(cfg, after, p.from, p.to, reserves);
    } else {
      NothingForTwo(cfg, after, p.to, p.from, reserves);
    }
  }

  lemma SameCount(order: seq<string>, again: seq<string>, equity: map<string, real>, after: map<string, real>)
    requires Visits(order, equity) && Visits(again, after) && equity.Keys == after.Keys
    ensures |order| == |again|
  {
    assert |equity.Keys| == |after.Keys|;
  }

  lemma NothingForTwo(cfg: Config, equity: map<string, real>, a: string, b: string, reserves: map<string, real>)
    requires Visits([a, b], equity) && a in equity && b in equity
    requires equity[a] >= 0.0 && equity[b] >= 0.0 && equity[a] + equity[b] > 0.0
    requires equity[a] > equity[b] ==> Amount(cfg, equity[a], equity[b], ReserveOf(cfg, reserves, a)) == 0.0
    requires equity[a] <= equity[b] ==> Amount(cfg, equity[b], equity[a], ReserveOf(cfg, reserves, b)) == 0.0
    ensures Propose(cfg, equity, [a, b], reserves) == Ok(None)
  {
    hide Amount;
    assert [a, b][1..] == [b];
    assert FirstNegative(equity, [b]).None?;
  }

  /** The result does not depend on the order in which the map is visited, except that with two negative equities
      the error names the first one visited. */
  lemma OrderOnlyNamesTheError(cfg: Config, equity: map<string, real>, order: seq<string>, other: seq<string>,
                               reserves: map<string, real>)
    requires NewPlanner(cfg).Ok? && Visits(order, equity) && Visits(other, equity) && order != other
    ensures Propose(cfg, equity, order, reserves) == Propose(cfg, equity, other, reserves) <==>
            !(|order| == 2 && forall x :: x in equity ==> equity[x] < 0.0)
  {
    if |order| == 2 {
      var a, b := order[0], order[1];
      TwoVisited(other, equity, a, b);
      assert other == [b, a];
      assert FirstNegative(equity, order[1..]) == if equity[b] < 0.0 then Some(b) else None;
      assert FirstNegative(equity, other[1..]) == if equity[a] < 0.0 then Some(a) else None;
      if equity[a] == equity[b] > 0.0 {
        LessThanACent(cfg, equity[a], equity[b], ReserveOf(cfg, reserves, a));
        LessThanACent(cfg, equity[b], equity[a], ReserveOf(cfg, reserves, b));
      }
      hide Amount;
    }
  }

  /** What is proposed, in cents, and whether anything is due. */
  function Due(cfg: Config, fromEq: real, toEq: real, reserve: real): (bool, real) {
    var target := (fromEq + toEq) / 2.0;
    var room := if fromEq - reserve < fromEq - target then fromEq - reserve else fromEq - target;
    var cents := Quantize(if room < 0.0 then 0.0 else room, 0.01);
    ((fromEq - target) * 100.0 >= cfg.tolerancePct * target && cents >= cfg.minTransfer && cents > 0.0, cents)
  }

  lemma DueIs(cfg: Config, fromEq: real, toEq: real, reserve: real)
    requires NewPlanner(cfg).Ok? && 0.0 <= toEq <= fromEq
    ensures var (due, cents) := Due(cfg, fromEq, toEq, reserve);
            if fromEq == 0.0 then !due else Amount(cfg, fromEq, toEq, reserve) == if due then cents else 0.0
  {
    if fromEq == 0.0 {
      assert Quantize(0.0, 0.01) == 0.0;
    } else {
      AmountIs(cfg, fromEq, toEq, reserve);
      hide Amount, Quantize;
      Quantized(Max(0.0, Min(fromEq - (fromEq + toEq) / 2.0, fromEq - reserve)));
    }
  }

  /** All of `Propose` for two exchanges without a debt, a at least as rich as b: what is proposed, if anything, is to
      move half the gap, or what the reserve of a leaves of it, in whole cents, from a to b; and something is proposed
      exactly when that is a positive amount, the gap is not within the tolerance, and the amount not below the
      minimum. */
  lemma ProposalIs(cfg: Config, equity: map<string, real>, order: seq<string>, reserves: map<string, real>,
                   a: string, b: string)
    requires NewPlanner(cfg).Ok? && Visits(order, equity) && equity.Keys == {a, b} && a != b
    requires equity[a] >= equity[b] >= 0.0
    ensures var (due, cents) := Due(cfg, equity[a], equity[b], if a in reserves then reserves[a] else cfg.reserve);
            Propose(cfg, equity, order, reserves) == Ok(if due then Some(Proposal(a, b, cents)) else None)
  {
    assert |equity.Keys| == 2;
    TwoVisited(order, equity, a, b);
    hide Visits, Propose, Due, Amount;
    ProposedForTwo(cfg, equity, order, reserves, a, b);
    DueIs(cfg, equity[a], equity[b], ReserveOf(cfg, reserves, a));
    assert Due(cfg, equity[a], equity[b], ReserveOf(cfg, reserves, a)).0 ==>
        Due(cfg, equity[a], equity[b], ReserveOf(cfg, reserves, a)).1 > 0.0 by {
      DueIsPositive(cfg, equity[a], equity[b], ReserveOf(cfg, reserves, a));
    }
  }

  lemma DueIsPositive(cfg: Config, fromEq: real, toEq: real, reserve: real)
    ensures var (due, cents) := Due(cfg, fromEq, toEq, reserve);
            due ==> cents > 0.0
  {
  }

  lemma ProposedForTwo(cfg: Config, equity: map<string, real>, order: seq<string>, reserves: map<string, real>,
                       a: string, b: string)
    requires NewPlanner(cfg).Ok? && Visits(order, equity) && a in equity && b in equity && equity[a] >= equity[b] >= 0.0
    requires order == [a, b] || order == [b, a]
    ensures Propose(cfg, equity, order, reserves) ==
            Ok(if equity[a] == 0.0 then None
               else
                 var amount := Amount(cfg, equity[a], equity[b], ReserveOf(cfg, reserves, a));
                 if amount == 0.0 then None else Some(Proposal(a, b, amount)))
  {
    assert order[1..] == [order[1]] && order[1..][1..] == [];
    assert FirstNegative(equity, order[1..]).None?;
    if equity[a] == equity[b] > 0.0 {
      LessThanACent(cfg, equity[a], equity[b], ReserveOf(cfg, reserves, a));
      LessThanACent(cfg, equity[b], equity[a], ReserveOf(cfg, reserves, b));
    }
    hide Amount;
  }

  /** The errors: any other number of exchanges, or a debt of one of the two. */
  lemma RefusedIff(cfg: Config, equity: map<string, real>, order: seq<string>, reserves: map<string, real>)
    requires Visits(order, equity)
    ensures var r := Propose(cfg, equity, order, reserves);
            && (r == Err(WrongCount) <==> |equity| != 2)
            && (|equity| == 2 && (exists x :: x in equity && equity[x] < 0.0) <==> r.Err? && r.error.NegativeEquity?)
            && (r.Err? && r.error.NegativeEquity? ==> r.error.exchange in equity && equity[r.error.exchange] < 0.0)
            && !(r.Err? && r.error == BadConfig)
  {
    hide Amount;
    NegativeFound(equity, order);
    assert |order| == 2 ==> FirstNegative(equity, order).None? ==> FirstNegative(equity, order[1..]).None?;
  }

  lemma {:induction false} NegativeFound(equity: map<string, real>, order: seq<string>)
    requires forall x :: x in order ==> x in equity
    ensures match FirstNegative(equity, order)
            case Some(x) => x in order && equity[x] < 0.0
            case None => forall x :: x in order ==> equity[x] >= 0.0
  {
    if order != [] {
      NegativeFound(equity, order[1..]);
      assert order == [order[0]] + order[1..];
    }
  }
}
