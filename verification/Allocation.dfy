/** Greedy allocation of capital to candidates, best score first, under four kinds of limit. */
module Allocation {
  import opened Decimals

  datatype Request = Request(
    id: string, asset: string, long: string, short: string,
    score: real, desiredQty: real, notionalPerUnit: real)

  datatype Limits = Limits(
    exchangeCap: map<string, real>, exchangeUse: map<string, real>,
    assetCap: map<string, real>, assetUse: map<string, real>,
    totalBudget: real, totalUse: real)

  datatype Reason =
    | Accepted | NonPositiveQty | NonPositiveScore | ZeroNotional | OverExchangeLimit(exchange: string) | NoBudget

  datatype Allocation = Allocation(request: Request, qty: real, notional: real, reason: Reason)

  datatype AllocationPlan = AllocationPlan(allocations: seq<Allocation>, totalAllocated: real, remainingBudget: real)

  /** What has been spent so far under each limit. */
  datatype Use = Use(exchange: map<string, real>, asset: map<string, real>, total: real)

  /** Division of decimals, rounded somewhere behind the last digit kept. */
  type Division = (real, real) -> real

  ghost predicate Divides(div: Division, eps: real) {
    eps >= 0.0 && forall a, b :: a > 0.0 && b > 0.0 ==> 0.0 <= div(a, b) && Abs(div(a, b) - a / b) <= eps
  }

  /** A product by name, so that proofs about whole plans can leave the multiplication alone. */
  function Notional(qty: real, price: real): real {
    qty * price
  }

  /** A missing key counts as zero. */
  function At(m: map<string, real>, k: string): real {
    if k in m then m[k] else 0.0
  }

  /** What is left under an optional limit, if it is one that binds. */
  function Room(caps: map<string, real>, used: map<string, real>, k: string): Option<real> {
    if k in caps then Some(caps[k] - At(used, k)) else None
  }

  function Least(a: real, room: Option<real>): real {
    if room.Some? && room.value < a then room.value else a
  }

  predicate Exhausted(room: Option<real>) {
    room.Some? && room.value <= 0.0
  }

  function Allowed(r: Request, limits: Limits, u: Use): real {
    var a := Least(Notional(r.desiredQty, r.notionalPerUnit), Room(limits.exchangeCap, u.exchange, r.long));
    var b := if r.long == r.short then a else Least(a, Room(limits.exchangeCap, u.exchange, r.short));
    Least(Least(b, Room(limits.assetCap, u.asset, r.asset)), Some(limits.totalBudget - u.total))
  }

  function Verdict(r: Request, limits: Limits, u: Use): Reason {
    if r.desiredQty <= 0.0 then NonPositiveQty
    else if r.score <= 0.0 then NonPositiveScore
    else if r.notionalPerUnit == 0.0 then ZeroNotional
    else if Exhausted(Room(limits.exchangeCap, u.exchange, r.long)) then OverExchangeLimit(r.long)
    else if r.long != r.short && Exhausted(Room(limits.exchangeCap, u.exchange, r.short)) then
      OverExchangeLimit(r.short)
    else if Allowed(r, limits, u) <= 0.0 then NoBudget
    else Accepted
  }

  function Allocate1(r: Request, limits: Limits, u: Use, div: Division): Allocation {
    var v := Verdict(r, limits, u);
    if v != Accepted then Allocation(r, 0.0, 0.0, v)
    else
      var qty := Min(div(Allowed(r, limits, u), r.notionalPerUnit), r.desiredQty);
      Allocation(r, qty, Notional(qty, r.notionalPerUnit), Accepted)
  }

  function Spend(u: Use, a: Allocation): Use {
    if a.reason != Accepted then u
    else
      var r := a.request;
      var first := u.exchange[r.long := At(u.exchange, r.long) + a.notional];
      Use(if r.long == r.short then first else first[r.short := At(first, r.short) + a.notional],
          u.asset[r.asset := At(u.asset, r.asset) + a.notional],
          u.total + a.notional)
  }

  function AllocateAll(rs: seq<Request>, limits: Limits, u: Use, div: Division): (seq<Allocation>, Use)
    decreases rs
  {
    if rs == [] then ([], u)
    else
      var a := Allocate1(rs[0], limits, u, div);
      var rest := AllocateAll(rs[1..], limits, Spend(u, a), div);
      ([a] + rest.0, rest.1)
  }

  // ---------------------------------------------------------------------------------------------------------
  // The stable sort.

  function Insert(sorted: seq<Request>, r: Request): seq<Request> {
    if sorted == [] || sorted[0].score < r.score then [r] + sorted else [sorted[0]] + Insert(sorted[1..], r)
  }

  function Ranked(rs: seq<Request>): seq<Request> {
    if rs == [] then [] else Insert(Ranked(rs[..|rs| - 1]), rs[|rs| - 1])
  }

  function OfScore(rs: seq<Request>, c: real): seq<Request> {
    if rs == [] then [] else (if rs[0].score == c then [rs[0]] else []) + OfScore(rs[1..], c)
  }

  function AtLeast(rs: seq<Request>, c: real): seq<Request> {
    if rs == [] then [] else (if rs[0].score >= c then [rs[0]] else []) + AtLeast(rs[1..], c)
  }

  predicate Falling(rs: seq<Request>) {
    forall i, j :: 0 <= i < j < |rs| ==> rs[i].score >= rs[j].score
  }

  function SumNotional(allocations: seq<Allocation>): real {
    if allocations == [] then 0.0 else allocations[0].notional + SumNotional(allocations[1..])
  }

  method Allocate(requests: seq<Request>, limits: Limits, div: Division) returns (plan: AllocationPlan)
    ensures var use := Use(limits.exchangeUse, limits.assetUse, limits.totalUse);
            var all := AllocateAll(Ranked(requests), limits, use, div);
            && plan.allocations == all.0
            && plan.totalAllocated == SumNotional(all.0)
            && plan.remainingBudget == limits.totalBudget - all.1.total
  {
    hide Allocate1, Spend, Ranked;
    var sorted := Ranked(requests);
    var used := Use(limits.exchangeUse, limits.assetUse, limits.totalUse);
    var allocations: seq<Allocation> := [];
    var granted := 0.0;
    ghost var all := AllocateAll(sorted, limits, used, div);
    var i := 0;
    while i < |sorted|
      invariant 0 <= i <= |sorted|
      invariant var rest := AllocateAll(sorted[i..], limits, used, div);
                && allocations + rest.0 == all.0 && rest.1 == all.1
                && granted + SumNotional(rest.0) == SumNotional(all.0)
    {
      var a := One(sorted[i], limits, used, div);
      ghost var rest := AllocateAll(sorted[i + 1..], limits, Spend(used, a), div);
      assert sorted[i..][1..] == sorted[i + 1..];
      assert ([a] + rest.0)[1..] == rest.0;
      assert allocations + ([a] + rest.0) == (allocations + [a]) + rest.0;
      allocations := allocations + [a];
      granted := granted + a.notional;
      used := Charge(used, a);
      i := i + 1;
    }
    assert allocations + [] == allocations;
    plan := AllocationPlan(allocations, granted, limits.totalBudget - used.total);
  }

  /** The end of the loop body: an accepted allocation is charged to its limits, once per exchange. */
  method Charge(u: Use, a: Allocation) returns (after: Use)
    ensures after == Spend(u, a)
  {
    if a.reason != Accepted {
      return u;
    }
    var r := a.request;
    var exchangeUse, assetUse := u.exchange, u.asset;
    exchangeUse := exchangeUse[r.long := At(exchangeUse, r.long) + a.notional];
    if r.long != r.short {
      exchangeUse := exchangeUse[r.short := At(exchangeUse, r.short) + a.notional];
    }
    assetUse := assetUse[r.asset := At(assetUse, r.asset) + a.notional];
    return Use(exchangeUse, assetUse, u.total + a.notional);
  }

  /** The body of the loop up to the decision, step by step. */
  method One(r: Request, limits: Limits, u: Use, div: Division) returns (a: Allocation)
    ensures a == Allocate1(r, limits, u, div)
  {
    hide At, Notional;
    if r.desiredQty <= 0.0 {
      return Allocation(r, 0.0, 0.0, NonPositiveQty);
    }
    if r.score <= 0.0 {
      return Allocation(r, 0.0, 0.0, NonPositiveScore);
    }
    if r.notionalPerUnit == 0.0 {
      return Allocation(r, 0.0, 0.0, ZeroNotional);
    }
    var allowed := Notional(r.desiredQty, r.notionalPerUnit);
    if r.long in limits.exchangeCap {
      var available := limits.exchangeCap[r.long] - At(u.exchange, r.long);
      if available <= 0.0 {
        return Allocation(r, 0.0, 0.0, OverExchangeLimit(r.long));
      }
      if available < allowed {
        allowed := available;
      }
    }
    if r.long != r.short && r.short in limits.exchangeCap {
      var available := limits.exchangeCap[r.short] - At(u.exchange, r.short);
      if available <= 0.0 {
        return Allocation(r, 0.0, 0.0, OverExchangeLimit(r.short));
      }
      if available < allowed {
        allowed := available;
      }
    }
    if r.asset in limits.assetCap {
      var available := limits.assetCap[r.asset] - At(u.asset, r.asset);
      if available < allowed {
        allowed := available;
      }
    }
    if limits.totalBudget - u.total < allowed {
      allowed := limits.totalBudget - u.total;
    }
    if allowed <= 0.0 {
      return Allocation(r, 0.0, 0.0, NoBudget);
    }
    var qty := div(allowed, r.notionalPerUnit);
    if qty > r.desiredQty {
      qty := r.desiredQty;
    }
    return Allocation(r, qty, Notional(qty, r.notionalPerUnit), Accepted);
  }

  // ---------------------------------------------------------------------------------------------------------
  // Caps.

  lemma ScaledDivision(q: real, a: real, b: real, eps: real)
    requires a > 0.0 && b > 0.0 && eps >= 0.0 && Abs(q - a / b) <= eps
    ensures a - Notional(eps, b) <= Notional(q, b) <= a + Notional(eps, b)
  {
    assert a / b * b == a;
    assert (q - a / b) * b <= eps * b;
    assert (q - a / b + eps) * b >= 0.0;
  }

  /** A grant overshoots what was allowed by no more than the rounding of one division. */
  lemma GrantFits(r: Request, limits: Limits, u: Use, div: Division, eps: real)
    requires Divides(div, eps) && Verdict(r, limits, u) == Accepted
    ensures var a := Allocate1(r, limits, u, div);
            && r.notionalPerUnit > 0.0 && Allowed(r, limits, u) > 0.0
            && 0.0 <= a.notional <= Allowed(r, limits, u) + Notional(eps, r.notionalPerUnit)
            && (eps == 0.0 ==> a.notional == Allowed(r, limits, u))
  {
    AllowedWithinRooms(r, limits, u, r.long);
    hide Allowed, Notional, Exhausted, Room;
    var allowed := Allowed(r, limits, u);
    var q := div(allowed, r.notionalPerUnit);
    NoRounding(r.notionalPerUnit);
    PositiveFactor(r.desiredQty, r.notionalPerUnit);
    ScaledDivision(q, allowed, r.notionalPerUnit, eps);
    MinScaled(q, r.desiredQty, r.notionalPerUnit);
  }

  lemma NoRounding(b: real)
    ensures Notional(0.0, b) == 0.0
  {
  }

  lemma PositiveFactor(x: real, y: real)
    requires x > 0.0 && Notional(x, y) > 0.0
    ensures y > 0.0
  {
  }

  lemma MinScaled(x: real, y: real, b: real)
    requires b > 0.0 && x >= 0.0 && y >= 0.0
    ensures 0.0 <= Notional(Min(x, y), b) == Min(Notional(x, b), Notional(y, b))
  {
    if x < y {
      assert x * b < y * b;
    } else {
      assert y * b <= x * b;
    }
  }

  /** Despite the intention to round down, a grant goes over what was allowed exactly when the quotient was rounded
      up and the request wanted more. */
  lemma GrantOvershootsIff(r: Request, limits: Limits, u: Use, div: Division, eps: real)
    requires Divides(div, eps) && Verdict(r, limits, u) == Accepted
    ensures var allowed := Allowed(r, limits, u);
            Allocate1(r, limits, u, div).notional > allowed <==>
            && Notional(div(allowed, r.notionalPerUnit), r.notionalPerUnit) > allowed
            && Notional(r.desiredQty, r.notionalPerUnit) > allowed
  {
    GrantFits(r, limits, u, div, eps);
    hide Allowed, Notional;
    MinScaled(div(Allowed(r, limits, u), r.notionalPerUnit), r.desiredQty, r.notionalPerUnit);
  }

  /** Division of decimals is within half a unit of the 28th digit, which bounds the slack of `CapsHold`. */
  lemma NearestDivides()
    ensures Divides(Nearest, 0.5 / DIGITS)
  {
    forall a, b | a > 0.0 && b > 0.0 ensures 0.0 <= Nearest(a, b) && Abs(Nearest(a, b) - a / b) <= 0.5 / DIGITS {
      NearestIsClose(a, b);
    }
  }

  /** A budget of 2 at a price of 3 is overspent by 10^-28. */
  lemma BudgetCanBeOverspent()
    ensures var r := Request("a", "BTC", "x", "y", 1.0, 10.0, 3.0);
            var limits := Limits(map[], map[], map[], map[], 2.0, 0.0);
            AllocateAll([r], limits, Use(map[], map[], 0.0), Nearest).1.total == 2.0 + 1.0 / DIGITS
  {
    var r := Request("a", "BTC", "x", "y", 1.0, 10.0, 3.0);
    var limits := Limits(map[], map[], map[], map[], 2.0, 0.0);
    var u := Use(map[], map[], 0.0);
    assert (2.0 / 3.0 * DIGITS + 0.5).Floor == 6666666666666666666666666667;
    assert Allowed(r, limits, u) == 2.0;
    assert AllocateAll([r], limits, u, Nearest).1 == Spend(u, Allocate1(r, limits, u, Nearest));
  }

  predicate Touches(r: Request, exchange: string) {
    r.long == exchange || r.short == exchange
  }

  /** What one decision does to one exchange, one asset and the total. */
  lemma SpendIs(u: Use, a: Allocation, exchange: string, asset: string)
    ensures var n := if a.reason == Accepted then a.notional else 0.0;
            var after := Spend(u, a);
            && At(after.exchange, exchange)
               == At(u.exchange, exchange) + (if Touches(a.request, exchange) then n else 0.0)
            && At(after.asset, asset) == At(u.asset, asset) + (if a.request.asset == asset then n else 0.0)
            && after.total == u.total + n
  {
  }

  predicate PricesUpTo(rs: seq<Request>, m: real) {
    m >= 0.0 && forall i :: 0 <= i < |rs| ==> rs[i].notionalPerUnit <= m
  }

  predicate WithinCap(before: real, after: real, caps: map<string, real>, k: string, slack: real) {
    k in caps ==> after <= Max(before, caps[k] + slack)
  }

  /** No exchange, no asset and no budget goes over its limit by more than the rounding of one division; what was
      over the limit from the start stays as it was. */
  lemma {:induction false} CapsHold(rs: seq<Request>, limits: Limits, u: Use, div: Division, eps: real, m: real,
                                    exchange: string, asset: string)
    requires Divides(div, eps) && PricesUpTo(rs, m)
    ensures var after := AllocateAll(rs, limits, u, div).1;
            && WithinCap(At(u.exchange, exchange), At(after.exchange, exchange), limits.exchangeCap, exchange,
                         Notional(eps, m))
            && WithinCap(At(u.asset, asset), At(after.asset, asset), limits.assetCap, asset, Notional(eps, m))
            && after.total <= Max(u.total, limits.totalBudget + Notional(eps, m))
    decreases rs
  {
    if rs != [] {
      var r := rs[0];
      var a := Allocate1(r, limits, u, div);
      OneHolds(r, limits, u, div, eps, m, exchange, asset);
      hide Allocate1, Spend;
      CapsHold(rs[1..], limits, Spend(u, a), div, eps, m, exchange, asset);
    }
  }

  lemma OneHolds(r: Request, limits: Limits, u: Use, div: Division, eps: real, m: real, exchange: string, asset: string)
    requires Divides(div, eps) && m >= 0.0 && r.notionalPerUnit <= m
    ensures var after := Spend(u, Allocate1(r, limits, u, div));
            && WithinCap(At(u.exchange, exchange), At(after.exchange, exchange), limits.exchangeCap, exchange,
                         Notional(eps, m))
            && WithinCap(At(u.asset, asset), At(after.asset, asset), limits.assetCap, asset, Notional(eps, m))
            && after.total <= Max(u.total, limits.totalBudget + Notional(eps, m))
  {
    hide Spend, Verdict, Allowed, Notional, At;
    var a := Allocate1(r, limits, u, div);
    SpendIs(u, a, exchange, asset);
    if a.reason == Accepted {
      GrantFits(r, limits, u, div, eps);
      MoreRounding(eps, r.notionalPerUnit, m);
      AllowedWithinRooms(r, limits, u, exchange);
    }
  }

  lemma MoreRounding(eps: real, price: real, m: real)
    requires eps >= 0.0 && price <= m
    ensures Notional(eps, price) <= Notional(eps, m)
  {
  }

  lemma AllowedWithinRooms(r: Request, limits: Limits, u: Use, exchange: string)
    ensures var allowed := Allowed(r, limits, u);
            && (Touches(r, exchange) && exchange in limits.exchangeCap ==>
                  allowed <= limits.exchangeCap[exchange] - At(u.exchange, exchange))
            && (r.asset in limits.assetCap ==> allowed <= limits.assetCap[r.asset] - At(u.asset, r.asset))
            && allowed <= limits.totalBudget - u.total
            && allowed <= Notional(r.desiredQty, r.notionalPerUnit)
  {
    hide At, Notional;
  }

  // ---------------------------------------------------------------------------------------------------------
  // Maximality.

  predicate OutOfRoom(r: Request, limits: Limits, u: Use) {
    || Exhausted(Room(limits.exchangeCap, u.exchange, r.long))
    || Exhausted(Room(limits.exchangeCap, u.exchange, r.short))
    || Exhausted(Room(limits.assetCap, u.asset, r.asset))
    || limits.totalBudget <= u.total
  }

  /** With exact division a serious request gets all it wants or leaves one of its limits exhausted. */
  lemma OneIsMaximal(r: Request, limits: Limits, u: Use, div: Division)
    requires Divides(div, 0.0) && r.desiredQty > 0.0 && r.score > 0.0 && r.notionalPerUnit > 0.0
    ensures var a := Allocate1(r, limits, u, div);
            a.qty == r.desiredQty || OutOfRoom(r, limits, Spend(u, a))
  {
    hide Spend, Allowed, Notional, At;
    var a := Allocate1(r, limits, u, div);
    AllowedIsSomeRoom(r, limits, u);
    DesiredIsPositive(r.desiredQty, r.notionalPerUnit);
    SpendIs(u, a, r.long, r.asset);
    SpendIs(u, a, r.short, r.asset);
    if a.reason == Accepted {
      GrantFits(r, limits, u, div, 0.0);
      SameNotional(a.qty, r.desiredQty, r.notionalPerUnit);
    }
  }

  lemma DesiredIsPositive(x: real, y: real)
    requires x > 0.0 && y > 0.0
    ensures Notional(x, y) > 0.0
  {
  }

  lemma SameNotional(x: real, y: real, b: real)
    requires b > 0.0
    ensures Notional(x, b) == Notional(y, b) ==> x == y
  {
    if x < y {
      assert (y - x) * b > 0.0;
    } else if y < x {
      assert (x - y) * b > 0.0;
    }
  }

  lemma AllowedIsSomeRoom(r: Request, limits: Limits, u: Use)
    ensures var allowed := Allowed(r, limits, u);
            || allowed == Notional(r.desiredQty, r.notionalPerUnit)
            || Room(limits.exchangeCap, u.exchange, r.long) == Some(allowed)
            || Room(limits.exchangeCap, u.exchange, r.short) == Some(allowed)
            || Room(limits.assetCap, u.asset, r.asset) == Some(allowed)
            || limits.totalBudget - u.total == allowed
  {
    hide At, Notional;
  }

  lemma {:induction false} UseGrows(rs: seq<Request>, limits: Limits, u: Use, div: Division, eps: real,
                                    exchange: string, asset: string)
    requires Divides(div, eps)
    ensures var after := AllocateAll(rs, limits, u, div).1;
            && At(u.exchange, exchange) <= At(after.exchange, exchange)
            && At(u.asset, asset) <= At(after.asset, asset)
            && u.total <= after.total
    decreases rs
  {
    if rs != [] {
      hide Verdict, Allowed, Spend;
      var a := Allocate1(rs[0], limits, u, div);
      if a.reason == Accepted {
        GrantFits(rs[0], limits, u, div, eps);
      }
      SpendIs(u, a, exchange, asset);
      UseGrows(rs[1..], limits, Spend(u, a), div, eps, exchange, asset);
    }
  }

  lemma StaysOutOfRoom(r: Request, rest: seq<Request>, limits: Limits, u: Use, div: Division, eps: real)
    requires Divides(div, eps) && OutOfRoom(r, limits, u)
    ensures OutOfRoom(r, limits, AllocateAll(rest, limits, u, div).1)
  {
    UseGrows(rest, limits, u, div, eps, r.long, r.asset);
    UseGrows(rest, limits, u, div, eps, r.short, r.asset);
  }

  /** In the finished plan, every serious request has all it wants or cannot be given any more. */
  lemma {:induction false} PlanIsMaximal(rs: seq<Request>, limits: Limits, u: Use, div: Division, i: nat)
    requires Divides(div, 0.0) && i < |rs| && rs[i].desiredQty > 0.0 && rs[i].score > 0.0 && rs[i].notionalPerUnit > 0.0
    ensures var all := AllocateAll(rs, limits, u, div);
            |all.0| == |rs| && (all.0[i].qty == rs[i].desiredQty || OutOfRoom(rs[i], limits, all.1))
    decreases rs
  {
    hide Allocate1, Spend, OutOfRoom;
    var a := Allocate1(rs[0], limits, u, div);
    OnePerRequest(rs, limits, u, div);
    if i == 0 {
      OneIsMaximal(rs[0], limits, u, div);
      if OutOfRoom(rs[0], limits, Spend(u, a)) {
        StaysOutOfRoom(rs[0], rs[1..], limits, Spend(u, a), div, 0.0);
      }
    } else {
      PlanIsMaximal(rs[1..], limits, Spend(u, a), div, i - 1);
    }
  }

  lemma {:induction false} OnePerRequest(rs: seq<Request>, limits: Limits, u: Use, div: Division)
    ensures var all := AllocateAll(rs, limits, u, div).0;
            |all| == |rs| && forall i :: 0 <= i < |rs| ==> all[i].request == rs[i]
    decreases rs
  {
    if rs != [] {
      hide Spend, Verdict;
      OnePerRequest(rs[1..], limits, Spend(u, Allocate1(rs[0], limits, u, div)), div);
    }
  }

  // ---------------------------------------------------------------------------------------------------------
  // Conservation.

  function OnExchange(allocations: seq<Allocation>, exchange: string): real {
    if allocations == [] then 0.0
    else (if Touches(allocations[0].request, exchange) then allocations[0].notional else 0.0)
         + OnExchange(allocations[1..], exchange)
  }

  function OnAsset(allocations: seq<Allocation>, asset: string): real {
    if allocations == [] then 0.0
    else (if allocations[0].request.asset == asset then allocations[0].notional else 0.0)
         + OnAsset(allocations[1..], asset)
  }

  /** Every limit is charged with exactly the notional of the allocations under it, once each, even when both legs
      are on one exchange. */
  lemma {:induction false} TotalsAreConserved(rs: seq<Request>, limits: Limits, u: Use, div: Division,
                                              exchange: string, asset: string)
    ensures var all := AllocateAll(rs, limits, u, div);
            && At(all.1.exchange, exchange) == At(u.exchange, exchange) + OnExchange(all.0, exchange)
            && At(all.1.asset, asset) == At(u.asset, asset) + OnAsset(all.0, asset)
            && all.1.total == u.total + SumNotional(all.0)
    decreases rs
  {
    if rs != [] {
      hide Spend, Verdict, Allowed, At, Touches;
      var a := Allocate1(rs[0], limits, u, div);
      SpendIs(u, a, exchange, asset);
      TotalsAreConserved(rs[1..], limits, Spend(u, a), div, exchange, asset);
      assert AllocateAll(rs, limits, u, div).0[1..] == AllocateAll(rs[1..], limits, Spend(u, a), div).0;
    }
  }

  // ---------------------------------------------------------------------------------------------------------
  // Ranking.

  lemma {:induction false} InsertedElements(sorted: seq<Request>, r: Request)
    ensures multiset(Insert(sorted, r)) == multiset(sorted) + multiset{r}
    decreases sorted
  {
    if sorted != [] && sorted[0].score >= r.score {
      InsertedElements(sorted[1..], r);
      assert sorted == [sorted[0]] + sorted[1..];
    }
  }

  predicate UpTo(rs: seq<Request>, b: real) {
    forall i :: 0 <= i < |rs| ==> rs[i].score <= b
  }

  lemma {:induction false} InsertedUpTo(sorted: seq<Request>, r: Request, b: real)
    requires UpTo(sorted, b) && r.score <= b
    ensures UpTo(Insert(sorted, r), b)
    decreases sorted
  {
    if sorted != [] && sorted[0].score >= r.score {
      InsertedUpTo(sorted[1..], r, b);
    }
  }

  lemma {:induction false} InsertedFalls(sorted: seq<Request>, r: Request)
    requires Falling(sorted)
    ensures Falling(Insert(sorted, r))
    decreases sorted
  {
    if sorted != [] && sorted[0].score >= r.score {
      InsertedFalls(sorted[1..], r);
      InsertedUpTo(sorted[1..], r, sorted[0].score);
    }
  }

  lemma {:induction false} InsertedAmongEquals(sorted: seq<Request>, r: Request, c: real)
    requires Falling(sorted)
    ensures OfScore(Insert(sorted, r), c) == OfScore(sorted, c) + (if r.score == c then [r] else [])
    decreases sorted
  {
    if sorted == [] || sorted[0].score < r.score {
      assert ([r] + sorted)[1..] == sorted;
      if r.score == c {
        NoneOfScore(sorted, c);
      }
    } else {
      InsertedAmongEquals(sorted[1..], r, c);
      assert Insert(sorted, r)[1..] == Insert(sorted[1..], r);
    }
  }

  lemma {:induction false} NoneOfScore(rs: seq<Request>, c: real)
    requires forall i :: 0 <= i < |rs| ==> rs[i].score < c
    ensures OfScore(rs, c) == [] && AtLeast(rs, c) == []
  {
    if rs != [] {
      NoneOfScore(rs[1..], c);
    }
  }

  lemma {:induction false} InsertedAbove(sorted: seq<Request>, r: Request, c: real)
    requires Falling(sorted)
    ensures AtLeast(Insert(sorted, r), c) == if r.score >= c then Insert(AtLeast(sorted, c), r) else AtLeast(sorted, c)
    decreases sorted
  {
    if sorted == [] || sorted[0].score < r.score {
      assert ([r] + sorted)[1..] == sorted;
      if sorted != [] && r.score < c {
        NoneOfScore(sorted, c);
      }
      if sorted != [] && sorted[0].score < c {
        NoneOfScore(sorted, c);
      }
    } else {
      InsertedAbove(sorted[1..], r, c);
      assert Insert(sorted, r)[1..] == Insert(sorted[1..], r);
      if sorted[0].score >= c {
        assert AtLeast(sorted, c)[1..] == AtLeast(sorted[1..], c);
      } else {
        NoneOfScore(sorted, c);
      }
    }
  }

  /** The ranking is a permutation in falling order of score, and keeps the order of requests of equal score. */
  lemma {:induction false} RankedIsStable(rs: seq<Request>, c: real)
    ensures multiset(Ranked(rs)) == multiset(rs) && Falling(Ranked(rs))
    ensures OfScore(Ranked(rs), c) == OfScore(rs, c)
  {
    if rs != [] {
      var n := |rs| - 1;
      RankedIsStable(rs[..n], c);
      InsertedElements(Ranked(rs[..n]), rs[n]);
      InsertedFalls(Ranked(rs[..n]), rs[n]);
      InsertedAmongEquals(Ranked(rs[..n]), rs[n], c);
      Snoc(rs[..n], rs[n], c);
      assert rs == rs[..n] + [rs[n]];
    }
  }

  lemma {:induction false} Snoc(rs: seq<Request>, r: Request, c: real)
    ensures OfScore(rs + [r], c) == OfScore(rs, c) + (if r.score == c then [r] else [])
    ensures AtLeast(rs + [r], c) == AtLeast(rs, c) + (if r.score >= c then [r] else [])
  {
    if rs != [] {
      Snoc(rs[1..], r, c);
      assert (rs + [r])[1..] == rs[1..] + [r];
    }
  }

  /** Ranking the better requests alone gives the beginning of the whole ranking. */
  lemma {:induction false} RankedAbove(rs: seq<Request>, c: real)
    ensures Ranked(AtLeast(rs, c)) == AtLeast(Ranked(rs), c)
  {
    if rs != [] {
      var n := |rs| - 1;
      RankedAbove(rs[..n], c);
      RankedIsStable(rs[..n], c);
      InsertedAbove(Ranked(rs[..n]), rs[n], c);
      Snoc(rs[..n], rs[n], c);
      assert rs == rs[..n] + [rs[n]];
      hide AtLeast, Insert;
      if rs[n].score >= c {
        RankedSnoc(AtLeast(rs[..n], c), rs[n]);
      } else {
        assert AtLeast(rs[..n], c) + [] == AtLeast(rs[..n], c);
      }
    }
  }

  lemma RankedSnoc(rs: seq<Request>, r: Request)
    ensures Ranked(rs + [r]) == Insert(Ranked(rs), r)
  {
    assert (rs + [r])[..|rs|] == rs;
  }

  lemma {:induction false} AboveIsPrefix(rs: seq<Request>, c: real)
    requires Falling(rs)
    ensures AtLeast(rs, c) <= rs
  {
    if rs != [] {
      if rs[0].score >= c {
        AboveIsPrefix(rs[1..], c);
      } else {
        NoneOfScore(rs, c);
      }
    }
  }

  lemma {:induction false} PrefixIsAllocatedAlone(better: seq<Request>, worse: seq<Request>, limits: Limits, u: Use,
                                                  div: Division)
    ensures AllocateAll(better, limits, u, div).0 <= AllocateAll(better + worse, limits, u, div).0
    decreases better
  {
    hide Allocate1, Spend;
    if better != [] {
      assert (better + worse)[1..] == better[1..] + worse;
      PrefixIsAllocatedAlone(better[1..], worse, limits, Spend(u, Allocate1(better[0], limits, u, div)), div);
    }
  }

  /** Requests below a score change nothing for those at or above it. */
  lemma LowerRankedChangeNothing(requests: seq<Request>, c: real, limits: Limits, u: Use, div: Division)
    ensures AllocateAll(Ranked(AtLeast(requests, c)), limits, u, div).0
         <= AllocateAll(Ranked(requests), limits, u, div).0
  {
    hide AllocateAll, AtLeast, Ranked;
    RankedAbove(requests, c);
    RankedIsStable(requests, c);
    var ranked := Ranked(requests);
    var better := AtLeast(ranked, c);
    AboveIsPrefix(ranked, c);
    assert ranked == better + ranked[|better|..];
    PrefixIsAllocatedAlone(better, ranked[|better|..], limits, u, div);
  }

  // ---------------------------------------------------------------------------------------------------------
  // One decision, case by case.

  /** An exchange has a cap, and it is used up. */
  predicate IsFull(caps: map<string, real>, used: map<string, real>, k: string) {
    k in caps && caps[k] <= if k in used then used[k] else 0.0
  }

  /** Why a request is refused: the first of these that applies. */
  lemma VerdictIs(r: Request, limits: Limits, u: Use)
    ensures var serious := r.desiredQty > 0.0 && r.score > 0.0 && r.notionalPerUnit != 0.0;
            var longFull := IsFull(limits.exchangeCap, u.exchange, r.long);
            var shortFull := IsFull(limits.exchangeCap, u.exchange, r.short);
            var nothingElse := limits.totalBudget <= u.total || IsFull(limits.assetCap, u.asset, r.asset)
                               || r.desiredQty * r.notionalPerUnit <= 0.0;
            var v := Verdict(r, limits, u);
            && (v == NonPositiveQty <==> r.desiredQty <= 0.0)
            && (v == NonPositiveScore <==> r.desiredQty > 0.0 && r.score <= 0.0)
            && (v == ZeroNotional <==> r.desiredQty > 0.0 && r.score > 0.0 && r.notionalPerUnit == 0.0)
            && (v.OverExchangeLimit? <==> serious && (longFull || shortFull))
            && (v.OverExchangeLimit? ==> v.exchange == if longFull then r.long else r.short)
            && (v == NoBudget <==> serious && !longFull && !shortFull && nothingElse)
            && (v == Accepted <==> serious && !longFull && !shortFull && !nothingElse)
  {
    hide Notional;
    assert Notional(r.desiredQty, r.notionalPerUnit) == r.desiredQty * r.notionalPerUnit by {
      ProductByName(r.desiredQty, r.notionalPerUnit);
    }
  }

  lemma ProductByName(x: real, y: real)
    ensures Notional(x, y) == x * y
  {
  }

  /** What is granted: nothing to a refused request. An accepted one is given the quotient of the least limit and the
      price, or what it wants if that is less; and the least limit is one of the wish and the rooms that are left. */
  lemma GrantIs(r: Request, limits: Limits, u: Use, div: Division)
    ensures var a := Allocate1(r, limits, u, div);
            && a.request == r && (a.reason == Accepted <==> Verdict(r, limits, u) == Accepted)
            && a.notional == a.qty * r.notionalPerUnit
            && (a.reason != Accepted ==> a.qty == 0.0 && a.reason == Verdict(r, limits, u))
            && (a.reason == Accepted ==>
                  && a.qty <= r.desiredQty && a.qty <= div(Allowed(r, limits, u), r.notionalPerUnit)
                  && (a.qty == r.desiredQty || a.qty == div(Allowed(r, limits, u), r.notionalPerUnit)))
  {
    hide Verdict, Allowed;
  }
}
