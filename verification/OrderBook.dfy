/** Walking a quantity through the levels of an order book, best price first. */
module OrderBook {
  import opened Decimals

  datatype Level = Level(price: real, qty: real)

  datatype VwapResult = VwapResult(vwap: real, filledQty: real, filledValue: real, fullyFilled: bool)

  const NOTHING := VwapResult(0.0, 0.0, 0.0, false)

  // ---------------------------------------------------------------------------------------------------------
  // What may be taken at all, independently of the walk.

  /** How much of a level can be taken: levels without a positive quantity offer nothing. */
  function Offer(l: Level): Qty {
    Max(l.qty, 0.0)
  }

  function Sum(takes: seq<real>): real {
    if takes == [] then 0.0 else takes[0] + Sum(takes[1..])
  }

  function Cost(levels: seq<Level>, takes: seq<real>): real
    requires |takes| == |levels|
  {
    if takes == [] then 0.0 else Times(levels[0].price, takes[0]) + Cost(levels[1..], takes[1..])
  }

  predicate Feasible(levels: seq<Level>, takes: seq<real>) {
    |takes| == |levels| && forall i :: 0 <= i < |takes| ==> 0.0 <= takes[i] <= Offer(levels[i])
  }

  function Depth(levels: seq<Level>): Qty {
    if levels == [] then 0.0 else Offer(levels[0]) + Depth(levels[1..])
  }

  predicate Ascending(levels: seq<Level>) {
    forall i, j :: 0 <= i < j < |levels| ==> levels[i].price <= levels[j].price
  }

  predicate Descending(levels: seq<Level>) {
    forall i, j :: 0 <= i < j < |levels| ==> levels[i].price >= levels[j].price
  }

  // ---------------------------------------------------------------------------------------------------------
  // The greedy walk.

  /** What the walk takes from each level. */
  function Takes(levels: seq<Level>, q: real): (t: seq<real>)
    requires q >= 0.0
    ensures |t| == |levels|
  {
    if levels == [] then []
    else
      var take := Min(Offer(levels[0]), q);
      [take] + Takes(levels[1..], q - take)
  }

  function Value(levels: seq<Level>, q: real): real
    requires q >= 0.0
  {
    Cost(levels, Takes(levels, q))
  }

  function Filled(levels: seq<Level>, q: real): real {
    Min(q, Depth(levels))
  }

  function WalkResult(levels: seq<Level>, q: real): VwapResult {
    if q <= 0.0 || Filled(levels, q) == 0.0 then NOTHING
    else VwapResult(Value(levels, q) / Filled(levels, q), Filled(levels, q), Value(levels, q), Depth(levels) >= q)
  }

  lemma {:induction false} TakesSum(levels: seq<Level>, q: real)
    requires q >= 0.0
    ensures Sum(Takes(levels, q)) == Filled(levels, q) && Feasible(levels, Takes(levels, q))
  {
    if levels != [] {
      var take := Min(Offer(levels[0]), q);
      TakesSum(levels[1..], q - take);
      assert Takes(levels, q)[1..] == Takes(levels[1..], q - take);
    }
  }

  method Walk(levels: seq<Level>, requested: real) returns (r: VwapResult)
    requires requested > 0.0
    ensures r == WalkResult(levels, requested)
  {
    var value, filled, remaining := 0.0, 0.0, requested;
    var i := 0;
    assert levels[0..] == levels;
    while i < |levels| && remaining != 0.0
      invariant 0 <= i <= |levels|
      invariant 0.0 <= remaining && filled + remaining == requested
      invariant filled + Filled(levels[i..], remaining) == Filled(levels, requested)
      invariant value + Value(levels[i..], remaining) == Value(levels, requested)
      decreases |levels| - i
    {
      hide Value, Filled;
      assert levels[i..][1..] == levels[i + 1..];
      var level := levels[i];
      ValueUnfolds(levels[i..], remaining);
      FilledUnfolds(levels[i..], remaining);
      assert level.qty <= 0.0 ==> Times(level.price, 0.0) == 0.0;
      if level.qty > 0.0 {
        var take := if level.qty > remaining then remaining else level.qty;
        value := value + Times(level.price, take);
        filled := filled + take;
        remaining := remaining - take;
      }
      i := i + 1;
    }
    NothingMore(levels[i..], remaining);
    return if filled == 0.0 then NOTHING else VwapResult(value / filled, filled, value, remaining == 0.0);
  }

  lemma {:induction false} NothingMore(levels: seq<Level>, q: real)
    requires q == 0.0 || (q > 0.0 && levels == [])
    ensures Value(levels, q) == Filled(levels, q) == 0.0
  {
    if levels != [] {
      NothingMore(levels[1..], q);
      assert Takes(levels, q)[1..] == Takes(levels[1..], q);
    }
  }

  method VwapBuy(asks: seq<Level>, requested: real) returns (r: VwapResult)
    ensures r == WalkResult(asks, requested)
  {
    if requested <= 0.0 || |asks| == 0 {
      return NOTHING;
    }
    r := Walk(asks, requested);
  }

  method VwapSell(bids: seq<Level>, requested: real) returns (r: VwapResult)
    ensures r == WalkResult(bids, requested)
  {
    if requested <= 0.0 || |bids| == 0 {
      return NOTHING;
    }
    r := Walk(bids, requested);
  }

  // ---------------------------------------------------------------------------------------------------------
  // Optimality.

  /** A product by name, so that proofs about whole books can leave the multiplication alone. */
  function Times(p: real, x: real): real {
    p * x
  }

  lemma {:induction false} ValueUnfolds(levels: seq<Level>, q: real)
    requires q >= 0.0 && levels != []
    ensures var take := Min(Offer(levels[0]), q);
            Value(levels, q) == Times(levels[0].price, take) + Value(levels[1..], q - take)
  {
    var take := Min(Offer(levels[0]), q);
    assert Takes(levels, q)[1..] == Takes(levels[1..], q - take);
  }

  lemma FilledUnfolds(levels: seq<Level>, q: real)
    requires q >= 0.0 && levels != []
    ensures var take := Min(Offer(levels[0]), q);
            Filled(levels, q) == take + Filled(levels[1..], q - take)
  {
  }

  lemma Distribute(p: real, x: real, y: real)
    ensures Times(p, x + y) == Times(p, x) + Times(p, y)
  {
  }

  lemma Scale(p: real, m: real, x: real)
    requires p <= m && x >= 0.0
    ensures Times(p, x) <= Times(m, x)
  {
  }

  /** Each further unit costs at least the lowest price. */
  lemma {:induction false} MarginalCost(levels: seq<Level>, a: real, b: real, p: real)
    requires 0.0 <= a <= b && forall i :: 0 <= i < |levels| ==> levels[i].price >= p
    ensures Value(levels, b) - Value(levels, a) >= Times(p, Filled(levels, b) - Filled(levels, a))
  {
    if levels == [] {
      assert Value(levels, a) == Value(levels, b) == 0.0;
    } else {
      hide Value, Filled, Times;
      ValueUnfolds(levels, a);
      ValueUnfolds(levels, b);
      FilledUnfolds(levels, a);
      FilledUnfolds(levels, b);
      var ta, tb := Min(Offer(levels[0]), a), Min(Offer(levels[0]), b);
      MarginalCost(levels[1..], a - ta, b - tb, p);
      Distribute(levels[0].price, ta, tb - ta);
      Distribute(p, tb - ta, Filled(levels[1..], b - tb) - Filled(levels[1..], a - ta));
      Scale(p, levels[0].price, tb - ta);
    }
  }

  /** On asks, no way of taking the same quantity is cheaper than the walk. */
  lemma {:induction false} WalkIsCheapest(levels: seq<Level>, takes: seq<real>)
    requires Ascending(levels) && Feasible(levels, takes)
    ensures 0.0 <= Sum(takes) <= Depth(levels) && Cost(levels, takes) >= Value(levels, Sum(takes))
    decreases levels
  {
    if levels != [] {
      hide Value, Times;
      var rest, others := levels[1..], takes[1..];
      WalkIsCheapest(rest, others);
      var q := Sum(takes);
      var take := Min(Offer(levels[0]), q);
      ValueUnfolds(levels, q);
      MarginalCost(rest, q - take, q - takes[0], levels[0].price);
      Distribute(levels[0].price, takes[0], take - takes[0]);
      assert Cost(levels, takes) == Times(levels[0].price, takes[0]) + Cost(rest, others);
    }
  }

  function Mirrored(levels: seq<Level>): (m: seq<Level>)
    ensures |m| == |levels|
    ensures forall i :: 0 <= i < |m| ==> m[i] == Level(-levels[i].price, levels[i].qty)
  {
    if levels == [] then [] else [Level(-levels[0].price, levels[0].qty)] + Mirrored(levels[1..])
  }

  lemma {:induction false} MirroredCost(levels: seq<Level>, takes: seq<real>)
    requires |takes| == |levels|
    ensures Cost(Mirrored(levels), takes) == -Cost(levels, takes)
    decreases levels
  {
    if levels != [] {
      MirroredCost(levels[1..], takes[1..]);
      assert Mirrored(levels)[1..] == Mirrored(levels[1..]);
      assert Times(-levels[0].price, takes[0]) == -Times(levels[0].price, takes[0]);
    }
  }

  lemma {:induction false} MirroredWalk(levels: seq<Level>, q: real)
    requires q >= 0.0
    ensures Takes(Mirrored(levels), q) == Takes(levels, q) && Depth(Mirrored(levels)) == Depth(levels)
    ensures Value(Mirrored(levels), q) == -Value(levels, q)
  {
    if levels != [] {
      MirroredWalk(levels[1..], q - Min(Offer(levels[0]), q));
      assert Mirrored(levels)[1..] == Mirrored(levels[1..]);
    }
    MirroredCost(levels, Takes(levels, q));
  }

  /** On bids, no way of selling the same quantity earns more than the walk. */
  lemma WalkEarnsMost(levels: seq<Level>, takes: seq<real>)
    requires Descending(levels) && Feasible(levels, takes)
    ensures 0.0 <= Sum(takes) <= Depth(levels) && Cost(levels, takes) <= Value(levels, Sum(takes))
  {
    WalkIsCheapest(Mirrored(levels), takes);
    MirroredCost(levels, takes);
    MirroredWalk(levels, Sum(takes));
  }

  // ---------------------------------------------------------------------------------------------------------
  // Composition and convexity.

  /** The book after the walk for q. */
  function Consumed(levels: seq<Level>, q: real): (r: seq<Level>)
    requires q >= 0.0
    ensures |r| == |levels|
  {
    if levels == [] then []
    else
      var take := Min(Offer(levels[0]), q);
      [levels[0].(qty := levels[0].qty - take)] + Consumed(levels[1..], q - take)
  }

  /** Walking for a + b is walking for a and then for b on what is left of the book. */
  lemma {:induction false} WalkSplits(levels: seq<Level>, a: real, b: real)
    requires a >= 0.0 && b >= 0.0
    ensures Value(levels, a + b) == Value(levels, a) + Value(Consumed(levels, a), b)
    ensures Filled(levels, a + b) == Filled(levels, a) + Filled(Consumed(levels, a), b)
  {
    if levels != [] {
      hide Value, Filled, Times;
      var left := Consumed(levels, a);
      var ta := Min(Offer(levels[0]), a);
      var tb := Min(Offer(left[0]), b);
      assert left[1..] == Consumed(levels[1..], a - ta);
      assert Min(Offer(levels[0]), a + b) == ta + tb && (a - ta) + (b - tb) == a + b - (ta + tb);
      ValueUnfolds(levels, a);
      ValueUnfolds(levels, a + b);
      ValueUnfolds(left, b);
      FilledUnfolds(levels, a);
      FilledUnfolds(levels, a + b);
      FilledUnfolds(left, b);
      WalkSplits(levels[1..], a - ta, b - tb);
      Distribute(levels[0].price, ta, tb);
    }
  }

  /** A price that is no lower than anything paid for a, and no higher than anything paid beyond it. */
  lemma {:induction false} LastPrice(levels: seq<Level>, a: real, b: real, p: real) returns (m: real)
    requires 0.0 <= a <= b && Ascending(levels) && forall i :: 0 <= i < |levels| ==> levels[i].price >= p
    ensures m >= p
    ensures Value(levels, a) <= Times(m, Filled(levels, a))
    ensures Value(levels, b) - Value(levels, a) >= Times(m, Filled(levels, b) - Filled(levels, a))
  {
    if levels == [] {
      m := p;
    } else {
      hide Value, Filled, Times;
      ValueUnfolds(levels, a);
      ValueUnfolds(levels, b);
      FilledUnfolds(levels, a);
      FilledUnfolds(levels, b);
      if a <= Offer(levels[0]) {
        m := levels[0].price;
        MarginalCost(levels, a, b, m);
        NothingMore(levels[1..], 0.0);
      } else {
        var take := Offer(levels[0]);
        m := LastPrice(levels[1..], a - take, b - take, levels[0].price);
        Scale(levels[0].price, m, take);
        Distribute(m, take, Filled(levels[1..], a - take));
      }
    }
  }

  lemma AverageGrows(v1: real, f1: real, v2: real, f2: real, m: real)
    requires 0.0 < f1 <= f2 && v1 <= Times(m, f1) && v2 - v1 >= Times(m, f2 - f1)
    ensures v1 / f1 <= v2 / f2
  {
    var average := v1 / f1;
    assert average * f1 == v1;
    BelowMargin(average, m, f1);
    Scale(average, m, f2 - f1);
    Distribute(average, f1, f2 - f1);
    assert v2 >= average * f2;
    DivideBound(average, v2, f2);
  }

  lemma BelowMargin(x: real, m: real, f: real)
    requires f > 0.0 && x * f <= m * f
    ensures x <= m
  {
  }

  lemma DivideBound(x: real, v: real, f: real)
    requires f > 0.0 && v >= x * f
    ensures x <= v / f
  {
    assert v / f * f == v;
    BelowMargin(x, v / f, f);
  }

  lemma FilledGrows(levels: seq<Level>, a: real, b: real)
    requires a <= b
    ensures Filled(levels, a) <= Filled(levels, b)
  {
  }

  lemma VwapIs(levels: seq<Level>, q: real)
    requires q > 0.0 && Depth(levels) > 0.0
    ensures Filled(levels, q) > 0.0 && WalkResult(levels, q).vwap == Value(levels, q) / Filled(levels, q)
  {
  }

  /** On asks, asking for more never lowers the average price. */
  lemma VwapGrows(levels: seq<Level>, a: real, b: real)
    requires Ascending(levels) && 0.0 < a <= b && Depth(levels) > 0.0
    ensures WalkResult(levels, a).vwap <= WalkResult(levels, b).vwap
  {
    hide WalkResult, Value, Filled, Depth, Times;
    VwapIs(levels, a);
    VwapIs(levels, b);
    FilledGrows(levels, a, b);
    var m := LastPrice(levels, a, b, if levels == [] then 0.0 else levels[0].price);
    AverageGrows(Value(levels, a), Filled(levels, a), Value(levels, b), Filled(levels, b), m);
  }

  lemma MirroredVwap(levels: seq<Level>, q: real)
    requires q > 0.0 && Depth(levels) > 0.0
    ensures WalkResult(Mirrored(levels), q).vwap == -WalkResult(levels, q).vwap
  {
    hide WalkResult, Value, Depth, Takes, Filled;
    MirroredWalk(levels, q);
    VwapIs(levels, q);
    VwapIs(Mirrored(levels), q);
    SameFill(Mirrored(levels), levels, q);
    NegatedRatio(Value(levels, q), Filled(levels, q));
  }

  lemma SameFill(levels: seq<Level>, others: seq<Level>, q: real)
    requires Depth(levels) == Depth(others)
    ensures Filled(levels, q) == Filled(others, q)
  {
  }

  lemma NegatedRatio(v: real, f: real)
    requires f > 0.0
    ensures -v / f == -(v / f)
  {
  }

  /** On bids, asking for more never raises it. */
  lemma VwapShrinks(levels: seq<Level>, a: real, b: real)
    requires Descending(levels) && 0.0 < a <= b && Depth(levels) > 0.0
    ensures WalkResult(levels, a).vwap >= WalkResult(levels, b).vwap
  {
    hide WalkResult, Value, Filled, Depth, Takes;
    MirroredWalk(levels, a);
    MirroredVwap(levels, a);
    MirroredVwap(levels, b);
    VwapGrows(Mirrored(levels), a, b);
  }

  // ---------------------------------------------------------------------------------------------------------
  // The quick check of the depth.

  function Total(levels: seq<Level>): real {
    if levels == [] then 0.0 else Total(levels[..|levels| - 1]) + levels[|levels| - 1].qty
  }

  method CheckDepthSufficient(levels: seq<Level>, qty: real) returns (ok: bool)
    ensures ok <==> Sufficient(levels, qty)
  {
    var sum := 0.0;
    var i := 0;
    while i < |levels|
      invariant 0 <= i <= |levels| && sum == Total(levels[..i])
      invariant forall k :: 0 < k <= i ==> Total(levels[..k]) < qty
    {
      assert levels[..i + 1][..i] == levels[..i];
      sum := sum + levels[i].qty;
      i := i + 1;
      if sum >= qty {
        return true;
      }
    }
    return false;
  }

  predicate Sufficient(levels: seq<Level>, qty: real) {
    exists k :: 0 < k <= |levels| && Total(levels[..k]) >= qty
  }

  lemma {:induction false} TotalIsWithinDepth(levels: seq<Level>, k: nat)
    requires k <= |levels|
    ensures Total(levels[..k]) <= Depth(levels)
    ensures k == |levels| && (forall i :: 0 <= i < k ==> levels[i].qty >= 0.0) ==> Total(levels) == Depth(levels)
  {
    if k > 0 {
      TotalIsWithinDepth(levels[1..], k - 1);
      assert levels[1..][..k - 1] == levels[..k][1..];
      FirstOfTotal(levels[..k]);
      assert k == |levels| ==> levels[..k] == levels && levels[1..][..k - 1] == levels[1..];
    }
  }

  lemma {:induction false} FirstOfTotal(levels: seq<Level>)
    requires levels != []
    ensures Total(levels) == levels[0].qty + Total(levels[1..])
  {
    if |levels| > 1 {
      FirstOfTotal(levels[..|levels| - 1]);
      assert levels[1..][..|levels| - 2] == levels[..|levels| - 1][1..];
    }
  }

  /** The check promises a full fill; it misses one only when some level has a negative quantity. */
  lemma DepthCheckIsSound(levels: seq<Level>, q: real)
    requires q > 0.0
    ensures Sufficient(levels, q) ==> WalkResult(levels, q).fullyFilled
    ensures (forall i :: 0 <= i < |levels| ==> levels[i].qty >= 0.0) ==>
              (Sufficient(levels, q) <==> WalkResult(levels, q).fullyFilled)
  {
    forall k | 0 < k <= |levels| ensures Total(levels[..k]) <= Depth(levels) {
      TotalIsWithinDepth(levels, k);
    }
    TotalIsWithinDepth(levels, |levels|);
    assert levels[..|levels|] == levels;
  }

  predicate NegativeBeforePositive(levels: seq<Level>) {
    exists i, j :: 0 <= i < j < |levels| && levels[i].qty < 0.0 < levels[j].qty
  }

  /** The only place for such a pair is at the first level or behind it. */
  lemma PairAtHeadOrBehind(levels: seq<Level>)
    requires levels != []
    ensures NegativeBeforePositive(levels) <==>
            NegativeBeforePositive(levels[1..]) || (levels[0].qty < 0.0 && Depth(levels[1..]) > 0.0)
  {
    var rest := levels[1..];
    DepthIsPositiveIff(rest);
    if NegativeBeforePositive(rest) {
      var i, j :| 0 <= i < j < |rest| && rest[i].qty < 0.0 < rest[j].qty;
      assert levels[i + 1].qty < 0.0 < levels[j + 1].qty;
    }
    if levels[0].qty < 0.0 && Depth(rest) > 0.0 {
      var j :| 0 <= j < |rest| && rest[j].qty > 0.0;
      assert levels[0].qty < 0.0 < levels[j + 1].qty;
    }
    if NegativeBeforePositive(levels) {
      var i, j :| 0 <= i < j < |levels| && levels[i].qty < 0.0 < levels[j].qty;
      assert rest[j - 1] == levels[j] && (i > 0 ==> rest[i - 1] == levels[i]);
    }
  }

  lemma {:induction false} DepthIsPositiveIff(levels: seq<Level>)
    ensures Depth(levels) > 0.0 <==> exists j :: 0 <= j < |levels| && levels[j].qty > 0.0
  {
    if levels != [] {
      DepthIsPositiveIff(levels[1..]);
      assert forall j :: 1 <= j < |levels| ==> levels[j] == levels[1..][j - 1];
    }
  }

  /** Behind a negative level that stands before a positive one, no running total reaches the depth. */
  lemma {:induction false} TotalsStayBelow(levels: seq<Level>, k: nat)
    requires NegativeBeforePositive(levels) && k <= |levels|
    ensures Total(levels[..k]) < Depth(levels)
    decreases levels
  {
    var rest := levels[1..];
    PairAtHeadOrBehind(levels);
    if k == 0 {
      assert levels[..0] == [];
      var j :| 0 < j < |levels| && levels[j].qty > 0.0;
      DepthIsPositiveIff(levels);
    } else {
      FirstOfTotal(levels[..k]);
      assert levels[..k][1..] == rest[..k - 1];
      if NegativeBeforePositive(rest) {
        TotalsStayBelow(rest, k - 1);
      } else {
        TotalIsWithinDepth(rest, k - 1);
      }
    }
  }

  /** Otherwise one of them does, unless there is no depth at all. */
  lemma {:induction false} SomeTotalIsDepth(levels: seq<Level>) returns (k: nat)
    requires !NegativeBeforePositive(levels)
    ensures k <= |levels| && (Total(levels[..k]) == Depth(levels) || Depth(levels) == 0.0)
    ensures Depth(levels) > 0.0 ==> k > 0
    decreases levels
  {
    k := 0;
    if levels != [] {
      PairAtHeadOrBehind(levels);
      var rest := SomeTotalIsDepth(levels[1..]);
      k := if Depth(levels[1..]) > 0.0 then rest + 1 else 1;
      FirstOfTotal(levels[..k]);
      assert levels[..k][1..] == levels[1..][..k - 1];
      assert k == 1 ==> levels[..k][1..] == [];
    }
  }

  predicate AgreesAt(levels: seq<Level>, q: real) {
    Sufficient(levels, q) == WalkResult(levels, q).fullyFilled
  }

  /** The check and the walk agree for every quantity exactly when no negative level stands before a positive one. */
  lemma DepthCheckIsExactIff(levels: seq<Level>)
    ensures (forall q :: q > 0.0 ==> AgreesAt(levels, q)) <==> !NegativeBeforePositive(levels)
  {
    if NegativeBeforePositive(levels) {
      forall k | 0 < k <= |levels| ensures Total(levels[..k]) < Depth(levels) {
        TotalsStayBelow(levels, k);
      }
      TotalsStayBelow(levels, 0);
      assert levels[..0] == [];
      hide Value;
      assert !AgreesAt(levels, Depth(levels));
    } else {
      var k := SomeTotalIsDepth(levels);
      forall q | q > 0.0 ensures AgreesAt(levels, q) {
        DepthCheckIsSound(levels, q);
      }
    }
  }

  lemma NegativeLevelHidesDepth()
    ensures var levels := [Level(1.0, -1.0), Level(1.0, 2.0)];
            !Sufficient(levels, 2.0) && WalkResult(levels, 2.0).fullyFilled
  {
    var levels := [Level(1.0, -1.0), Level(1.0, 2.0)];
    assert levels[..1] == [levels[0]] && levels[..2] == levels;
    assert Total(levels[..1]) == Total([]) - 1.0 == -1.0;
    assert levels[..2][..1] == levels[..1];
    assert Total(levels[..2]) == Total(levels[..1]) + 2.0 == 1.0;
    assert Depth(levels[1..]) == 2.0 + Depth(levels[1..][1..]) == 2.0;
  }

  /** The report of a walk: nothing for a request that is not positive or a book without an offer; otherwise the
      quantity is what there is of the request, the value is the average price times that quantity, and the request
      is fully filled exactly when the book is deep enough. */
  lemma WalkReports(levels: seq<Level>, q: real)
    ensures var r := WalkResult(levels, q);
            if q <= 0.0 || Depth(levels) == 0.0 then r == VwapResult(0.0, 0.0, 0.0, false)
            else
              && r.filledQty == (if Depth(levels) < q then Depth(levels) else q) > 0.0
              && r.vwap * r.filledQty == r.filledValue == Cost(levels, Takes(levels, q))
              && (r.fullyFilled <==> Depth(levels) >= q)
  {
    if q > 0.0 && Depth(levels) > 0.0 {
      VwapIs(levels, q);
      hide Value;
      var f := Filled(levels, q);
      assert Value(levels, q) / f * f == Value(levels, q);
    }
  }

  lemma {:induction false} ValueIsBetween(levels: seq<Level>, q: real, low: real, high: real)
    requires q >= 0.0 && forall i :: 0 <= i < |levels| ==> low <= levels[i].price <= high
    ensures Times(low, Filled(levels, q)) <= Value(levels, q) <= Times(high, Filled(levels, q))
  {
    if levels == [] {
      assert Value(levels, q) == Filled(levels, q) == 0.0;
    } else {
      hide Value, Filled, Times;
      var take := Min(Offer(levels[0]), q);
      var rest := Filled(levels[1..], q - take);
      ValueUnfolds(levels, q);
      FilledUnfolds(levels, q);
      ValueIsBetween(levels[1..], q - take, low, high);
      Distribute(low, take, rest);
      Distribute(high, take, rest);
      Scale(low, levels[0].price, take);
      Scale(levels[0].price, high, take);
    }
  }

  /** The average price lies between the lowest and the highest price of the book; in particular it is the price of a
      book that has only one. */
  lemma AverageIsBetween(levels: seq<Level>, q: real, low: real, high: real)
    requires q > 0.0 && Depth(levels) > 0.0 && forall i :: 0 <= i < |levels| ==> low <= levels[i].price <= high
    ensures low <= WalkResult(levels, q).vwap <= high
  {
    ValueIsBetween(levels, q, low, high);
    VwapIs(levels, q);
    hide Value, Filled, WalkResult;
    RatioIsBetween(low, Value(levels, q), Filled(levels, q), high);
  }

  lemma RatioIsBetween(low: real, v: real, f: real, high: real)
    requires f > 0.0 && Times(low, f) <= v <= Times(high, f)
    ensures low <= v / f <= high
  {
    DivideBound(low, v, f);
    BelowMargin(v / f, high, f);
  }
}
