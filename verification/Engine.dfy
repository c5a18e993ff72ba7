/** The engine: the registry of open positions, close requests, and the tick that monitors and opens. */
module Engine {
  import opened Decimals
  import opened Exchange
  import opened Close
  import opened Repair
  import opened Lifecycle
  import opened Outcomes
  import P = Portfolio

  datatype Candidate = Candidate(asset: string, eligible: bool)

  class OpenPosition {
    const id: nat
    const asset: string
    const pos: P.Position
    const long: OrderExecutor
    const short: OrderExecutor

    ghost function View(): Record
      reads pos, long.adapter, short.adapter
    {
      Record(pos.View(), long.adapter.leg, short.adapter.leg)
    }

    /** Every part of a position carries its id, so positions with different ids share nothing. */
    ghost predicate Tagged() {
      pos.id == long.adapter.position == short.adapter.position == id && long.adapter != short.adapter
    }

    constructor (id: nat, asset: string, longLeg: Leg, shortLeg: Leg)
      ensures this.id == id && this.asset == asset
      ensures View() == Record(NEW_POSITION, longLeg, shortLeg)
      ensures fresh(pos) && fresh(long.adapter) && fresh(short.adapter) && Tagged()
    {
      this.id, this.asset := id, asset;
      var p := new P.Position(id);
      var l := new Adapter(id, longLeg);
      var s := new Adapter(id, shortLeg);
      pos := p;
      long := new OrderExecutor(l);
      short := new OrderExecutor(s);
    }
  }

  /** The first eligible candidate whose asset is not already open. */
  function PickSpec(cands: seq<Candidate>, taken: set<string>): Option<Candidate> {
    if cands == [] then None
    else if cands[0].eligible && cands[0].asset !in taken then Some(cands[0])
    else PickSpec(cands[1..], taken)
  }

  /** Positions are registered under their own id, no two share an asset, and their number is bounded. */
  ghost predicate RegistryHolds(open: map<nat, OpenPosition>, seqNo: nat, maxOpen: int) {
    && (forall id :: id in open ==> open[id].id == id <= seqNo && open[id].Tagged())
    && (forall i, j :: i in open && j in open && i != j ==> open[i].asset != open[j].asset)
    && |open| <= maxOpen
  }

  lemma RegisteredAreTagged(open: map<nat, OpenPosition>, seqNo: nat, maxOpen: int)
    requires RegistryHolds(open, seqNo, maxOpen)
    ensures forall id :: id in open ==> open[id].id == id <= seqNo && open[id].Tagged()
  {
  }

  lemma AddKeepsRegistry(open: map<nat, OpenPosition>, seqNo: nat, maxOpen: int, p: OpenPosition)
    requires RegistryHolds(open, seqNo, maxOpen) && |open| < maxOpen
    requires p.id == seqNo + 1 && p.Tagged() && forall id :: id in open ==> open[id].asset != p.asset
    ensures RegistryHolds(open, seqNo + 1, maxOpen) && RegistryHolds(open[seqNo + 1 := p], seqNo + 1, maxOpen)
  {
    assert open[seqNo + 1 := p].Keys == open.Keys + {seqNo + 1};
  }

  lemma RemoveKeepsRegistry(open: map<nat, OpenPosition>, seqNo: nat, maxOpen: int, id: nat)
    requires RegistryHolds(open, seqNo, maxOpen)
    ensures RegistryHolds(open - {id}, seqNo, maxOpen)
  {
    if id in open {
      assert open.Keys == (open - {id}).Keys + {id};
    } else {
      assert open - {id} == open;
    }
  }

  /** A position that was `before`, with a close request or none, is where `monitor` takes it: its record,
      whether it is still registered, and whether the close request still stands. */
  ghost predicate Treated(before: Record, asked: Option<string>, flipped: bool, env: CloseEnv, cfg: Config,
                          after: Record, registered: bool, stillAsked: Option<string>)
  {
    var (r, effect) := MonitorSpec(before, asked, flipped, env, cfg);
    && after == r
    && (registered <==> effect != Forgotten)
    && stillAsked == if effect == Kept then asked else None
  }

  /** A position that is still to be visited is as it was; one that has been visited has been treated. */
  ghost predicate Watched(pending: bool, was: Record, asked: Option<string>, flipped: bool, env: CloseEnv, cfg: Config,
                          now: Record, registered: bool, nowAsked: Option<string>)
  {
    if pending then now == was && nowAsked == asked
    else Treated(was, asked, flipped, env, cfg, now, registered, nowAsked)
  }

  lemma TreatedKeepsInvariant(before: Record, asked: Option<string>, flipped: bool, env: CloseEnv, cfg: Config,
                              after: Record, registered: bool, stillAsked: Option<string>)
    requires Treated(before, asked, flipped, env, cfg, after, registered, stillAsked)
    ensures BookInvariant(cfg.tolerance, before) ==> BookInvariant(cfg.tolerance, after)
  {
    hide BookInvariant, MonitorSpec;
    if BookInvariant(cfg.tolerance, before) {
      MonitorKeepsInvariant(before, asked, flipped, env, cfg);
    }
  }

  lemma TreatedLivesOn(before: Record, asked: Option<string>, flipped: bool, env: CloseEnv, cfg: Config,
                       after: Record, registered: bool, stillAsked: Option<string>)
    requires Treated(before, asked, flipped, env, cfg, after, registered, stillAsked) && IsLife(cfg, before)
    ensures IsLife(cfg, after)
  {
    hide IsLife, MonitorSpec;
    LifeGoesOn(before, Lifecycle.Event(asked, flipped, env), cfg);
  }

  function Asked(requests: map<nat, string>, id: nat): Option<string> {
    if id in requests then Some(requests[id]) else None
  }

  lemma OthersStayAsked(before: map<nat, string>, after: map<nat, string>, id: nat)
    requires after == before || after == before - {id}
    ensures forall i :: i != id ==> Asked(after, i) == Asked(before, i)
  {
  }

  ghost predicate AllTagged(open: map<nat, OpenPosition>) {
    forall id :: id in open ==> open[id].id == id && open[id].Tagged()
  }

  ghost function PartsOf(open: map<nat, OpenPosition>): (parts: set<object>)
    ensures forall id :: id in open ==> {open[id].pos, open[id].long.adapter, open[id].short.adapter} <= parts
  {
    (set id | id in open :: open[id].pos as object) + (set id | id in open :: open[id].long.adapter as object)
      + (set id | id in open :: open[id].short.adapter as object)
  }

  ghost function AssetsOf(open: map<nat, OpenPosition>): set<string> {
    set id | id in open :: open[id].asset
  }

  /** The positions that were registered before and still are. */
  ghost function Remaining(before: map<nat, OpenPosition>, open: map<nat, OpenPosition>): map<nat, OpenPosition> {
    map id | id in before && id in open :: before[id]
  }

  lemma RemainingIs(before: map<nat, OpenPosition>, kept: map<nat, OpenPosition>, open: map<nat, OpenPosition>, id: nat)
    requires forall i :: i in kept ==> i in before && kept[i] == before[i]
    requires open == kept || (id !in before && id in open && open == kept[id := open[id]])
    ensures Remaining(before, open) == kept
    ensures forall i :: i in open && i in before ==> i in kept && open[i] == before[i]
    ensures forall i :: i in open && i !in before ==> i == id && open != kept
  {
    assert Remaining(before, open).Keys == kept.Keys;
  }

  /** Whatever was registered and still is, is the same position; whatever is new has a new number. */
  ghost predicate Succeeds(before: map<nat, OpenPosition>, last: nat, open: map<nat, OpenPosition>) {
    forall id :: id in open ==> if id in before then open[id] == before[id] else id > last
  }

  lemma StartsOver(open: map<nat, OpenPosition>, last: nat)
    ensures Succeeds(open, last, open)
  {
  }

  lemma SuccessionContinues(first: map<nat, OpenPosition>, last: nat, mid: map<nat, OpenPosition>, later: nat,
                            open: map<nat, OpenPosition>)
    requires Succeeds(first, last, mid) && Succeeds(mid, later, open) && last <= later
    requires forall id :: id in first ==> id <= last
    ensures Succeeds(first, last, open)
  {
  }

  /** Whether a tick that leaves these positions opens another one. */
  ghost predicate Opens(kept: map<nat, OpenPosition>, cands: seq<Candidate>, cfg: Config) {
    |kept| < cfg.maxOpen && cfg.ordersEnabled && PickSpec(cands, AssetsOf(kept)).Some?
  }

  ghost predicate IsPartOf(part: object, op: OpenPosition) {
    part == op.pos || part == op.long.adapter || part == op.short.adapter
  }

  lemma PartsAre(open: map<nat, OpenPosition>, part: object)
    ensures part in PartsOf(open) <==> exists id :: id in open && IsPartOf(part, open[id])
  {
    if part in PartsOf(open) {
      if id :| id in open && part == open[id].pos {
        assert IsPartOf(part, open[id]);
      } else if id :| id in open && part == open[id].long.adapter {
        assert IsPartOf(part, open[id]);
      } else {
        var id :| id in open && part == open[id].short.adapter;
        assert IsPartOf(part, open[id]);
      }
    }
  }

  /** A position that is not registered shares nothing with those that are, so nothing that modifies only their parts
      changes it. */
  lemma StrangersShareNothing(open: map<nat, OpenPosition>, k: OpenPosition, part: object)
    requires AllTagged(open) && k.Tagged() && k.id !in open && IsPartOf(part, k)
    ensures part !in PartsOf(open)
  {
    PartsAre(open, part);
  }

  lemma NewParts(before: map<nat, OpenPosition>, last: nat, open: map<nat, OpenPosition>)
    requires Succeeds(before, last, open)
    ensures forall part :: part in PartsOf(open) ==>
              part in PartsOf(before) || exists id :: id in open && id !in before && IsPartOf(part, open[id])
  {
    hide PartsOf, IsPartOf;
    forall part | part in PartsOf(open)
      ensures part in PartsOf(before) || exists id :: id in open && id !in before && IsPartOf(part, open[id])
    {
      PartsAre(open, part);
      PartsAre(before, part);
    }
  }

  function Normalised(cfg: Config): Config {
    cfg.(maxOpen := if cfg.maxOpen <= 0 then 1 else cfg.maxOpen,
         maxRequotes := if cfg.maxRequotes <= 0 then 3 else cfg.maxRequotes)
  }

  /** What comes to the engine: a close request of the operator, or the clock. */
  datatype Input =
    | Ask(id: nat, reason: string)
    | Clock(halted: bool, flipped: nat -> bool, env: nat -> CloseEnv,
            cands: seq<Candidate>, openEnv: OpenEnv, longLeg: Leg, shortLeg: Leg)

  ghost predicate StartsFresh(input: Input) {
    input.Clock? ==> Fresh(input.longLeg) && Fresh(input.shortLeg)
  }

  class Engine {
    const cfg: Config
    var open: map<nat, OpenPosition>
    var closeReq: map<nat, string>
    var seqNo: nat

    ghost predicate Valid()
      reads this`open, this`seqNo
    {
      RegistryHolds(open, seqNo, cfg.maxOpen)
    }

    /** The parts of the registered positions. */
    ghost function Parts(): (parts: set<object>)
      reads this`open
      ensures forall id :: id in open ==> {open[id].pos, open[id].long.adapter, open[id].short.adapter} <= parts
      ensures this !in parts
    {
      PartsOf(open)
    }

    /** Every registered position is what an opening and what came after it can have made of it. */
    ghost predicate AllLive()
      reads this`open, Parts()
    {
      forall id :: id in open ==> IsLife(cfg, open[id].View())
    }

    constructor (cfg: Config)
      ensures Valid() && this.cfg == cfg.(maxOpen := this.cfg.maxOpen, maxRequotes := this.cfg.maxRequotes)
      ensures this.cfg.maxOpen == (if cfg.maxOpen > 0 then cfg.maxOpen else 1)
      ensures this.cfg.maxRequotes == (if cfg.maxRequotes > 0 then cfg.maxRequotes else 3)
      ensures open == map[] && closeReq == map[] && seqNo == 0 && AllLive()
    {
      this.cfg := Normalised(cfg);
      open, closeReq, seqNo := map[], map[], 0;
    }

    method RequestClose(id: nat, reason: string)
      requires Valid()
      modifies this`closeReq
      ensures Valid()
      ensures closeReq == old(closeReq)[id := if reason == "" then "operator request" else reason]
      ensures old(AllLive()) ==> AllLive()
    {
      hide IsLife, OpenPosition.View, RegistryHolds;
      closeReq := closeReq[id := if reason == "" then "operator request" else reason];
    }

    method Forget(id: nat)
      modifies this`open, this`closeReq
      ensures open == old(open) - {id} && closeReq == old(closeReq) - {id}
    {
      open := open - {id};
      closeReq := closeReq - {id};
    }

    method Transit(pos: P.Position, to: P.State, reason: string, stored: P.State -> bool, at: int) returns (ok: bool)
      modifies pos
      ensures (pos.View(), ok) == Lifecycle.Transit(old(pos.View()), to, reason, stored, at)
    {
      var err := pos.TransitionTo(to, at, reason, "system:engine", Some(stored(to)), []);
      ok := err == P.NoError;
    }

    method ClosePosition(op: OpenPosition, reason: string, env: CloseEnv)
      requires op.long.adapter != op.short.adapter
      modifies op.pos, op.long.adapter, op.short.adapter, this`open, this`closeReq
      ensures var (r, effect) := ClosePositionSpec(old(op.View()), reason, env, cfg);
              && op.View() == r
              && open == (if effect == Forgotten then old(open) - {op.id} else old(open))
              && closeReq == (if effect == Kept then old(closeReq) else old(closeReq) - {op.id})
    {
      hide StartExit, CloseSpec, FinishExit, Words;
      if !env.resolved {
        return;
      }
      var ok := StartClose(op, reason, env);
      if !ok {
        return;
      }
      var long, short := op.pos.long, op.pos.short;
      var res, err := CoordinatedClose(long, short, op.long, op.short, env.books, CloseConfigOf(env, cfg));
      var _ := op.pos.SetQuantities(long - res.longClosed, short - res.shortClosed);
      FinishClose(op, err, Words(res.reason), reason, env);
    }

    method StartClose(op: OpenPosition, reason: string, env: CloseEnv) returns (ok: bool)
      modifies op.pos
      ensures (op.pos.View(), ok) == StartExit(old(op.pos.View()), reason, env)
    {
      hide Lifecycle.Transit;
      if op.pos.state != P.ExitRequested {
        ok := Transit(op.pos, P.ExitRequested, reason, env.stored, env.at);
        if !ok {
          return;
        }
      }
      ok := Transit(op.pos, P.Exiting, reason, env.stored, env.at);
    }

    /** What the outcome of the coordinated close does to the position and to the registry. */
    method FinishClose(op: OpenPosition, err: CloseError, why: string, reason: string, env: CloseEnv)
      modifies op.pos, this`open, this`closeReq
      ensures var (p, effect) := FinishExit(old(op.pos.View()), err, why, reason, env);
              && op.pos.View() == p
              && open == (if effect == Forgotten then old(open) - {op.id} else old(open))
              && closeReq == (if effect == Kept then old(closeReq) else old(closeReq) - {op.id})
    {
      hide Lifecycle.Transit;
      match err {
        case NoError =>
          var _ := Transit(op.pos, P.Reconciling, "close complete, verifying", env.stored, env.at);
          var ok := Transit(op.pos, P.Closed, reason, env.stored, env.at);
          if !ok {
            return;
          }
          Forget(op.id);
        case CloseAmbiguous =>
          var _ := Transit(op.pos, P.Reconciling, why, env.stored, env.at);
          var _ := Transit(op.pos, P.Degraded, "ambiguous close: manual reconciliation required", env.stored, env.at);
        case CloseIncomplete =>
          var _ := Transit(op.pos, P.Degraded, why, env.stored, env.at);
      }
      closeReq := closeReq - {op.id};
    }

    method PlaceEntryLeg(exec: OrderExecutor, hasExecutor: bool, side: Side, qty: real, price: real)
      returns (a: LegAttempt)
      modifies exec.adapter
      ensures (exec.adapter.leg, a) == EnterLeg(old(exec.adapter.leg), hasExecutor, side, qty, price)
    {
      if !hasExecutor {
        return LegAttempt(0.0, false, Some(OtherError));
      }
      var res := exec.Place(Order(side, qty, Some(price), false));
      if res.Err? {
        if res.error == OrderNotFound {
          return LegAttempt(0.0, false, Some(res.error));
        }
        return LegAttempt(0.0, IsAmbiguousTimeout(res.error), Some(res.error));
      }
      var filled: real := res.value.filled;
      if filled > qty {
        filled := qty;
      }
      return LegAttempt(filled, false, None);
    }

    method Hedge(op: OpenPosition, env: OpenEnv) returns (registered: bool)
      modifies op.pos
      ensures OpenOutcome(op.View(), registered) ==
              Lifecycle.Hedge(old(op.pos.View()), old(op.long.adapter.leg), old(op.short.adapter.leg), env)
    {
      hide Lifecycle.Transit;
      var ok := Transit(op.pos, P.Hedged, "hedged", env.stored, env.at);
      if !ok {
        return false;
      }
      registered := Transit(op.pos, P.Monitoring, "entering monitoring", env.stored, env.at);
    }

    method Mend(op: OpenPosition, decision: RepairDecision, longPx: real, shortPx: real, env: OpenEnv)
      returns (registered: bool)
      requires op.long.adapter != op.short.adapter
      modifies op.pos, op.long.adapter, op.short.adapter
      ensures OpenOutcome(op.View(), registered) ==
              Lifecycle.Mend(old(op.pos.View()), old(op.long.adapter.leg), old(op.short.adapter.leg), decision,
                             longPx, shortPx, env, cfg)
    {
      hide Lifecycle.Transit, RepairSpec, Lifecycle.Hedge;
      var long, short := op.pos.long, op.pos.short;
      var ok := Transit(op.pos, P.PartiallyHedged, decision.reason, env.stored, env.at);
      if !ok {
        return false;
      }
      long, short := RepairImbalance(decision, long, short, op.long, op.short, env.longExec, env.shortExec,
                                     longPx, shortPx, cfg.tolerance);
      var _ := op.pos.SetQuantities(long, short);
      if Abs(long - short) > cfg.tolerance || (long == 0.0 && short == 0.0) {
        var _ := Transit(op.pos, P.Degraded, "delta mismatch not repaired", env.stored, env.at);
        return true;
      }
      registered := Hedge(op, env);
    }

    method Settle(op: OpenPosition, longRes: LegAttempt, shortRes: LegAttempt, longPx: real, shortPx: real,
                  env: OpenEnv)
      returns (registered: bool)
      requires op.long.adapter != op.short.adapter && op.pos.state == P.Opening
      modifies op.pos, op.long.adapter, op.short.adapter
      ensures OpenOutcome(op.View(), registered) ==
              Lifecycle.Settle(old(op.pos.View()), old(op.long.adapter.leg), old(op.short.adapter.leg),
                               longRes, shortRes, longPx, shortPx, env, cfg)
    {
      hide Lifecycle.Transit, Lifecycle.Mend, Lifecycle.Hedge;
      if longRes.ambiguous || shortRes.ambiguous {
        var _ := Transit(op.pos, P.Degraded, "entry leg state unknown (ack+query timeout)", env.stored, env.at);
        return true;
      }
      if longRes.filled == 0.0 && shortRes.filled == 0.0 {
        var _ := Transit(op.pos, P.Failed, "no fills on entry", env.stored, env.at);
        return false;
      }
      var _ := op.pos.SetQuantities(longRes.filled, shortRes.filled);
      var decision := AnalyzeMismatch(longRes.filled, shortRes.filled, cfg.tolerance);
      if decision.action != RepairNone {
        registered := Mend(op, decision, longPx, shortPx, env);
      } else {
        registered := Hedge(op, env);
      }
    }

    /** The transitions and orders of an opening, on a position that is already allocated. */
    method Enter(op: OpenPosition, env: OpenEnv) returns (registered: bool)
      requires op.long.adapter != op.short.adapter && op.pos.View() == NEW_POSITION
      modifies op.pos, op.long.adapter, op.short.adapter
      ensures OpenOutcome(op.View(), registered) ==
              OpenSpec(old(op.long.adapter.leg), old(op.short.adapter.leg), env, cfg)
    {
      hide Lifecycle.Transit, EnterLeg, Lifecycle.Settle, Quantize;
      ghost var start := (op.long.adapter.leg, op.short.adapter.leg);
      if env.longInst.None? || env.shortInst.None? {
        return false;
      }
      var li, si := env.longInst.value, env.shortInst.value;
      var qty := Quantize(cfg.targetQty, Max(li.qtyStep, si.qtyStep));
      if qty <= 0.0 || qty < Max(li.minQty, si.minQty) {
        return false;
      }
      assert EntryQty(env, cfg) == Some(qty);
      PrepareFacts(env);
      var ok := Transit(op.pos, P.Qualified, "passed filters+eligibility", env.stored, env.at);
      if !ok {
        return false;
      }
      ok := Transit(op.pos, P.Preparing, "preflight", env.stored, env.at);
      if !ok {
        return false;
      }
      ok := Transit(op.pos, P.Opening, "placing entry orders", env.stored, env.at);
      assert Prepare(env) == (op.pos.View(), ok);
      if !ok {
        return false;
      }
      if env.bestAsk.None? || env.bestBid.None? {
        var _ := Transit(op.pos, P.Failed, "market data missing at entry", env.stored, env.at);
        return false;
      }
      var protection := EntryProtection(env, cfg);
      var longPx, shortPx := env.bestAsk.value + protection, env.bestBid.value - protection;
      var longRes := PlaceEntryLeg(op.long, env.longExec, Long, qty, longPx);
      var shortRes := PlaceEntryLeg(op.short, env.shortExec, Short, qty, shortPx);
      registered := Settle(op, longRes, shortRes, longPx, shortPx, env);
    }

    ghost function OpenAssets(): set<string>
      reads this`open
    {
      AssetsOf(open)
    }

    method PickCandidate(cands: seq<Candidate>) returns (best: Option<Candidate>)
      ensures best == PickSpec(cands, OpenAssets())
    {
      var i := 0;
      while i < |cands|
        invariant 0 <= i <= |cands|
        invariant PickSpec(cands[i..], OpenAssets()) == PickSpec(cands, OpenAssets())
      {
        if cands[i].eligible {
          var dup := exists id | id in open :: open[id].asset == cands[i].asset;
          if !dup {
            return Some(cands[i]);
          }
        }
        i := i + 1;
      }
      return None;
    }

    /** Opens at most one position, on two fresh legs that behave as the exchanges please. */
    method TryOpen(cands: seq<Candidate>, env: OpenEnv, longLeg: Leg, shortLeg: Leg) returns (op: Option<OpenPosition>)
      requires Valid() && Fresh(longLeg) && Fresh(shortLeg)
      modifies this`open, this`seqNo
      ensures Valid()
      ensures op.Some? <==> |old(open)| < cfg.maxOpen && cfg.ordersEnabled && PickSpec(cands, old(OpenAssets())).Some?
      ensures op.None? ==> open == old(open) && seqNo == old(seqNo)
      ensures forall id :: id <= old(seqNo) ==> (id in open <==> id in old(open))
      ensures op.Some? ==>
                var o := OpenSpec(longLeg, shortLeg, env, cfg);
                && fresh(op.value) && fresh(op.value.pos)
                && fresh(op.value.long.adapter) && fresh(op.value.short.adapter)
                && op.value.View() == o.rec && BookInvariant(cfg.tolerance, o.rec)
                && op.value.asset == PickSpec(cands, old(OpenAssets())).value.asset
                && seqNo == old(seqNo) + 1
                && open == (if o.registered then old(open)[seqNo := op.value] else old(open))
      ensures old(AllLive()) ==> AllLive()
    {
      hide OpenSpec, RegistryHolds, BookInvariant, IsLife, OpenPosition.View, PickSpec, AssetsOf;
      RegisteredAreTagged(open, seqNo, cfg.maxOpen);
      OpenKeepsInvariant(longLeg, shortLeg, env, cfg);
      op := None;
      if |open| >= cfg.maxOpen {
        return;
      }
      var best := PickCandidate(cands);
      if best.None? || !cfg.ordersEnabled {
        return;
      }
      PickedIsNew(cands, OpenAssets());
      var p := OpenNext(best.value.asset, env, longLeg, shortLeg);
      op := Some(p);
    }

    method RegisterOpen(p: OpenPosition, registered: bool)
      requires p.id == seqNo && p.Tagged() && seqNo > 0
      requires RegistryHolds(open, seqNo - 1, cfg.maxOpen) && |open| < cfg.maxOpen && p.asset !in OpenAssets()
      requires IsLife(cfg, p.View())
      modifies this`open
      ensures RegistryHolds(open, seqNo, cfg.maxOpen)
      ensures open == (if registered then old(open)[seqNo := p] else old(open))
      ensures old(AllLive()) ==> AllLive()
    {
      hide RegistryHolds, IsLife, OpenPosition.View;
      assert forall id :: id in open ==> open[id].asset in OpenAssets();
      AddKeepsRegistry(open, seqNo - 1, cfg.maxOpen, p);
      if registered {
        open := open[seqNo := p];
      }
    }

    /** Opens one position under the next number, and registers it if the opening says so. */
    method OpenNext(asset: string, env: OpenEnv, longLeg: Leg, shortLeg: Leg) returns (p: OpenPosition)
      requires RegistryHolds(open, seqNo, cfg.maxOpen) && |open| < cfg.maxOpen && asset !in OpenAssets()
      requires Fresh(longLeg) && Fresh(shortLeg)
      modifies this`open, this`seqNo
      ensures RegistryHolds(open, seqNo, cfg.maxOpen)
      ensures seqNo == old(seqNo) + 1 && p.id == seqNo && p.asset == asset
      ensures fresh(p) && fresh(p.pos) && fresh(p.long.adapter) && fresh(p.short.adapter)
      ensures var o := OpenSpec(longLeg, shortLeg, env, cfg);
              p.View() == o.rec && open == if o.registered then old(open)[seqNo := p] else old(open)
      ensures old(AllLive()) ==> AllLive()
    {
      hide OpenSpec, RegistryHolds, IsLife, OpenPosition.View;
      OpenedIsLife(longLeg, shortLeg, env, cfg);
      var registered;
      p, registered := Launch(asset, env, longLeg, shortLeg);
      RegisterOpen(p, registered);
    }

    method Launch(asset: string, env: OpenEnv, longLeg: Leg, shortLeg: Leg)
      returns (p: OpenPosition, registered: bool)
      modifies this`seqNo
      ensures seqNo == old(seqNo) + 1 && p.id == seqNo && p.asset == asset && p.Tagged()
      ensures fresh(p) && fresh(p.pos) && fresh(p.long.adapter) && fresh(p.short.adapter)
      ensures OpenOutcome(p.View(), registered) == OpenSpec(longLeg, shortLeg, env, cfg)
    {
      hide OpenSpec;
      seqNo := seqNo + 1;
      p := new OpenPosition(seqNo, asset, longLeg, shortLeg);
      registered := Enter(p, env);
    }

    ghost function Requested(id: nat): Option<string>
      reads this`closeReq
    {
      Asked(closeReq, id)
    }

    /** Half way through `monitor`, with `ids` still to come: every position is as it was, or it has been treated. */
    ghost predicate Halfway(start: map<nat, OpenPosition>, ids: set<nat>, was: map<nat, Record>,
                            asked: map<nat, string>, flipped: nat -> bool, env: nat -> CloseEnv)
      reads this`open, this`closeReq, this`seqNo, PartsOf(start)
    {
      && ids <= open.Keys <= start.Keys == was.Keys && (forall id :: id in open ==> open[id] == start[id])
      && RegistryHolds(open, seqNo, cfg.maxOpen) && AllTagged(start)
      && forall id :: id in start ==>
           Watched(id in ids, was[id], Asked(asked, id), flipped(id), env(id), cfg,
                   start[id].View(), id in open, Asked(closeReq, id))
    }

    /** One pass over the registered positions, in any order: each of them is treated exactly as `MonitorSpec` says, and
        those that stay are the same positions. */
    method Monitor(flipped: nat -> bool, env: nat -> CloseEnv)
      requires Valid()
      modifies this`open, this`closeReq, Parts()
      ensures Valid() && forall id :: id in open ==> id in old(open) && open[id] == old(open)[id]
      ensures forall id :: id in old(open) ==>
                Treated(old(open[id].View()), old(Requested(id)), flipped(id), env(id), cfg,
                        old(open)[id].View(), id in open, Requested(id))
      ensures old(AllLive()) ==> AllLive()
    {
      hide Treated, OpenPosition.View, RegistryHolds, Asked, Parts, PartsOf, IsLife;
      RegisteredAreTagged(open, seqNo, cfg.maxOpen);
      ghost var start, asked := open, closeReq;
      ghost var was := map id | id in open :: open[id].View();
      var ids := open.Keys;
      while ids != {}
        invariant Halfway(start, ids, was, asked, flipped, env)
      {
        var id :| id in ids;
        MonitorNext(id, flipped, env, start, ids, was, asked);
        ids := ids - {id};
      }
      assert forall id :: id in start ==>
          Treated(was[id], Asked(asked, id), flipped(id), env(id), cfg, start[id].View(), id in open,
                  Asked(closeReq, id));
      forall id | id in open && IsLife(cfg, was[id]) ensures IsLife(cfg, open[id].View()) {
        TreatedLivesOn(was[id], Asked(asked, id), flipped(id), env(id), cfg, open[id].View(), id in open,
                       Asked(closeReq, id));
      }
    }

    method MonitorNext(id: nat, flipped: nat -> bool, env: nat -> CloseEnv, ghost start: map<nat, OpenPosition>,
                       ghost ids: set<nat>, ghost was: map<nat, Record>, ghost asked: map<nat, string>)
      requires Halfway(start, ids, was, asked, flipped, env) && id in ids
      modifies start[id].pos, start[id].long.adapter, start[id].short.adapter, this`open, this`closeReq
      ensures Halfway(start, ids - {id}, was, asked, flipped, env)
    {
      hide Treated, OpenPosition.View, RegistryHolds, Asked, MonitorSpec, PartsOf, OpenPosition.Tagged;
      MonitorAlone(open[id], flipped(id), env(id), start);
    }

    /** Parts carry their position's id, so what happens to one position does not happen to another. */
    method MonitorAlone(op: OpenPosition, flipped: bool, env: CloseEnv, ghost start: map<nat, OpenPosition>)
      requires RegistryHolds(open, seqNo, cfg.maxOpen) && op.id in open && op.Tagged() && AllTagged(start)
      modifies op.pos, op.long.adapter, op.short.adapter, this`open, this`closeReq
      ensures RegistryHolds(open, seqNo, cfg.maxOpen)
      ensures open.Keys <= old(open).Keys <= open.Keys + {op.id}
      ensures forall id :: id in open ==> open[id] == old(open)[id]
      ensures Treated(old(op.View()), old(Requested(op.id)), flipped, env, cfg, op.View(), op.id in open,
                      Requested(op.id))
      ensures forall id :: id in start && id != op.id ==>
                start[id].View() == old(start[id].View()) && Requested(id) == old(Requested(id))
    {
      hide Treated, RegistryHolds, Asked;
      RemoveKeepsRegistry(open, seqNo, cfg.maxOpen, op.id);
      ghost var asked := closeReq;
      MonitorOne(op, flipped, env);
      OthersStayAsked(asked, closeReq, op.id);
    }

    method MonitorOne(op: OpenPosition, flipped: bool, env: CloseEnv)
      requires op.long.adapter != op.short.adapter && op.id in open
      modifies op.pos, op.long.adapter, op.short.adapter, this`open, this`closeReq
      ensures Treated(old(op.View()), old(Requested(op.id)), flipped, env, cfg, op.View(), op.id in open,
                      Requested(op.id))
      ensures open == old(open) || open == old(open) - {op.id}
      ensures closeReq == old(closeReq) || closeReq == old(closeReq) - {op.id}
    {
      hide ClosePositionSpec;
      match op.pos.state {
        case Monitoring =>
          if op.id in closeReq {
            ClosePosition(op, closeReq[op.id], env);
          } else if cfg.exitIfFundingSignChanges && flipped {
            ClosePosition(op, "funding spread sign changed", env);
          }
        case Degraded =>
          if op.id in closeReq {
            ClosePosition(op, closeReq[op.id], env);
          }
        case Closed => Forget(op.id);
        case Failed => Forget(op.id);
        case _ =>
      }
    }

    /** One iteration of the engine; a halted engine does nothing. Otherwise every registered position is treated, and
        then at most one is opened, under the next number: exactly when the positions that stay leave room and orders
        are enabled and some candidate's asset is free. */
    method Tick(halted: bool, flipped: nat -> bool, env: nat -> CloseEnv,
                cands: seq<Candidate>, openEnv: OpenEnv, longLeg: Leg, shortLeg: Leg)
      requires Valid() && Fresh(longLeg) && Fresh(shortLeg)
      modifies this`open, this`closeReq, this`seqNo, Parts()
      ensures Valid()
      ensures halted ==> open == old(open) && closeReq == old(closeReq) && seqNo == old(seqNo)
      ensures forall id :: id in old(open) ==>
                if halted then old(open)[id].View() == old(open[id].View())
                else Treated(old(open[id].View()), old(Requested(id)), flipped(id), env(id), cfg,
                             old(open)[id].View(), id in open, Requested(id))
      ensures forall id :: id in old(open) && old(BookInvariant(cfg.tolerance, open[id].View())) ==>
                BookInvariant(cfg.tolerance, old(open)[id].View())
      ensures forall id :: id in open && id in old(open) ==> open[id] == old(open)[id]
      ensures seqNo == if !halted && Opens(Remaining(old(open), open), cands, cfg) then old(seqNo) + 1 else old(seqNo)
      ensures seqNo > old(seqNo) ==> (seqNo in open <==> OpenSpec(longLeg, shortLeg, openEnv, cfg).registered)
      ensures forall id :: id in open && id !in old(open) ==>
                && id == seqNo == old(seqNo) + 1 && fresh(open[id]) && fresh(open[id].pos)
                && fresh(open[id].long.adapter) && fresh(open[id].short.adapter)
                && open[id].View() == OpenSpec(longLeg, shortLeg, openEnv, cfg).rec
                && BookInvariant(cfg.tolerance, open[id].View())
                && open[id].asset == PickSpec(cands, AssetsOf(Remaining(old(open), open))).value.asset
      ensures old(AllLive()) ==> AllLive()
    {
      hide Treated, RegistryHolds, OpenPosition.View, Requested, Parts, OpenSpec, PickSpec, BookInvariant, AllLive;
      hide Remaining, AssetsOf;
      if halted {
        return;
      }
      RegisteredAreTagged(open, seqNo, cfg.maxOpen);
      Monitor(flipped, env);
      ghost var kept := open;
      var _ := TryOpen(cands, openEnv, longLeg, shortLeg);
      RemainingIs(old(open), kept, open, seqNo);
      forall id | id in old(open) && old(BookInvariant(cfg.tolerance, open[id].View()))
        ensures BookInvariant(cfg.tolerance, old(open)[id].View())
      {
        TreatedKeepsInvariant(old(open[id].View()), old(Requested(id)), flipped(id), env(id), cfg,
                              old(open)[id].View(), id in open, Requested(id));
      }
    }

    /** What a run from `start`, when `first` was the last number, keeps. */
    ghost predicate Going(start: map<nat, OpenPosition>, first: nat)
      reads this`open, this`seqNo, Parts()
    {
      && Valid() && AllLive() && first <= seqNo && Succeeds(start, first, open)
      && forall id :: id in start ==> id <= first
    }

    /** One input. */
    method Take(input: Input, ghost start: map<nat, OpenPosition>, ghost first: nat)
      requires Going(start, first) && StartsFresh(input)
      modifies this`open, this`closeReq, this`seqNo, Parts()
      ensures Going(start, first) && seqNo <= old(seqNo) + 1
      ensures forall part :: part in Parts() ==> part in old(Parts()) || fresh(part)
    {
      hide RegistryHolds, AllLive, Treated, OpenSpec, Opens, Remaining, AssetsOf, BookInvariant, OpenPosition.View;
      hide PartsOf, PickSpec, Requested;
      ghost var mid, later := open, seqNo;
      match input {
        case Ask(id, reason) => RequestClose(id, reason);
        case Clock(halted, flipped, env, cands, openEnv, longLeg, shortLeg) =>
          Tick(halted, flipped, env, cands, openEnv, longLeg, shortLeg);
      }
      SuccessionContinues(start, first, mid, later, open);
      NewParts(mid, later, open);
    }

    /** The engine's main loop over its first n inputs, the operator's requests among them. Every registered position
        stays what an opening and what came after it can have made of it, so every result about lives holds of it:
        whatever is registered, at any time, is sound. Positions keep their identity, and new ones get new numbers. */
    method Run(inputs: nat -> Input, n: nat)
      requires Valid() && AllLive() && forall i: nat :: i < n ==> StartsFresh(inputs(i))
      modifies this`open, this`closeReq, this`seqNo, Parts()
      ensures Valid() && AllLive() && old(seqNo) <= seqNo <= old(seqNo) + n
      ensures forall id :: id in open ==> IsSound(cfg, open[id].View())
      ensures forall id :: id in open ==> AreSided(open[id].View())
      ensures Succeeds(old(open), old(seqNo), open)
    {
      RegisteredAreTagged(open, seqNo, cfg.maxOpen);
      ghost var start, first, parts := open, seqNo, Parts();
      assert Going(start, first);
      hide Going, Parts, StartsFresh;
      var i := 0;
      while i < n
        invariant i <= n && Going(start, first) && seqNo <= first + i
        invariant forall part :: part in Parts() ==> part in parts || fresh(part)
      {
        Take(inputs(i), start, first);
        i := i + 1;
      }
      GoingIsSound(start, first);
    }

    lemma GoingIsSound(start: map<nat, OpenPosition>, first: nat)
      requires Going(start, first)
      ensures Valid() && AllLive() && first <= seqNo && Succeeds(start, first, open)
      ensures forall id :: id in open ==> IsSound(cfg, open[id].View()) && AreSided(open[id].View())
    {
      hide IsLife, IsSound, Sided, OpenPosition.View;
      forall id | id in open ensures IsSound(cfg, open[id].View()) && AreSided(open[id].View()) {
        LifeIsSound(open[id].View(), cfg);
        LifeIsSided(open[id].View(), cfg);
      }
    }
  }

  predicate AllTaken(cands: seq<Candidate>, taken: set<string>) {
    forall c :: c in cands && c.eligible ==> c.asset in taken
  }

  /** The picked candidate is the first eligible one whose asset is free; without a pick every eligible one is taken. */
  lemma {:induction false} PickedIsNew(cands: seq<Candidate>, taken: set<string>)
    ensures var best := PickSpec(cands, taken);
            if best.Some? then
              && best.value.eligible && best.value.asset !in taken
              && exists i :: 0 <= i < |cands| && cands[i] == best.value && AllTaken(cands[..i], taken)
            else AllTaken(cands, taken)
  {
    if cands != [] {
      PickedIsNew(cands[1..], taken);
      if cands[0].eligible && cands[0].asset !in taken {
        assert cands[0] == PickSpec(cands, taken).value && cands[..0] == [];
      } else if PickSpec(cands, taken).Some? {
        var i :| 0 <= i < |cands| - 1 && cands[1..][i] == PickSpec(cands, taken).value
                 && AllTaken(cands[1..][..i], taken);
        assert cands[..i + 1] == [cands[0]] + cands[1..][..i];
        assert cands[i + 1] == cands[1..][i];
      } else {
        assert cands == [cands[0]] + cands[1..];
      }
    }
  }
}
