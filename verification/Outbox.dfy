/** The transactional outbox: several dispatchers share one table through row locks, and any of them may die at
    any moment before its commit. A system is what the database and the workers hold; a run is a list of steps,
    in which a step that is not enabled changes nothing. */
module Outbox {
  import opened Decimals

  /** The columns that the dispatch protocol reads and writes. */
  datatype Row = Row(created: int, attempts: nat, processed: bool, nextRetry: Option<int>)

  /** An event as the batch query returned it: its number of attempts may be out of date when it is used. */
  datatype Event = Event(id: nat, attempts: nat)

  /** Where a worker is with the first event of its batch. */
  datatype Phase = Idle | Locked | Running | Finished(ok: bool)

  datatype Worker = Worker(batch: seq<Event>, phase: Phase)

  const FRESH := Worker([], Idle)

  datatype Entry =
    | Started(worker: nat, event: nat)
    | Returned(worker: nat, event: nat, ok: bool)
    | Died(worker: nat, event: nat)
    | Committed(worker: nat, event: nat, ok: bool)

  datatype System = System(now: int, rows: map<nat, Row>, workers: seq<Worker>, log: seq<Entry>)

  datatype Config = Config(maxAttempts: int, baseBackoff: int, batchSize: int)

  function Limit(cfg: Config): (m: nat)
    ensures m >= 1
  {
    if cfg.maxAttempts <= 0 then 3 else cfg.maxAttempts
  }

  function BatchSize(cfg: Config): (m: nat)
    ensures m >= 1
  {
    if cfg.batchSize <= 0 then 100 else cfg.batchSize
  }

  function Pow2(n: nat): (p: nat)
    ensures p >= 1
  {
    if n == 0 then 1 else 2 * Pow2(n - 1)
  }

  predicate Holds(w: Worker, e: nat) {
    w.phase != Idle && w.batch != [] && w.batch[0].id == e
  }

  predicate Unlocked(workers: seq<Worker>, e: nat) {
    forall d :: 0 <= d < |workers| ==> !Holds(workers[d], e)
  }

  /** What the batch query may return at all. */
  predicate Eligible(s: System, cfg: Config, e: nat) {
    && e in s.rows && !s.rows[e].processed && s.rows[e].attempts < Limit(cfg)
    && (s.rows[e].nextRetry.None? || s.rows[e].nextRetry.value <= s.now)
    && Unlocked(s.workers, e)
  }

  predicate Distinct(batch: seq<Event>) {
    forall i, j :: 0 <= i < j < |batch| ==> batch[i].id != batch[j].id
  }

  predicate Chosen(batch: seq<Event>, e: nat) {
    exists i :: 0 <= i < |batch| && batch[i].id == e
  }

  /** An answer of the batch query. Rows that another batch query holds at that instant are missing from it, so it
      may be any choice of eligible rows. */
  predicate IsBatch(s: System, cfg: Config, batch: seq<Event>) {
    |batch| <= BatchSize(cfg) && Distinct(batch) && forall i :: 0 <= i < |batch| ==> Current(s, cfg, batch[i])
  }

  /** The complete answer: the oldest eligible rows up to the batch size, in the order of their age. */
  predicate IsSelection(s: System, cfg: Config, batch: seq<Event>) {
    AreOldest(s, cfg, BatchSize(cfg), batch)
  }

  predicate AreOldest(s: System, cfg: Config, limit: nat, batch: seq<Event>) {
    && |batch| <= limit && Distinct(batch)
    && (forall i :: 0 <= i < |batch| ==> Current(s, cfg, batch[i]))
    && (forall i, j :: 0 <= i < j < |batch| ==> s.rows[batch[i].id].created <= s.rows[batch[j].id].created)
    && (forall e :: e in s.rows && Eligible(s, cfg, e) && !Chosen(batch, e) ==> Passed(s, limit, batch, e))
  }

  predicate Current(s: System, cfg: Config, ev: Event) {
    Eligible(s, cfg, ev.id) && ev.attempts == s.rows[ev.id].attempts
  }

  /** An eligible row was left out only because the batch was full of rows that are no younger. */
  predicate Passed(s: System, limit: nat, batch: seq<Event>, e: nat)
    requires e in s.rows
  {
    && |batch| == limit
    && forall i :: 0 <= i < |batch| && batch[i].id in s.rows ==> s.rows[batch[i].id].created <= s.rows[e].created
  }

  /** What a worker does with the first event of its batch. */
  datatype Move = Skip | Lock | Call | Return(ok: bool) | Commit(at: int) | Abort

  datatype Step =
    | Enqueue(event: nat, created: int)
    | Tick(now: int)
    | Fetch(worker: nat, batch: seq<Event>)
    | Work(worker: nat, move: Move)
    | Crash(worker: nat)

  function Updated(r: Row, cfg: Config, stale: nat, ok: bool, at: int): Row {
    if ok then r.(attempts := r.attempts + 1, processed := true)
    else r.(attempts := r.attempts + 1, nextRetry := Some(at + cfg.baseBackoff * Pow2(stale)))
  }

  predicate Enabled(s: System, cfg: Config, step: Step) {
    match step
    case Enqueue(e, _) => e !in s.rows
    case Tick(_) => true
    case Fetch(d, batch) => d < |s.workers| && s.workers[d] == FRESH && IsBatch(s, cfg, batch)
    case Crash(d) => d < |s.workers|
    case Work(d, move) =>
      && d < |s.workers| && s.workers[d].batch != [] && s.workers[d].batch[0].id in s.rows
      && CanMove(s, s.workers[d], move)
  }

  predicate CanMove(s: System, w: Worker, move: Move)
    requires w.batch != [] && w.batch[0].id in s.rows
  {
    match move
    case Skip => w.phase == Idle
    case Lock => w.phase == Idle && !s.rows[w.batch[0].id].processed && Unlocked(s.workers, w.batch[0].id)
    case Call => w.phase == Locked
    case Return(_) => w.phase == Running
    case Commit(_) => w.phase.Finished?
    case Abort => w.phase.Finished?
  }

  /** The worker after its move; it goes on to the next event of the batch once the transaction has ended. */
  function Moved(w: Worker, move: Move): Worker
    requires w.batch != []
  {
    match move
    case Lock => w.(phase := Locked)
    case Call => w.(phase := Running)
    case Return(ok) => w.(phase := Finished(ok))
    case _ => Worker(w.batch[1..], Idle)
  }

  function Entries(d: nat, w: Worker, move: Move): seq<Entry>
    requires w.batch != []
  {
    match move
    case Call => [Started(d, w.batch[0].id)]
    case Return(ok) => [Returned(d, w.batch[0].id, ok)]
    case Commit(_) => if w.phase.Finished? then [Committed(d, w.batch[0].id, w.phase.ok)] else []
    case _ => []
  }

  /** Only a commit writes to the table. */
  function RowsAfter(rows: map<nat, Row>, cfg: Config, w: Worker, move: Move): map<nat, Row>
    requires w.batch != [] && w.batch[0].id in rows
  {
    var ev := w.batch[0];
    if move.Commit? && w.phase.Finished? then
      rows[ev.id := Updated(rows[ev.id], cfg, ev.attempts, w.phase.ok, move.at)]
    else rows
  }

  function CrashEntries(d: nat, w: Worker): seq<Entry> {
    if w.phase == Running && w.batch != [] then [Died(d, w.batch[0].id)] else []
  }

  /** A skipped event is one whose row is processed, or locked by another worker's transaction or, for a moment,
      by another worker's batch query; or whose transaction could not begin. A crash undoes the open transaction
      and releases its lock. */
  function Apply(s: System, cfg: Config, step: Step): System {
    if !Enabled(s, cfg, step) then s else
      match step
      case Enqueue(e, created) => s.(rows := s.rows[e := Row(created, 0, false, None)])
      case Tick(now) => s.(now := now)
      case Fetch(d, batch) => s.(workers := s.workers[d := Worker(batch, Idle)])
      case Crash(d) => s.(workers := s.workers[d := FRESH], log := s.log + CrashEntries(d, s.workers[d]))
      case Work(d, move) =>
        var w := s.workers[d];
        System(s.now, RowsAfter(s.rows, cfg, w, move), s.workers[d := Moved(w, move)], s.log + Entries(d, w, move))
  }

  function Run(s: System, cfg: Config, steps: seq<Step>): System
    decreases steps
  {
    if steps == [] then s else Run(Apply(s, cfg, steps[0]), cfg, steps[1..])
  }

  function Start(n: nat): System {
    System(0, map[], seq(n, _ => FRESH), [])
  }

  // ---------------------------------------------------------------------------------------------------------
  // What a log says about one event.

  datatype Account = Account(running: Option<nat>, tries: nat, processed: bool, succeeded: bool)

  function AccountOf(log: seq<Entry>, e: nat): Account {
    if log == [] then Account(None, 0, false, false)
    else Extended(AccountOf(log[..|log| - 1], e), log[|log| - 1], e)
  }

  function Extended(a: Account, x: Entry, e: nat): Account {
    if x.event != e then a
    else match x
         case Started(d, _) => a.(running := Some(d))
         case Returned(_, _, ok) => a.(running := None, succeeded := a.succeeded || ok)
         case Died(_, _) => a.(running := None)
         case Committed(_, _, ok) => a.(tries := a.tries + 1, processed := a.processed || ok)
  }

  /** Every entry about `e` was in order when it was written. */
  predicate InOrder(log: seq<Entry>, e: nat) {
    if log == [] then true
    else InOrder(log[..|log| - 1], e) && Allowed(AccountOf(log[..|log| - 1], e), log[|log| - 1], e)
  }

  predicate Allowed(a: Account, x: Entry, e: nat) {
    x.event == e ==>
      match x
      case Started(_, _) => a.running.None? && !a.processed
      case Returned(d, _, _) => a.running == Some(d)
      case Died(d, _) => a.running == Some(d)
      case Committed(_, _, ok) => !a.processed && a.running.None? && (ok ==> a.succeeded)
  }

  // ---------------------------------------------------------------------------------------------------------
  // The invariant.

  predicate WorkerFits(s: System, d: nat)
    requires d < |s.workers|
  {
    var w := s.workers[d];
    && Distinct(w.batch)
    && (forall i :: 0 <= i < |w.batch| ==> w.batch[i].id in s.rows)
    && (w.phase != Idle ==> w.batch != [] && !s.rows[w.batch[0].id].processed)
  }

  predicate Exclusive(workers: seq<Worker>) {
    forall d, c :: 0 <= d < c < |workers| && workers[d].phase != Idle && workers[d].batch != [] ==>
      !Holds(workers[c], workers[d].batch[0].id)
  }

  predicate Structured(s: System) {
    && Exclusive(s.workers)
    && forall d :: 0 <= d < |s.workers| ==> WorkerFits(s, d)
  }

  /** How many workers still have `e` in their batch. */
  function Pending(workers: seq<Worker>, e: nat): (n: nat)
    ensures n <= |workers|
  {
    if workers == [] then 0
    else (if Chosen(workers[0].batch, e) then 1 else 0) + Pending(workers[1..], e)
  }

  predicate CallsMatch(s: System, e: nat) {
    var a := AccountOf(s.log, e);
    && (a.running.Some? ==> a.running.value < |s.workers|)
    && (forall d :: 0 <= d < |s.workers| ==>
          (a.running == Some(d) <==> Holds(s.workers[d], e) && s.workers[d].phase == Running))
    && (forall d :: 0 <= d < |s.workers| && Holds(s.workers[d], e) && s.workers[d].phase == Finished(true) ==>
          a.succeeded)
  }

  predicate About(s: System, cfg: Config, e: nat) {
    var a := AccountOf(s.log, e);
    && InOrder(s.log, e)
    && CallsMatch(s, e)
    && (a.processed ==> a.succeeded)
    && (if e in s.rows then
          && s.rows[e].attempts == a.tries
          && s.rows[e].processed == a.processed
          && s.rows[e].attempts + Pending(s.workers, e) <= Limit(cfg) + |s.workers| - 1
        else a == Account(None, 0, false, false))
  }

  lemma {:induction false} PendingAfter(workers: seq<Worker>, d: nat, w: Worker, e: nat)
    requires d < |workers|
    ensures Pending(workers[d := w], e) + (if Chosen(workers[d].batch, e) then 1 else 0)
         == Pending(workers, e) + (if Chosen(w.batch, e) then 1 else 0)
  {
    hide Chosen;
    if d == 0 {
      assert workers[0 := w][1..] == workers[1..];
    } else {
      PendingAfter(workers[1..], d - 1, w, e);
      assert workers[d := w][1..] == workers[1..][d - 1 := w];
    }
  }

  lemma PoppedBatch(batch: seq<Event>, e: nat)
    requires batch != [] && Distinct(batch)
    ensures Distinct(batch[1..])
    ensures Chosen(batch[1..], e) <==> Chosen(batch, e) && batch[0].id != e
    ensures e == batch[0].id ==> Chosen(batch, e)
  {
    if Chosen(batch, e) && batch[0].id != e {
      var i :| 0 <= i < |batch| && batch[i].id == e;
      assert batch[1..][i - 1].id == e;
    }
  }

  lemma SelectedIsEligible(s: System, cfg: Config, batch: seq<Event>, e: nat)
    requires IsBatch(s, cfg, batch)
    ensures Chosen(batch, e) ==> Eligible(s, cfg, e)
    ensures !Chosen(FRESH.batch, e)
  {
  }

  lemma OneHolder(workers: seq<Worker>, c: nat, d: nat, e: nat)
    requires Exclusive(workers) && c < |workers| && d < |workers| && Holds(workers[c], e) && Holds(workers[d], e)
    ensures c == d
  {
  }

  lemma AccountAfter(log: seq<Entry>, x: Entry, e: nat)
    ensures AccountOf(log + [x], e) == Extended(AccountOf(log, e), x, e)
    ensures InOrder(log + [x], e) <==> InOrder(log, e) && Allowed(AccountOf(log, e), x, e)
  {
    assert (log + [x])[..|log|] == log;
  }

  lemma WorkKeepsStructure(s: System, cfg: Config, d: nat, move: Move)
    requires Structured(s) && Enabled(s, cfg, Work(d, move))
    ensures Structured(Apply(s, cfg, Work(d, move)))
  {
    hide Entries, Distinct, Updated;
    var w := s.workers[d];
    assert WorkerFits(s, d);
    PoppedBatch(w.batch, 0);
    var t := Apply(s, cfg, Work(d, move));
    assert t.rows.Keys == s.rows.Keys;
    forall c | 0 <= c < |t.workers| ensures WorkerFits(t, c) {
      assert WorkerFits(s, c);
    }
  }

  lemma ApplyKeepsStructure(s: System, cfg: Config, step: Step)
    requires Structured(s)
    ensures Structured(Apply(s, cfg, step))
  {
    var t := Apply(s, cfg, step);
    if Enabled(s, cfg, step) {
      if step.Work? {
        WorkKeepsStructure(s, cfg, step.worker, step.move);
      } else {
        forall c | 0 <= c < |t.workers| ensures WorkerFits(t, c) {
          assert WorkerFits(s, c);
        }
      }
    }
  }

  lemma WorkKeepsAccount(s: System, cfg: Config, d: nat, move: Move, e: nat)
    requires Structured(s) && About(s, cfg, e) && Enabled(s, cfg, Work(d, move))
    ensures About(Apply(s, cfg, Work(d, move)), cfg, e)
  {
    hide AccountOf, InOrder, Distinct, Pending, Chosen;
    var w := s.workers[d];
    assert WorkerFits(s, d);
    PendingAfter(s.workers, d, Moved(w, move), e);
    PoppedBatch(w.batch, e);
    forall c | 0 <= c < |s.workers| && Holds(s.workers[c], e) && Holds(w, e) ensures c == d {
      OneHolder(s.workers, c, d, e);
    }
    var x := Entries(d, w, move);
    if x == [] {
      assert s.log + x == s.log;
    } else {
      AccountAfter(s.log, x[0], e);
      assert x == [x[0]];
    }
  }

  lemma CrashKeepsAccount(s: System, cfg: Config, d: nat, e: nat)
    requires Structured(s) && About(s, cfg, e) && d < |s.workers|
    ensures About(Apply(s, cfg, Crash(d)), cfg, e)
  {
    hide AccountOf, InOrder, Pending, Distinct;
    assert WorkerFits(s, d);
    PendingAfter(s.workers, d, FRESH, e);
    var x := CrashEntries(d, s.workers[d]);
    if x == [] {
      assert s.log + x == s.log;
    } else {
      AccountAfter(s.log, x[0], e);
      assert x == [x[0]];
    }
  }

  lemma ApplyKeepsAccount(s: System, cfg: Config, step: Step, e: nat)
    requires Structured(s) && About(s, cfg, e)
    ensures About(Apply(s, cfg, step), cfg, e)
  {
    hide AccountOf, InOrder, Pending, Chosen;
    if Enabled(s, cfg, step) {
      match step
      case Work(d, move) => WorkKeepsAccount(s, cfg, d, move, e);
      case Crash(d) => CrashKeepsAccount(s, cfg, d, e);
      case Fetch(d, batch) =>
        PendingAfter(s.workers, d, Worker(batch, Idle), e);
        SelectedIsEligible(s, cfg, batch, e);
      case _ =>
    }
  }

  lemma {:induction false} RunKeepsAccount(s: System, cfg: Config, steps: seq<Step>, e: nat)
    requires Structured(s) && About(s, cfg, e)
    ensures Structured(Run(s, cfg, steps)) && About(Run(s, cfg, steps), cfg, e)
    decreases steps
  {
    hide Structured, About, Apply;
    if steps != [] {
      ApplyKeepsStructure(s, cfg, steps[0]);
      ApplyKeepsAccount(s, cfg, steps[0], e);
      RunKeepsAccount(Apply(s, cfg, steps[0]), cfg, steps[1..], e);
    }
  }

  lemma EveryRunIsSound(n: nat, cfg: Config, steps: seq<Step>, e: nat)
    ensures Structured(Run(Start(n), cfg, steps)) && About(Run(Start(n), cfg, steps), cfg, e)
  {
    RunKeepsAccount(Start(n), cfg, steps, e);
  }

  lemma {:induction false} ApplyKeepsWorkerCount(s: System, cfg: Config, steps: seq<Step>)
    ensures |Run(s, cfg, steps).workers| == |s.workers|
    decreases steps
  {
    if steps != [] {
      ApplyKeepsWorkerCount(Apply(s, cfg, steps[0]), cfg, steps[1..]);
    }
  }

  /** The row counts exactly the committed tries, and stale batches take it at most n - 1 tries past the limit. */
  lemma AttemptsAreCommittedTries(n: nat, cfg: Config, steps: seq<Step>, e: nat)
    ensures var s := Run(Start(n), cfg, steps);
            e in s.rows ==> s.rows[e].attempts == AccountOf(s.log, e).tries <= Limit(cfg) + n - 1
  {
    EveryRunIsSound(n, cfg, steps, e);
    ApplyKeepsWorkerCount(Start(n), cfg, steps);
  }

  lemma {:induction false} InOrderPrefix(log: seq<Entry>, e: nat, k: nat)
    requires InOrder(log, e) && k <= |log|
    ensures InOrder(log[..k], e)
  {
    if k < |log| {
      InOrderPrefix(log[..|log| - 1], e, k);
      assert log[..|log| - 1][..k] == log[..k];
    } else {
      assert log[..k] == log;
    }
  }

  predicate Ends(x: Entry, worker: nat, e: nat) {
    x.event == e && x.worker == worker && (x.Returned? || x.Died?)
  }

  /** A call stays open until the entry that ends it. */
  lemma {:induction false} OpenCall(log: seq<Entry>, e: nat, i: nat, j: nat)
    requires InOrder(log, e) && i < j <= |log| && log[i].Started? && log[i].event == e
    requires forall k :: i < k < j ==> !Ends(log[k], log[i].worker, e)
    ensures AccountOf(log[..j], e).running == Some(log[i].worker)
    decreases j
  {
    InOrderPrefix(log, e, j);
    assert log[..j][..j - 1] == log[..j - 1];
    if i < j - 1 {
      OpenCall(log, e, i, j - 1);
      assert !Ends(log[j - 1], log[i].worker, e);
    }
  }

  lemma {:induction false} ProcessedStays(log: seq<Entry>, e: nat, i: nat, j: nat)
    requires i < j <= |log| && log[i].Committed? && log[i].event == e && log[i].ok
    ensures AccountOf(log[..j], e).processed
    decreases j
  {
    assert log[..j][..j - 1] == log[..j - 1];
    if i < j - 1 {
      ProcessedStays(log, e, i, j - 1);
    }
  }

  /** Between two calls of the handler for one event, the first one has ended. */
  lemma CallsNeverOverlap(n: nat, cfg: Config, steps: seq<Step>, e: nat, i: nat, j: nat)
    requires var log := Run(Start(n), cfg, steps).log;
             i < j < |log| && log[i].Started? && log[i].event == e && log[j].Started? && log[j].event == e
    ensures var log := Run(Start(n), cfg, steps).log;
            exists k :: i < k < j && Ends(log[k], log[i].worker, e)
  {
    var log := Run(Start(n), cfg, steps).log;
    EveryRunIsSound(n, cfg, steps, e);
    if forall k :: i < k < j ==> !Ends(log[k], log[i].worker, e) {
      InOrderPrefix(log, e, j + 1);
      assert log[..j + 1][..j] == log[..j];
      OpenCall(log, e, i, j);
      assert false;
    }
  }

  /** Once a commit has set `processed_at`, the event is neither handled nor written again. */
  lemma NothingAfterProcessed(n: nat, cfg: Config, steps: seq<Step>, e: nat, i: nat, j: nat)
    requires var log := Run(Start(n), cfg, steps).log;
             i < j < |log| && log[i].Committed? && log[i].event == e && log[i].ok
    ensures var x := Run(Start(n), cfg, steps).log[j];
            x.event == e ==> !x.Started? && !x.Committed?
  {
    var log := Run(Start(n), cfg, steps).log;
    EveryRunIsSound(n, cfg, steps, e);
    ProcessedStays(log, e, i, j);
    InOrderPrefix(log, e, j + 1);
    assert log[..j + 1][..j] == log[..j];
  }

  lemma {:induction false} SuccessIsLogged(log: seq<Entry>, e: nat) returns (k: nat)
    requires AccountOf(log, e).succeeded
    ensures k < |log| && log[k].Returned? && log[k].event == e && log[k].ok
  {
    k := |log| - 1;
    if !(log[k].Returned? && log[k].event == e && log[k].ok) {
      k := SuccessIsLogged(log[..k], e);
    }
  }

  /** An event is marked as processed only after a call of the handler for it has succeeded. */
  lemma ProcessedWasHandled(n: nat, cfg: Config, steps: seq<Step>, e: nat) returns (k: nat)
    requires var s := Run(Start(n), cfg, steps); e in s.rows && s.rows[e].processed
    ensures var log := Run(Start(n), cfg, steps).log;
            k < |log| && log[k].Returned? && log[k].event == e && log[k].ok
  {
    EveryRunIsSound(n, cfg, steps, e);
    k := SuccessIsLogged(Run(Start(n), cfg, steps).log, e);
  }

  /** A row is never removed or made younger, never loses a try and never becomes unprocessed again. */
  lemma {:induction false} RowsStay(s: System, cfg: Config, steps: seq<Step>, e: nat)
    requires e in s.rows
    ensures var t := Run(s, cfg, steps);
            && e in t.rows && t.rows[e].created == s.rows[e].created
            && t.rows[e].attempts >= s.rows[e].attempts && (s.rows[e].processed ==> t.rows[e].processed)
    decreases steps
  {
    if steps != [] {
      hide Enabled;
      RowsStay(Apply(s, cfg, steps[0]), cfg, steps[1..], e);
    }
  }

  /** After a failed try the event is not fetched before its backoff is over: the base, doubled for every attempt
      that the worker knew of. */
  lemma RetryWaits(s: System, cfg: Config, d: nat, at: int, t: System)
    requires Enabled(s, cfg, Work(d, Commit(at))) && s.workers[d].phase == Finished(false)
    requires var e := s.workers[d].batch[0].id;
             e in t.rows && t.rows[e] == Apply(s, cfg, Work(d, Commit(at))).rows[e] && Eligible(t, cfg, e)
    ensures t.now >= at + cfg.baseBackoff * Pow2(s.workers[d].batch[0].attempts)
  {
  }

  /** The commit of a try, exactly: the count goes up by one; a success is processed and keeps its retry time; a failure
      is due again at the time of the commit and the backoff that the worker's copy of the count calls for. */
  lemma CommitIs(s: System, cfg: Config, d: nat, at: int)
    requires Enabled(s, cfg, Work(d, Commit(at)))
    ensures var ev := s.workers[d].batch[0];
            var before, after := s.rows[ev.id], Apply(s, cfg, Work(d, Commit(at))).rows[ev.id];
            && after.attempts == before.attempts + 1 && after.created == before.created
            && (s.workers[d].phase.ok ==> after.processed && after.nextRetry == before.nextRetry)
            && (!s.workers[d].phase.ok ==>
                  after.processed == before.processed && after.nextRetry == Some(at + Wait(cfg, ev.attempts)))
  {
    WaitIs(cfg, s.workers[d].batch[0].attempts);
  }

  /** The backoff: the base, doubled once for each attempt. */
  function Wait(cfg: Config, attempts: nat): int {
    if attempts == 0 then cfg.baseBackoff else Wait(cfg, attempts - 1) + Wait(cfg, attempts - 1)
  }

  lemma {:induction false} WaitIs(cfg: Config, attempts: nat)
    ensures Wait(cfg, attempts) == cfg.baseBackoff * Pow2(attempts)
  {
    if attempts > 0 {
      WaitIs(cfg, attempts - 1);
      assert cfg.baseBackoff * (2 * Pow2(attempts - 1)) == 2 * (cfg.baseBackoff * Pow2(attempts - 1));
    }
  }

  /** A complete batch leaves an eligible row out only if it is full: as long as configured, or 100. */
  lemma FullUnlessAllFetched(s: System, cfg: Config, batch: seq<Event>, e: nat)
    requires IsSelection(s, cfg, batch) && Eligible(s, cfg, e) && !Chosen(batch, e)
    ensures |batch| == if cfg.batchSize >= 1 then cfg.batchSize else 100
    ensures forall i :: 0 <= i < |batch| ==>
              batch[i].id in s.rows && s.rows[batch[i].id].created <= s.rows[e].created
  {
    assert Passed(s, BatchSize(cfg), batch, e);
    forall i | 0 <= i < |batch| ensures batch[i].id in s.rows {
      assert Current(s, cfg, batch[i]);
    }
  }

  /** What is fetched: unprocessed and due rows that no one holds, below the limit, which is 3 unless one is configured;
      at most as many as configured, or 100. */
  lemma FetchedAre(s: System, cfg: Config, d: nat, batch: seq<Event>)
    requires Enabled(s, cfg, Fetch(d, batch))
    ensures |batch| <= if cfg.batchSize >= 1 then cfg.batchSize else 100
    ensures forall i :: 0 <= i < |batch| ==>
              && batch[i].id in s.rows && !s.rows[batch[i].id].processed && IsDue(s, batch[i].id)
              && batch[i].attempts == s.rows[batch[i].id].attempts
              && batch[i].attempts < if cfg.maxAttempts >= 1 then cfg.maxAttempts else 3
  {
    forall i | 0 <= i < |batch| ensures Current(s, cfg, batch[i]) {
    }
  }

  // ---------------------------------------------------------------------------------------------------------
  // What can still happen.

  /** Nothing unusual: the clock does not go back, commits are stamped with the current time, and no batch query
      misses a row. */
  predicate IsPlain(s: System, cfg: Config, steps: seq<Step>)
    decreases steps
  {
    steps == [] || (IsPlainStep(s, cfg, steps[0]) && IsPlain(Apply(s, cfg, steps[0]), cfg, steps[1..]))
  }

  predicate IsPlainStep(s: System, cfg: Config, step: Step) {
    match step
    case Tick(now) => s.now <= now
    case Fetch(_, batch) => IsSelection(s, cfg, batch)
    case Work(_, Commit(at)) => at == s.now
    case _ => true
  }

  lemma {:induction false} RunConcat(s: System, cfg: Config, first: seq<Step>, second: seq<Step>)
    ensures Run(s, cfg, first + second) == Run(Run(s, cfg, first), cfg, second)
    ensures IsPlain(s, cfg, first) && IsPlain(Run(s, cfg, first), cfg, second) ==> IsPlain(s, cfg, first + second)
    decreases first
  {
    hide Apply, IsPlainStep;
    if first == [] {
      assert first + second == second;
    } else {
      assert (first + second)[1..] == first[1..] + second;
      RunConcat(Apply(s, cfg, first[0]), cfg, first[1..], second);
    }
  }

  /** One event handled without interference. */
  function Try(d: nat, ok: bool, at: int): seq<Step> {
    [Work(d, Lock), Work(d, Call), Work(d, Return(ok)), Work(d, Commit(at))]
  }

  lemma TryIs(s: System, cfg: Config, d: nat, ok: bool, at: int) returns (t: System)
    requires d < |s.workers| && s.workers[d].phase == Idle && s.workers[d].batch != []
    requires var e := s.workers[d].batch[0].id;
             e in s.rows && !s.rows[e].processed && Unlocked(s.workers, e)
    ensures t == Run(s, cfg, Try(d, ok, at)) && t.now == s.now
    ensures at == s.now ==> IsPlain(s, cfg, Try(d, ok, at))
    ensures var ev := s.workers[d].batch[0];
            t.rows == s.rows[ev.id := Updated(s.rows[ev.id], cfg, ev.attempts, ok, at)]
    ensures t.workers == s.workers[d := Worker(s.workers[d].batch[1..], Idle)]
  {
    hide Unlocked, IsBatch, Updated;
    var moves := Try(d, ok, at);
    var s1 := Apply(s, cfg, moves[0]);
    var s2 := Apply(s1, cfg, moves[1]);
    var s3 := Apply(s2, cfg, moves[2]);
    t := Apply(s3, cfg, moves[3]);
    assert t.workers == s.workers[d := Worker(s.workers[d].batch[1..], Idle)];
    OneStep(s3, cfg, moves[3..]);
    OneStep(s2, cfg, moves[2..]);
    OneStep(s1, cfg, moves[1..]);
    assert moves[3..][1..] == [] && moves[2..][1..] == moves[3..] && moves[1..][1..] == moves[2..];
  }

  lemma OneStep(s: System, cfg: Config, steps: seq<Step>)
    requires steps != []
    ensures Run(s, cfg, steps) == Run(Apply(s, cfg, steps[0]), cfg, steps[1..])
    ensures IsPlain(s, cfg, steps) <==>
            IsPlainStep(s, cfg, steps[0]) && IsPlain(Apply(s, cfg, steps[0]), cfg, steps[1..])
  {
  }

  predicate AllFresh(s: System) {
    forall d :: 0 <= d < |s.workers| ==> s.workers[d] == FRESH
  }

  /** A worker left alone handles its whole batch, and the handler succeeds each time. */
  lemma {:induction false} BatchIsDelivered(s: System, cfg: Config, d: nat) returns (steps: seq<Step>, t: System)
    requires d < |s.workers| && forall c :: 0 <= c < |s.workers| ==> s.workers[c].phase == Idle
    requires Distinct(s.workers[d].batch)
    requires forall i :: 0 <= i < |s.workers[d].batch| ==>
               s.workers[d].batch[i].id in s.rows && !s.rows[s.workers[d].batch[i].id].processed
    ensures t == Run(s, cfg, steps) && t.now == s.now && t.rows.Keys == s.rows.Keys && IsPlain(s, cfg, steps)
    ensures t.workers == s.workers[d := FRESH]
    ensures forall e :: e in s.rows ==>
              t.rows[e].processed == (s.rows[e].processed || Chosen(s.workers[d].batch, e))
    ensures forall e :: e in s.rows && !Chosen(s.workers[d].batch, e) ==> t.rows[e] == s.rows[e]
    decreases |s.workers[d].batch|
  {
    var batch := s.workers[d].batch;
    if batch == [] {
      steps, t := [], s;
    } else {
      var s1 := TryIs(s, cfg, d, true, s.now);
      var rest;
      rest, t := BatchIsDelivered(s1, cfg, d);
      steps := Try(d, true, s.now) + rest;
      RunConcat(s, cfg, Try(d, true, s.now), rest);
      forall e { PoppedBatch(batch, e); }
    }
  }

  lemma {:induction false} EveryoneCrashes(s: System, cfg: Config, k: nat) returns (steps: seq<Step>, t: System)
    requires k <= |s.workers|
    ensures t == Run(s, cfg, steps) && t.now == s.now && t.rows == s.rows && |t.workers| == |s.workers|
    ensures IsPlain(s, cfg, steps)
    ensures forall d :: 0 <= d < k ==> t.workers[d] == FRESH
  {
    if k == 0 {
      steps, t := [], s;
    } else {
      var first, s1 := EveryoneCrashes(s, cfg, k - 1);
      steps := first + [Crash(k - 1)];
      OneStep(s1, cfg, [Crash(k - 1)]);
      RunConcat(s, cfg, first, [Crash(k - 1)]);
      t := Apply(s1, cfg, Crash(k - 1));
      assert Run(t, cfg, []) == t && IsPlain(t, cfg, []);
    }
  }

  lemma {:induction false} OldestOf(rows: map<nat, Row>, ids: set<nat>) returns (e: nat)
    requires ids != {} && ids <= rows.Keys
    ensures e in ids && forall x :: x in ids ==> rows[e].created <= rows[x].created
  {
    var x :| x in ids;
    if ids == {x} {
      e := x;
    } else {
      var y := OldestOf(rows, ids - {x});
      e := if rows[x].created < rows[y].created then x else y;
    }
  }

  lemma {:induction false} BatchExists(s: System, cfg: Config, limit: nat) returns (batch: seq<Event>)
    ensures AreOldest(s, cfg, limit, batch)
  {
    if limit == 0 {
      batch := [];
    } else {
      batch := BatchExists(s, cfg, limit - 1);
      var ids := set e | e in s.rows && Eligible(s, cfg, e) && !Chosen(batch, e);
      assert forall x :: x in s.rows && Eligible(s, cfg, x) && !Chosen(batch, x) ==> x in ids;
      if |batch| == limit - 1 && ids != {} {
        var e := OldestOf(s.rows, ids);
        var more := batch + [Event(e, s.rows[e].attempts)];
        assert Passed(s, limit - 1, batch, e);
        forall x { AppendedChoice(batch, more[|batch|], x); }
        assert Distinct(more);
        assert forall x :: x in s.rows && Eligible(s, cfg, x) && !Chosen(more, x) ==> x in ids;
        batch := more;
      }
    }
  }

  lemma AppendedChoice(batch: seq<Event>, ev: Event, x: nat)
    ensures Chosen(batch + [ev], x) <==> Chosen(batch, x) || ev.id == x
    ensures Distinct(batch) && !Chosen(batch, ev.id) ==> Distinct(batch + [ev])
  {
    var more := batch + [ev];
    assert more[|batch|].id == ev.id;
    forall i | 0 <= i < |batch| ensures more[i].id == batch[i].id {
    }
  }

  /** The first instant, from now on, at which a row with this retry time is due. */
  function Later(now: int, retry: Option<int>): int {
    if retry.Some? && retry.value > now then retry.value else now
  }

  function Unprocessed(s: System): set<nat> {
    set e | e in s.rows && !s.rows[e].processed
  }

  lemma {:induction false} QueueDrains(s: System, cfg: Config, e: nat) returns (steps: seq<Step>)
    requires |s.workers| > 0 && AllFresh(s) && Eligible(s, cfg, e)
    ensures var t := Run(s, cfg, steps); e in t.rows && t.rows[e].processed
    ensures IsPlain(s, cfg, steps)
    decreases |Unprocessed(s)|
  {
    var batch := BatchExists(s, cfg, BatchSize(cfg));
    var s1 := Apply(s, cfg, Fetch(0, batch));
    var rest, t := BatchIsDelivered(s1, cfg, 0);
    steps := [Fetch(0, batch)] + rest;
    assert steps[1..] == rest;
    assert Run(s, cfg, steps) == t && IsPlain(s, cfg, steps) by { OneStep(s, cfg, steps); }
    if !Chosen(batch, e) {
      assert Chosen(batch, batch[0].id);
      assert Unprocessed(t) <= Unprocessed(s) - {batch[0].id};
      SmallerSet(Unprocessed(t), Unprocessed(s), batch[0].id);
      var more := QueueDrains(t, cfg, e);
      RunConcat(s, cfg, steps, more);
      steps := steps + more;
    }
  }

  lemma {:induction false} SmallerSet(a: set<nat>, b: set<nat>, x: nat)
    requires a <= b - {x} && x in b
    ensures |a| < |b|
    decreases |b|
  {
    if a != {} {
      var y :| y in a;
      SmallerSet(a - {y}, b - {y}, x);
    }
  }

  /** Whatever has happened, an unprocessed event below the limit can still be delivered in a plain run, even if every
      worker dies first and older events fill the batches. */
  lemma EventIsNeverLost(s: System, cfg: Config, e: nat) returns (steps: seq<Step>)
    requires |s.workers| > 0 && e in s.rows && !s.rows[e].processed && s.rows[e].attempts < Limit(cfg)
    ensures var t := Run(s, cfg, steps); e in t.rows && t.rows[e].processed
    ensures IsPlain(s, cfg, steps)
  {
    var first, s1 := EveryoneCrashes(s, cfg, |s.workers|);
    var due := Later(s.now, s.rows[e].nextRetry);
    var s2 := Apply(s1, cfg, Tick(due));
    var rest := QueueDrains(s2, cfg, e);
    assert ([Tick(due)] + rest)[1..] == rest;
    OneStep(s1, cfg, [Tick(due)] + rest);
    RunConcat(s, cfg, first, [Tick(due)] + rest);
    steps := first + ([Tick(due)] + rest);
  }

  // ---------------------------------------------------------------------------------------------------------
  // The bound on attempts is reached.

  /** One due event, which no one holds. */
  predicate OneEvent(s: System, attempts: nat) {
    && s.rows.Keys == {0} && !s.rows[0].processed && s.rows[0].attempts == attempts
    && (s.rows[0].nextRetry.None? || s.rows[0].nextRetry.value <= s.now)
    && forall d :: 0 <= d < |s.workers| ==> s.workers[d].phase == Idle
  }

  lemma EveryoneMayFetch(s: System, cfg: Config, d: nat, attempts: nat)
    requires OneEvent(s, attempts) && attempts < Limit(cfg) && d < |s.workers| && s.workers[d] == FRESH
    ensures IsPlain(s, cfg, [Fetch(d, [Event(0, attempts)])])
    ensures Apply(s, cfg, Fetch(d, [Event(0, attempts)]))
         == s.(workers := s.workers[d := Worker([Event(0, attempts)], Idle)])
  {
    var batch := [Event(0, attempts)];
    assert Eligible(s, cfg, 0);
    assert Chosen(batch, 0) by { assert batch[0].id == 0; }
    assert IsSelection(s, cfg, batch);
  }

  /** Worker d fails with its copy of the event, and time passes until the event is due again. */
  lemma FailedTry(s: System, cfg: Config, d: nat, attempts: nat) returns (steps: seq<Step>, t: System)
    requires OneEvent(s, attempts) && d < |s.workers| && |s.workers[d].batch| == 1 && s.workers[d].batch[0].id == 0
    ensures t == Run(s, cfg, steps) && OneEvent(t, attempts + 1) && t.workers == s.workers[d := FRESH]
    ensures IsPlain(s, cfg, steps)
  {
    var s1 := TryIs(s, cfg, d, false, s.now);
    var wait := [Tick(Later(s1.now, s1.rows[0].nextRetry))];
    t := Apply(s1, cfg, wait[0]);
    assert Run(s1, cfg, wait) == Run(t, cfg, []) == t;
    assert IsPlain(s1, cfg, wait);
    RunConcat(s, cfg, Try(d, false, s.now), wait);
    steps := Try(d, false, s.now) + wait;
    assert s.workers[d].batch[1..] == [];
  }

  /** One worker alone brings the event to the given number of attempts. */
  lemma {:induction false} ClimbTo(s: System, cfg: Config, from: nat, more: nat) returns (steps: seq<Step>, t: System)
    requires OneEvent(s, from) && AllFresh(s) && |s.workers| > 0 && from + more < Limit(cfg)
    ensures t == Run(s, cfg, steps) && OneEvent(t, from + more) && t.workers == s.workers && IsPlain(s, cfg, steps)
    decreases more
  {
    hide OneEvent, Enabled;
    if more == 0 {
      steps, t := [], s;
    } else {
      var fetch := [Fetch(0, [Event(0, from)])];
      EveryoneMayFetch(s, cfg, 0, from);
      var s1 := Apply(s, cfg, fetch[0]);
      StillOneEvent(s, s1, from, 0);
      assert Run(s, cfg, fetch) == Run(s1, cfg, []) == s1;
      var try, s2 := FailedTry(s1, cfg, 0, from);
      assert s2.workers == s.workers;
      var rest;
      rest, t := ClimbTo(s2, cfg, from + 1, more - 1);
      RunConcat(s, cfg, fetch, try);
      RunConcat(s, cfg, fetch + try, rest);
      steps := fetch + try + rest;
    }
  }

  lemma StillOneEvent(s: System, t: System, attempts: nat, d: nat)
    requires OneEvent(s, attempts) && d < |s.workers|
    requires t == s.(workers := s.workers[d := Worker([Event(0, attempts)], Idle)])
    ensures OneEvent(t, attempts)
  {
  }

  /** All workers from the k-th on read the event at the same number of attempts, and then fail one after the other. */
  lemma {:induction false} AllFetchThenFail(s: System, cfg: Config, k: nat, attempts: nat)
    returns (steps: seq<Step>, t: System)
    requires OneEvent(s, attempts) && attempts < Limit(cfg) && k <= |s.workers|
    requires forall d :: k <= d < |s.workers| ==> s.workers[d] == FRESH
    ensures t == Run(s, cfg, steps) && OneEvent(t, attempts + |s.workers| - k) && |t.workers| == |s.workers|
    ensures t.workers[..k] == s.workers[..k] && IsPlain(s, cfg, steps)
    decreases |s.workers| - k
  {
    hide OneEvent, Enabled;
    if k == |s.workers| {
      steps, t := [], s;
    } else {
      var fetch := [Fetch(k, [Event(0, attempts)])];
      EveryoneMayFetch(s, cfg, k, attempts);
      var s1 := Apply(s, cfg, fetch[0]);
      StillOneEvent(s, s1, attempts, k);
      assert Run(s, cfg, fetch) == Run(s1, cfg, []) == s1;
      var rest, s2 := AllFetchThenFail(s1, cfg, k + 1, attempts);
      assert s2.workers[k] == s2.workers[..k + 1][k] == s1.workers[..k + 1][k];
      var try;
      try, t := FailedTry(s2, cfg, k, attempts + |s.workers| - k - 1);
      RunConcat(s, cfg, fetch, rest);
      RunConcat(s, cfg, fetch + rest, try);
      steps := fetch + rest + try;
      assert t.workers[..k] == s2.workers[..k + 1][..k];
      assert s1.workers[..k + 1][..k] == s.workers[..k];
    }
  }

  lemma EnqueuedAlone(n: nat, cfg: Config) returns (t: System)
    ensures t == Run(Start(n), cfg, [Enqueue(0, 0)]) && IsPlain(Start(n), cfg, [Enqueue(0, 0)])
    ensures OneEvent(t, 0) && AllFresh(t) && |t.workers| == n
  {
    t := Apply(Start(n), cfg, Enqueue(0, 0));
    OneStep(Start(n), cfg, [Enqueue(0, 0)]);
    assert [Enqueue(0, 0)][1..] == [];
  }

  /** For every number of workers and every limit, some plain run takes an event to the largest number of attempts. */
  lemma BoundIsReached(n: nat, cfg: Config) returns (steps: seq<Step>)
    requires n > 0
    ensures IsPlain(Start(n), cfg, steps)
    ensures var s := Run(Start(n), cfg, steps);
            0 in s.rows && s.rows[0].attempts == Limit(cfg) + n - 1
  {
    var enqueue := [Enqueue(0, 0)];
    var s1 := EnqueuedAlone(n, cfg);
    var climb, s2 := ClimbTo(s1, cfg, 0, Limit(cfg) - 1);
    var last, s3 := AllFetchThenFail(s2, cfg, 0, Limit(cfg) - 1);
    RunConcat(Start(n), cfg, enqueue, climb);
    RunConcat(Start(n), cfg, enqueue + climb, last);
    steps := enqueue + climb + last;
  }

  predicate WithinLimit(n: nat, cfg: Config, steps: seq<Step>, e: nat) {
    var s := Run(Start(n), cfg, steps);
    e in s.rows ==> s.rows[e].attempts <= Limit(cfg)
  }

  /** No run takes an event past the limit exactly when there is at most one dispatcher. */
  lemma LimitIsKeptIff(n: nat, cfg: Config)
    ensures (forall steps, e :: WithinLimit(n, cfg, steps, e)) <==> n <= 1
  {
    if n <= 1 {
      forall steps, e ensures WithinLimit(n, cfg, steps, e) {
        AttemptsAreCommittedTries(n, cfg, steps, e);
      }
    } else {
      var steps := BoundIsReached(n, cfg);
      assert !WithinLimit(n, cfg, steps, 0);
    }
  }

  // ---------------------------------------------------------------------------------------------------------
  // The retry time.

  /** The clock never goes back, and no commit is stamped with a time that has not come. */
  predicate IsForward(s: System, cfg: Config, steps: seq<Step>)
    decreases steps
  {
    steps == [] || (IsForwardStep(s, steps[0]) && IsForward(Apply(s, cfg, steps[0]), cfg, steps[1..]))
  }

  predicate IsForwardStep(s: System, step: Step) {
    match step
    case Tick(now) => s.now <= now
    case Work(_, Commit(at)) => at <= s.now
    case _ => true
  }

  predicate IsDue(s: System, e: nat) {
    e in s.rows ==> s.rows[e].nextRetry.None? || s.rows[e].nextRetry.value <= s.now
  }

  /** If worker d is about to call its handler, the event is due. */
  predicate CallsInTime(s: System, cfg: Config, d: nat) {
    Enabled(s, cfg, Work(d, Call)) ==> IsDue(s, s.workers[d].batch[0].id)
  }

  predicate BatchesDue(s: System) {
    forall d, i :: 0 <= d < |s.workers| && 0 <= i < |s.workers[d].batch| ==> IsDue(s, s.workers[d].batch[i].id)
  }

  predicate AllDue(s: System) {
    forall e :: e in s.rows ==> IsDue(s, e)
  }

  /** A single worker: only its own commits move a retry time, and those are of events that leave its batch. */
  lemma StepKeepsBatchesDue(s: System, cfg: Config, step: Step)
    requires Structured(s) && |s.workers| <= 1 && IsForwardStep(s, step) && BatchesDue(s)
    ensures BatchesDue(Apply(s, cfg, step))
  {
    hide Entries, Unlocked, Pow2, Exclusive;
    var t := Apply(s, cfg, step);
    if Enabled(s, cfg, step) {
      forall d, i | 0 <= d < |t.workers| && 0 <= i < |t.workers[d].batch| ensures IsDue(t, t.workers[d].batch[i].id) {
        assert WorkerFits(s, d);
        match step
        case Fetch(_, batch) => assert Current(s, cfg, batch[i]);
        case Work(_, move) =>
          var later := if Moved(s.workers[d], move).batch == s.workers[d].batch then i else i + 1;
          assert t.workers[d].batch[i] == s.workers[d].batch[later];
          assert IsDue(s, s.workers[d].batch[later].id);
          OthersKeepRows(s, cfg, d, move, s.workers[d].batch[later].id);
        case Crash(_) =>
        case _ => assert IsDue(s, s.workers[d].batch[i].id);
      }
    }
  }

  /** A move writes at most the row of the event that then leaves the batch. */
  lemma OthersKeepRows(s: System, cfg: Config, d: nat, move: Move, e: nat)
    requires Enabled(s, cfg, Work(d, move)) && e in s.rows
    requires Moved(s.workers[d], move).batch == s.workers[d].batch || s.workers[d].batch[0].id != e
    ensures e in Apply(s, cfg, Work(d, move)).rows && Apply(s, cfg, Work(d, move)).rows[e] == s.rows[e]
    ensures Apply(s, cfg, Work(d, move)).now == s.now
  {
  }

  /** Without a backoff every row is due at once. */
  lemma StepKeepsAllDue(s: System, cfg: Config, step: Step)
    requires cfg.baseBackoff <= 0 && IsForwardStep(s, step) && AllDue(s)
    ensures AllDue(Apply(s, cfg, step))
  {
    hide Entries, Eligible, Pow2, CanMove;
    var t := Apply(s, cfg, step);
    if Enabled(s, cfg, step) {
      forall e | e in t.rows ensures IsDue(t, e) {
        assert IsDue(s, e);
        if step.Work? {
          NoBackoff(cfg.baseBackoff, Pow2(s.workers[step.worker].batch[0].attempts));
        }
      }
    }
  }

  lemma NoBackoff(base: int, factor: nat)
    requires base <= 0
    ensures base * factor <= 0
  {
  }

  lemma {:induction false} ForwardRunCallsInTime(s: System, cfg: Config, steps: seq<Step>, d: nat)
    requires Structured(s) && IsForward(s, cfg, steps)
    requires (|s.workers| <= 1 && BatchesDue(s)) || (cfg.baseBackoff <= 0 && AllDue(s))
    ensures CallsInTime(Run(s, cfg, steps), cfg, d)
    decreases steps
  {
    if steps != [] {
      hide Structured, AllDue, BatchesDue, IsForwardStep, CallsInTime;
      ApplyKeepsStructure(s, cfg, steps[0]);
      ApplyKeepsWorkerCount(s, cfg, [steps[0]]);
      OneStep(s, cfg, [steps[0]]);
      if |s.workers| <= 1 && BatchesDue(s) {
        StepKeepsBatchesDue(s, cfg, steps[0]);
      } else {
        StepKeepsAllDue(s, cfg, steps[0]);
      }
      ForwardRunCallsInTime(Apply(s, cfg, steps[0]), cfg, steps[1..], d);
    }
  }

  lemma TwoCopies(n: nat, cfg: Config) returns (steps: seq<Step>, t: System)
    requires n > 1
    ensures t == Run(Start(n), cfg, steps) && IsPlain(Start(n), cfg, steps)
    ensures OneEvent(t, 0) && |t.workers| == n
    ensures t.workers[0] == t.workers[1] == Worker([Event(0, 0)], Idle)
  {
    hide Enabled, Eligible, OneEvent;
    var enqueue, first, second := [Enqueue(0, 0)], [Fetch(0, [Event(0, 0)])], [Fetch(1, [Event(0, 0)])];
    var s1 := EnqueuedAlone(n, cfg);
    EveryoneMayFetch(s1, cfg, 0, 0);
    var s2 := Apply(s1, cfg, first[0]);
    StillOneEvent(s1, s2, 0, 0);
    assert Run(s1, cfg, first) == Run(s2, cfg, []) == s2;
    EveryoneMayFetch(s2, cfg, 1, 0);
    t := Apply(s2, cfg, second[0]);
    StillOneEvent(s2, t, 0, 1);
    assert Run(s2, cfg, second) == Run(t, cfg, []) == t;
    RunConcat(Start(n), cfg, enqueue, first);
    RunConcat(Start(n), cfg, enqueue + first, second);
    steps := enqueue + first + second;
  }

  /** Two workers read a new event, the first fails with it, and the second, whose locking query does not look at the
      retry time, is about to call its handler while the clock stands still. */
  lemma StaleBatchCallsEarly(n: nat, cfg: Config) returns (steps: seq<Step>)
    requires n > 1 && cfg.baseBackoff > 0
    ensures IsPlain(Start(n), cfg, steps) && !CallsInTime(Run(Start(n), cfg, steps), cfg, 1)
  {
    hide Eligible, IsSelection;
    var both, s1 := TwoCopies(n, cfg);
    var s2 := TryIs(s1, cfg, 0, false, s1.now);
    assert Pow2(0) == 1;
    var lock := [Work(1, Lock)];
    var s3 := Apply(s2, cfg, lock[0]);
    OneStep(s2, cfg, lock);
    assert !CallsInTime(s3, cfg, 1);
    assert Run(s3, cfg, []) == s3;
    hide Apply, CallsInTime, Try;
    RunConcat(Start(n), cfg, both, Try(0, false, s1.now));
    RunConcat(Start(n), cfg, both + Try(0, false, s1.now), lock);
    steps := both + Try(0, false, s1.now) + lock;
  }

  lemma {:induction false} PlainIsForward(s: System, cfg: Config, steps: seq<Step>)
    requires IsPlain(s, cfg, steps)
    ensures IsForward(s, cfg, steps)
    decreases steps
  {
    hide Apply;
    if steps != [] {
      PlainIsForward(Apply(s, cfg, steps[0]), cfg, steps[1..]);
    }
  }

  predicate WaitsInRun(n: nat, cfg: Config, steps: seq<Step>, d: nat) {
    IsForward(Start(n), cfg, steps) ==> CallsInTime(Run(Start(n), cfg, steps), cfg, d)
  }

  /** No handler is called before the retry time of its event, in any run whose clock does not go back, exactly when
      there is at most one dispatcher or no backoff to wait for. */
  lemma RetryTimeIsKeptIff(n: nat, cfg: Config)
    ensures (forall steps, d :: WaitsInRun(n, cfg, steps, d)) <==> n <= 1 || cfg.baseBackoff <= 0
  {
    if n <= 1 || cfg.baseBackoff <= 0 {
      forall steps, d ensures WaitsInRun(n, cfg, steps, d) {
        if IsForward(Start(n), cfg, steps) {
          ForwardRunCallsInTime(Start(n), cfg, steps, d);
        }
      }
    } else {
      var steps := StaleBatchCallsEarly(n, cfg);
      PlainIsForward(Start(n), cfg, steps);
      assert !WaitsInRun(n, cfg, steps, 1);
    }
  }

  // ---------------------------------------------------------------------------------------------------------
  // One dispatcher at work.

  /** How a transaction ends: rolled back, committed with the acknowledgement lost on its way, or committed. */
  datatype Ending = RolledBack | Unacknowledged | Acknowledged

  /** What happens around one event: whether its transaction begins, whether the locking query fails or another
      worker's batch query holds the row just then, what the handler answers, how the transaction ends, and the steps
      of everyone else before the lock, while the handler runs and before the commit. */
  datatype Handling = Handling(
    begins: bool, busy: bool, ok: bool, ending: Ending, at: int,
    before: seq<Step>, during: seq<Step>, after: seq<Step>)

  datatype Outcome = NotBegun | Skipped | Tried(ok: bool, ending: Ending)

  predicate IsForeign(step: Step, me: nat) {
    match step
    case Enqueue(_, _) => true
    case Tick(_) => true
    case Fetch(d, _) => d != me
    case Work(d, _) => d != me
    case Crash(d) => d != me
  }

  function Foreign(steps: seq<Step>, me: nat): (r: seq<Step>)
    ensures forall i :: 0 <= i < |r| ==> IsForeign(r[i], me)
  {
    if steps == [] then []
    else (if IsForeign(steps[0], me) then [steps[0]] else []) + Foreign(steps[1..], me)
  }

  /** The condition of the locking query. */
  predicate Lockable(s: System, e: nat) {
    e in s.rows && !s.rows[e].processed && Unlocked(s.workers, e)
  }

  function OutcomeOf(s: System, cfg: Config, me: nat, e: nat, h: Handling): Outcome {
    if !h.begins then NotBegun
    else if h.busy || !Lockable(Run(s, cfg, Foreign(h.before, me)), e) then Skipped
    else Tried(h.ok, h.ending)
  }

  /** The run of the system that handling one event amounts to. */
  function EventSteps(me: nat, h: Handling, o: Outcome): seq<Step> {
    match o
    case NotBegun => [Work(me, Skip)]
    case Skipped => Foreign(h.before, me) + [Work(me, Skip)]
    case Tried(_, _) => Foreign(h.before, me) + LockedSteps(me, h)
  }

  function LockedSteps(me: nat, h: Handling): seq<Step> {
    CallSteps(me, h) + EndSteps(me, h)
  }

  function CallSteps(me: nat, h: Handling): seq<Step> {
    [Work(me, Lock)] + [Work(me, Call)] + Foreign(h.during, me)
  }

  /** The database's end of the transaction; whether its acknowledgement arrives makes no difference to it. */
  function Closing(h: Handling): Move {
    if h.ending == RolledBack then Abort else Commit(h.at)
  }

  function EndSteps(me: nat, h: Handling): seq<Step> {
    [Work(me, Return(h.ok))] + Foreign(h.after, me) + [Work(me, Closing(h))]
  }

  function BatchOutcomes(s: System, cfg: Config, me: nat, batch: seq<Event>, env: nat -> Handling, i: nat)
    : (r: (seq<Step>, seq<Outcome>))
    ensures |r.1| == |batch|
    decreases batch
  {
    if batch == [] then ([], [])
    else
      var o := OutcomeOf(s, cfg, me, batch[0].id, env(i));
      var steps := EventSteps(me, env(i), o);
      var rest := BatchOutcomes(Run(s, cfg, steps), cfg, me, batch[1..], env, i + 1);
      (steps + rest.0, [o] + rest.1)
  }

  /** The commit returns an error, too, when its acknowledgement is lost. */
  predicate Fails(o: Outcome) {
    o == NotBegun || (o.Tried? && o.ending != Acknowledged)
  }

  /** What `RunOnce` reports: every event whose handling returned no error, skipped ones included. */
  function Counted(outcomes: seq<Outcome>): (n: nat)
    ensures n <= |outcomes|
  {
    if outcomes == [] then 0 else (if Fails(outcomes[0]) then 0 else 1) + Counted(outcomes[1..])
  }

  function Skips(outcomes: seq<Outcome>): nat {
    if outcomes == [] then 0 else (if outcomes[0] == Skipped then 1 else 0) + Skips(outcomes[1..])
  }

  predicate IsCommitted(o: Outcome) {
    o.Tried? && o.ending != RolledBack
  }

  /** Handler calls whose result was committed, those among them of which the dispatcher does not know, and those that
      succeeded. */
  function CommittedTries(outcomes: seq<Outcome>): nat {
    if outcomes == [] then 0 else (if IsCommitted(outcomes[0]) then 1 else 0) + CommittedTries(outcomes[1..])
  }

  function Unknown(outcomes: seq<Outcome>): nat {
    if outcomes == [] then 0
    else (if outcomes[0].Tried? && outcomes[0].ending == Unacknowledged then 1 else 0) + Unknown(outcomes[1..])
  }

  function Successes(outcomes: seq<Outcome>): nat {
    if outcomes == [] then 0
    else (if IsCommitted(outcomes[0]) && outcomes[0].ok then 1 else 0) + Successes(outcomes[1..])
  }

  /** Committed tries whose handler failed. */
  function Failures(outcomes: seq<Outcome>): nat {
    if outcomes == [] then 0
    else (if IsCommitted(outcomes[0]) && !outcomes[0].ok then 1 else 0) + Failures(outcomes[1..])
  }

  /** The reported number is that of the committed tries, failed ones included, less those whose acknowledgement was
      lost, plus the skips. So it is the number of committed tries exactly when as many were skipped as were lost, and
      the number of successfully processed events exactly when the skips and the committed failures together are as
      many as were lost. A count is above zero exactly when the batch holds such an outcome. */
  lemma {:induction false} WhatIsCounted(outcomes: seq<Outcome>)
    ensures Counted(outcomes) == CommittedTries(outcomes) - Unknown(outcomes) + Skips(outcomes)
    ensures CommittedTries(outcomes) == Successes(outcomes) + Failures(outcomes)
    ensures Counted(outcomes) == CommittedTries(outcomes) <==> Skips(outcomes) == Unknown(outcomes)
    ensures Counted(outcomes) == Successes(outcomes) <==>
            Skips(outcomes) + Failures(outcomes) == Unknown(outcomes)
    ensures Skips(outcomes) > 0 <==> Skipped in outcomes
    ensures Unknown(outcomes) > 0 <==> exists ok :: Tried(ok, Unacknowledged) in outcomes
    ensures Failures(outcomes) > 0 <==>
            Tried(false, Acknowledged) in outcomes || Tried(false, Unacknowledged) in outcomes
  {
    if outcomes != [] {
      WhatIsCounted(outcomes[1..]);
      assert outcomes == [outcomes[0]] + outcomes[1..];
      assert outcomes[0].Tried? ==> outcomes[0] == Tried(outcomes[0].ok, outcomes[0].ending);
    }
  }

  /** When every acknowledgement arrives, the count is right in either sense only without skips, and in the stronger
      one only without committed failures. */
  lemma CountedRightIff(outcomes: seq<Outcome>)
    requires forall ok :: Tried(ok, Unacknowledged) !in outcomes
    ensures Counted(outcomes) == CommittedTries(outcomes) <==> Skipped !in outcomes
    ensures Counted(outcomes) == Successes(outcomes) <==>
            Skipped !in outcomes && Tried(false, Acknowledged) !in outcomes
  {
    WhatIsCounted(outcomes);
  }

  /** A batch of one, processed and committed, reported as none: the acknowledgement of the commit was lost. */
  lemma OneProcessedNoneCounted()
    ensures var s := System(0, map[0 := Row(0, 0, false, None)], [Worker([Event(0, 0)], Idle)], []);
            var env := (i: nat) => Handling(true, false, true, Unacknowledged, 0, [], [], []);
            var (steps, r) := BatchOutcomes(s, Config(1, 1, 1), 0, [Event(0, 0)], env, 0);
            && Counted(r) == 0 && Skipped !in r && Successes(r) == 1
            && 0 in Run(s, Config(1, 1, 1), steps).rows && Run(s, Config(1, 1, 1), steps).rows[0].processed
  {
    var cfg := Config(1, 1, 1);
    var batch := [Event(0, 0)];
    var s := System(0, map[0 := Row(0, 0, false, None)], [Worker(batch, Idle)], []);
    var env := (i: nat) => Handling(true, false, true, Unacknowledged, 0, [], [], []);
    var o := Tried(true, Unacknowledged);
    assert Run(s, cfg, []) == s && Lockable(s, 0);
    assert OutcomeOf(s, cfg, 0, 0, env(0)) == o;
    var steps := EventSteps(0, env(0), o);
    assert steps == Try(0, true, 0);
    var t := TryIs(s, cfg, 0, true, 0);
    assert batch[1..] == [];
    var r := BatchOutcomes(s, cfg, 0, batch, env, 0);
    assert r == (steps + [], [o] + []);
    assert steps + [] == steps;
    assert r.1 == [o] && r.1[1..] == [];
  }

  /** A batch of two reported as two although nothing was processed: one handler fails, one row is held elsewhere. */
  lemma NothingProcessedTwoCounted()
    ensures var row := Row(0, 0, false, None);
            var batch := [Event(0, 0), Event(1, 0)];
            var s := System(0, map[0 := row, 1 := row], [Worker(batch, Idle)], []);
            var env := (i: nat) => Handling(true, i == 1, false, Acknowledged, 0, [], [], []);
            var r := BatchOutcomes(s, Config(1, 1, 2), 0, batch, env, 0).1;
            r == [Tried(false, Acknowledged), Skipped] && Counted(r) == 2 && Successes(r) == 0
  {
    var row := Row(0, 0, false, None);
    var cfg := Config(1, 1, 2);
    var batch := [Event(0, 0), Event(1, 0)];
    var s := System(0, map[0 := row, 1 := row], [Worker(batch, Idle)], []);
    var env := (i: nat) => Handling(true, i == 1, false, Acknowledged, 0, [], [], []);
    assert Run(s, cfg, []) == s && Lockable(s, 0);
    assert OutcomeOf(s, cfg, 0, 0, env(0)) == Tried(false, Acknowledged);
    var s1 := Run(s, cfg, EventSteps(0, env(0), Tried(false, Acknowledged)));
    assert batch[1..] == [Event(1, 0)];
    assert OutcomeOf(s1, cfg, 0, 1, env(1)) == Skipped;
    var r := BatchOutcomes(s, cfg, 0, batch, env, 0).1;
    assert BatchOutcomes(s1, cfg, 0, batch[1..], env, 1).1 == [Skipped];
    assert r == [Tried(false, Acknowledged)] + [Skipped];
    WhatIsCounted(r);
    assert r[1..] == [Skipped];
  }

  /** Others do not touch a worker, and rows stay. */
  lemma {:induction false} ForeignLeavesWorker(s: System, cfg: Config, me: nat, steps: seq<Step>)
    requires me < |s.workers| && forall i :: 0 <= i < |steps| ==> IsForeign(steps[i], me)
    ensures var t := Run(s, cfg, steps);
            |t.workers| == |s.workers| && t.workers[me] == s.workers[me] && s.rows.Keys <= t.rows.Keys
    decreases steps
  {
    if steps != [] {
      hide Enabled;
      ForeignLeavesWorker(Apply(s, cfg, steps[0]), cfg, me, steps[1..]);
    }
  }

  // ---------------------------------------------------------------------------------------------------------
  // The outcomes against the log.

  /** How many calls a worker has started, and how many tries with this result it has committed. */
  function CallsOf(log: seq<Entry>, me: nat): nat {
    if log == [] then 0
    else CallsOf(log[..|log| - 1], me) + if IsCall(log[|log| - 1], me) then 1 else 0
  }

  predicate IsCall(x: Entry, me: nat) {
    x.Started? && x.worker == me
  }

  function CommitsOf(log: seq<Entry>, me: nat, ok: bool): nat {
    if log == [] then 0
    else CommitsOf(log[..|log| - 1], me, ok) + if IsCommit(log[|log| - 1], me, ok) then 1 else 0
  }

  predicate IsCommit(x: Entry, me: nat, ok: bool) {
    x.Committed? && x.worker == me && x.ok == ok
  }

  lemma Logged(log: seq<Entry>, x: Entry, me: nat)
    ensures CallsOf(log + [x], me) == CallsOf(log, me) + if IsCall(x, me) then 1 else 0
    ensures forall ok :: CommitsOf(log + [x], me, ok) == CommitsOf(log, me, ok) + if IsCommit(x, me, ok) then 1 else 0
  {
    assert (log + [x])[..|log|] == log;
  }

  /** The log after has these calls and commits of a worker more than the log before. */
  ghost predicate Adds(before: seq<Entry>, after: seq<Entry>, me: nat, calls: nat, good: nat, bad: nat) {
    && CallsOf(after, me) == CallsOf(before, me) + calls
    && CommitsOf(after, me, true) == CommitsOf(before, me, true) + good
    && CommitsOf(after, me, false) == CommitsOf(before, me, false) + bad
  }

  lemma {:induction false} ForeignLogsNothing(s: System, cfg: Config, me: nat, steps: seq<Step>)
    requires forall i :: 0 <= i < |steps| ==> IsForeign(steps[i], me)
    ensures Adds(s.log, Run(s, cfg, steps).log, me, 0, 0, 0)
    decreases steps
  {
    if steps != [] {
      hide Enabled, Adds, RowsAfter, CallsOf, CommitsOf;
      var t := Apply(s, cfg, steps[0]);
      ForeignLogsNothing(t, cfg, me, steps[1..]);
      assert Adds(s.log, t.log, me, 0, 0, 0) by { StrangerLogs(s, cfg, me, steps[0]); }
      AddsFollow(s.log, t.log, Run(t, cfg, steps[1..]).log, me, 0, 0, 0, 0, 0, 0);
    }
  }

  lemma StrangerLogs(s: System, cfg: Config, me: nat, step: Step)
    requires IsForeign(step, me)
    ensures Adds(s.log, Apply(s, cfg, step).log, me, 0, 0, 0)
  {
    hide CallsOf, CommitsOf, Eligible;
    var x := match step
             case Work(d, move) => if Enabled(s, cfg, step) then Entries(d, s.workers[d], move) else []
             case Crash(d) => if Enabled(s, cfg, step) then CrashEntries(d, s.workers[d]) else []
             case _ => [];
    assert Apply(s, cfg, step).log == s.log + x;
    if x == [] {
      assert s.log + x == s.log;
    } else {
      Logged(s.log, x[0], me);
      assert x == [x[0]];
    }
  }

  lemma AddsFollow(a: seq<Entry>, b: seq<Entry>, c: seq<Entry>, me: nat, calls: nat, good: nat, bad: nat,
                   moreCalls: nat, moreGood: nat, moreBad: nat)
    requires Adds(a, b, me, calls, good, bad) && Adds(b, c, me, moreCalls, moreGood, moreBad)
    ensures Adds(a, c, me, calls + moreCalls, good + moreGood, bad + moreBad)
  {
  }

  /** One move of a worker's own, which the database accepts. */
  lemma OwnMove(s: System, cfg: Config, me: nat, move: Move)
    requires Enabled(s, cfg, Work(me, move))
    ensures var t := Run(s, cfg, [Work(me, move)]);
            var w := s.workers[me];
            && t.workers == s.workers[me := Moved(w, move)] && t.rows.Keys == s.rows.Keys
            && Adds(s.log, t.log, me, if move.Call? then 1 else 0,
                    if move.Commit? && w.phase.ok then 1 else 0, if move.Commit? && !w.phase.ok then 1 else 0)
  {
    var x := Entries(me, s.workers[me], move);
    hide CallsOf, CommitsOf, Updated;
    OneStep(s, cfg, [Work(me, move)]);
    if x == [] {
      assert s.log + x == s.log;
    } else {
      Logged(s.log, x[0], me);
      assert x == [x[0]];
    }
  }

  lemma ForeignRun(s: System, cfg: Config, me: nat, steps: seq<Step>) returns (t: System)
    requires me < |s.workers|
    ensures t == Run(s, cfg, Foreign(steps, me)) && Adds(s.log, t.log, me, 0, 0, 0)
    ensures |t.workers| == |s.workers| && t.workers[me] == s.workers[me] && s.rows.Keys <= t.rows.Keys
  {
    t := Run(s, cfg, Foreign(steps, me));
    ForeignLogsNothing(s, cfg, me, Foreign(steps, me));
    ForeignLeavesWorker(s, cfg, me, Foreign(steps, me));
  }

  lemma CallIsLogged(s: System, cfg: Config, me: nat, h: Handling) returns (t: System)
    requires me < |s.workers| && s.workers[me].phase == Idle && s.workers[me].batch != []
    requires Lockable(s, s.workers[me].batch[0].id)
    ensures t == Run(s, cfg, CallSteps(me, h)) && Adds(s.log, t.log, me, 1, 0, 0)
    ensures |t.workers| == |s.workers| && t.workers[me] == Worker(s.workers[me].batch, Running)
    ensures s.rows.Keys <= t.rows.Keys
  {
    hide Adds, Run, Foreign, Unlocked;
    var lock, call := [Work(me, Lock)], [Work(me, Call)];
    OwnMove(s, cfg, me, Lock);
    var s1 := Run(s, cfg, lock);
    OwnMove(s1, cfg, me, Call);
    var s2 := Run(s1, cfg, call);
    t := ForeignRun(s2, cfg, me, h.during);
    RunConcat(s, cfg, lock, call);
    RunConcat(s, cfg, lock + call, Foreign(h.during, me));
    AddsFollow(s.log, s1.log, s2.log, me, 0, 0, 0, 1, 0, 0);
    AddsFollow(s.log, s2.log, t.log, me, 1, 0, 0, 0, 0, 0);
  }

  lemma EndIsLogged(s: System, cfg: Config, me: nat, h: Handling) returns (t: System)
    requires me < |s.workers| && s.workers[me].phase == Running && s.workers[me].batch != []
    requires s.workers[me].batch[0].id in s.rows
    ensures t == Run(s, cfg, EndSteps(me, h))
    ensures var commits := h.ending != RolledBack;
            Adds(s.log, t.log, me, 0, if commits && h.ok then 1 else 0, if commits && !h.ok then 1 else 0)
    ensures |t.workers| == |s.workers| && t.workers[me] == Worker(s.workers[me].batch[1..], Idle)
    ensures s.rows.Keys <= t.rows.Keys
  {
    hide Adds, Run, Foreign, Unlocked;
    var back, end := [Work(me, Return(h.ok))], [Work(me, Closing(h))];
    OwnMove(s, cfg, me, Return(h.ok));
    var s1 := Run(s, cfg, back);
    var s2 := ForeignRun(s1, cfg, me, h.after);
    OwnMove(s2, cfg, me, Closing(h));
    t := Run(s2, cfg, end);
    RunConcat(s, cfg, back, Foreign(h.after, me));
    RunConcat(s, cfg, back + Foreign(h.after, me), end);
    AddsFollow(s.log, s1.log, s2.log, me, 0, 0, 0, 0, 0, 0);
    AddsFollow(s.log, s2.log, t.log, me, 0, 0, 0, 0, if h.ending != RolledBack && h.ok then 1 else 0,
               if h.ending != RolledBack && !h.ok then 1 else 0);
  }

  /** The locked part of handling an event: one call, and a commit of its result unless the transaction is rolled
      back. */
  lemma LockedIsLogged(s: System, cfg: Config, me: nat, h: Handling) returns (t: System)
    requires me < |s.workers| && s.workers[me].phase == Idle && s.workers[me].batch != []
    requires Lockable(s, s.workers[me].batch[0].id)
    ensures t == Run(s, cfg, LockedSteps(me, h))
    ensures var commits := h.ending != RolledBack;
            Adds(s.log, t.log, me, 1, if commits && h.ok then 1 else 0, if commits && !h.ok then 1 else 0)
    ensures |t.workers| == |s.workers| && t.workers[me] == Worker(s.workers[me].batch[1..], Idle)
    ensures s.rows.Keys <= t.rows.Keys
  {
    hide Adds, Run, Unlocked, CallSteps, EndSteps;
    var s1 := CallIsLogged(s, cfg, me, h);
    t := EndIsLogged(s1, cfg, me, h);
    RunConcat(s, cfg, CallSteps(me, h), EndSteps(me, h));
    AddsFollow(s.log, s1.log, t.log, me, 1, 0, 0, 0, if h.ending != RolledBack && h.ok then 1 else 0,
               if h.ending != RolledBack && !h.ok then 1 else 0);
  }

  /** One event: a tried one is called once, and committed as its outcome says; any other one leaves no entry. */
  lemma EventIsLogged(s: System, cfg: Config, me: nat, h: Handling) returns (t: System)
    requires me < |s.workers| && s.workers[me].phase == Idle && s.workers[me].batch != []
    requires s.workers[me].batch[0].id in s.rows
    ensures var o := OutcomeOf(s, cfg, me, s.workers[me].batch[0].id, h);
            && t == Run(s, cfg, EventSteps(me, h, o))
            && Adds(s.log, t.log, me, if o.Tried? then 1 else 0, if IsCommitted(o) && o.ok then 1 else 0,
                    if IsCommitted(o) && !o.ok then 1 else 0)
    ensures |t.workers| == |s.workers| && t.workers[me] == Worker(s.workers[me].batch[1..], Idle)
    ensures s.rows.Keys <= t.rows.Keys
  {
    hide Adds, Run, Foreign, LockedSteps;
    var e := s.workers[me].batch[0].id;
    var o := OutcomeOf(s, cfg, me, e, h);
    if o == NotBegun {
      OwnMove(s, cfg, me, Skip);
      t := Run(s, cfg, [Work(me, Skip)]);
    } else {
      var s1 := ForeignRun(s, cfg, me, h.before);
      if o == Skipped {
        OwnMove(s1, cfg, me, Skip);
        t := Run(s1, cfg, [Work(me, Skip)]);
        RunConcat(s, cfg, Foreign(h.before, me), [Work(me, Skip)]);
        AddsFollow(s.log, s1.log, t.log, me, 0, 0, 0, 0, 0, 0);
      } else {
        t := LockedIsLogged(s1, cfg, me, h);
        RunConcat(s, cfg, Foreign(h.before, me), LockedSteps(me, h));
        AddsFollow(s.log, s1.log, t.log, me, 0, 0, 0, 1, if h.ending != RolledBack && h.ok then 1 else 0,
                   if h.ending != RolledBack && !h.ok then 1 else 0);
      }
    }
  }

  function Tries(outcomes: seq<Outcome>): nat {
    if outcomes == [] then 0 else (if outcomes[0].Tried? then 1 else 0) + Tries(outcomes[1..])
  }

  /** A whole batch: its outcomes are what the dispatcher leaves in the log, one call for each tried event and one
      commit for each success and for each failure that was committed. */
  lemma {:induction false} OutcomesAreLogged(s: System, cfg: Config, me: nat, env: nat -> Handling, i: nat)
    requires me < |s.workers| && s.workers[me].phase == Idle
    requires forall k :: 0 <= k < |s.workers[me].batch| ==> s.workers[me].batch[k].id in s.rows
    ensures var r := BatchOutcomes(s, cfg, me, s.workers[me].batch, env, i);
            Adds(s.log, Run(s, cfg, r.0).log, me, Tries(r.1), Successes(r.1), Failures(r.1))
    decreases |s.workers[me].batch|
  {
    var batch := s.workers[me].batch;
    if batch != [] {
      hide Adds, EventSteps, OutcomeOf, IsCommitted;
      var o := OutcomeOf(s, cfg, me, batch[0].id, env(i));
      var steps := EventSteps(me, env(i), o);
      var t := EventIsLogged(s, cfg, me, env(i));
      OutcomesAreLogged(t, cfg, me, env, i + 1);
      var rest := BatchOutcomes(t, cfg, me, batch[1..], env, i + 1);
      RunConcat(s, cfg, steps, rest.0);
      AddsFollow(s.log, t.log, Run(t, cfg, rest.0).log, me, if o.Tried? then 1 else 0,
                 if IsCommitted(o) && o.ok then 1 else 0, if IsCommitted(o) && !o.ok then 1 else 0,
                 Tries(rest.1), Successes(rest.1), Failures(rest.1));
      assert ([o] + rest.1)[1..] == rest.1;
    }
  }

  /** The shared table together with everyone who works on it, and the run that led here. */
  class Database {
    const cfg: Config
    const workers: nat
    var sys: System
    ghost var trail: seq<Step>

    ghost predicate Valid()
      reads this
    {
      sys == Run(Start(workers), cfg, trail) && |sys.workers| == workers
    }

    constructor (cfg: Config, workers: nat)
      ensures this.cfg == cfg && this.workers == workers && trail == [] && Valid()
    {
      this.cfg := cfg;
      this.workers := workers;
      sys := Start(workers);
      trail := [];
    }

    method Do(step: Step)
      requires Valid()
      modifies this
      ensures Valid() && trail == old(trail) + [step] && sys == Apply(old(sys), cfg, step)
    {
      hide Apply;
      RunConcat(Start(workers), cfg, trail, [step]);
      ApplyKeepsWorkerCount(Start(workers), cfg, trail + [step]);
      assert Run(Apply(sys, cfg, step), cfg, []) == Apply(sys, cfg, step);
      sys := Apply(sys, cfg, step);
      trail := trail + [step];
    }

    /** A worker's next statement, which the database accepts. */
    method Move(d: nat, move: Move)
      requires Valid() && Enabled(sys, cfg, Work(d, move))
      modifies this
      ensures Valid() && trail == old(trail) + [Work(d, move)]
      ensures sys.workers == old(sys.workers)[d := Moved(old(sys.workers)[d], move)]
      ensures sys.rows.Keys == old(sys.rows.Keys) && |sys.workers| == workers
    {
      Do(Work(d, move));
    }

    /** Whatever the others do in the meantime. */
    method Interleave(me: nat, steps: seq<Step>)
      requires Valid() && me < workers
      modifies this
      ensures Valid() && trail == old(trail) + Foreign(steps, me) && sys == Run(old(sys), cfg, Foreign(steps, me))
      ensures |sys.workers| == workers && sys.workers[me] == old(sys.workers[me])
      ensures old(sys.rows.Keys) <= sys.rows.Keys
    {
      hide Apply;
      ForeignLeavesWorker(sys, cfg, me, Foreign(steps, me));
      RunConcat(Start(workers), cfg, trail, Foreign(steps, me));
      var i := 0;
      while i < |steps|
        invariant 0 <= i <= |steps|
        invariant Valid() && trail + Foreign(steps[i..], me) == old(trail) + Foreign(steps, me)
      {
        assert steps[i..][1..] == steps[i + 1..];
        ghost var more := Foreign(steps[i + 1..], me);
        assert trail + ([steps[i]] + more) == (trail + [steps[i]]) + more;
        if IsForeign(steps[i], me) {
          Do(steps[i]);
        }
        i := i + 1;
      }
      assert trail + [] == trail;
    }
  }

  class Dispatcher {
    const me: nat
    const db: Database

    constructor (me: nat, db: Database)
      ensures this.me == me && this.db == db
    {
      this.me := me;
      this.db := db;
    }

    /** The answer of the batch query is the database's; None when the query failed. */
    method RunOnce(answer: Option<seq<Event>>, env: nat -> Handling) returns (processed: nat, failed: bool)
      requires db.Valid() && me < db.workers && db.sys.workers[me] == FRESH
      requires answer.Some? ==> IsBatch(db.sys, db.cfg, answer.value)
      modifies db
      ensures db.Valid() && db.sys.workers[me] == FRESH
      ensures failed <==> answer.None?
      ensures failed ==> processed == 0 && db.trail == old(db.trail)
      ensures !failed ==>
                var fetch := Fetch(me, answer.value);
                var r := BatchOutcomes(Apply(old(db.sys), db.cfg, fetch), db.cfg, me, answer.value, env, 0);
                db.trail == old(db.trail) + [fetch] + r.0 && processed == Counted(r.1)
    {
      processed, failed := 0, answer.None?;
      if failed {
        return;
      }
      var events := answer.value;
      db.Do(Fetch(me, events));
      ghost var all := BatchOutcomes(db.sys, db.cfg, me, events, env, 0);
      ghost var start := db.trail;
      assert events[0..] == events;
      var i := 0;
      while i < |events|
        invariant 0 <= i <= |events|
        invariant db.Valid() && db.sys.workers[me] == Worker(events[i..], Idle)
        invariant forall j :: i <= j < |events| ==> events[j].id in db.sys.rows
        invariant var rest := BatchOutcomes(db.sys, db.cfg, me, events[i..], env, i);
                  db.trail + rest.0 == start + all.0 && processed + Counted(rest.1) == Counted(all.1)
      {
        hide Apply, EventSteps, OutcomeOf;
        ghost var o := OutcomeOf(db.sys, db.cfg, me, events[i].id, env(i));
        ghost var steps := EventSteps(me, env(i), o);
        ghost var rest := BatchOutcomes(Run(db.sys, db.cfg, steps), db.cfg, me, events[i + 1..], env, i + 1);
        assert events[i..][1..] == events[i + 1..];
        assert ([o] + rest.1)[1..] == rest.1;
        assert db.trail + (steps + rest.0) == (db.trail + steps) + rest.0;
        RunConcat(Start(db.workers), db.cfg, db.trail, steps);
        var err := ProcessEvent(events[i], env(i));
        if !err {
          processed := processed + 1;
        }
        i := i + 1;
      }
      assert db.trail + [] == db.trail;
    }

    method ProcessEvent(ev: Event, h: Handling) returns (err: bool)
      requires db.Valid() && me < db.workers && db.sys.workers[me].phase == Idle
      requires db.sys.workers[me].batch != [] && db.sys.workers[me].batch[0] == ev && ev.id in db.sys.rows
      modifies db
      ensures var o := OutcomeOf(old(db.sys), db.cfg, me, ev.id, h);
              err == Fails(o) && db.trail == old(db.trail) + EventSteps(me, h, o)
      ensures db.Valid() && old(db.sys.rows.Keys) <= db.sys.rows.Keys
      ensures db.sys.workers[me] == Worker(old(db.sys.workers[me].batch)[1..], Idle)
    {
      assert |db.sys.workers| == db.workers;
      hide Database.Valid, Unlocked, Foreign, Apply;
      if !h.begins {
        db.Move(me, Skip);
        return true;
      }
      db.Interleave(me, h.before);
      if h.busy || !Lockable(db.sys, ev.id) {
        db.Move(me, Skip);
        return false;
      }
      ghost var before := old(db.trail);
      assert (before + Foreign(h.before, me)) + LockedSteps(me, h)
          == before + (Foreign(h.before, me) + LockedSteps(me, h));
      hide LockedSteps;
      HandleLocked(ev, h);
      err := h.ending != Acknowledged;
    }

    method HandleLocked(ev: Event, h: Handling)
      requires db.Valid() && me < db.workers && db.sys.workers[me].phase == Idle
      requires db.sys.workers[me].batch != [] && db.sys.workers[me].batch[0] == ev && Lockable(db.sys, ev.id)
      modifies db
      ensures db.Valid() && old(db.sys.rows.Keys) <= db.sys.rows.Keys
      ensures db.trail == old(db.trail) + LockedSteps(me, h)
      ensures db.sys.workers[me] == Worker(old(db.sys.workers[me].batch)[1..], Idle)
    {
      hide Database.Valid, Unlocked, CallSteps, EndSteps;
      CallHandler(ev, h);
      EndTransaction(ev, h);
      assert (old(db.trail) + CallSteps(me, h)) + EndSteps(me, h)
          == old(db.trail) + (CallSteps(me, h) + EndSteps(me, h));
    }

    /** The row is locked, and the handler works while the others go on. */
    method CallHandler(ev: Event, h: Handling)
      requires db.Valid() && me < db.workers && db.sys.workers[me].phase == Idle
      requires db.sys.workers[me].batch != [] && db.sys.workers[me].batch[0] == ev && Lockable(db.sys, ev.id)
      modifies db
      ensures db.Valid() && old(db.sys.rows.Keys) <= db.sys.rows.Keys && me < |db.sys.workers|
      ensures db.trail == old(db.trail) + CallSteps(me, h)
      ensures db.sys.workers[me] == Worker(old(db.sys.workers[me].batch), Running)
    {
      assert |db.sys.workers| == db.workers;
      hide Database.Valid, Unlocked, Foreign, Apply;
      db.Move(me, Lock);
      db.Move(me, Call);
      db.Interleave(me, h.during);
    }

    /** The handler has returned, and the update is committed or rolled back. */
    method EndTransaction(ev: Event, h: Handling)
      requires db.Valid() && me < db.workers && db.sys.workers[me].phase == Running
      requires db.sys.workers[me].batch != [] && db.sys.workers[me].batch[0] == ev && ev.id in db.sys.rows
      modifies db
      ensures db.Valid() && old(db.sys.rows.Keys) <= db.sys.rows.Keys && me < |db.sys.workers|
      ensures db.trail == old(db.trail) + EndSteps(me, h)
      ensures db.sys.workers[me] == Worker(old(db.sys.workers[me].batch)[1..], Idle)
    {
      assert |db.sys.workers| == db.workers;
      hide Database.Valid, Unlocked, Foreign, Apply;
      db.Move(me, Return(h.ok));
      db.Interleave(me, h.after);
      db.Move(me, Closing(h));
    }
  }
}
