/** The HTTP client's rate limit and retry rule. Instants are nanoseconds of a clock that never goes back. */
module TokenBucket {
  import opened Decimals
  import FixedPoint

  const SECOND := 1_000_000_000

  datatype Limit = Limit(rps: int, burst: int)

  datatype Bucket = Bucket(tokens: int, lastFill: int)

  /** In 64 bits, as the source computes it. */
  function Added(rps: int, elapsed: int): int {
    FixedPoint.Truncated(FixedPoint.Wrap(elapsed * rps), SECOND)
  }

  function Refilled(b: Bucket, l: Limit, now: int): Bucket {
    var add := Added(l.rps, now - b.lastFill);
    if add > 0 then Bucket(if b.tokens + add > l.burst then l.burst else b.tokens + add, now) else b
  }

  /** One look at the bucket: a refill and, if there is a token, a grant. */
  function Looked(b: Bucket, l: Limit, now: int): (Bucket, bool) {
    var r := Refilled(b, l, now);
    if r.tokens > 0 then (r.(tokens := r.tokens - 1), true) else (r, false)
  }

  function After(b: Bucket, l: Limit, times: seq<int>): Bucket
    decreases times
  {
    if times == [] then b else After(Looked(b, l, times[0]).0, l, times[1..])
  }

  function Grants(b: Bucket, l: Limit, times: seq<int>): nat
    decreases times
  {
    if times == [] then 0
    else (if Looked(b, l, times[0]).1 then 1 else 0) + Grants(Looked(b, l, times[0]).0, l, times[1..])
  }

  // ---------------------------------------------------------------------------------------------------------
  // The imperative form.

  /** One round of waiting: the instant of the look, and whether the context is cancelled during the pause after it. */
  datatype Round = Round(now: int, cancelled: bool)

  /** A transport error can come with a status, when it strikes while the body is read. */
  datatype Response = NetworkError(status: int) | Answered(status: int)

  /** What happens at one attempt: the rounds of waiting for a token (cancelled in the end if they run out), the
      response, and whether the context is cancelled during the backoff. */
  datatype Attempt = Attempt(rounds: seq<Round>, response: Response, cancelled: bool)

  datatype Reply = Reply(status: int, failed: bool)

  /** The looks of one wait, up to the first grant. */
  function Looks(b: Bucket, l: Limit, rounds: seq<Round>): seq<int>
    decreases rounds
  {
    if l.rps <= 0 || rounds == [] then []
    else if Looked(b, l, rounds[0].now).1 || rounds[0].cancelled then [rounds[0].now]
    else [rounds[0].now] + Looks(Looked(b, l, rounds[0].now).0, l, rounds[1..])
  }

  /** The bucket after one wait, and whether it ended with a token. */
  function Waited(b: Bucket, l: Limit, rounds: seq<Round>): (Bucket, bool)
    decreases rounds
  {
    if l.rps <= 0 then (b, true)
    else if rounds == [] then (b, false)
    else
      var (c, granted) := Looked(b, l, rounds[0].now);
      if granted || rounds[0].cancelled then (c, granted) else Waited(c, l, rounds[1..])
  }

  predicate IsRetryable(r: Response) {
    r.NetworkError? || r.status == 429 || r.status >= 500
  }

  /** One attempt: the bucket after it, whether a request was sent, and the reply unless another attempt follows. */
  function Turn(b: Bucket, l: Limit, safe: bool, a: Attempt): (Bucket, bool, Option<Reply>) {
    var (c, granted) := Waited(b, l, a.rounds);
    var r := a.response;
    if !granted then (c, false, Some(Reply(0, true)))
    else if !IsRetryable(r) then (c, true, Some(Reply(r.status, false)))
    else if !safe then (c, true, Some(Reply(r.status, true)))
    else if a.cancelled then (c, true, Some(Reply(if r.NetworkError? then 0 else r.status, true)))
    else (c, true, None)
  }

  /** From attempt k on, with `left` attempts to go: the bucket in the end, the number of requests, and the reply. */
  function DoSpec(b: Bucket, l: Limit, left: int, safe: bool, attempts: nat -> Attempt, k: nat): (Bucket, nat, Reply)
    decreases left
  {
    if left <= 0 then (b, 0, Reply(0, k > 0))
    else
      var (c, sent, reply) := Turn(b, l, safe, attempts(k));
      if reply.Some? then (c, if sent then 1 else 0, reply.value)
      else
        var rest := DoSpec(c, l, left - 1, safe, attempts, k + 1);
        (rest.0, 1 + rest.1, rest.2)
  }

  /** Attempt k is followed by another if there is one left. */
  predicate GoesOn(safe: bool, a: Attempt) {
    safe && IsRetryable(a.response) && !a.cancelled
  }

  /** The n attempts from k on each get a token. */
  predicate GetTokens(b: Bucket, l: Limit, attempts: nat -> Attempt, k: nat, n: nat)
    decreases n
  {
    n > 0 ==>
      var (c, granted) := Waited(b, l, attempts(k).rounds);
      granted && GetTokens(c, l, attempts, k + 1, n - 1)
  }

  lemma {:induction false} FewerTokens(b: Bucket, l: Limit, attempts: nat -> Attempt, k: nat, n: nat)
    requires GetTokens(b, l, attempts, k, n + 1)
    ensures GetTokens(b, l, attempts, k, n)
    decreases n
  {
    if n > 0 {
      FewerTokens(Waited(b, l, attempts(k).rounds).0, l, attempts, k + 1, n - 1);
    }
  }

  /** The j-th request is sent exactly when the bound allows it, every attempt before it is a safe one that met a
      retryable response and a live context, and no attempt up to it waits in vain for a token. */
  lemma {:induction false} SentIff(b: Bucket, l: Limit, left: int, safe: bool, attempts: nat -> Attempt, k: nat, j: nat)
    ensures j < DoSpec(b, l, left, safe, attempts, k).1 <==>
            && j < left && (forall i :: k <= i < k + j ==> GoesOn(safe, attempts(i)))
            && GetTokens(b, l, attempts, k, j + 1)
    decreases left
  {
    hide Waited;
    if left > 0 {
      var (c, granted) := Waited(b, l, attempts(k).rounds);
      if j > 0 {
        SentIff(c, l, left - 1, safe, attempts, k + 1, j - 1);
      } else {
        assert GetTokens(c, l, attempts, k + 1, 0);
      }
    }
  }

  /** The reply is determined by the last attempt that sent a request: it fails exactly when that met a retryable
      response, and carries the status of an answer that was final, or behind which nothing could follow. Without any
      request it fails unless there was no attempt at all. */
  lemma {:induction false} ReplyIs(b: Bucket, l: Limit, left: int, safe: bool, attempts: nat -> Attempt, k: nat)
    ensures var (_, n, reply) := DoSpec(b, l, left, safe, attempts, k);
            if n == 0 then reply == Reply(0, left > 0 || k > 0)
            else
              var a := attempts(k + n - 1);
              && (reply.failed <==> IsRetryable(a.response))
              && reply.status == if !reply.failed || !safe || (a.cancelled && a.response.Answered?)
                                 then a.response.status else 0
    decreases left
  {
    hide Waited;
    if left > 0 {
      var (c, granted) := Waited(b, l, attempts(k).rounds);
      ReplyIs(c, l, left - 1, safe, attempts, k + 1);
    }
  }

  /** What is tried again: a safe request without a rate limit is repeated, as long as attempts are left and no one
      cancels it, exactly when it met a transport error, 429 or a server error. Any other answer, a client error too, is
      returned at once and without an error. An unsafe request returns whatever it met. */
  lemma RepeatedIff(b: Bucket, l: Limit, left: int, safe: bool, attempts: nat -> Attempt, k: nat)
    requires l.rps <= 0 && left >= 2 && !attempts(k).cancelled
    ensures var (c, n, reply) := DoSpec(b, l, left, safe, attempts, k);
            var r := attempts(k).response;
            && (n >= 2 <==> safe && (r.NetworkError? || r.status == 429 || 500 <= r.status))
            && (n == 1 ==> reply.status == r.status)
            && (n == 1 ==> (reply.failed <==> r.NetworkError? || r.status == 429 || 500 <= r.status))
            && n >= 1 && c == b
  {
    if left >= 2 {
      UnlimitedSends(b, l, left - 1, safe, attempts, k + 1);
    }
  }

  lemma {:induction false} UnlimitedSends(b: Bucket, l: Limit, left: int, safe: bool, attempts: nat -> Attempt, k: nat)
    requires l.rps <= 0 && left >= 1
    ensures var (c, n, _) := DoSpec(b, l, left, safe, attempts, k);
            n >= 1 && c == b
    decreases left
  {
    if left >= 2 {
      UnlimitedSends(b, l, left - 1, safe, attempts, k + 1);
    }
  }

  /** At most the allowed number of requests, at most one if they are unsafe, only retryable responses before the
      last; and a reply without an error is the last response. */
  ghost predicate RuleIsKept(allowed: int, safe: bool, attempts: nat -> Attempt, n: nat, reply: Reply) {
    && n <= (if allowed < 0 then 0 else allowed) && (!safe ==> n <= 1)
    && (forall i :: 0 <= i < n - 1 ==> IsRetryable(attempts(i).response))
    && (!reply.failed ==> if allowed <= 0 then n == 0
                          else n > 0 && attempts(n - 1).response == Answered(reply.status))
  }

  lemma DoKeepsRule(b: Bucket, l: Limit, left: int, safe: bool, attempts: nat -> Attempt)
    ensures var (_, n, reply) := DoSpec(b, l, left, safe, attempts, 0);
            RuleIsKept(left, safe, attempts, n, reply)
  {
    var n := DoSpec(b, l, left, safe, attempts, 0).1;
    ReplyIs(b, l, left, safe, attempts, 0);
    hide Waited, Turn, GetTokens;
    if n > 0 {
      SentIff(b, l, left, safe, attempts, 0, n - 1);
      assert n > 1 ==> GoesOn(safe, attempts(0));
      assert forall i :: 0 <= i < n - 1 ==> GoesOn(safe, attempts(i));
    }
  }

  class HttpClient {
    const limit: Limit
    const maxRetries: int
    const created: int
    var tokens: int
    var lastFill: int
    ghost var looks: seq<int>
    ghost var sent: nat

    ghost predicate Valid()
      reads this
    {
      && Bucket(tokens, lastFill) == After(Bucket(limit.burst, created), limit, looks)
      && (limit.rps > 0 ==> sent == Grants(Bucket(limit.burst, created), limit, looks))
    }

    constructor (limit: Limit, maxRetries: int, now: int)
      ensures this.limit == limit && this.maxRetries == maxRetries && created == now
      ensures Valid() && looks == [] && sent == 0
    {
      this.limit := limit;
      this.maxRetries := maxRetries;
      created := now;
      tokens := limit.burst;
      lastFill := now;
      looks := [];
      sent := 0;
    }

    method Refill(now: int)
      modifies this`tokens, this`lastFill
      ensures Bucket(tokens, lastFill) == Refilled(old(Bucket(tokens, lastFill)), limit, now)
    {
      var add := Added(limit.rps, now - lastFill);
      if add > 0 {
        tokens := tokens + add;
        if tokens > limit.burst {
          tokens := limit.burst;
        }
        lastFill := now;
      }
    }

    /** A grant entitles to one request, which the caller sends at once: `Valid` holds again after it is counted. */
    method WaitToken(rounds: seq<Round>) returns (granted: bool)
      requires Valid()
      modifies this
      ensures looks == old(looks) + Looks(old(Bucket(tokens, lastFill)), limit, rounds)
      ensures sent == old(sent)
      ensures (Bucket(tokens, lastFill), granted) == Waited(old(Bucket(tokens, lastFill)), limit, rounds)
      ensures Bucket(tokens, lastFill) == After(Bucket(limit.burst, created), limit, looks)
      ensures limit.rps > 0 ==>
                Grants(Bucket(limit.burst, created), limit, looks) == sent + if granted then 1 else 0
    {
      ghost var before := Bucket(tokens, lastFill);
      assert looks + [] == looks;
      if limit.rps <= 0 {
        return true;
      }
      var i := 0;
      while i < |rounds|
        invariant 0 <= i <= |rounds| && Valid() && sent == old(sent)
        invariant looks + Looks(Bucket(tokens, lastFill), limit, rounds[i..])
               == old(looks) + Looks(before, limit, rounds)
        invariant Waited(Bucket(tokens, lastFill), limit, rounds[i..]) == Waited(before, limit, rounds)
      {
        ghost var b := Bucket(tokens, lastFill);
        ghost var now := rounds[i].now;
        assert rounds[i..][1..] == rounds[i + 1..];
        OneMoreLook(Bucket(limit.burst, created), limit, looks, now);
        ghost var later := Looks(Looked(b, limit, now).0, limit, rounds[i + 1..]);
        hide Added;
        assert looks + ([now] + later) == (looks + [now]) + later;
        Refill(rounds[i].now);
        looks := looks + [now];
        if tokens > 0 {
          tokens := tokens - 1;
          return true;
        }
        if rounds[i].cancelled {
          return false;
        }
        i := i + 1;
      }
      assert looks + [] == looks;
      return false;
    }

    /** One attempt; None when another follows. */
    method TryOnce(safe: bool, a: Attempt) returns (reply: Option<Reply>)
      requires Valid()
      modifies this
      ensures Valid()
      ensures var (b, requested, r) := Turn(old(Bucket(tokens, lastFill)), limit, safe, a);
              Bucket(tokens, lastFill) == b && sent == old(sent) + (if requested then 1 else 0) && reply == r
      ensures reply.None? ==> sent == old(sent) + 1
    {
      hide Waited, After, Grants, Looks;
      var granted := WaitToken(a.rounds);
      if !granted {
        return Some(Reply(0, true));
      }
      sent := sent + 1;
      if !IsRetryable(a.response) {
        return Some(Reply(a.response.status, false));
      }
      if !safe {
        return Some(Reply(a.response.status, true));
      }
      if a.cancelled {
        return Some(Reply(if a.response.NetworkError? then 0 else a.response.status, true));
      }
      return None;
    }

    /** Safe requests are repeated after a retryable response; unsafe ones never are. */
    method Do(safe: bool, attempts: nat -> Attempt) returns (reply: Reply)
      requires Valid()
      modifies this
      ensures Valid() && sent >= old(sent)
      ensures (Bucket(tokens, lastFill), sent - old(sent), reply)
           == DoSpec(old(Bucket(tokens, lastFill)), limit, maxRetries + 1, safe, attempts, 0)
      ensures RuleIsKept(maxRetries + 1, safe, attempts, sent - old(sent), reply)
    {
      ghost var before := Bucket(tokens, lastFill);
      hide Valid, Turn, RuleIsKept;
      DoKeepsRule(before, limit, maxRetries + 1, safe, attempts);
      var attempt := 0;
      while attempt < maxRetries + 1
        invariant 0 <= attempt && Valid() && sent == old(sent) + attempt
        invariant attempt > 0 ==> maxRetries + 1 > 0
        invariant var rest := DoSpec(Bucket(tokens, lastFill), limit, maxRetries + 1 - attempt, safe, attempts,
                                     attempt);
                  DoSpec(before, limit, maxRetries + 1, safe, attempts, 0) == (rest.0, attempt + rest.1, rest.2)
      {
        var last := TryOnce(safe, attempts(attempt));
        if last.Some? {
          return last.value;
        }
        attempt := attempt + 1;
      }
      return Reply(0, attempt > 0);
    }
  }

  lemma {:induction false} OneMoreLook(b: Bucket, l: Limit, times: seq<int>, now: int)
    ensures After(b, l, times + [now]) == Looked(After(b, l, times), l, now).0
    ensures Grants(b, l, times + [now]) == Grants(b, l, times) + if Looked(After(b, l, times), l, now).1 then 1 else 0
    decreases times
  {
    hide Looked;
    if times == [] {
      assert ([] + [now])[1..] == [];
    } else {
      OneMoreLook(Looked(b, l, times[0]).0, l, times[1..], now);
      assert (times + [now])[1..] == times[1..] + [now];
    }
  }

  // ---------------------------------------------------------------------------------------------------------
  // The bound on every window.

  predicate Monotone(from: int, times: seq<int>)
    decreases times
  {
    if times == [] then true else from <= times[0] && Monotone(times[0], times[1..])
  }

  /** What a duration earns, in fractions of a token. */
  function Earned(rps: int, d: int): int {
    d * rps
  }

  /** The same as `refill` sees it: wrapped to 64 bits, and nothing if that is negative. */
  function Seen(rps: int, d: int): int {
    var w := FixedPoint.Wrap(Earned(rps, d));
    if w < 0 then 0 else w
  }

  lemma EarnedSum(rps: int, d: int, e: int)
    ensures Earned(rps, d + e) == Earned(rps, d) + Earned(rps, e)
    ensures rps >= 0 && d >= 0 ==> Earned(rps, d) >= 0
    ensures Earned(rps, 0) == 0
  {
  }

  /** However long the pause: wrapping never makes more of it than was earned. */
  lemma SeenGrowsSlowly(rps: int, d: int, e: int)
    requires rps >= 1 && e >= 0
    ensures Seen(rps, d + e) <= Seen(rps, d) + Earned(rps, e)
  {
    EarnedSum(rps, e, 0);
    EarnedSum(rps, d, e);
    hide Earned;
    WrapGrowsSlowly(Earned(rps, d), Earned(rps, e));
  }

  lemma WrapGrowsSlowly(x: int, e: int)
    requires e >= 0
    ensures FixedPoint.Wrap(x + e) <= e || FixedPoint.Wrap(x + e) <= FixedPoint.Wrap(x) + e
  {
    var m := FixedPoint.TWO64;
    var u, v := x - FixedPoint.MIN, x + e - FixedPoint.MIN;
    assert u == u / m * m + u % m && v == v / m * m + v % m;
    assert v / m >= u / m;
  }

  /** A refill adds no more than was seen, and there is none only if less than one token was seen. */
  lemma AddedIs(rps: int, d: int)
    ensures var add := Added(rps, d);
            if add > 0 then add * SECOND <= Seen(rps, d) else Seen(rps, d) < SECOND
  {
    var w := FixedPoint.Wrap(Earned(rps, d));
    assert w < 0 ==> FixedPoint.Truncated(w, SECOND) <= 0;
  }

  /** The bucket just after a look at `from`. */
  predicate Settled(b: Bucket, l: Limit, from: int) {
    l.rps >= 1 && l.burst >= 0 && 0 <= b.tokens <= l.burst && Seen(l.rps, from - b.lastFill) < SECOND
  }

  /** Tokens and earnings together never grow by looking. */
  lemma LookSettles(b: Bucket, l: Limit, from: int, now: int)
    requires Settled(b, l, from) && from <= now
    ensures Settled(Refilled(b, l, now), l, now) && Settled(Looked(b, l, now).0, l, now)
    ensures var r := Refilled(b, l, now);
            SECOND * r.tokens + Seen(l.rps, now - r.lastFill)
            <= SECOND * b.tokens + Seen(l.rps, from - b.lastFill) + Earned(l.rps, now - from)
  {
    assert Seen(l.rps, 0) == 0;
    hide Earned, Added, Seen;
    SeenGrowsSlowly(l.rps, from - b.lastFill, now - from);
    AddedIs(l.rps, now - b.lastFill);
  }

  /** All grants from here to t are paid for by the tokens and by the time that passes. */
  lemma {:induction false} GrantsArePaidFor(b: Bucket, l: Limit, from: int, times: seq<int>, t: int)
    requires Settled(b, l, from) && Monotone(from, times)
    requires from <= t && (times != [] ==> times[|times| - 1] <= t)
    ensures Grants(b, l, times) * SECOND
            <= SECOND * b.tokens + Seen(l.rps, from - b.lastFill) + Earned(l.rps, t - from)
    decreases times
  {
    EarnedSum(l.rps, t - from, 0);
    assert Seen(l.rps, from - b.lastFill) >= 0;
    hide Earned, Added, Refilled, Seen;
    if times != [] {
      var now := times[0];
      FirstIsLeast(now, times[1..]);
      LookSettles(b, l, from, now);
      GrantsArePaidFor(Looked(b, l, now).0, l, now, times[1..], t);
      EarnedSum(l.rps, t - now, now - from);
    }
  }

  lemma {:induction false} FirstIsLeast(from: int, times: seq<int>)
    requires Monotone(from, times)
    ensures times != [] ==> from <= times[|times| - 1]
    decreases times
  {
    if times != [] {
      FirstIsLeast(times[0], times[1..]);
    }
  }

  /** After a look, at most a full burst and a fraction of a token are in hand. */
  lemma WindowFromFirstLook(b: Bucket, l: Limit, from: int, times: seq<int>)
    requires Settled(b, l, from) && Monotone(from, times) && times != []
    ensures Grants(b, l, times) * SECOND <
            SECOND * (l.burst + 1) + Earned(l.rps, times[|times| - 1] - times[0])
  {
    hide Earned, Added, Seen;
    var now, last := times[0], times[|times| - 1];
    var r := Refilled(b, l, now);
    FirstIsLeast(now, times[1..]);
    LookSettles(b, l, from, now);
    GrantsArePaidFor(Looked(b, l, now).0, l, now, times[1..], last);
  }

  lemma {:induction false} RunConcat(b: Bucket, l: Limit, first: seq<int>, second: seq<int>)
    ensures After(b, l, first + second) == After(After(b, l, first), l, second)
    ensures Grants(b, l, first + second) == Grants(b, l, first) + Grants(After(b, l, first), l, second)
    decreases first
  {
    hide Looked;
    if first == [] {
      assert first + second == second;
    } else {
      RunConcat(Looked(b, l, first[0]).0, l, first[1..], second);
      assert (first + second)[1..] == first[1..] + second;
    }
  }

  lemma {:induction false} HistorySettles(b: Bucket, l: Limit, from: int, first: seq<int>, second: seq<int>)
    requires Settled(b, l, from) && Monotone(from, first + second)
    ensures var to := if first == [] then from else first[|first| - 1];
            Settled(After(b, l, first), l, to) && Monotone(to, second)
    decreases first
  {
    hide Looked, Settled;
    if first == [] {
      assert first + second == second;
    } else {
      assert (first + second)[1..] == first[1..] + second;
      LookSettles(b, l, from, first[0]);
      HistorySettles(Looked(b, l, first[0]).0, l, first[0], first[1..], second);
    }
  }

  lemma {:induction false} MonotonePrefix(from: int, first: seq<int>, second: seq<int>)
    requires Monotone(from, first + second)
    ensures Monotone(from, first)
    decreases first
  {
    if first != [] {
      assert (first + second)[1..] == first[1..] + second;
      MonotonePrefix(first[0], first[1..], second);
    }
  }

  /** Main result: over the whole life of a client, the looks number i to j - 1 are granted less than a burst, what
      the time between the first and the last of them earns, and one more. */
  lemma SlidingWindow(l: Limit, created: int, times: seq<int>, i: nat, j: nat)
    requires l.rps >= 1 && l.burst >= 0 && i < j <= |times| && Monotone(created, times)
    ensures var b := Bucket(l.burst, created);
            (Grants(b, l, times[..j]) - Grants(b, l, times[..i])) * SECOND
            < SECOND * (l.burst + 1) + Earned(l.rps, times[j - 1] - times[i])
  {
    hide Earned, Looked;
    var b := Bucket(l.burst, created);
    NewIsSettled(l, created);
    hide Settled;
    assert times == times[..j] + times[j..];
    MonotonePrefix(created, times[..j], times[j..]);
    assert times[..j] == times[..i] + times[i..j];
    HistorySettles(b, l, created, times[..i], times[i..j]);
    RunConcat(b, l, times[..i], times[i..j]);
    WindowFromFirstLook(After(b, l, times[..i]), l, if i == 0 then created else times[i - 1], times[i..j]);
  }

  lemma NewIsSettled(l: Limit, created: int)
    requires l.rps >= 1 && l.burst >= 0
    ensures Settled(Bucket(l.burst, created), l, created)
  {
    EarnedSum(l.rps, 0, 0);
  }

  /** The number of tokens stays within the burst. */
  lemma TokensStayInBucket(l: Limit, created: int, times: seq<int>)
    requires l.rps >= 1 && l.burst >= 0 && Monotone(created, times)
    ensures 0 <= After(Bucket(l.burst, created), l, times).tokens <= l.burst
  {
    NewIsSettled(l, created);
    assert times + [] == times;
    HistorySettles(Bucket(l.burst, created), l, created, times, []);
  }

  /** The one more is needed: because of the truncation two grants can be one nanosecond apart at one per second. */
  lemma OneMoreIsNeeded()
    ensures Grants(Bucket(1, 0), Limit(1, 1), [SECOND - 1, SECOND]) == 2
  {
    var l := Limit(1, 1);
    LookOf(1, 0, SECOND - 1);
    LookOf(0, 0, SECOND);
    hide Looked;
    assert [SECOND - 1, SECOND][1..] == [SECOND];
    assert [SECOND][1..] == [];
    assert Grants(Bucket(0, 0), l, [SECOND]) == 1 + Grants(Bucket(0, SECOND), l, []);
  }

  lemma LookOf(tokens: int, last: int, now: int)
    requires 0 <= tokens <= 1 && 0 <= last <= now <= SECOND
    ensures Looked(Bucket(tokens, last), Limit(1, 1), now) ==
            if now - last == SECOND then (Bucket(0, now), true) else (Bucket(0, last), tokens == 1)
  {
    FixedPoint.Wrapped(now - last);
    assert Added(1, now - last) == if now - last == SECOND then 1 else 0;
  }

  /** Nobody waits for ever: whoever looks when at least one token has been earned is granted one. */
  lemma WaitIsEnough(b: Bucket, l: Limit, now: int)
    requires l.burst >= 1 && b.tokens >= 0 && SECOND <= Earned(l.rps, now - b.lastFill) <= FixedPoint.MAX
    ensures Looked(b, l, now).1
  {
    FixedPoint.Wrapped(Earned(l.rps, now - b.lastFill));
    AddedIs(l.rps, now - b.lastFill);
    hide Added;
  }

  /** A refill in numbers, as long as the product fits in 64 bits: one token for every 1/rps seconds since the last one,
      rounded down, up to the burst; and the time counts as used exactly when it earned a token. */
  lemma RefillIs(b: Bucket, l: Limit, now: int)
    requires l.rps >= 1 && now >= b.lastFill && (now - b.lastFill) * l.rps <= FixedPoint.MAX
    ensures var earned := (now - b.lastFill) * l.rps / 1_000_000_000;
            var r := Refilled(b, l, now);
            && r.lastFill == (if earned >= 1 then now else b.lastFill)
            && r.tokens == if earned == 0 then b.tokens
                           else if b.tokens + earned < l.burst then b.tokens + earned
                           else l.burst
  {
    EarnedSum(l.rps, now - b.lastFill, 0);
    assert (now - b.lastFill) * l.rps >= 0;
    FixedPoint.Wrapped((now - b.lastFill) * l.rps);
  }
}
