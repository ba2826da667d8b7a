/**
  The circuit breaker around every outbound call, and the retry loop it wraps.

  Clocks are passed in: each parameter called `now` is one reading of the
  monotonic clock. A response is 2xx, a transient failure or a permanent one.
 */
module Circuit {

  datatype State = Closed | Open | HalfOpen

  /** The breaker's mutable fields, as a value. */
  datatype Breaker = Breaker(failures: nat, openedAt: real, state: State)

  const FRESH := Breaker(0, 0.0, Closed)

  /** Configuration: `failure_threshold` and `reset_seconds`. */
  datatype Settings = Settings(threshold: nat, reset: real)

  /** Reading `state` turns an OPEN breaker HALF_OPEN once the reset time is over. */
  function Refresh(cfg: Settings, b: Breaker, now: real): Breaker {
    if b.state == Open && now - b.openedAt >= cfg.reset then b.(state := HalfOpen) else b
  }

  function Succeed(b: Breaker): Breaker {
    b.(failures := 0, state := Closed)
  }

  function Fail(cfg: Settings, b: Breaker, transient: bool, now: real): Breaker {
    if !transient then b
    else if b.failures + 1 >= cfg.threshold then Breaker(b.failures + 1, now, Open)
    else b.(failures := b.failures + 1)
  }

  // ------------------------------------------------------- any history of use

  /** Everything that can be done to a breaker, in any order, at any clock reading. */
  datatype Event =
    | Asked(now: real)
    | Succeeded
    | Failed(transient: bool, now: real)

  function React(cfg: Settings, b: Breaker, e: Event): Breaker {
    match e
    case Asked(now) => Refresh(cfg, b, now)
    case Succeeded => Succeed(b)
    case Failed(transient, now) => Fail(cfg, b, transient, now)
  }

  function After(cfg: Settings, history: seq<Event>): Breaker {
    if history == [] then FRESH
    else React(cfg, After(cfg, history[..|history|-1]), history[|history|-1])
  }

  /** Transient failures recorded since the last success. Permanent ones are skipped. */
  function TransientSinceSuccess(history: seq<Event>): nat {
    if history == [] then 0
    else
      var before := history[..|history|-1];
      match history[|history|-1]
      case Succeeded => 0
      case Failed(true, _) => TransientSinceSuccess(before) + 1
      case _ => TransientSinceSuccess(before)
  }

  /** CLOSED exactly while fewer than `threshold` transient failures follow the last success. */
  lemma {:induction false} ClosedExactlyBelowThreshold(cfg: Settings, history: seq<Event>)
    requires cfg.threshold >= 1
    ensures After(cfg, history).failures == TransientSinceSuccess(history)
    ensures After(cfg, history).state == Closed <==> TransientSinceSuccess(history) < cfg.threshold
  {
    if history != [] {
      ClosedExactlyBelowThreshold(cfg, history[..|history|-1]);
    }
  }

  /** Permanent errors are invisible: dropping one from a history changes nothing later. */
  lemma {:induction false} PermanentErrorsAreNeutral(cfg: Settings, before: seq<Event>, now: real, later: seq<Event>)
    ensures After(cfg, before + [Failed(false, now)] + later) == After(cfg, before + later)
  {
    var long, short := before + [Failed(false, now)] + later, before + later;
    if later == [] {
      assert long[..|long|-1] == before && short == before;
    } else {
      assert long[..|long|-1] == before + [Failed(false, now)] + later[..|later|-1];
      assert short[..|short|-1] == before + later[..|later|-1];
      PermanentErrorsAreNeutral(cfg, before, now, later[..|later|-1]);
    }
  }

  // -------------------------------------------------------------- the breaker

  class CircuitBreaker {
    const settings: Settings
    var failures: nat
    var openedAt: real
    var state: State

    ghost function View(): Breaker
      reads this
    {
      Breaker(failures, openedAt, state)
    }

    /** The source raises ValueError for a threshold below one. */
    constructor (threshold: nat, reset: real)
      requires threshold >= 1
      ensures settings == Settings(threshold, reset) && View() == FRESH
    {
      settings := Settings(threshold, reset);
      failures, openedAt, state := 0, 0.0, Closed;
    }

    method GetState(now: real) returns (s: State)
      modifies this
      ensures View() == Refresh(settings, old(View()), now) && s == state
    {
      if state == Open && now - openedAt >= settings.reset {
        state := HalfOpen;
      }
      s := state;
    }

    method AllowsRequest(now: real) returns (ok: bool)
      modifies this
      ensures View() == Refresh(settings, old(View()), now)
      ensures ok <==> state != Open
    {
      var s := GetState(now);
      ok := s != Open;
    }

    method RecordSuccess()
      modifies this
      ensures View() == Succeed(old(View()))
    {
      failures := 0;
      state := Closed;
    }

    method RecordFailure(transient: bool, now: real)
      modifies this
      ensures View() == Fail(settings, old(View()), transient, now)
    {
      if !transient {
        return;
      }
      failures := failures + 1;
      if failures >= settings.threshold {
        state := Open;
        openedAt := now;
      }
    }

    /** Zero unless OPEN; while OPEN, waiting exactly this long makes the breaker admit a call. */
    method SecondsUntilRetry(now: real) returns (s: real)
      modifies this
      ensures View() == Refresh(settings, old(View()), now)
      ensures state != Open ==> s == 0.0
      ensures state == Open ==> s > 0.0
      ensures state == Open ==>
        forall later: real :: later >= now ==>
          (Refresh(settings, View(), later).state != Open <==> later - now >= s)
    {
      var st := GetState(now);
      if st != Open {
        return 0.0;
      }
      var remaining := settings.reset - (now - openedAt);
      s := if remaining > 0.0 then remaining else 0.0;
    }
  }

  // ------------------------------------------------------------ one call

  datatype Response = Ok | Transient | Permanent

  /** How a call ended, how many requests it sent and how long it slept. */
  datatype Ending = Returned | Refused | Unavailable | CircuitOpen
  datatype CallReport = CallReport(ending: Ending, sent: nat, slept: real)

  function Pow2(n: nat): nat {
    if n == 0 then 1 else 2 * Pow2(n - 1)
  }

  /** One use of the client: the clock when it begins, the clock if it gives up, and what the
      coordinator would answer to each of its `|answers|` permitted attempts. */
  datatype Call = Call(start: real, end: real, answers: seq<Response>)

  /** The first attempt that settles the call, or `|answers|` when all are transient. */
  function Decisive(answers: seq<Response>): (k: nat)
    ensures k <= |answers|
    ensures forall i | 0 <= i < k :: answers[i] == Transient
    ensures k < |answers| ==> answers[k] != Transient
  {
    if answers == [] || answers[0] != Transient then 0 else 1 + Decisive(answers[1..])
  }

  predicate Admits(cfg: Settings, b: Breaker, now: real) {
    Refresh(cfg, b, now).state != Open
  }

  /** The breaker after one call. */
  function AfterCall(cfg: Settings, b: Breaker, c: Call): Breaker {
    var asked := Refresh(cfg, b, c.start);
    var k := Decisive(c.answers);
    if asked.state == Open then asked
    else if k == |c.answers| then Fail(cfg, asked, true, c.end)
    else if c.answers[k] == Ok then Succeed(asked)
    else asked
  }

  /** `_call`: breaker, up to `retries + 1` attempts, exponential backoff between them.
      What it sends and how long it sleeps is bounded whatever the coordinator answers. */
  method DoCall(breaker: CircuitBreaker, c: Call) returns (r: CallReport)
    requires |c.answers| >= 1
    modifies breaker
    ensures breaker.View() == AfterCall(breaker.settings, old(breaker.View()), c)
    ensures r.ending == CircuitOpen <==> !Admits(breaker.settings, old(breaker.View()), c.start)
    ensures r.ending == CircuitOpen ==> r.sent == 0 && r.slept == 0.0
    ensures r.ending != CircuitOpen ==>
      && 1 <= r.sent <= |c.answers|
      && (forall i | 0 <= i < r.sent - 1 :: c.answers[i] == Transient)
      && r.slept == 0.2 * (Pow2(r.sent - 1) - 1) as real
      && (r.ending == Returned <==> c.answers[r.sent - 1] == Ok)
      && (r.ending == Refused <==> c.answers[r.sent - 1] == Permanent)
      && (r.ending == Unavailable ==> r.sent == |c.answers|)
    ensures r.slept <= 0.2 * (Pow2(|c.answers| - 1) - 1) as real
  {
    var ok := breaker.AllowsRequest(c.start);
    PowMonotone(0, |c.answers| - 1);
    if !ok {
      return CallReport(CircuitOpen, 0, 0.0);
    }
    var attempts := |c.answers|;
    var attempt, slept := 0, 0.0;
    while attempt < attempts
      invariant 0 <= attempt <= attempts
      invariant forall i | 0 <= i < attempt :: c.answers[i] == Transient
      invariant slept == 0.2 * (Pow2(if attempt < attempts then attempt else attempts - 1) - 1) as real
      invariant breaker.View() == Refresh(breaker.settings, old(breaker.View()), c.start)
    {
      var answer := c.answers[attempt];
      if answer == Ok {
        breaker.RecordSuccess();
        PowMonotone(attempt, attempts - 1);
        return CallReport(Returned, attempt + 1, slept);
      }
      if answer == Permanent {
        breaker.RecordFailure(false, c.end);
        PowMonotone(attempt, attempts - 1);
        return CallReport(Refused, attempt + 1, slept);
      }
      if attempt < attempts - 1 {
        slept := slept + 0.2 * Pow2(attempt) as real;
      }
      attempt := attempt + 1;
    }
    breaker.RecordFailure(true, c.end);
    return CallReport(Unavailable, attempts, slept);
  }

  lemma {:induction false} PowMonotone(a: nat, b: nat)
    requires a <= b
    ensures 1 <= Pow2(a) <= Pow2(b)
    decreases b
  {
    if a < b { PowMonotone(a, b - 1); } else if a > 0 { PowMonotone(a - 1, b - 1); }
  }

  // ------------------------------------------------- load over an outage

  /** One client, one loop: a call starts after the previous one ended. */
  ghost predicate Sequential(calls: seq<Call>) {
    && (forall i | 0 <= i < |calls| :: calls[i].start <= calls[i].end)
    && (forall i, j | 0 <= i < j < |calls| :: calls[i].end <= calls[j].start)
  }

  /** An outage: every answer to every call is a transient failure. */
  ghost predicate Outage(calls: seq<Call>, retries: nat) {
    forall i | 0 <= i < |calls| ::
      1 <= |calls[i].answers| <= retries + 1 && Decisive(calls[i].answers) == |calls[i].answers|
  }

  function AfterCalls(cfg: Settings, calls: seq<Call>): Breaker {
    if calls == [] then FRESH
    else AfterCall(cfg, AfterCalls(cfg, calls[..|calls|-1]), calls[|calls|-1])
  }

  /** Admitted calls that exhausted their attempts since the last one that returned. */
  function UnavailableSinceReturn(cfg: Settings, calls: seq<Call>): nat {
    if calls == [] then 0
    else
      var before, last := calls[..|calls|-1], calls[|calls|-1];
      var n := UnavailableSinceReturn(cfg, before);
      if !Admits(cfg, AfterCalls(cfg, before), last.start) then n
      else if Decisive(last.answers) == |last.answers| then n + 1
      else if last.answers[Decisive(last.answers)] == Ok then 0
      else n
  }

  /** The same at the level of calls: a retried call counts once, a permanent error not at all. */
  lemma {:induction false} ClosedExactlyBelowThresholdOfCalls(cfg: Settings, calls: seq<Call>)
    requires cfg.threshold >= 1
    ensures AfterCalls(cfg, calls).failures == UnavailableSinceReturn(cfg, calls)
    ensures AfterCalls(cfg, calls).state == Closed <==> UnavailableSinceReturn(cfg, calls) < cfg.threshold
  {
    if calls != [] {
      ClosedExactlyBelowThresholdOfCalls(cfg, calls[..|calls|-1]);
    }
  }

  /** The calls the breaker let through, in order. */
  function Admitted(cfg: Settings, calls: seq<Call>): seq<Call> {
    if calls == [] then []
    else
      var before, last := calls[..|calls|-1], calls[|calls|-1];
      Admitted(cfg, before) + (if Admits(cfg, AfterCalls(cfg, before), last.start) then [last] else [])
  }

  /** Attempts sent by the calls that started no later than `limit`. */
  function AttemptsBy(calls: seq<Call>, limit: real): nat {
    if calls == [] then 0
    else AttemptsBy(calls[..|calls|-1], limit) +
         if calls[|calls|-1].start <= limit then |calls[|calls|-1].answers| else 0
  }

  function CallsBy(calls: seq<Call>, limit: real): nat {
    if calls == [] then 0
    else CallsBy(calls[..|calls|-1], limit) + if calls[|calls|-1].start <= limit then 1 else 0
  }

  ghost predicate Apart(a: seq<Call>, i: nat, gap: real)
    requires 0 < i < |a|
  {
    a[i].start >= a[i-1].end + gap
  }

  /** `n` gaps added up. */
  ghost function Gaps(n: nat, gap: real): real {
    if n == 0 then 0.0 else Gaps(n - 1, gap) + gap
  }

  lemma Distribute(x: real, y: real)
    ensures (x + 1.0) * y == x * y + y
  {
  }

  lemma {:induction false} GapsAreProduct(n: nat, gap: real)
    ensures Gaps(n, gap) == n as real * gap
  {
    if n > 0 {
      GapsAreProduct(n - 1, gap);
      Distribute((n - 1) as real, gap);
      assert n as real == (n - 1) as real + 1.0;
    }
  }

  lemma {:induction false} GapsGrow(m: nat, n: nat, gap: real)
    requires m <= n && gap > 0.0
    ensures Gaps(m, gap) <= Gaps(n, gap)
  {
    if m < n { GapsGrow(m, n - 1, gap); }
  }

  /** What an outage leaves: one failure per admitted call, and admissions `reset` apart. */
  ghost predicate Spaced(cfg: Settings, a: seq<Call>, b: Breaker) {
    && b.failures == |a|
    && b.state == (if |a| < cfg.threshold then Closed else Open)
    && (|a| >= cfg.threshold ==> 0 < |a| && b.openedAt == a[|a|-1].end)
    && (forall i | 0 < cfg.threshold <= i < |a| :: Apart(a, i, cfg.reset))
  }

  lemma OneMoreCall(cfg: Settings, a: seq<Call>, b: Breaker, c: Call)
    requires cfg.threshold >= 1 && Spaced(cfg, a, b)
    requires |c.answers| >= 1 && Decisive(c.answers) == |c.answers|
    ensures Spaced(cfg, if Admits(cfg, b, c.start) then a + [c] else a, AfterCall(cfg, b, c))
  {
    if Admits(cfg, b, c.start) {
      var a' := a + [c];
      forall i | cfg.threshold <= i < |a'| ensures Apart(a', i, cfg.reset) {
        if i < |a| { assert Apart(a, i, cfg.reset); }
      }
    }
  }

  /** During an outage every admission after opening is at least `reset` after the previous one. */
  lemma {:induction false} AdmissionsAreSpaced(cfg: Settings, calls: seq<Call>, retries: nat)
    requires cfg.threshold >= 1 && Outage(calls, retries)
    ensures Spaced(cfg, Admitted(cfg, calls), AfterCalls(cfg, calls))
  {
    if calls != [] {
      var before, last := calls[..|calls|-1], calls[|calls|-1];
      assert Outage(before, retries) by {
        forall i | 0 <= i < |before|
          ensures 1 <= |before[i].answers| <= retries + 1 && Decisive(before[i].answers) == |before[i].answers|
        {
          assert before[i] == calls[i];
        }
      }
      AdmissionsAreSpaced(cfg, before, retries);
      OneMoreCall(cfg, Admitted(cfg, before), AfterCalls(cfg, before), last);
    }
  }

  /** Only calls that were made are admitted. */
  lemma {:induction false} AdmittedAreCalls(cfg: Settings, calls: seq<Call>, c: Call)
    requires c in Admitted(cfg, calls)
    ensures c in calls
  {
    var before := calls[..|calls|-1];
    if c in Admitted(cfg, before) {
      AdmittedAreCalls(cfg, before, c);
    }
  }

  lemma {:induction false} KthAdmission(cfg: Settings, a: seq<Call>, b: Breaker, k: nat)
    requires cfg.threshold >= 1 && Spaced(cfg, a, b)
    requires forall c | c in a :: c.start <= c.end
    requires cfg.threshold + k < |a|
    ensures a[cfg.threshold + k].start >= a[cfg.threshold - 1].end + Gaps(k + 1, cfg.reset)
  {
    var i := cfg.threshold + k;
    assert Apart(a, i, cfg.reset);
    if k > 0 {
      KthAdmission(cfg, a, b, k - 1);
      assert a[i-1] in a;
    }
  }

  lemma {:induction false} CountPrefix(calls: seq<Call>, limit: real, n: nat)
    requires n <= |calls|
    requires forall i | n <= i < |calls| :: calls[i].start > limit
    ensures CallsBy(calls, limit) <= n
  {
    if calls != [] {
      if n == |calls| {
        CountPrefix(calls[..|calls|-1], limit, n - 1);
      } else {
        CountPrefix(calls[..|calls|-1], limit, n);
      }
    }
  }

  lemma {:induction false} AttemptsPerCall(calls: seq<Call>, limit: real, retries: nat)
    requires forall c | c in calls :: |c.answers| <= retries + 1
    ensures AttemptsBy(calls, limit) <= (retries + 1) * CallsBy(calls, limit)
  {
    if calls != [] {
      assert calls[|calls|-1] in calls;
      AttemptsPerCall(calls[..|calls|-1], limit, retries);
    }
  }

  lemma CallsUpTo(cfg: Settings, a: seq<Call>, b: Breaker, elapsed: real, m: nat)
    requires cfg.threshold >= 1 && cfg.reset > 0.0 && Spaced(cfg, a, b)
    requires forall c | c in a :: c.start <= c.end
    requires |a| >= cfg.threshold
    requires Gaps(m + 1, cfg.reset) > elapsed
    ensures CallsBy(a, a[cfg.threshold - 1].end + elapsed) <= cfg.threshold + m
  {
    var limit := a[cfg.threshold - 1].end + elapsed;
    if cfg.threshold + m < |a| {
      forall i | cfg.threshold + m <= i < |a| ensures a[i].start > limit {
        var k := i - cfg.threshold;
        KthAdmission(cfg, a, b, k);
        GapsGrow(m + 1, k + 1, cfg.reset);
      }
      CountPrefix(a, limit, cfg.threshold + m);
    } else {
      CountPrefix(a, limit, |a|);
    }
  }

  lemma OutageLoad(cfg: Settings, calls: seq<Call>, retries: nat, elapsed: real, m: nat)
    requires cfg.threshold >= 1 && cfg.reset > 0.0
    requires Sequential(calls) && Outage(calls, retries)
    requires |Admitted(cfg, calls)| >= cfg.threshold
    requires Gaps(m + 1, cfg.reset) > elapsed
    ensures var a := Admitted(cfg, calls);
            var limit := a[cfg.threshold - 1].end + elapsed;
      && CallsBy(a, limit) <= cfg.threshold + m
      && AttemptsBy(a, limit) <= (retries + 1) * CallsBy(a, limit)
  {
    var a := Admitted(cfg, calls);
    forall c | c in a ensures c.start <= c.end && |c.answers| <= retries + 1 {
      AdmittedAreCalls(cfg, calls, c);
      var i :| 0 <= i < |calls| && calls[i] == c;
    }
    AdmissionsAreSpaced(cfg, calls, retries);
    CallsUpTo(cfg, a, AfterCalls(cfg, calls), elapsed, m);
    AttemptsPerCall(a, a[cfg.threshold - 1].end + elapsed, retries);
  }

  /** As many gaps as fit, and one more, go past any time. */
  lemma WholeGaps(elapsed: real, gap: real)
    requires elapsed >= 0.0 && gap > 0.0
    ensures (elapsed / gap).Floor >= 0 && Gaps((elapsed / gap).Floor + 1, gap) > elapsed
  {
    FloorQuotient(elapsed, gap);
    GapsAreProduct((elapsed / gap).Floor + 1, gap);
  }

  /** The same with every call counted at its full number of attempts. */
  lemma OutageAttempts(cfg: Settings, calls: seq<Call>, retries: nat, elapsed: real, m: nat)
    requires cfg.threshold >= 1 && cfg.reset > 0.0
    requires Sequential(calls) && Outage(calls, retries)
    requires |Admitted(cfg, calls)| >= cfg.threshold
    requires Gaps(m + 1, cfg.reset) > elapsed
    ensures var a := Admitted(cfg, calls);
            var limit := a[cfg.threshold - 1].end + elapsed;
      && CallsBy(a, limit) <= cfg.threshold + m
      && AttemptsBy(a, limit) <= (retries + 1) * (cfg.threshold + m)
  {
    OutageLoad(cfg, calls, retries, elapsed, m);
    var limit := Admitted(cfg, calls)[cfg.threshold - 1].end + elapsed;
    MulMonotone(retries + 1, CallsBy(Admitted(cfg, calls), limit), cfg.threshold + m);
  }

  /**
    The load an outage puts on a coordinator. Up to `elapsed` seconds after the breaker
    first opens, it lets through at most `threshold + floor(elapsed / reset)` calls, and
    they send at most `retries + 1` requests each.
   */
  lemma OutageLoadIsBounded(cfg: Settings, calls: seq<Call>, retries: nat, elapsed: real)
    requires cfg.threshold >= 1 && cfg.reset > 0.0 && elapsed >= 0.0
    requires Sequential(calls) && Outage(calls, retries)
    requires |Admitted(cfg, calls)| >= cfg.threshold
    ensures var a := Admitted(cfg, calls);
            var limit := a[cfg.threshold - 1].end + elapsed;
      && CallsBy(a, limit) <= cfg.threshold + (elapsed / cfg.reset).Floor
      && AttemptsBy(a, limit) <= (retries + 1) * (cfg.threshold + (elapsed / cfg.reset).Floor)
  {
    WholeGaps(elapsed, cfg.reset);
    OutageAttempts(cfg, calls, retries, elapsed, (elapsed / cfg.reset).Floor);
  }

  lemma MulMonotone(f: nat, x: int, y: int)
    requires x <= y
    ensures f * x <= f * y
  {
  }

  lemma FloorQuotient(x: real, d: real)
    requires x >= 0.0 && d > 0.0
    ensures (x / d).Floor >= 0
    ensures ((x / d).Floor + 1) as real * d > x
  {
    var q := x / d;
    assert q * d == x;
    assert (q.Floor + 1) as real > q;
  }

  // ---------------------------------------------------------- half open

  /** The coordinator's answer to the call is a permanent error. */
  predicate AnsweredPermanently(c: Call) {
    Decisive(c.answers) < |c.answers| && c.answers[Decisive(c.answers)] == Permanent
  }

  /** The breaker after more calls, from where it stands. */
  function AfterMore(cfg: Settings, b: Breaker, calls: seq<Call>): Breaker {
    if calls == [] then b
    else AfterCall(cfg, AfterMore(cfg, b, calls[..|calls|-1]), calls[|calls|-1])
  }

  /** Every one of the calls finds the breaker admitting. */
  ghost predicate AllAdmitted(cfg: Settings, b: Breaker, calls: seq<Call>) {
    forall i | 0 <= i < |calls| :: Admits(cfg, AfterMore(cfg, b, calls[..i]), calls[i].start)
  }

  ghost predicate StaysHalfOpen(cfg: Settings, b: Breaker, calls: seq<Call>) {
    forall i | 0 <= i <= |calls| :: AfterMore(cfg, b, calls[..i]).state == HalfOpen
  }

  /** One trial leaves the breaker half open exactly when its answer is permanent. */
  lemma TrialSettlesUnlessPermanent(cfg: Settings, b: Breaker, trial: Call)
    requires b.state == HalfOpen && b.failures >= cfg.threshold
    ensures var after := AfterCall(cfg, b, trial);
      && Admits(cfg, b, trial.start)
      && (after.state == HalfOpen <==> AnsweredPermanently(trial))
      && (after.state == HalfOpen ==> after == b)
      && (after.state == Closed <==>
            Decisive(trial.answers) < |trial.answers| && trial.answers[Decisive(trial.answers)] == Ok)
      && (after.state == Open ==> forall next: real | next < trial.end + cfg.reset :: !Admits(cfg, after, next))
  {
  }

  /** While every answer is permanent nothing is recorded. */
  lemma {:induction false} PermanentLeaveIt(cfg: Settings, b: Breaker, calls: seq<Call>)
    requires b.state == HalfOpen && b.failures >= cfg.threshold
    requires forall c | c in calls :: AnsweredPermanently(c)
    ensures AfterMore(cfg, b, calls) == b
  {
    if calls != [] {
      var before, last := calls[..|calls|-1], calls[|calls|-1];
      assert last in calls;
      PermanentLeaveIt(cfg, b, before);
      TrialSettlesUnlessPermanent(cfg, b, last);
    }
  }

  /**
    HALF_OPEN is documented as admitting a single trial call. The breaker stays half open over any
    number of calls, at any times, exactly while every one of them is answered by a permanent
    error, and it admits them all.
   */
  lemma HalfOpenAdmitsWhilePermanent(cfg: Settings, b: Breaker, calls: seq<Call>)
    requires b.state == HalfOpen && b.failures >= cfg.threshold
    ensures StaysHalfOpen(cfg, b, calls) <==> forall c | c in calls :: AnsweredPermanently(c)
    ensures StaysHalfOpen(cfg, b, calls) ==> AllAdmitted(cfg, b, calls)
  {
    if forall c | c in calls :: AnsweredPermanently(c) {
      forall i | 0 <= i <= |calls| ensures AfterMore(cfg, b, calls[..i]) == b {
        PermanentLeaveIt(cfg, b, calls[..i]);
      }
    }
    if StaysHalfOpen(cfg, b, calls) {
      forall i | 0 <= i < |calls|
        ensures Admits(cfg, AfterMore(cfg, b, calls[..i]), calls[i].start) && AnsweredPermanently(calls[i])
      {
        var upTo := calls[..i + 1];
        assert upTo[..i] == calls[..i] && upTo[i] == calls[i];
        FailuresStay(cfg, b, calls, i);
        TrialSettlesUnlessPermanent(cfg, AfterMore(cfg, b, calls[..i]), calls[i]);
      }
    }
  }

  /** A breaker that stays half open keeps its count. */
  lemma {:induction false} FailuresStay(cfg: Settings, b: Breaker, calls: seq<Call>, i: nat)
    requires b.state == HalfOpen && b.failures >= cfg.threshold && StaysHalfOpen(cfg, b, calls) && i <= |calls|
    ensures AfterMore(cfg, b, calls[..i]) == b
  {
    if i > 0 {
      FailuresStay(cfg, b, calls, i - 1);
      assert calls[..i][..i - 1] == calls[..i - 1] && calls[..i][i - 1] == calls[i - 1];
      TrialSettlesUnlessPermanent(cfg, b, calls[i - 1]);
    }
  }

  /** A breaker that is half open after any history of calls has a full count. */
  lemma ReachedHalfOpenIsFull(cfg: Settings, calls: seq<Call>, now: real)
    requires cfg.threshold >= 1 && Refresh(cfg, AfterCalls(cfg, calls), now).state == HalfOpen
    ensures Refresh(cfg, AfterCalls(cfg, calls), now).failures >= cfg.threshold
  {
    ClosedExactlyBelowThresholdOfCalls(cfg, calls);
  }

  /** So it is with every breaker in use: whatever calls came before, once a reading of the clock finds it
      half open, it stays so exactly while the calls are answered by permanent errors, and admits them all. */
  lemma ReachedHalfOpenAdmitsWhilePermanent(cfg: Settings, calls: seq<Call>, now: real, more: seq<Call>)
    requires cfg.threshold >= 1 && Refresh(cfg, AfterCalls(cfg, calls), now).state == HalfOpen
    ensures var b := Refresh(cfg, AfterCalls(cfg, calls), now);
      && (StaysHalfOpen(cfg, b, more) <==> forall c | c in more :: AnsweredPermanently(c))
      && (StaysHalfOpen(cfg, b, more) ==> AllAdmitted(cfg, b, more))
  {
    ReachedHalfOpenIsFull(cfg, calls, now);
    HalfOpenAdmitsWhilePermanent(cfg, Refresh(cfg, AfterCalls(cfg, calls), now), more);
  }

  /** A call that fails at once, and one a second later that is answered by a permanent error. */
  const DOWN := Call(0.0, 0.0, [Transient])
  const ODD := Call(1.0, 1.0, [Permanent])

  function DownThenOdd(n: nat): seq<Call> {
    if n == 0 then [DOWN] else DownThenOdd(n - 1) + [ODD]
  }

  lemma DownOpens(cfg: Settings)
    requires cfg == Settings(1, 1.0)
    ensures Admits(cfg, FRESH, DOWN.start) && AfterCall(cfg, FRESH, DOWN) == Breaker(1, 0.0, Open)
  {
    assert DOWN.answers[1..] == [];
    assert Decisive(DOWN.answers) == 1;
  }

  lemma OddIsAdmitted(cfg: Settings, b: Breaker)
    requires cfg == Settings(1, 1.0) && (b == Breaker(1, 0.0, Open) || b == Breaker(1, 0.0, HalfOpen))
    ensures Admits(cfg, b, ODD.start) && AfterCall(cfg, b, ODD) == Breaker(1, 0.0, HalfOpen)
  {
    assert Decisive(ODD.answers) == 0;
  }

  /** One failure opens the breaker; a second later it admits a trial, which is answered by a permanent
      error, and at once another, and as many as are made. */
  lemma {:induction false} ManyTrialsAreAdmitted(cfg: Settings, n: nat)
    requires cfg == Settings(1, 1.0)
    ensures |DownThenOdd(n)| == n + 1 && Admitted(cfg, DownThenOdd(n)) == DownThenOdd(n)
    ensures AfterCalls(cfg, DownThenOdd(n)) == Breaker(1, 0.0, if n == 0 then Open else HalfOpen)
  {
    var calls := DownThenOdd(n);
    if n == 0 {
      DownOpens(cfg);
      assert calls[..0] == [];
    } else {
      ManyTrialsAreAdmitted(cfg, n - 1);
      assert calls[..n] == DownThenOdd(n - 1);
      OddIsAdmitted(cfg, AfterCalls(cfg, DownThenOdd(n - 1)));
    }
  }
}
