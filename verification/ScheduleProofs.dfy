/** What every interleaving keeps about schedules: the grid, the spacing of claims, the failure count. */
module ScheduleProofs {
  import opened Wrappers
  import opened Schedules
  import opened Service
  import Audit

  /** Broken firings since the last that started something, or since it was switched on. Skips pass through. */
  function BrokenInARow(firings: seq<Turnout>): nat {
    if firings == [] then 0
    else
      var n := BrokenInARow(firings[..|firings|-1]);
      match firings[|firings|-1]
      case Ran => 0
      case SwitchedOn => 0
      case Broke => n + 1
      case Skipped => n
  }

  /** Claim `j` comes more than `j - i - 1` intervals after claim `i`. */
  ghost predicate Between(claims: seq<int>, i: nat, j: nat, interval: nat)
    requires i < j < |claims|
  {
    claims[j] - claims[i] > Slots(j - i - 1, interval)
  }

  /** The next slot keeps that pace. */
  ghost predicate Ahead(claims: seq<int>, i: nat, next: int, interval: nat)
    requires i < |claims|
  {
    next - claims[i] > Slots(|claims| - 1 - i, interval)
  }

  ghost predicate ClaimsSpaced(claims: seq<int>, next: int, interval: nat) {
    && (forall i, j | 0 <= i < j < |claims| :: Between(claims, i, j, interval))
    && (forall i | 0 <= i < |claims| :: Ahead(claims, i, next, interval))
  }

  ghost predicate CountOk(r: Schedule, firings: seq<Turnout>) {
    && r.failures == BrokenInARow(firings)
    && r.failures <= FAILURE_LIMIT
    && (r.paused <==> r.failures == FAILURE_LIMIT)
    && (r.enabled ==> !r.paused)
  }

  ghost predicate RowOk(r: Schedule, h: History) {
    && r.interval >= MIN_INTERVAL_MINUTES
    && OnGrid(h.first, r.interval, r.next)
    && ClaimsSpaced(h.claims, r.next, r.interval)
    && CountOk(r, h.firings)
  }

  ghost predicate UniqueIds(rows: seq<Schedule>) {
    forall i, j | 0 <= i < j < |rows| :: rows[i].id != rows[j].id
  }

  ghost predicate TableOk(rows: seq<Schedule>, histories: seq<History>, nextId: nat) {
    && |rows| == |histories|
    && UniqueIds(rows)
    && (forall i | 0 <= i < |rows| :: rows[i].id < nextId)
    && (forall i | 0 <= i < |rows| :: RowOk(rows[i], histories[i]))
  }

  ghost predicate SchedulesOk(s: System) { TableOk(s.schedules, s.histories, s.nextSchedule) }

  // ------------------------------------------------------------ one row

  lemma SlotsAdd(k: nat, interval: nat)
    ensures Slots(k, interval) + Period(interval) == Slots(k + 1, interval)
    ensures Slots(0, interval) == 0
  {
    Distribute(k, 1, Period(interval));
  }

  /** Moving forward by an interval or more, with or without a claim, keeps the pace. */
  lemma ForwardKeepsPace(claims: seq<int>, next: int, interval: nat, later: int, now: int)
    requires ClaimsSpaced(claims, next, interval) && interval > 0 && later >= next + Period(interval)
    ensures ClaimsSpaced(claims, later, interval)
    ensures next <= now < later ==> ClaimsSpaced(claims + [now], later, interval)
  {
    forall i | 0 <= i < |claims| ensures Ahead(claims, i, later, interval) {
      assert Ahead(claims, i, next, interval);
    }
    if next <= now < later {
      var all := claims + [now];
      forall i, j | 0 <= i < j < |all| ensures Between(all, i, j, interval) {
        if j < |claims| {
          assert Between(claims, i, j, interval);
        } else {
          assert Ahead(claims, i, next, interval);
        }
      }
      forall i | 0 <= i < |all| ensures Ahead(all, i, later, interval) {
        if i < |claims| {
          assert Ahead(claims, i, next, interval);
          SlotsAdd(|claims| - 1 - i, interval);
        } else {
          SlotsAdd(0, interval);
        }
      }
    }
  }

  lemma ClaimKeepsRow(r: Schedule, h: History, now: int)
    requires RowOk(r, h) && Due(r, now)
    ensures RowOk(Moved(r, now), h.(claims := h.claims + [now]))
    ensures Moved(r, now).next >= r.next + Period(r.interval)
  {
    AdvanceMovesForwardOnGrid(h.first, r.next, r.interval, now);
    ForwardKeepsPace(h.claims, r.next, r.interval, Moved(r, now).next, now);
  }

  lemma FiringKeepsRow(r: Schedule, h: History, f: Firing, now: int)
    requires RowOk(r, h) && r.enabled
    ensures RowOk(AfterFiring(r, r, f, now), Noted(h, TurnoutOf(f)))
    ensures AfterFiring(r, r, f, now).id == r.id && AfterFiring(r, r, f, now).next == r.next
  {
    var all := Noted(h, TurnoutOf(f)).firings;
    assert all[..|all|-1] == h.firings;
  }

  lemma SwitchKeepsRow(r: Schedule, h: History, enabled: bool, now: int)
    requires RowOk(r, h)
    ensures RowOk(Switched(r, enabled, now), if enabled then Noted(h, SwitchedOn) else h)
    ensures Switched(r, enabled, now).next == (if enabled then Advance(r.next, r.interval, now) else r.next)
    ensures Switched(r, enabled, now).id == r.id
  {
    if enabled {
      AdvanceMovesForwardOnGrid(h.first, r.next, r.interval, now);
      ForwardKeepsPace(h.claims, r.next, r.interval, Switched(r, true, now).next, now);
      var all := Noted(h, SwitchedOn).firings;
      assert all[..|all|-1] == h.firings;
    }
  }

  // ---------------------------------------------------------- the table

  lemma ReplaceRow(s: System, at: nat, r: Schedule, h: History)
    requires SchedulesOk(s) && at < |s.schedules|
    requires r.id == s.schedules[at].id && RowOk(r, h)
    ensures TableOk(s.schedules[at := r], s.histories[at := h], s.nextSchedule)
  {
  }

  lemma ClaimKeeps(s: System, now: int)
    requires SchedulesOk(s)
    ensures SchedulesOk(ClaimStep(s, now))
  {
    var t := ClaimStep(s, now);
    forall i | 0 <= i < |t.schedules| ensures RowOk(t.schedules[i], t.histories[i]) {
      if Due(s.schedules[i], now) { ClaimKeepsRow(s.schedules[i], s.histories[i], now); }
    }
  }

  /** The claimed copies are enabled rows of the moved table, each once. */
  lemma {:induction false} ClaimedAreRows(rows: seq<Schedule>, now: int)
    requires UniqueIds(rows)
    ensures var due := Claimed(rows, now);
      && UniqueIds(due)
      && (forall c | c in due :: c in ClaimAll(rows, now) && c.enabled)
      && (forall c | c in due :: exists i :: 0 <= i < |rows| && rows[i].id == c.id)
  {
    if rows != [] {
      var rest := rows[1..];
      assert UniqueIds(rest) by { assert forall i | 0 <= i < |rest| :: rest[i] == rows[i + 1]; }
      ClaimedAreRows(rest, now);
      var all := ClaimAll(rows, now);
      var due, dueRest := Claimed(rows, now), Claimed(rest, now);
      assert all[1..] == ClaimAll(rest, now);
      forall c | c in due
        ensures c in all && c.enabled
        ensures exists i :: 0 <= i < |rows| && rows[i].id == c.id
      {
        if c in dueRest {
          assert c in all[1..];
          var i :| 0 <= i < |rest| && rest[i].id == c.id;
          assert rows[i + 1].id == c.id;
        } else {
          assert c == all[0] && rows[0].id == c.id;
        }
      }
      if Due(rows[0], now) {
        forall k | 0 <= k < |dueRest| ensures dueRest[k].id != rows[0].id {
          assert dueRest[k] in dueRest;
          var i :| 0 <= i < |rest| && rest[i].id == dueRest[k].id;
          assert rest[i] == rows[i + 1];
        }
      }
    }
  }

  lemma {:induction false} FireOnLeavesTable(cfg: Config, s: System, row: Schedule, n: nat, tries: Attempts)
    requires n <= |row.clusters|
    ensures var t := FireOn(cfg, s, row, n, tries).state;
      t.schedules == s.schedules && t.histories == s.histories && t.nextSchedule == s.nextSchedule
  {
    if n > 0 { FireOnLeavesTable(cfg, s, row, n - 1, tries); }
  }

  lemma SameIndex(rows: seq<Schedule>, i: nat, j: nat)
    requires UniqueIds(rows) && i < |rows| && j < |rows| && rows[i].id == rows[j].id
    ensures i == j
  {
  }

  lemma FindRow(rows: seq<Schedule>, r: Schedule)
    requires UniqueIds(rows) && r in rows
    ensures IndexById(rows, r.id).Some? && rows[IndexById(rows, r.id).value] == r
  {
    var i :| 0 <= i < |rows| && rows[i] == r;
    SameIndex(rows, i, IndexById(rows, r.id).value);
  }

  lemma OthersStay(rows: seq<Schedule>, at: nat, r: Schedule, other: Schedule)
    requires at < |rows| && r.id == rows[at].id && other in rows && other.id != r.id
    ensures other in rows[at := r]
  {
    var i :| 0 <= i < |rows| && rows[i] == other;
    assert rows[at := r][i] == other;
  }

  /** What a firing writes: the outcome on one row, and on what is kept about it. */
  ghost predicate Wrote(s: System, t: System, at: nat, f: Firing, now: int) {
    && at < |s.schedules| == |s.histories|
    && t.schedules == s.schedules[at := AfterFiring(s.schedules[at], s.schedules[at], f, now)]
    && t.histories == s.histories[at := Noted(s.histories[at], TurnoutOf(f))]
    && t.nextSchedule == s.nextSchedule
  }

  lemma FireWrites(cfg: Config, s: System, row: Schedule, now: int, tries: Attempts) returns (at: nat, f: Firing)
    requires SchedulesOk(s) && row in s.schedules
    ensures Wrote(s, Fire(cfg, s, row, now, tries), at, f, now) && s.schedules[at] == row
  {
    FireOnLeavesTable(cfg, s, row, |row.clusters|, tries);
    FindRow(s.schedules, row);
    at := IndexById(s.schedules, row.id).value;
    f := FireOn(cfg, s, row, |row.clusters|, tries).firing;
  }

  /** It touches no row's next slot. */
  lemma WroteKeeps(s: System, t: System, at: nat, f: Firing, now: int)
    requires SchedulesOk(s) && Wrote(s, t, at, f, now) && s.schedules[at].enabled
    ensures SchedulesOk(t) && SameSlots(s.schedules, t.schedules)
  {
    var row := s.schedules[at];
    FiringKeepsRow(row, s.histories[at], f, now);
    ReplaceRow(s, at, AfterFiring(row, row, f, now), Noted(s.histories[at], TurnoutOf(f)));
  }

  ghost predicate SameSlots(a: seq<Schedule>, b: seq<Schedule>) {
    |a| == |b| && forall i | 0 <= i < |a| :: b[i].id == a[i].id && b[i].next == a[i].next
  }

  /** The rows still to be fired are in the table as they were claimed. */
  ghost predicate Waiting(s: System, due: seq<Schedule>, n: nat) {
    forall k | n <= k < |due| :: due[k] in s.schedules && due[k].enabled
  }

  lemma WroteLeavesWaiting(s: System, t: System, at: nat, f: Firing, now: int, due: seq<Schedule>, n: nat)
    requires n < |due| && UniqueIds(due) && Waiting(s, due, n)
    requires Wrote(s, t, at, f, now) && s.schedules[at] == due[n]
    ensures Waiting(t, due, n + 1)
  {
    forall k | n < k < |due| ensures due[k] in t.schedules {
      OthersStay(s.schedules, at, AfterFiring(due[n], due[n], f, now), due[k]);
    }
  }

  lemma SameSlotsChain(a: seq<Schedule>, b: seq<Schedule>, c: seq<Schedule>)
    requires SameSlots(a, b) && SameSlots(b, c)
    ensures SameSlots(a, c)
  {
  }

  /** The table after the first `n` firings of a tick that began in `s`. */
  ghost predicate TableAfter(s: System, t: System, due: seq<Schedule>, n: nat) {
    SchedulesOk(t) && Waiting(t, due, n) && SameSlots(s.schedules, t.schedules)
  }

  lemma FireStep(cfg: Config, s: System, before: System, due: seq<Schedule>, n: nat, now: int, tries: Attempts)
    requires n < |due| && UniqueIds(due) && TableAfter(s, before, due, n)
    ensures TableAfter(s, Fire(cfg, before, due[n], now, tries), due, n + 1)
  {
    var after := Fire(cfg, before, due[n], now, tries);
    var at, f := FireWrites(cfg, before, due[n], now, tries);
    WroteKeeps(before, after, at, f, now);
    WroteLeavesWaiting(before, after, at, f, now, due, n);
    SameSlotsChain(s.schedules, before.schedules, after.schedules);
  }

  /** A property of a table and a position that every firing carries on holds after all of them. */
  lemma {:induction false} FireEachCarries(cfg: Config, s: System, due: seq<Schedule>, n: nat, now: int,
                                           tries: Attempts, holds: (System, nat) -> bool)
    requires n <= |due| && holds(s, 0)
    requires forall t: System, k: nat {:trigger Fire(cfg, t, due[k], now, tries)} | k < n && holds(t, k) ::
      holds(Fire(cfg, t, due[k], now, tries), k + 1)
    ensures holds(FireAll(cfg, s, due, n, now, tries), n)
  {
    if n > 0 {
      FireEachCarries(cfg, s, due, n - 1, now, tries, holds);
      var before := FireAll(cfg, s, due, n - 1, now, tries);
      assert holds(Fire(cfg, before, due[n - 1], now, tries), n - 1 + 1);
    }
  }

  lemma FireAllKeepsTable(cfg: Config, s: System, due: seq<Schedule>, n: nat, now: int, tries: Attempts)
    requires n <= |due| && UniqueIds(due) && TableAfter(s, s, due, 0)
    ensures TableAfter(s, FireAll(cfg, s, due, n, now, tries), due, n)
  {
    var holds: (System, nat) -> bool := (t: System, k: nat) => TableAfter(s, t, due, k);
    forall t: System, k: nat | k < n && holds(t, k) ensures holds(Fire(cfg, t, due[k], now, tries), k + 1) {
      FireStep(cfg, s, t, due, k, now, tries);
    }
    FireEachCarries(cfg, s, due, n, now, tries, holds);
  }

  lemma TickKeepsTable(cfg: Config, s: System, now: int, tries: Attempts)
    requires SchedulesOk(s)
    ensures SchedulesOk(Tick(cfg, s, now, tries))
    ensures SameSlots(ClaimAll(s.schedules, now), Tick(cfg, s, now, tries).schedules)
  {
    ClaimKeeps(s, now);
    var due := Claimed(s.schedules, now);
    ClaimedAreRows(s.schedules, now);
    assert forall k | 0 <= k < |due| :: due[k] in due;
    FireAllKeepsTable(cfg, ClaimStep(s, now), due, |due|, now, tries);
  }

  /** A schedule that was never claimed or fired agrees with its empty history. */
  lemma FreshRowOk(r: Schedule)
    requires r.interval >= MIN_INTERVAL_MINUTES && r.failures == 0 && !r.paused
    ensures RowOk(r, History(r.next, [], []))
  {
    assert r.next == r.next + Slots(0, r.interval);
  }

  lemma AppendRow(s: System, r: Schedule, h: History)
    requires SchedulesOk(s) && r.id == s.nextSchedule && RowOk(r, h)
    ensures TableOk(s.schedules + [r], s.histories + [h], s.nextSchedule + 1)
  {
  }

  lemma CreateKeepsTable(cfg: Config, s: System, actor: string, name: string, querySet: string, clusters: seq<string>,
                         interval: int, repetitions: int, why: string, startsAt: int, a: Attempt)
    requires SchedulesOk(s)
    ensures SchedulesOk(CreateSchedule(cfg, s, actor, name, querySet, clusters, interval, repetitions, why,
                                       startsAt, a))
  {
    var t := CreateSchedule(cfg, s, actor, name, querySet, clusters, interval, repetitions, why, startsAt, a);
    if t.schedules != s.schedules {
      var r := t.schedules[|s.schedules|];
      FreshRowOk(r);
      AppendRow(s, r, History(startsAt, [], []));
    }
  }

  lemma SwitchKeepsTable(s: System, actor: string, id: nat, enabled: bool, reason: Audit.Reason, now: int, a: Attempt)
    requires SchedulesOk(s)
    ensures SchedulesOk(SwitchSchedule(s, actor, id, enabled, reason, now, a))
  {
    var at := IndexById(s.schedules, id);
    if at.Some? {
      var h := s.histories[at.value];
      SwitchKeepsRow(s.schedules[at.value], h, enabled, now);
      ReplaceRow(s, at.value, Switched(s.schedules[at.value], enabled, now),
                 if enabled then Noted(h, SwitchedOn) else h);
      assert s.histories[at.value := h] == s.histories;
    }
  }

  lemma DeleteKeepsTable(s: System, actor: string, id: nat, reason: Audit.Reason, a: Attempt)
    requires SchedulesOk(s)
    ensures SchedulesOk(DeleteSchedule(s, actor, id, reason, a))
  {
    var at := IndexById(s.schedules, id);
    var t := DeleteSchedule(s, actor, id, reason, a);
    if t != s {
      forall i | 0 <= i < |t.schedules|
        ensures RowOk(t.schedules[i], t.histories[i]) && t.schedules[i].id < t.nextSchedule
      {
        var k := if i < at.value then i else i + 1;
        assert t.schedules[i] == s.schedules[k] && t.histories[i] == s.histories[k];
      }
    }
  }

  ghost predicate SameTable(s: System, t: System) {
    t.schedules == s.schedules && t.histories == s.histories && t.nextSchedule == s.nextSchedule
  }

  lemma SetEditsLeaveTable(cfg: Config, s: System, step: Step)
    requires EditsSets(step)
    ensures SameTable(s, Next(cfg, s, step))
  {
  }

  lemma RunStepsLeaveTable(cfg: Config, s: System, step: Step)
    requires step.Starts? || step.Aborts? || step.Opens? || step.Works? || step.Restarts?
    ensures SameTable(s, Next(cfg, s, step))
  {
  }

  lemma StepKeepsTable(cfg: Config, s: System, step: Step)
    requires SchedulesOk(s)
    ensures SchedulesOk(Next(cfg, s, step))
  {
    match step
    case Ticks(now, tries) => TickKeepsTable(cfg, s, now, tries);
    case CreatesSchedule(_, actor, name, querySet, clusters, interval, repetitions, why, startsAt, a) =>
      CreateKeepsTable(cfg, s, actor, name, querySet, clusters, interval, repetitions, why, startsAt, a);
    case SwitchesSchedule(_, actor, id, enabled, reason, now, a) =>
      SwitchKeepsTable(s, actor, id, enabled, reason, now, a);
    case DeletesSchedule(_, actor, id, reason, a) => DeleteKeepsTable(s, actor, id, reason, a);
    case _ => if EditsSets(step) { SetEditsLeaveTable(cfg, s, step); } else { RunStepsLeaveTable(cfg, s, step); }
  }

  lemma {:induction false} TableAlwaysOk(cfg: Config, heap: Heap, steps: seq<Step>)
    ensures SchedulesOk(After(cfg, Initial(heap), steps))
  {
    if steps != [] {
      TableAlwaysOk(cfg, heap, steps[..|steps|-1]);
      StepKeepsTable(cfg, After(cfg, Initial(heap), steps[..|steps|-1]), steps[|steps|-1]);
    }
  }

  // ------------------------------------------------------------- theorems

  lemma NoBurst(claims: seq<int>, next: int, interval: nat, from: nat, n: nat)
    requires ClaimsSpaced(claims, next, interval) && n >= 2 && from + n <= |claims|
    ensures claims[from + n - 1] - claims[from] > (n - 2) * Period(interval)
  {
    assert Between(claims, from, from + n - 1, interval);
  }

  /** However long TMS was down and however often a schedule was switched, its next run stays on its
      original grid, and any `n` claims in a row span more than `n - 2` intervals: no catch-up burst. */
  lemma DowntimeCausesNoBurst(cfg: Config, heap: Heap, steps: seq<Step>, i: nat, from: nat, n: nat)
    requires i < |After(cfg, Initial(heap), steps).schedules|
    ensures var s := After(cfg, Initial(heap), steps);
      && i < |s.histories|
      && OnGrid(s.histories[i].first, s.schedules[i].interval, s.schedules[i].next)
      && (n >= 2 && from + n <= |s.histories[i].claims| ==>
            s.histories[i].claims[from + n - 1] - s.histories[i].claims[from]
            > (n - 2) * Period(s.schedules[i].interval))
  {
    TableAlwaysOk(cfg, heap, steps);
    var s := After(cfg, Initial(heap), steps);
    assert RowOk(s.schedules[i], s.histories[i]);
    var c := s.histories[i].claims;
    if n >= 2 && from + n <= |c| {
      NoBurst(c, s.schedules[i].next, s.schedules[i].interval, from, n);
    }
  }

  /** The failure count is the broken firings in a row; an enabled schedule has fewer than three and
      TMS has paused it exactly when there are three. */
  lemma PausedExactlyAtTheThirdFailure(cfg: Config, heap: Heap, steps: seq<Step>, i: nat)
    requires i < |After(cfg, Initial(heap), steps).schedules|
    ensures var s := After(cfg, Initial(heap), steps);
      && i < |s.histories|
      && var r, n := s.schedules[i], BrokenInARow(s.histories[i].firings);
      && r.failures == n && n <= FAILURE_LIMIT
      && (r.paused <==> n == FAILURE_LIMIT)
      && (r.enabled ==> n < FAILURE_LIMIT)
  {
    TableAlwaysOk(cfg, heap, steps);
    assert RowOk(After(cfg, Initial(heap), steps).schedules[i], After(cfg, Initial(heap), steps).histories[i]);
  }

  ghost predicate StaysOrForward(a: Schedule, b: Schedule) {
    b.next == a.next || b.next >= a.next + Period(a.interval) > a.next
  }

  lemma SwitchForward(s: System, actor: string, id: nat, enabled: bool, reason: Audit.Reason, now: int, i: nat,
                      a: Attempt)
    requires SchedulesOk(s) && i < |s.schedules|
    ensures var t := SwitchSchedule(s, actor, id, enabled, reason, now, a);
      && |t.schedules| == |s.schedules|
      && t.schedules[i].id == s.schedules[i].id && StaysOrForward(s.schedules[i], t.schedules[i])
  {
    var at := IndexById(s.schedules, id);
    if at == Some(i) {
      SwitchKeepsRow(s.schedules[i], s.histories[i], enabled, now);
      AdvanceMovesForwardOnGrid(s.histories[i].first, s.schedules[i].next, s.schedules[i].interval, now);
    }
  }

  lemma DeleteStays(s: System, actor: string, id: nat, reason: Audit.Reason, j: nat, a: Attempt)
    requires SchedulesOk(s) && j < |DeleteSchedule(s, actor, id, reason, a).schedules|
    ensures DeleteSchedule(s, actor, id, reason, a).schedules[j] in s.schedules
  {
  }

  lemma CreateStays(cfg: Config, s: System, actor: string, name: string, querySet: string, clusters: seq<string>,
                    interval: int, repetitions: int, why: string, startsAt: int, j: nat, a: Attempt)
    requires SchedulesOk(s)
    ensures var t := CreateSchedule(cfg, s, actor, name, querySet, clusters, interval, repetitions, why, startsAt, a);
      j < |t.schedules| ==> t.schedules[j] in s.schedules || t.schedules[j].id == s.nextSchedule
  {
  }

  lemma TickForward(cfg: Config, s: System, now: int, i: nat, tries: Attempts)
    requires SchedulesOk(s) && i < |s.schedules|
    ensures var t := Tick(cfg, s, now, tries);
      && |t.schedules| == |s.schedules|
      && t.schedules[i].id == s.schedules[i].id && StaysOrForward(s.schedules[i], t.schedules[i])
  {
    TickKeepsTable(cfg, s, now, tries);
    var moved := ClaimAll(s.schedules, now);
    assert moved[i].id == s.schedules[i].id;
    if Due(s.schedules[i], now) { ClaimKeepsRow(s.schedules[i], s.histories[i], now); }
  }

  lemma SameRow(s: System, i: nat, r: Schedule)
    requires SchedulesOk(s) && i < |s.schedules| && r in s.schedules && r.id == s.schedules[i].id
    ensures r == s.schedules[i]
  {
    var k :| 0 <= k < |s.schedules| && s.schedules[k] == r;
    SameIndex(s.schedules, i, k);
  }

  /** In any step a schedule's next run stays where it is or moves forward by an interval or more. */
  lemma NextRunOnlyMovesForward(cfg: Config, s: System, step: Step, i: nat, j: nat)
    requires SchedulesOk(s)
    requires i < |s.schedules| && j < |Next(cfg, s, step).schedules|
    requires s.schedules[i].id == Next(cfg, s, step).schedules[j].id
    ensures StaysOrForward(s.schedules[i], Next(cfg, s, step).schedules[j])
  {
    var t := Next(cfg, s, step);
    StepKeepsTable(cfg, s, step);
    match step
    case Ticks(now, tries) =>
      TickForward(cfg, s, now, i, tries);
      SameIndex(t.schedules, i, j);
    case SwitchesSchedule(admin, actor, id, enabled, reason, now, a) =>
      SwitchForward(s, actor, id, enabled, reason, now, i, a);
      SameIndex(t.schedules, i, j);
    case DeletesSchedule(admin, actor, id, reason, a) =>
      if admin { DeleteStays(s, actor, id, reason, j, a); }
      SameRow(s, i, t.schedules[j]);
    case CreatesSchedule(admin, actor, name, querySet, clusters, interval, repetitions, why, startsAt, a) =>
      if admin { CreateStays(cfg, s, actor, name, querySet, clusters, interval, repetitions, why, startsAt, j, a); }
      SameRow(s, i, t.schedules[j]);
    case _ =>
      if EditsSets(step) { SetEditsLeaveTable(cfg, s, step); } else { RunStepsLeaveTable(cfg, s, step); }
      SameIndex(s.schedules, i, j);
  }

  lemma StartAddsOneRun(cfg: Config, s: System, q: Request, a: Attempt)
    ensures var r := Start(cfg, s, q, a);
      |r.state.store.runs| == |s.store.runs| + if r.refusal.None? then 1 else 0
  {
  }

  /** `started` counts the runs a firing created. */
  lemma {:induction false} FiringCountsRuns(cfg: Config, s: System, row: Schedule, n: nat, tries: Attempts)
    requires n <= |row.clusters|
    ensures var p := FireOn(cfg, s, row, n, tries);
      |p.state.store.runs| == |s.store.runs| + p.firing.started
  {
    if n > 0 {
      FiringCountsRuns(cfg, s, row, n - 1, tries);
      StartAddsOneRun(cfg, FireOn(cfg, s, row, n - 1, tries).state, RequestOf(row, row.clusters[n - 1]),
                      tries(row.id, n - 1));
    }
  }

  /** A count that goes up by one at each hit is positive exactly when there was a hit. */
  lemma {:induction false} HitsCount(count: nat -> nat, hit: nat -> bool, n: nat)
    requires count(0) == 0 && forall k: nat | k < n :: count(k + 1) == count(k) + if hit(k) then 1 else 0
    ensures count(n) > 0 <==> exists k: nat :: k < n && hit(k)
  {
    if n > 0 {
      HitsCount(count, hit, n - 1);
      assert count(n) == count((n - 1) + 1);
    }
  }

  ghost function BrokeUpTo(cfg: Config, s: System, row: Schedule, tries: Attempts): nat -> nat {
    (k: nat) => if k <= |row.clusters| then FireOn(cfg, s, row, k, tries).firing.broke else 0
  }

  ghost function BreaksOn(cfg: Config, s: System, row: Schedule, tries: Attempts): nat -> bool {
    (k: nat) => k < |row.clusters| && BreaksAt(cfg, s, row, k, tries)
  }

  lemma BrokeRises(cfg: Config, s: System, row: Schedule, k: nat, tries: Attempts)
    requires k < |row.clusters|
    ensures BrokeUpTo(cfg, s, row, tries)(k + 1)
        == BrokeUpTo(cfg, s, row, tries)(k) + if BreaksOn(cfg, s, row, tries)(k) then 1 else 0
  {
    BreakStep(cfg, s, row, k + 1, tries);
  }

  /** `broke` is positive exactly when some cluster was refused for another reason than being busy. */
  lemma FiringCountsBreaks(cfg: Config, s: System, row: Schedule, n: nat, tries: Attempts)
    requires n <= |row.clusters|
    ensures FireOn(cfg, s, row, n, tries).firing.broke > 0
        <==> exists k: nat :: k < n && BreaksOn(cfg, s, row, tries)(k)
  {
    forall k: nat | k < n
      ensures BrokeUpTo(cfg, s, row, tries)(k + 1)
          == BrokeUpTo(cfg, s, row, tries)(k) + if BreaksOn(cfg, s, row, tries)(k) then 1 else 0
    {
      BrokeRises(cfg, s, row, k, tries);
    }
    HitsCount(BrokeUpTo(cfg, s, row, tries), BreaksOn(cfg, s, row, tries), n);
  }

  lemma BreakStep(cfg: Config, s: System, row: Schedule, n: nat, tries: Attempts)
    requires 0 < n <= |row.clusters|
    ensures FireOn(cfg, s, row, n, tries).firing.broke
         == FireOn(cfg, s, row, n - 1, tries).firing.broke + if BreaksAt(cfg, s, row, n - 1, tries) then 1 else 0
  {
  }

  ghost predicate BreaksAt(cfg: Config, s: System, row: Schedule, k: nat, tries: Attempts)
    requires k < |row.clusters|
  {
    var refusal := Start(cfg, FireOn(cfg, s, row, k, tries).state, RequestOf(row, row.clusters[k]),
                         tries(row.id, k)).refusal;
    refusal.Some? && refusal != Some(AlreadyRunning)
  }
}
