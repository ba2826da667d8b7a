/** What the audit log says about the benchmark runs: one record for each run, in the order they were
    started, except the runs whose record the audit store lost when their action ended. */
module AuditTrail {
  import opened Wrappers
  import opened QuerySets
  import opened RunStore
  import Runner
  import opened Service
  import opened RunProofs
  import opened Protocol
  import opened Schedules
  import opened Audit

  predicate StartedARun(r: Record) { r.action == BENCHMARK_RUN && r.outcome == SUCCESS }

  function RunRecords(records: seq<Record>): seq<Record> {
    if records == [] then []
    else
      var last := records[|records|-1];
      RunRecords(records[..|records|-1]) + if StartedARun(last) then [last] else []
  }

  /** Who, where, which set, and the reason in its normal form. */
  ghost predicate Explains(r: Record, run: Run) {
    && r.actor == run.actor
    && r.target == run.cluster + ":" + run.querySet
    && NormaliseReason(Given(run.reason)) == Audit.Ok(r.reason)
  }

  /** The runs whose record was kept, in order. */
  function Recorded(runs: seq<Run>, trail: seq<Attempt>): seq<Run>
    requires |trail| == |runs|
  {
    if runs == [] then []
    else
      var n := |runs| - 1;
      Recorded(runs[..n], trail[..n]) + if trail[n].keeps then [runs[n]] else []
  }

  function LostWrites(trail: seq<Attempt>): nat {
    if trail == [] then 0
    else LostWrites(trail[..|trail|-1]) + if trail[|trail|-1].keeps then 0 else 1
  }

  /** Record `i` explains run `i`. */
  ghost predicate ExplainAll(records: seq<Record>, runs: seq<Run>) {
    |records| == |runs| && forall i | 0 <= i < |runs| :: Explains(records[i], runs[i])
  }

  /** The run records are the runs minus exactly those whose record was lost. */
  ghost predicate Accounted(log: Log, runs: seq<Run>, trail: seq<Attempt>) {
    && |trail| == |runs|
    && log.entered == |log.records| + log.lost
    && LostWrites(trail) <= log.lost
    && ExplainAll(RunRecords(log.records), Recorded(runs, trail))
  }

  /** Recorded or not, a run was let through the guard: the store answered and the reason was not blank. */
  ghost predicate Warranted(runs: seq<Run>, trail: seq<Attempt>) {
    |trail| == |runs| && forall i | 0 <= i < |runs| :: trail[i].answers && !Blank(Given(runs[i].reason))
  }

  ghost predicate InOrder(s: System) {
    Accounted(s.log, s.store.runs, s.trail) && Warranted(s.store.runs, s.trail)
  }

  lemma Appended(log: Log, runs: seq<Run>, trail: seq<Attempt>, record: Record, failure: string, a: Attempt)
    requires Accounted(log, runs, trail)
    requires record.action != BENCHMARK_RUN || failure != ""
    ensures Accounted(Written(log, record, failure, a), runs, trail)
  {
    if a.keeps {
      var t := Written(log, record, failure, a);
      assert t.records[..|t.records|-1] == log.records;
    }
  }

  lemma AppendedRun(log: Log, runs: seq<Run>, trail: seq<Attempt>, record: Record, run: Run, a: Attempt)
    requires Accounted(log, runs, trail)
    requires record.action == BENCHMARK_RUN && Explains(record, run)
    ensures Accounted(Written(log, record, "", a), runs + [run], trail + [a])
  {
    assert (runs + [run])[..|runs|] == runs && (trail + [a])[..|trail|] == trail;
    if a.keeps {
      var t := Written(log, record, "", a);
      assert t.records[..|t.records|-1] == log.records;
    }
  }

  /** The identity of every run is unchanged and none was added. */
  ghost predicate SameIdentities(a: seq<Run>, b: seq<Run>) {
    |a| == |b| && forall i | 0 <= i < |a| :: SameRun(a[i], b[i])
  }

  lemma {:induction false} RecordedKeepIdentities(a: seq<Run>, b: seq<Run>, trail: seq<Attempt>)
    requires SameIdentities(a, b) && |trail| == |a|
    ensures SameIdentities(Recorded(a, trail), Recorded(b, trail))
  {
    if a != [] {
      var n := |a| - 1;
      RecordedKeepIdentities(a[..n], b[..n], trail[..n]);
    }
  }

  lemma IdentitiesKeepOrder(s: System, t: System)
    requires InOrder(s) && SameIdentities(s.store.runs, t.store.runs) && t.log == s.log && t.trail == s.trail
    ensures InOrder(t)
  {
    var a, b := s.store.runs, t.store.runs;
    RecordedKeepIdentities(a, b, s.trail);
    forall i | 0 <= i < |b| ensures !Blank(Given(b[i].reason)) {
      assert SameRun(a[i], b[i]);
    }
    forall i | 0 <= i < |Recorded(b, s.trail)| ensures Explains(RunRecords(s.log.records)[i], Recorded(b, s.trail)[i]) {
      assert SameRun(Recorded(a, s.trail)[i], Recorded(b, s.trail)[i]);
      assert Explains(RunRecords(s.log.records)[i], Recorded(a, s.trail)[i]);
    }
  }

  lemma BeginSays(log: Log, actor: string, action: ActionType, target: string, reason: Reason)
    requires Begin(log, actor, action, target, reason).Ok?
    ensures var r := Begin(log, actor, action, target, reason).value;
      && log.writable && r.actor == actor && r.action == action && r.target == target
      && NormaliseReason(reason) == Audit.Ok(r.reason) && reason.Given? && !Blank(reason)
  {
    NormalisedReasonIsOneShortLine(reason);
  }

  lemma StartIsAccounted(cfg: Config, s: System, q: Request, a: Attempt)
    requires HeapOk(s.heap) && InOrder(s)
    ensures InOrder(Start(cfg, s, q, a).state) && Start(cfg, s, q, a).state.heap == s.heap
  {
    if Precheck(cfg, s, q).None? {
      var target := q.cluster + ":" + q.querySet;
      var begin := Begin(Checked(s.log, a), q.actor, BENCHMARK_RUN, target, q.reason);
      if begin.Ok? {
        BeginSays(Checked(s.log, a), q.actor, BENCHMARK_RUN, target, q.reason);
        if Busy(s.store.runs, q.cluster) {
          Appended(s.log, s.store.runs, s.trail, begin.value, "BenchmarkAlreadyRunning", a);
        } else {
          var t := Start(cfg, s, q, a).state;
          AppendedRun(s.log, s.store.runs, s.trail, begin.value, t.store.runs[|s.store.runs|], a);
        }
      }
    }
  }

  lemma TickIsAccounted(cfg: Config, s: System, now: int, tries: Attempts)
    requires HeapOk(s.heap) && InOrder(s)
    ensures InOrder(Tick(cfg, s, now, tries))
  {
    var holds: System -> bool := (t: System) => HeapOk(t.heap) && InOrder(t);
    forall t: System, q: Request, id: nat, k: nat | holds(t) ensures holds(Start(cfg, t, q, tries(id, k)).state) {
      StartIsAccounted(cfg, t, q, tries(id, k));
    }
    TickCarries(cfg, s, now, tries, holds);
  }

  /** An action that starts no run: whatever became of its record, the run records still tell the runs. */
  ghost predicate OtherAction(s: System, t: System) {
    t.store.runs == s.store.runs && t.trail == s.trail && Accounted(t.log, s.store.runs, s.trail)
  }

  lemma EditIsAccounted(s: System, actor: string, key: string, target: string, reason: Reason, changed: Option<Heap>,
                        a: Attempt)
    requires InOrder(s)
    ensures OtherAction(s, Edit(s, actor, key, target, reason, changed, a))
  {
    var begin := Begin(Checked(s.log, a), actor, BENCHMARK_QUERY_CHANGE, target, reason);
    if !SetIsRunning(s.store, key) && begin.Ok? {
      Appended(s.log, s.store.runs, s.trail, begin.value, if changed.None? then "refused" else "", a);
    }
  }

  lemma SetEditIsAccounted(cfg: Config, s: System, step: Step)
    requires InOrder(s) && EditsSets(step)
    ensures OtherAction(s, Next(cfg, s, step))
  {
    match step
    case SavesSet(_, actor, key, reason, a) =>
      EditIsAccounted(s, actor, key, key, reason, Some(WithSet(s.heap, key)), a);
    case DeletesSet(_, actor, key, reason, a) =>
      EditIsAccounted(s, actor, key, key, reason, Some(s.heap.(named := s.heap.named - {key})), a);
    case SavesQuery(_, actor, key, name, title, statement, position, original, reason, a) =>
      var at := Lookup(s.heap, key);
      if at.Some? {
        var saved := SaveInto(s.heap.objects[at.value].queries, name, title, cfg.stores(statement), position, original);
        EditIsAccounted(s, actor, key, key + "." + name, reason,
                        if saved.Some? then Some(WithQueries(s.heap, at.value, saved.value)) else None, a);
      }
    case DeletesQuery(_, actor, key, name, reason, a) =>
      var at := Lookup(s.heap, key);
      if at.Some? {
        EditIsAccounted(s, actor, key, key + "." + name, reason,
                        Some(WithQueries(s.heap, at.value, Without(s.heap.objects[at.value].queries, name))), a);
      }
  }

  /** An edit of the schedules writes at most one record, which explains no run. */
  ghost predicate LogsOneEdit(before: Log, after: Log, record: Record, failure: string, a: Attempt) {
    after == before || (record.action == BENCHMARK_SCHEDULE_CHANGE && after == Written(before, record, failure, a))
  }

  lemma CreateLogs(cfg: Config, s: System, step: Step) returns (record: Record, failure: string)
    requires step.CreatesSchedule?
    ensures LogsOneEdit(s.log, Next(cfg, s, step).log, record, failure, step.a) && Next(cfg, s, step).trail == s.trail
  {
    var begin := Begin(Checked(s.log, step.a), step.actor, BENCHMARK_SCHEDULE_CHANGE, Stripped(step.name),
                       Given(Stripped(step.why)));
    record := if begin.Ok? then begin.value else Record("", BENCHMARK_SCHEDULE_CHANGE, "", "", FAILURE, "");
    failure := if Next(cfg, s, step).schedules == s.schedules then "name taken" else "";
  }

  lemma SwitchLogs(cfg: Config, s: System, step: Step) returns (record: Record)
    requires step.SwitchesSchedule?
    ensures LogsOneEdit(s.log, Next(cfg, s, step).log, record, "", step.a) && Next(cfg, s, step).trail == s.trail
  {
    record := RowRecord(s, step.actor, step.id, step.reason, step.a);
  }

  lemma DeleteLogs(cfg: Config, s: System, step: Step) returns (record: Record)
    requires step.DeletesSchedule?
    ensures LogsOneEdit(s.log, Next(cfg, s, step).log, record, "", step.a) && Next(cfg, s, step).trail == s.trail
  {
    record := RowRecord(s, step.actor, step.id, step.reason, step.a);
  }

  /** The record an edit of one schedule writes, if it writes one. */
  ghost function RowRecord(s: System, actor: string, id: nat, reason: Reason, a: Attempt): Record {
    var at := IndexById(s.schedules, id);
    var name := if at.Some? then s.schedules[at.value].name else "";
    var begin := Begin(Checked(s.log, a), actor, BENCHMARK_SCHEDULE_CHANGE, name, reason);
    if begin.Ok? then begin.value else Record("", BENCHMARK_SCHEDULE_CHANGE, "", "", FAILURE, "")
  }

  lemma ScheduleEditLogs(cfg: Config, s: System, step: Step) returns (record: Record, failure: string)
    requires EditsSchedules(step)
    ensures LogsOneEdit(s.log, Next(cfg, s, step).log, record, failure, step.a) && Next(cfg, s, step).trail == s.trail
  {
    failure := "";
    if step.CreatesSchedule? {
      record, failure := CreateLogs(cfg, s, step);
    } else if step.SwitchesSchedule? {
      record := SwitchLogs(cfg, s, step);
    } else {
      record := DeleteLogs(cfg, s, step);
    }
  }

  lemma ScheduleEditIsAccounted(cfg: Config, s: System, step: Step)
    requires InOrder(s) && EditsSchedules(step)
    ensures OtherAction(s, Next(cfg, s, step))
  {
    var record, failure := ScheduleEditLogs(cfg, s, step);
    ScheduleEditsLeaveRuns(cfg, s, step);
    if Next(cfg, s, step).log != s.log { Appended(s.log, s.store.runs, s.trail, record, failure, step.a); }
  }

  lemma FinishKeepsIdentities(store: Store, id: nat, state: RunState, error: Note)
    ensures SameIdentities(store.runs, Finish(store, id, state, error).runs)
  {
  }

  /** What a turn leaves in the store: the same runs, one of them finished, or a row more. */
  lemma TurnKeepsIdentities(allows: Runner.Allowlist, store: Store, w: Runner.Worker, live: seq<QuerySets.Query>,
                            stopping: bool, e: Runner.Event)
    requires w.phase.Looping?
    ensures SameIdentities(store.runs, Runner.Turn(allows, store, w, live, stopping, e).store.runs)
  {
    FinishKeepsIdentities(store, w.run, ABORTED, StoppedAfter(w.executed));
    FinishKeepsIdentities(store, w.run, FAILED, WorkerError);
    FinishKeepsIdentities(store, w.run, FAILED, EveryQueryFailed);
    FinishKeepsIdentities(store, w.run, SUCCEEDED, NoNote);
  }

  lemma TurnIsQuiet(cfg: Config, s: System, id: nat, e: Runner.Event)
    ensures WorkerTurn(cfg, s, id, e).log == s.log && WorkerTurn(cfg, s, id, e).trail == s.trail
    ensures SameIdentities(s.store.runs, WorkerTurn(cfg, s, id, e).store.runs)
  {
    if id in s.workers && s.workers[id].phase.Looping? {
      TurnKeepsIdentities(cfg.allows, s.store, s.workers[id], Live(s.heap, s.workers[id].setRef), id in s.aborting, e);
    }
  }

  /** Worker steps, aborts and restarts write nothing and keep every run's identity. */
  lemma QuietStep(cfg: Config, s: System, step: Step)
    requires step.Opens? || step.Works? || step.Aborts? || step.Restarts?
    ensures Next(cfg, s, step).log == s.log && Next(cfg, s, step).trail == s.trail
    ensures SameIdentities(s.store.runs, Next(cfg, s, step).store.runs)
  {
    if step.Works? { TurnIsQuiet(cfg, s, step.id, step.event); }
  }

  lemma StepIsAccounted(cfg: Config, s: System, step: Step)
    requires HeapOk(s.heap) && InOrder(s)
    ensures InOrder(Next(cfg, s, step))
  {
    if EditsSets(step) {
      SetEditIsAccounted(cfg, s, step);
    } else if EditsSchedules(step) {
      ScheduleEditIsAccounted(cfg, s, step);
    } else if step.Starts? {
      StartIsAccounted(cfg, s, step.q, step.a);
    } else if step.Ticks? {
      TickIsAccounted(cfg, s, step.now, step.tries);
    } else {
      QuietStep(cfg, s, step);
      IdentitiesKeepOrder(s, Next(cfg, s, step));
    }
  }

  lemma {:induction false} RecordedAndLost(runs: seq<Run>, trail: seq<Attempt>)
    requires |trail| == |runs|
    ensures |Recorded(runs, trail)| + LostWrites(trail) == |runs|
  {
    if runs != [] {
      var n := |runs| - 1;
      RecordedAndLost(runs[..n], trail[..n]);
    }
  }

  ghost predicate AllKept(trail: seq<Attempt>) { forall i | 0 <= i < |trail| :: trail[i].keeps }

  lemma {:induction false} NoneLost(trail: seq<Attempt>)
    ensures LostWrites(trail) == 0 <==> AllKept(trail)
  {
    if trail != [] {
      var init := trail[..|trail|-1];
      NoneLost(init);
      assert forall i | 0 <= i < |init| :: init[i] == trail[i];
    }
  }

  lemma {:induction false} NoneLostAllRecorded(runs: seq<Run>, trail: seq<Attempt>)
    requires |trail| == |runs| && AllKept(trail)
    ensures Recorded(runs, trail) == runs
  {
    if runs != [] {
      var n := |runs| - 1;
      NoneLostAllRecorded(runs[..n], trail[..n]);
      assert runs == runs[..n] + [runs[n]];
    }
  }

  /** In every reachable state the successful run records are the runs, in order, minus exactly those
      whose record was lost on the way out; and every run, recorded or not, was started for a non-blank
      reason while the audit store answered. */
  lemma {:induction false} RecordsAreTheRunsNotLost(cfg: Config, heap: Heap, steps: seq<Step>)
    requires HeapOk(heap)
    ensures var s := After(cfg, Initial(heap), steps);
      && Accounted(s.log, s.store.runs, s.trail) && Warranted(s.store.runs, s.trail)
      && |RunRecords(s.log.records)| + LostWrites(s.trail) == |s.store.runs|
  {
    if steps != [] {
      var before := After(cfg, Initial(heap), steps[..|steps|-1]);
      RecordsAreTheRunsNotLost(cfg, heap, steps[..|steps|-1]);
      InvAlways(cfg, heap, steps[..|steps|-1]);
      StepIsAccounted(cfg, before, steps[|steps|-1]);
    }
    var s := After(cfg, Initial(heap), steps);
    RecordedAndLost(s.store.runs, s.trail);
  }

  /** Every run has its record exactly when no run's record was lost on the way out. */
  lemma EveryRunIsRecordedExactlyWhenNoneIsLost(cfg: Config, heap: Heap, steps: seq<Step>)
    requires HeapOk(heap)
    ensures var s := After(cfg, Initial(heap), steps);
      ExplainAll(RunRecords(s.log.records), s.store.runs) <==> AllKept(s.trail)
  {
    RecordsAreTheRunsNotLost(cfg, heap, steps);
    var s := After(cfg, Initial(heap), steps);
    NoneLost(s.trail);
    if AllKept(s.trail) { NoneLostAllRecorded(s.store.runs, s.trail); }
  }

  // ------------------------------------------------- which steps lose a record

  /** The audit store goes down between the check and the record of a start. */
  ghost predicate Loses(step: Step) {
    match step
    case Starts(_, a) => !a.keeps
    case Ticks(_, tries) => exists id: nat, k: nat :: !tries(id, k).keeps
    case _ => false
  }

  lemma SetEditsLeaveTrail(cfg: Config, s: System, step: Step)
    requires EditsSets(step)
    ensures Next(cfg, s, step).trail == s.trail
  {
  }

  lemma OtherStepsLeaveTrail(cfg: Config, s: System, step: Step)
    requires !step.Starts? && !step.Ticks?
    ensures Next(cfg, s, step).trail == s.trail
  {
    if EditsSets(step) {
      SetEditsLeaveTrail(cfg, s, step);
    } else if EditsSchedules(step) {
      var record, failure := ScheduleEditLogs(cfg, s, step);
    } else {
      QuietStep(cfg, s, step);
    }
  }

  lemma StepKeepsRecords(cfg: Config, s: System, step: Step)
    requires AllKept(s.trail) && !Loses(step)
    ensures AllKept(Next(cfg, s, step).trail)
  {
    if step.Ticks? {
      var holds: System -> bool := (t: System) => AllKept(t.trail);
      TickCarries(cfg, s, step.now, step.tries, holds);
    } else if !step.Starts? {
      OtherStepsLeaveTrail(cfg, s, step);
    }
  }

  /** If the audit store never goes down between the check and the record of a start, every run has its
      record, one for one and in order, however often it is down at other times. */
  lemma {:induction false} EveryRunHasItsRecord(cfg: Config, heap: Heap, steps: seq<Step>)
    requires HeapOk(heap) && forall step | step in steps :: !Loses(step)
    ensures var s := After(cfg, Initial(heap), steps);
      AllKept(s.trail) && ExplainAll(RunRecords(s.log.records), s.store.runs)
  {
    if steps != [] {
      EveryRunHasItsRecord(cfg, heap, steps[..|steps|-1]);
      StepKeepsRecords(cfg, After(cfg, Initial(heap), steps[..|steps|-1]), steps[|steps|-1]);
    }
    EveryRunIsRecordedExactlyWhenNoneIsLost(cfg, heap, steps);
  }

  /** The store answers, then goes down before the record is written: the run is going and the log is empty. */
  lemma LosingTheRecord(cfg: Config, heap: Heap, q: Request)
    requires Precheck(cfg, Initial(heap), q).None? && !Blank(q.reason)
    ensures var s := After(cfg, Initial(heap), [Starts(q, Attempt(true, false))]);
      && |s.store.runs| == 1 && s.store.runs[0].state == RUNNING
      && s.log.records == [] && s.log.lost == 1
      && !ExplainAll(RunRecords(s.log.records), s.store.runs)
  {
    NormalisedReasonIsOneShortLine(q.reason);
    var steps := [Starts(q, Attempt(true, false))];
    assert steps[..0] == [];
    assert After(cfg, Initial(heap), steps) == Start(cfg, Initial(heap), q, Attempt(true, false)).state;
  }

  /** Such a history: one accepted start on an empty service. */
  lemma ARunWithoutARecord(allows: Runner.Allowlist, stores: string -> string)
    ensures var cfg := Config({"prod"}, 1, allows, stores);
      var heap := Heap([SetObject("daily", [])], map["daily" := 0]);
      var q := Request(true, "ann", "prod", "daily", Given("nightly"), 1, None);
      var s := After(cfg, Initial(heap), [Starts(q, Attempt(true, false))]);
      HeapOk(heap) && |s.store.runs| == 1 && RunRecords(s.log.records) == []
  {
    var cfg := Config({"prod"}, 1, allows, stores);
    var heap := Heap([SetObject("daily", [])], map["daily" := 0]);
    var q := Request(true, "ann", "prod", "daily", Given("nightly"), 1, None);
    assert "nightly"[0] in q.reason.text;
    LosingTheRecord(cfg, heap, q);
  }

  /** With the audit store down at the check, or a blank reason, nothing starts and nothing is written. */
  lemma NothingStartsUnrecorded(cfg: Config, s: System, q: Request, a: Attempt)
    requires !a.answers || Blank(q.reason)
    ensures Start(cfg, s, q, a).state == s && Start(cfg, s, q, a).refusal.Some?
  {
    NormalisedReasonIsOneShortLine(q.reason);
  }
}
