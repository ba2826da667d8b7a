/** What every interleaving keeps about runs, workers and query sets. */
module RunProofs {
  import opened Wrappers
  import opened QuerySets
  import opened RunStore
  import opened Runner
  import opened Service
  import Audit
  import Schedules

  // -------------------------------------------------------------- one run

  /** Row `i` of the results is the measurement of execution `i`, and a refused statement failed. */
  ghost predicate Measures(rows: seq<Row>, ran: seq<Execution>) {
    && |rows| == |ran|
    && forall i | 0 <= i < |rows| ::
      rows[i].query == ran[i].query && rows[i].iteration == ran[i].iteration && (!ran[i].sent ==> rows[i].failed)
  }

  ghost predicate AllFailed(rows: seq<Row>) { forall i | 0 <= i < |rows| :: rows[i].failed }

  /** What a run's state says about how much of its own plan was executed. */
  ghost predicate StateFits(run: Run, rows: seq<Row>, ran: seq<Execution>, plan: seq<Execution>, asked: bool) {
    match run.state
    case RUNNING => run.error == NoNote
    case ABORTED => asked && ran < plan && run.error == StoppedAfter(|ran|)
    case SUCCEEDED => ran == plan && run.error == NoNote && (ran == [] || !AllFailed(rows))
    case FAILED =>
      || (run.error == CouldNotOpen && ran == [])
      || (run.error == WorkerError && ran < plan)
      || (run.error == EveryQueryFailed && ran == plan && ran != [] && AllFailed(rows))
    case UNKNOWN => run.error == Restarted
  }

  /** The results are a prefix of the plan of the snapshot the run itself recorded. */
  ghost predicate RunOk(allows: Allowlist, run: Run, rows: seq<Row>, ran: seq<Execution>, asked: bool) {
    var plan := Plan(allows, run.queries, run.repetitions);
    && Measures(rows, ran)
    && ran <= plan
    && StateFits(run, rows, ran, plan, asked)
  }

  function Failed(rows: seq<Row>): nat {
    if rows == [] then 0 else Failed(rows[..|rows|-1]) + if rows[|rows|-1].failed then 1 else 0
  }

  lemma {:induction false} FailedCounts(rows: seq<Row>)
    ensures Failed(rows) <= |rows|
    ensures Failed(rows) == |rows| <==> AllFailed(rows)
  {
    if rows != [] {
      var init := rows[..|rows|-1];
      FailedCounts(init);
      if AllFailed(init) && rows[|rows|-1].failed {
        forall i | 0 <= i < |rows| ensures rows[i].failed { if i < |init| { assert init[i].failed; } }
      }
      if AllFailed(rows) {
        forall i | 0 <= i < |init| ensures init[i].failed { assert rows[i].failed; }
      }
    }
  }

  /** A live worker: its run is RUNNING, the object it reads still holds the recorded statements,
      and it stands exactly after what it has executed. */
  ghost predicate WorkerOk(allows: Allowlist, run: Run, rows: seq<Row>, ran: seq<Execution>, w: Worker, heap: Heap) {
    && w.run == run.id && run.state == RUNNING
    && w.setRef < |heap.objects|
    && heap.objects[w.setRef].key == run.querySet
    && heap.objects[w.setRef].queries == run.queries
    && w.repetitions == run.repetitions
    && w.executed == |ran| && w.failures == Failed(rows)
    && match w.phase
       case Opening => ran == []
       case Looping(iteration, index) =>
         && 1 <= iteration <= run.repetitions + 1 && index <= |run.queries|
         && (iteration == run.repetitions + 1 ==> index == 0)
         && ran == Done(allows, run.queries, iteration, index)
  }

  // ------------------------------------------------------------- the system

  ghost predicate HeapOk(heap: Heap) {
    forall k | k in heap.named :: heap.named[k] < |heap.objects| && heap.objects[heap.named[k]].key == k
  }

  /** A condition on each run (with its results, its executions and whether a stop was asked),
      and one on each live worker. The lemmas that put one run back into the system hold for
      any such conditions. */
  type RunTest = (Run, seq<Row>, seq<Execution>, bool) -> bool
  type WorkerTest = (Run, seq<Row>, seq<Execution>, Worker, Heap) -> bool

  ghost predicate RunsBy(s: System, ok: RunTest) {
    && StoreValid(s.store)
    && (forall k: nat :: k in s.ran <==> k in s.store.results)
    && (forall i | 0 <= i < |s.store.runs| ::
          ok(s.store.runs[i], s.store.results[i + 1], s.ran[i + 1], i + 1 in s.asked))
  }

  ghost predicate StaffBy(s: System, ok: WorkerTest)
    requires StoreValid(s.store) && forall k: nat :: k in s.ran <==> k in s.store.results
  {
    && (forall id: nat | id in s.workers :: 1 <= id < s.store.next &&
          s.store.runs[id - 1].state == RUNNING &&
          ok(s.store.runs[id - 1], s.store.results[id], s.ran[id], s.workers[id], s.heap))
    && (forall i | 0 <= i < |s.store.runs| && s.store.runs[i].state == RUNNING :: i + 1 in s.workers)
    && s.aborting <= s.asked
  }

  ghost predicate InvBy(s: System, runOk: RunTest, workerOk: WorkerTest) {
    HeapOk(s.heap) && RunsBy(s, runOk) && StaffBy(s, workerOk)
  }

  ghost function RunOkFor(allows: Allowlist): RunTest {
    (run: Run, rows: seq<Row>, ran: seq<Execution>, asked: bool) => RunOk(allows, run, rows, ran, asked)
  }

  ghost function WorkerOkFor(allows: Allowlist): WorkerTest {
    (run: Run, rows: seq<Row>, ran: seq<Execution>, w: Worker, heap: Heap) => WorkerOk(allows, run, rows, ran, w, heap)
  }

  ghost predicate Inv(cfg: Config, s: System) {
    InvBy(s, RunOkFor(cfg.allows), WorkerOkFor(cfg.allows))
  }

  /** Two systems that agree on everything the invariant reads. */
  ghost predicate SameRuns(s: System, t: System) {
    && t.store == s.store && t.heap == s.heap && t.workers == s.workers && t.aborting == s.aborting
    && t.asked == s.asked && t.ran == s.ran
  }

  lemma SameRunsKeeps(cfg: Config, s: System, t: System)
    requires Inv(cfg, s) && SameRuns(s, t)
    ensures Inv(cfg, t)
  {
  }

  /** What the invariant says about one run. */
  lemma RunAt(cfg: Config, s: System, id: nat)
    requires Inv(cfg, s) && 1 <= id <= |s.store.runs|
    ensures id in s.store.results && id in s.ran && s.store.runs[id - 1].id == id
    ensures RunOk(cfg.allows, s.store.runs[id - 1], s.store.results[id], s.ran[id], id in s.asked)
  {
    var i := id - 1;
    assert RunOkFor(cfg.allows)(s.store.runs[i], s.store.results[i + 1], s.ran[i + 1], i + 1 in s.asked);
  }

  /** What the invariant says about one live worker. */
  lemma WorkerAt(cfg: Config, s: System, id: nat)
    requires Inv(cfg, s) && id in s.workers
    ensures 1 <= id <= |s.store.runs| && id in s.store.results && id in s.ran && s.store.runs[id - 1].id == id
    ensures WorkerOk(cfg.allows, s.store.runs[id - 1], s.store.results[id], s.ran[id], s.workers[id], s.heap)
  {
    assert WorkerOkFor(cfg.allows)(s.store.runs[id - 1], s.store.results[id], s.ran[id], s.workers[id], s.heap);
  }

  // ------------------------------------------------------------- a tick

  /** `u` is `t` but for the rows of the schedule table and what this model keeps about them. */
  ghost predicate OnlyRows(t: System, u: System) {
    u == t.(schedules := u.schedules, histories := u.histories)
  }

  lemma {:induction false} FireOnCarries(cfg: Config, s: System, row: Schedules.Schedule, n: nat, tries: Attempts,
                                         holds: System -> bool)
    requires n <= |row.clusters| && holds(s)
    requires forall t: System, q: Request, id: nat, k: nat | holds(t) :: holds(Start(cfg, t, q, tries(id, k)).state)
    ensures holds(FireOn(cfg, s, row, n, tries).state)
  {
    if n > 0 {
      FireOnCarries(cfg, s, row, n - 1, tries, holds);
      var before := FireOn(cfg, s, row, n - 1, tries).state;
      assert holds(Start(cfg, before, RequestOf(row, row.clusters[n - 1]), tries(row.id, n - 1)).state);
    }
  }

  lemma {:induction false} FireAllCarries(cfg: Config, s: System, due: seq<Schedules.Schedule>, n: nat, now: int,
                                          tries: Attempts, holds: System -> bool)
    requires n <= |due| && holds(s)
    requires forall t: System, q: Request, id: nat, k: nat | holds(t) :: holds(Start(cfg, t, q, tries(id, k)).state)
    requires forall t: System, u: System | holds(t) && OnlyRows(t, u) :: holds(u)
    ensures holds(FireAll(cfg, s, due, n, now, tries))
  {
    if n > 0 {
      FireAllCarries(cfg, s, due, n - 1, now, tries, holds);
      var before, row := FireAll(cfg, s, due, n - 1, now, tries), due[n - 1];
      FireOnCarries(cfg, before, row, |row.clusters|, tries, holds);
      assert OnlyRows(FireOn(cfg, before, row, |row.clusters|, tries).state, Fire(cfg, before, row, now, tries));
    }
  }

  /** What every start and all bookkeeping on the rows carry on, a tick carries on. */
  lemma TickCarries(cfg: Config, s: System, now: int, tries: Attempts, holds: System -> bool)
    requires holds(s)
    requires forall t: System, q: Request, id: nat, k: nat | holds(t) :: holds(Start(cfg, t, q, tries(id, k)).state)
    requires forall t: System, u: System | holds(t) && OnlyRows(t, u) :: holds(u)
    ensures holds(Tick(cfg, s, now, tries))
  {
    var due := Schedules.Claimed(s.schedules, now);
    assert OnlyRows(s, ClaimStep(s, now));
    FireAllCarries(cfg, ClaimStep(s, now), due, |due|, now, tries, holds);
  }

  // ------------------------------------------- putting one run back

  ghost predicate Present(s: System, id: nat) {
    1 <= id <= |s.store.runs| && id in s.store.results && id in s.ran
  }

  /** What `StaffBy` asks of one live worker. */
  ghost predicate StaffedBy(s: System, workerOk: WorkerTest, id: nat) {
    && 1 <= id <= |s.store.runs| && id in s.store.results && id in s.ran && id in s.workers
    && s.store.runs[id - 1].state == RUNNING
    && workerOk(s.store.runs[id - 1], s.store.results[id], s.ran[id], s.workers[id], s.heap)
  }

  lemma StaffFrom(s: System, workerOk: WorkerTest)
    requires StoreValid(s.store) && forall k: nat :: k in s.ran <==> k in s.store.results
    requires forall id: nat | id in s.workers :: StaffedBy(s, workerOk, id)
    requires forall i | 0 <= i < |s.store.runs| && s.store.runs[i].state == RUNNING :: i + 1 in s.workers
    requires s.aborting <= s.asked
    ensures StaffBy(s, workerOk)
  {
    forall id: nat | id in s.workers
      ensures 1 <= id < s.store.next && s.store.runs[id - 1].state == RUNNING
      ensures workerOk(s.store.runs[id - 1], s.store.results[id], s.ran[id], s.workers[id], s.heap)
    {
      assert StaffedBy(s, workerOk, id);
    }
  }

  lemma StaffAt(s: System, workerOk: WorkerTest, id: nat)
    requires StoreValid(s.store) && (forall k: nat :: k in s.ran <==> k in s.store.results)
    requires StaffBy(s, workerOk) && id in s.workers
    ensures StaffedBy(s, workerOk, id)
  {
  }

  lemma EndedStaffBy(s: System, workerOk: WorkerTest, t: System, id: nat, state: RunState, error: Note)
    requires StoreValid(s.store) && (forall k: nat :: k in s.ran <==> k in s.store.results) && StaffBy(s, workerOk)
    requires StoreValid(t.store) && Terminal(state)
    requires t.store == Finish(s.store, id, state, error) && t.ran == s.ran && t.asked == s.asked && t.heap == s.heap
    requires t.workers == s.workers - {id} && t.aborting == s.aborting - {id}
    ensures StaffBy(t, workerOk)
  {
    forall k: nat | k in t.workers ensures StaffedBy(t, workerOk, k) {
      StaffAt(s, workerOk, k);
      assert t.store.runs[k - 1] == s.store.runs[k - 1];
    }
    StaffFrom(t, workerOk);
  }

  /** The worker's run ends in `state`. */
  lemma RunEndsBy(s: System, runOk: RunTest, workerOk: WorkerTest, id: nat, state: RunState, error: Note)
    requires InvBy(s, runOk, workerOk) && Present(s, id) && Terminal(state)
    requires runOk(Ended(s.store.runs[id - 1], state, error), s.store.results[id], s.ran[id], id in s.asked)
    ensures InvBy(Apply(s, id, Worked(Finish(s.store, id, state, error), None, None)), runOk, workerOk)
  {
    var t := Apply(s, id, Worked(Finish(s.store, id, state, error), None, None));
    FinishIsValid(s.store, id, state, error);
    forall i | 0 <= i < |t.store.runs|
      ensures runOk(t.store.runs[i], t.store.results[i + 1], t.ran[i + 1], i + 1 in t.asked)
    {
      assert runOk(s.store.runs[i], s.store.results[i + 1], s.ran[i + 1], i + 1 in s.asked);
    }
    EndedStaffBy(s, workerOk, t, id, state, error);
  }

  /** The worker moves without executing anything. */
  lemma WorkerMovesBy(s: System, runOk: RunTest, workerOk: WorkerTest, id: nat, w: Worker)
    requires InvBy(s, runOk, workerOk) && Present(s, id) && s.store.runs[id - 1].state == RUNNING
    requires workerOk(s.store.runs[id - 1], s.store.results[id], s.ran[id], w, s.heap)
    ensures InvBy(Apply(s, id, Worked(s.store, Some(w), None)), runOk, workerOk)
  {
    var t := Apply(s, id, Worked(s.store, Some(w), None));
    forall k: nat | k in t.workers ensures StaffedBy(t, workerOk, k) {
      if k != id { StaffAt(s, workerOk, k); }
    }
    StaffFrom(t, workerOk);
  }

  ghost predicate Records(s: System, t: System, id: nat, w: Worker, row: Row, x: Execution) {
    Present(s, id) && t == Apply(s, id, Worked(AddResult(s.store, id, row), Some(w), Some(x)))
  }

  lemma RecordedRunsBy(s: System, runOk: RunTest, t: System, id: nat, w: Worker, row: Row, x: Execution)
    requires RunsBy(s, runOk) && Records(s, t, id, w, row, x)
    requires runOk(s.store.runs[id - 1], s.store.results[id] + [row], s.ran[id] + [x], id in s.asked)
    ensures RunsBy(t, runOk)
  {
    AddResultIsValid(s.store, id, row);
    forall i | 0 <= i < |t.store.runs|
      ensures runOk(t.store.runs[i], t.store.results[i + 1], t.ran[i + 1], i + 1 in t.asked)
    {
      assert runOk(s.store.runs[i], s.store.results[i + 1], s.ran[i + 1], i + 1 in s.asked);
    }
  }

  lemma RecordedStaffBy(s: System, workerOk: WorkerTest, t: System, id: nat, w: Worker, row: Row, x: Execution)
    requires StoreValid(s.store) && (forall k: nat :: k in s.ran <==> k in s.store.results) && StaffBy(s, workerOk)
    requires StoreValid(t.store) && (forall k: nat :: k in t.ran <==> k in t.store.results)
    requires Records(s, t, id, w, row, x) && s.store.runs[id - 1].state == RUNNING
    requires workerOk(s.store.runs[id - 1], s.store.results[id] + [row], s.ran[id] + [x], w, s.heap)
    ensures StaffBy(t, workerOk)
  {
    forall k: nat | k in t.workers ensures StaffedBy(t, workerOk, k) {
      if k != id { StaffAt(s, workerOk, k); }
    }
    StaffFrom(t, workerOk);
  }

  /** The worker executes one query and its row is appended. */
  lemma WorkerRecordsBy(s: System, runOk: RunTest, workerOk: WorkerTest, id: nat, w: Worker, row: Row, x: Execution)
    requires InvBy(s, runOk, workerOk) && Present(s, id) && s.store.runs[id - 1].state == RUNNING
    requires runOk(s.store.runs[id - 1], s.store.results[id] + [row], s.ran[id] + [x], id in s.asked)
    requires workerOk(s.store.runs[id - 1], s.store.results[id] + [row], s.ran[id] + [x], w, s.heap)
    ensures InvBy(Apply(s, id, Worked(AddResult(s.store, id, row), Some(w), Some(x))), runOk, workerOk)
  {
    var t := Apply(s, id, Worked(AddResult(s.store, id, row), Some(w), Some(x)));
    RecordedRunsBy(s, runOk, t, id, w, row, x);
    RecordedStaffBy(s, workerOk, t, id, w, row, x);
  }

  /** A new run with its worker. */
  lemma LaunchBy(s: System, runOk: RunTest, workerOk: WorkerTest, q: Request, setRef: nat, log: Audit.Log, a: Attempt)
    requires InvBy(s, runOk, workerOk) && setRef < |s.heap.objects| && q.repetitions >= 1
    requires !Busy(s.store.runs, q.cluster)
    requires var t := Launch(s, q, setRef, log, a); var run := t.store.runs[|s.store.runs|];
      runOk(run, [], [], run.id in s.asked) && workerOk(run, [], [], t.workers[run.id], s.heap)
    ensures InvBy(Launch(s, q, setRef, log, a), runOk, workerOk)
  {
    var t := Launch(s, q, setRef, log, a);
    CreatedIsValid(s.store, t.store.runs[|s.store.runs|]);
    forall i | 0 <= i < |t.store.runs|
      ensures runOk(t.store.runs[i], t.store.results[i + 1], t.ran[i + 1], i + 1 in t.asked)
    {
      if i < |s.store.runs| {
        assert t.store.runs[i] == s.store.runs[i];
        assert runOk(s.store.runs[i], s.store.results[i + 1], s.ran[i + 1], i + 1 in s.asked);
      }
    }
  }

  /** The heap changes under the workers. */
  lemma HeapChangesBy(s: System, runOk: RunTest, workerOk: WorkerTest, t: System)
    requires InvBy(s, runOk, workerOk) && HeapOk(t.heap) && SameRuns(s, t.(heap := s.heap))
    requires forall id: nat | id in s.workers ::
      workerOk(s.store.runs[id - 1], s.store.results[id], s.ran[id], s.workers[id], t.heap)
    ensures InvBy(t, runOk, workerOk)
  {
  }

  lemma RunEnds(cfg: Config, s: System, id: nat, state: RunState, error: Note)
    requires Inv(cfg, s) && Present(s, id) && Terminal(state)
    requires RunOk(cfg.allows, Ended(s.store.runs[id - 1], state, error), s.store.results[id], s.ran[id], id in s.asked)
    ensures Inv(cfg, Apply(s, id, Worked(Finish(s.store, id, state, error), None, None)))
  {
    RunEndsBy(s, RunOkFor(cfg.allows), WorkerOkFor(cfg.allows), id, state, error);
  }

  lemma WorkerMoves(cfg: Config, s: System, id: nat, w: Worker)
    requires Inv(cfg, s) && Present(s, id)
    requires WorkerOk(cfg.allows, s.store.runs[id - 1], s.store.results[id], s.ran[id], w, s.heap)
    ensures Inv(cfg, Apply(s, id, Worked(s.store, Some(w), None)))
  {
    WorkerMovesBy(s, RunOkFor(cfg.allows), WorkerOkFor(cfg.allows), id, w);
  }

  lemma WorkerRecords(cfg: Config, s: System, id: nat, w: Worker, row: Row, x: Execution)
    requires Inv(cfg, s) && Present(s, id)
    requires RunOk(cfg.allows, s.store.runs[id - 1], s.store.results[id] + [row], s.ran[id] + [x], id in s.asked)
    requires WorkerOk(cfg.allows, s.store.runs[id - 1], s.store.results[id] + [row], s.ran[id] + [x], w, s.heap)
    ensures Inv(cfg, Apply(s, id, Worked(AddResult(s.store, id, row), Some(w), Some(x))))
  {
    WorkerRecordsBy(s, RunOkFor(cfg.allows), WorkerOkFor(cfg.allows), id, w, row, x);
  }

  // ------------------------------------------------------ steps of a worker

  lemma OpenKeeps(cfg: Config, s: System, id: nat, connects: bool)
    requires Inv(cfg, s)
    ensures Inv(cfg, WorkerOpens(s, id, connects))
  {
    if id in s.workers && s.workers[id].phase.Opening? {
      WorkerAt(cfg, s, id);
      var w, run := s.workers[id], s.store.runs[id - 1];
      if connects {
        assert Done(cfg.allows, run.queries, 1, 0) == [];
        WorkerMoves(cfg, s, id, w.(phase := Looping(1, 0)));
      } else {
        RunAt(cfg, s, id);
        RunEnds(cfg, s, id, FAILED, CouldNotOpen);
      }
    }
  }

  // What one turn does to a run and its worker, taken alone.

  lemma ClosedIsOk(allows: Allowlist, run: Run, rows: seq<Row>, ran: seq<Execution>, w: Worker, heap: Heap, asked: bool)
    requires RunOk(allows, run, rows, ran, asked) && WorkerOk(allows, run, rows, ran, w, heap)
    requires w.phase.Looping? && w.phase.iteration > run.repetitions
    ensures if w.executed > 0 && w.failures == w.executed
            then RunOk(allows, Ended(run, FAILED, EveryQueryFailed), rows, ran, asked)
            else RunOk(allows, Ended(run, SUCCEEDED, NoNote), rows, ran, asked)
  {
    assert Round(allows, run.queries, run.repetitions + 1)[..0] == [];
    assert ran == Plan(allows, run.queries, run.repetitions);
    FailedCounts(rows);
  }

  lemma StoppedIsOk(allows: Allowlist, run: Run, rows: seq<Row>, ran: seq<Execution>, w: Worker, heap: Heap,
                    asked: bool)
    requires RunOk(allows, run, rows, ran, asked) && WorkerOk(allows, run, rows, ran, w, heap)
    requires w.phase.Looping? && w.phase.iteration <= run.repetitions && w.phase.index < |run.queries|
    ensures asked ==> RunOk(allows, Ended(run, ABORTED, StoppedAfter(w.executed)), rows, ran, asked)
    ensures RunOk(allows, Ended(run, FAILED, WorkerError), rows, ran, asked)
  {
    DoneIsPrefix(allows, run.queries, w.phase.iteration, w.phase.index, run.repetitions);
  }

  lemma RolledIsOk(allows: Allowlist, run: Run, rows: seq<Row>, ran: seq<Execution>, w: Worker, heap: Heap)
    requires WorkerOk(allows, run, rows, ran, w, heap)
    requires w.phase.Looping? && w.phase.iteration <= run.repetitions && w.phase.index >= |run.queries|
    ensures WorkerOk(allows, run, rows, ran, w.(phase := Looping(w.phase.iteration + 1, 0)), heap)
  {
    DoneRollsOver(allows, run.queries, w.phase.iteration);
  }

  function Advanced(w: Worker, row: Row): Worker
    requires w.phase.Looping?
  {
    w.(phase := Looping(w.phase.iteration, w.phase.index + 1), executed := w.executed + 1,
       failures := if row.failed then w.failures + 1 else w.failures)
  }

  function ExecutionOf(allows: Allowlist, q: Query, iteration: nat): Execution {
    Execution(q.name, iteration, q.sql, allows(q.sql))
  }

  /** The row of one query measures its execution, and the execution is the next entry of the plan. */
  lemma ExecutedRunIsOk(allows: Allowlist, run: Run, rows: seq<Row>, ran: seq<Execution>, asked: bool,
                        iteration: nat, index: nat, q: Query, row: Row, e: Event)
    requires Measures(rows, ran) && run.state == RUNNING && run.error == NoNote && e.Answer?
    requires 1 <= iteration <= run.repetitions && index < |run.queries| && q == run.queries[index]
    requires row == RowFor(allows, q, iteration, e) && ran == Done(allows, run.queries, iteration, index)
    ensures RunOk(allows, run, rows + [row], ran + [ExecutionOf(allows, q, iteration)], asked)
    ensures ran + [ExecutionOf(allows, q, iteration)] == Done(allows, run.queries, iteration, index + 1)
  {
    DoneStep(allows, run.queries, iteration, index);
    DoneIsPrefix(allows, run.queries, iteration, index + 1, run.repetitions);
  }

  lemma FailedGrows(rows: seq<Row>, row: Row)
    ensures Failed(rows + [row]) == Failed(rows) + if row.failed then 1 else 0
  {
    assert (rows + [row])[..|rows|] == rows;
  }

  lemma ExecutedIsOk(allows: Allowlist, run: Run, rows: seq<Row>, ran: seq<Execution>, w: Worker, heap: Heap,
                     asked: bool, q: Query, row: Row, e: Event)
    requires RunOk(allows, run, rows, ran, asked) && WorkerOk(allows, run, rows, ran, w, heap) && e.Answer?
    requires w.phase.Looping? && w.phase.iteration <= run.repetitions && w.phase.index < |run.queries|
    requires q == run.queries[w.phase.index] && row == RowFor(allows, q, w.phase.iteration, e)
    ensures RunOk(allows, run, rows + [row], ran + [ExecutionOf(allows, q, w.phase.iteration)], asked)
    ensures WorkerOk(allows, run, rows + [row], ran + [ExecutionOf(allows, q, w.phase.iteration)], Advanced(w, row),
                     heap)
  {
    ExecutedRunIsOk(allows, run, rows, ran, asked, w.phase.iteration, w.phase.index, q, row, e);
    FailedGrows(rows, row);
  }

  // The same turns inside the system.

  ghost predicate Turning(s: System, id: nat) {
    id in s.workers && s.workers[id].phase.Looping?
  }

  ghost predicate AtQuery(s: System, id: nat)
    requires Turning(s, id)
  {
    var w := s.workers[id];
    w.phase.iteration <= w.repetitions && w.phase.index < |Live(s.heap, w.setRef)|
  }

  lemma CloseKeeps(cfg: Config, s: System, id: nat)
    requires Inv(cfg, s) && Turning(s, id) && s.workers[id].phase.iteration > s.workers[id].repetitions
    ensures Inv(cfg, Apply(s, id, Close(s.store, s.workers[id])))
  {
    WorkerAt(cfg, s, id);
    RunAt(cfg, s, id);
    var w := s.workers[id];
    ClosedIsOk(cfg.allows, s.store.runs[id - 1], s.store.results[id], s.ran[id], w, s.heap, id in s.asked);
    if w.executed > 0 && w.failures == w.executed {
      RunEnds(cfg, s, id, FAILED, EveryQueryFailed);
    } else {
      RunEnds(cfg, s, id, SUCCEEDED, NoNote);
    }
  }

  lemma AbortedKeeps(cfg: Config, s: System, id: nat)
    requires Inv(cfg, s) && Turning(s, id) && AtQuery(s, id) && id in s.aborting
    ensures Inv(cfg, Apply(s, id, Worked(Finish(s.store, id, ABORTED, StoppedAfter(s.workers[id].executed)),
                                         None, None)))
  {
    WorkerAt(cfg, s, id);
    RunAt(cfg, s, id);
    StoppedIsOk(cfg.allows, s.store.runs[id - 1], s.store.results[id], s.ran[id], s.workers[id], s.heap, id in s.asked);
    RunEnds(cfg, s, id, ABORTED, StoppedAfter(s.workers[id].executed));
  }

  lemma RaisedKeeps(cfg: Config, s: System, id: nat)
    requires Inv(cfg, s) && Turning(s, id) && AtQuery(s, id)
    ensures Inv(cfg, Apply(s, id, Worked(Finish(s.store, id, FAILED, WorkerError), None, None)))
  {
    WorkerAt(cfg, s, id);
    RunAt(cfg, s, id);
    StoppedIsOk(cfg.allows, s.store.runs[id - 1], s.store.results[id], s.ran[id], s.workers[id], s.heap, id in s.asked);
    RunEnds(cfg, s, id, FAILED, WorkerError);
  }

  lemma RolledWorkerOk(cfg: Config, s: System, id: nat, w: Worker)
    requires Present(s, id) && Turning(s, id)
    requires WorkerOk(cfg.allows, s.store.runs[id - 1], s.store.results[id], s.ran[id], s.workers[id], s.heap)
    requires s.workers[id].phase.iteration <= s.workers[id].repetitions
    requires s.workers[id].phase.index >= |Live(s.heap, s.workers[id].setRef)|
    requires w == s.workers[id].(phase := Looping(s.workers[id].phase.iteration + 1, 0))
    ensures WorkerOk(cfg.allows, s.store.runs[id - 1], s.store.results[id], s.ran[id], w, s.heap)
  {
    RolledIsOk(cfg.allows, s.store.runs[id - 1], s.store.results[id], s.ran[id], s.workers[id], s.heap);
  }

  lemma RollKeeps(cfg: Config, s: System, id: nat, w: Worker)
    requires Inv(cfg, s) && Turning(s, id)
    requires s.workers[id].phase.iteration <= s.workers[id].repetitions
    requires s.workers[id].phase.index >= |Live(s.heap, s.workers[id].setRef)|
    requires w == s.workers[id].(phase := Looping(s.workers[id].phase.iteration + 1, 0))
    ensures Inv(cfg, Apply(s, id, Worked(s.store, Some(w), None)))
  {
    WorkerAt(cfg, s, id);
    RolledWorkerOk(cfg, s, id, w);
    WorkerMoves(cfg, s, id, w);
  }

  lemma ExecuteKeeps(cfg: Config, s: System, id: nat, q: Query, row: Row, x: Execution, w: Worker, e: Event)
    requires Inv(cfg, s) && Turning(s, id) && AtQuery(s, id) && e.Answer?
    requires q == Live(s.heap, s.workers[id].setRef)[s.workers[id].phase.index]
    requires row == RowFor(cfg.allows, q, s.workers[id].phase.iteration, e)
    requires x == ExecutionOf(cfg.allows, q, s.workers[id].phase.iteration) && w == Advanced(s.workers[id], row)
    ensures Inv(cfg, Apply(s, id, Worked(AddResult(s.store, id, row), Some(w), Some(x))))
  {
    WorkerAt(cfg, s, id);
    RunAt(cfg, s, id);
    ExecutedIsOk(cfg.allows, s.store.runs[id - 1], s.store.results[id], s.ran[id], s.workers[id], s.heap,
                 id in s.asked, q, row, e);
    WorkerRecords(cfg, s, id, w, row, x);
  }

  lemma TurnKeeps(cfg: Config, s: System, id: nat, e: Event)
    requires Inv(cfg, s)
    ensures Inv(cfg, WorkerTurn(cfg, s, id, e))
  {
    if Turning(s, id) {
      WorkerAt(cfg, s, id);
      var w := s.workers[id];
      var live := Live(s.heap, w.setRef);
      var stopping := id in s.aborting;
      var r := Turn(cfg.allows, s.store, w, live, stopping, e);
      if w.phase.iteration > w.repetitions {
        CloseKeeps(cfg, s, id);
      } else if w.phase.index >= |live| {
        RollKeeps(cfg, s, id, r.worker.value);
      } else if stopping {
        AbortedKeeps(cfg, s, id);
      } else if e.Raises? {
        RaisedKeeps(cfg, s, id);
      } else {
        var row := RowFor(cfg.allows, live[w.phase.index], w.phase.iteration, e);
        ExecuteKeeps(cfg, s, id, live[w.phase.index], row, r.ran.value, r.worker.value, e);
      }
    }
  }

  // ------------------------------------------------------------ other steps

  lemma LaunchKeeps(cfg: Config, s: System, q: Request, setRef: nat, log: Audit.Log, a: Attempt)
    requires Inv(cfg, s) && setRef < |s.heap.objects| && q.repetitions >= 1
    requires !Busy(s.store.runs, q.cluster)
    ensures Inv(cfg, Launch(s, q, setRef, log, a))
  {
    var t := Launch(s, q, setRef, log, a);
    var run := t.store.runs[|s.store.runs|];
    assert RunOk(cfg.allows, run, [], [], run.id in s.asked);
    assert WorkerOk(cfg.allows, run, [], [], t.workers[run.id], s.heap);
    LaunchBy(s, RunOkFor(cfg.allows), WorkerOkFor(cfg.allows), q, setRef, log, a);
  }

  lemma StartKeeps(cfg: Config, s: System, q: Request, a: Attempt)
    requires Inv(cfg, s)
    ensures Inv(cfg, Start(cfg, s, q, a).state)
  {
    if Precheck(cfg, s, q).None? {
      var begin := Audit.Begin(Checked(s.log, a), q.actor, Audit.BENCHMARK_RUN, q.cluster + ":" + q.querySet,
                               q.reason);
      if begin.Ok? && !Busy(s.store.runs, q.cluster) {
        LaunchKeeps(cfg, s, q, Lookup(s.heap, q.querySet).value, Written(s.log, begin.value, "", a), a);
      }
    }
  }

  lemma TickKeeps(cfg: Config, s: System, now: int, tries: Attempts)
    requires Inv(cfg, s)
    ensures Inv(cfg, Tick(cfg, s, now, tries))
  {
    var holds: System -> bool := (t: System) => Inv(cfg, t);
    forall t: System, q: Request, id: nat, k: nat | holds(t) ensures holds(Start(cfg, t, q, tries(id, k)).state) {
      StartKeeps(cfg, t, q, tries(id, k));
    }
    forall t: System, u: System | holds(t) && OnlyRows(t, u) ensures holds(u) { SameRunsKeeps(cfg, t, u); }
    TickCarries(cfg, s, now, tries, holds);
  }

  /** The new heap keeps every object that a run of another set could be reading. */
  ghost predicate OnlyTouches(before: Heap, after: Heap, key: string) {
    && |before.objects| <= |after.objects|
    && forall i | 0 <= i < |before.objects| ::
      after.objects[i].key == before.objects[i].key
      && (before.objects[i].key != key ==> after.objects[i] == before.objects[i])
  }

  lemma WorkerReadsOn(allows: Allowlist, run: Run, rows: seq<Row>, ran: seq<Execution>, w: Worker,
                      before: Heap, after: Heap, key: string)
    requires WorkerOk(allows, run, rows, ran, w, before) && run.querySet != key && OnlyTouches(before, after, key)
    ensures WorkerOk(allows, run, rows, ran, w, after)
  {
  }

  /** A change to one set that no run is executing. */
  lemma IdleSetChanges(cfg: Config, s: System, t: System, key: string)
    requires Inv(cfg, s) && SameRuns(s, t.(heap := s.heap)) && HeapOk(t.heap)
    requires !SetIsRunning(s.store, key) && OnlyTouches(s.heap, t.heap, key)
    ensures Inv(cfg, t)
  {
    forall id: nat | id in s.workers
      ensures WorkerOkFor(cfg.allows)(s.store.runs[id - 1], s.store.results[id], s.ran[id], s.workers[id], t.heap)
    {
      WorkerAt(cfg, s, id);
      assert s.store.runs[id - 1].querySet != key;
      WorkerReadsOn(cfg.allows, s.store.runs[id - 1], s.store.results[id], s.ran[id], s.workers[id],
                    s.heap, t.heap, key);
    }
    HeapChangesBy(s, RunOkFor(cfg.allows), WorkerOkFor(cfg.allows), t);
  }

  /** An edit changes the sets or leaves them; it changes them only while its set is not running. */
  lemma EditTakesOrLeaves(s: System, actor: string, key: string, target: string, reason: Audit.Reason,
                          changed: Option<Heap>, a: Attempt)
    ensures var t := Edit(s, actor, key, target, reason, changed, a);
      && SameRuns(s, t.(heap := s.heap))
      && (t.heap == s.heap || (!SetIsRunning(s.store, key) && changed == Some(t.heap)))
  {
  }

  /** An edit is refused while the set runs, so no live worker reads what it changes. */
  lemma EditKeeps(cfg: Config, s: System, actor: string, key: string, target: string, reason: Audit.Reason,
                  changed: Option<Heap>, a: Attempt)
    requires Inv(cfg, s)
    requires changed.Some? ==> HeapOk(changed.value) && OnlyTouches(s.heap, changed.value, key)
    ensures Inv(cfg, Edit(s, actor, key, target, reason, changed, a))
  {
    var t := Edit(s, actor, key, target, reason, changed, a);
    EditTakesOrLeaves(s, actor, key, target, reason, changed, a);
    if t.heap == s.heap {
      SameRunsKeeps(cfg, s, t);
    } else {
      IdleSetChanges(cfg, s, t, key);
    }
  }

  lemma LookupFinds(heap: Heap, key: string)
    requires HeapOk(heap) && Lookup(heap, key).Some?
    ensures heap.objects[Lookup(heap, key).value].key == key
  {
  }

  lemma NewQueriesTouch(heap: Heap, key: string, queries: seq<Query>)
    requires HeapOk(heap) && Lookup(heap, key).Some?
    ensures var after := WithQueries(heap, Lookup(heap, key).value, queries);
      HeapOk(after) && OnlyTouches(heap, after, key)
  {
    LookupFinds(heap, key);
  }

  lemma OrphanIsOk(allows: Allowlist, run: Run, rows: seq<Row>, ran: seq<Execution>, asked: bool)
    requires RunOk(allows, run, rows, ran, asked)
    ensures RunOk(allows, Orphaned(run), rows, ran, asked) && Orphaned(run).state != RUNNING
  {
  }

  lemma RestartBy(s: System, runOk: RunTest, workerOk: WorkerTest)
    requires InvBy(s, runOk, workerOk)
    requires forall run, rows, ran, asked | runOk(run, rows, ran, asked) :: runOk(Orphaned(run), rows, ran, asked)
    ensures InvBy(Restart(s), runOk, workerOk)
  {
    ReconcileFreesEveryCluster(s.store, "");
    var t := Restart(s);
    forall i | 0 <= i < |t.store.runs|
      ensures runOk(t.store.runs[i], t.store.results[i + 1], t.ran[i + 1], i + 1 in t.asked)
    {
      assert runOk(s.store.runs[i], s.store.results[i + 1], s.ran[i + 1], i + 1 in s.asked);
    }
  }

  lemma RestartKeeps(cfg: Config, s: System)
    requires Inv(cfg, s)
    ensures Inv(cfg, Restart(s))
  {
    var runOk := RunOkFor(cfg.allows);
    forall run, rows, ran, asked | runOk(run, rows, ran, asked) ensures runOk(Orphaned(run), rows, ran, asked) {
      OrphanIsOk(cfg.allows, run, rows, ran, asked);
    }
    RestartBy(s, runOk, WorkerOkFor(cfg.allows));
  }

  lemma AbortKeeps(cfg: Config, s: System, admin: bool, id: nat)
    requires Inv(cfg, s)
    ensures Inv(cfg, Abort(s, admin, id))
  {
    var t := Abort(s, admin, id);
    forall i | 0 <= i < |t.store.runs|
      ensures RunOkFor(cfg.allows)(t.store.runs[i], t.store.results[i + 1], t.ran[i + 1], i + 1 in t.asked)
    {
      RunAt(cfg, s, i + 1);
    }
  }

  lemma SaveQueryKeeps(cfg: Config, s: System, actor: string, key: string, name: string, title: string,
                       statement: string, position: int, original: Option<string>, reason: Audit.Reason, a: Attempt)
    requires Inv(cfg, s)
    ensures Inv(cfg, SaveQuery(cfg, s, actor, key, name, title, statement, position, original, reason, a))
  {
    var at := Lookup(s.heap, key);
    if at.Some? {
      var saved := SaveInto(s.heap.objects[at.value].queries, name, title, cfg.stores(statement), position, original);
      if saved.Some? { NewQueriesTouch(s.heap, key, saved.value); }
      EditKeeps(cfg, s, actor, key, key + "." + name, reason,
                if saved.Some? then Some(WithQueries(s.heap, at.value, saved.value)) else None, a);
    }
  }

  lemma DeleteQueryKeeps(cfg: Config, s: System, actor: string, key: string, name: string, reason: Audit.Reason,
                         a: Attempt)
    requires Inv(cfg, s)
    ensures Inv(cfg, DeleteQuery(s, actor, key, name, reason, a))
  {
    var at := Lookup(s.heap, key);
    if at.Some? {
      NewQueriesTouch(s.heap, key, Without(s.heap.objects[at.value].queries, name));
      EditKeeps(cfg, s, actor, key, key + "." + name, reason,
                Some(WithQueries(s.heap, at.value, Without(s.heap.objects[at.value].queries, name))), a);
    }
  }

  lemma SetStepKeeps(cfg: Config, s: System, step: Step)
    requires Inv(cfg, s)
    requires EditsSets(step)
    ensures Inv(cfg, Next(cfg, s, step))
  {
    match step
    case SavesSet(_, actor, key, reason, a) =>
      EditKeeps(cfg, s, actor, key, key, reason, Some(WithSet(s.heap, key)), a);
    case DeletesSet(_, actor, key, reason, a) =>
      EditKeeps(cfg, s, actor, key, key, reason, Some(s.heap.(named := s.heap.named - {key})), a);
    case SavesQuery(_, actor, key, name, title, statement, position, original, reason, a) =>
      SaveQueryKeeps(cfg, s, actor, key, name, title, statement, position, original, reason, a);
    case DeletesQuery(_, actor, key, name, reason, a) =>
      DeleteQueryKeeps(cfg, s, actor, key, name, reason, a);
  }

  lemma CreateLeavesRuns(cfg: Config, s: System, step: Step)
    requires step.CreatesSchedule?
    ensures SameRuns(s, Next(cfg, s, step))
  {
  }

  lemma SwitchLeavesRuns(cfg: Config, s: System, step: Step)
    requires step.SwitchesSchedule?
    ensures SameRuns(s, Next(cfg, s, step))
  {
  }

  lemma DeleteLeavesRuns(cfg: Config, s: System, step: Step)
    requires step.DeletesSchedule?
    ensures SameRuns(s, Next(cfg, s, step))
  {
  }

  lemma ScheduleEditsLeaveRuns(cfg: Config, s: System, step: Step)
    requires EditsSchedules(step)
    ensures SameRuns(s, Next(cfg, s, step))
  {
    if step.CreatesSchedule? {
      CreateLeavesRuns(cfg, s, step);
    } else if step.SwitchesSchedule? {
      SwitchLeavesRuns(cfg, s, step);
    } else {
      DeleteLeavesRuns(cfg, s, step);
    }
  }

  lemma ScheduleStepKeeps(cfg: Config, s: System, step: Step)
    requires Inv(cfg, s) && EditsSchedules(step)
    ensures Inv(cfg, Next(cfg, s, step))
  {
    ScheduleEditsLeaveRuns(cfg, s, step);
    SameRunsKeeps(cfg, s, Next(cfg, s, step));
  }

  /** Every step of every party keeps the invariant. */
  lemma StepKeeps(cfg: Config, s: System, step: Step)
    requires Inv(cfg, s)
    ensures Inv(cfg, Next(cfg, s, step))
  {
    match step
    case Starts(q, a) => StartKeeps(cfg, s, q, a);
    case Aborts(admin, id) => AbortKeeps(cfg, s, admin, id);
    case Ticks(now, tries) => TickKeeps(cfg, s, now, tries);
    case Opens(id, connects) => OpenKeeps(cfg, s, id, connects);
    case Works(id, e) => TurnKeeps(cfg, s, id, e);
    case Restarts => RestartKeeps(cfg, s);
    case _ => if EditsSets(step) { SetStepKeeps(cfg, s, step); } else { ScheduleStepKeeps(cfg, s, step); }
  }
}
