/** The worker that executes one run: its loop, one query at a time, and how it names the end. */
module Runner {
  import opened Wrappers
  import opened QuerySets
  import opened RunStore

  /** The statement check the runner makes before every execution; `QuerySets.Acceptable` in the
      program. Nothing below depends on which statements it allows. */
  type Allowlist = string -> bool

  /** What the cluster answers to one statement, with its measurements, or an unexpected error. */
  datatype Event = Answer(failed: bool, elapsedMs: Option<real>, cpuMs: Option<real>, rowsRead: Option<real>) | Raises

  datatype Phase = Opening | Looping(iteration: nat, index: nat)

  /** A live worker: its run, the query-set object it reads from, and its local variables. */
  datatype Worker = Worker(run: nat, setRef: nat, repetitions: nat, phase: Phase, executed: nat, failures: nat)

  /** One statement reaching the runner; `sent` when it also reached the cluster. */
  datatype Execution = Execution(query: string, iteration: nat, sql: string, sent: bool)

  /** The store after one worker step, the worker unless it ended, and what it executed. */
  datatype Worked = Worked(store: Store, worker: Option<Worker>, ran: Option<Execution>)

  /** `_one`: a statement that is no longer allowed is a failed row and is never sent. */
  function RowFor(allows: Allowlist, q: Query, iteration: nat, e: Event): Row
    requires e.Answer?
  {
    if !allows(q.sql) then Row(q.name, iteration, true, Some(0.0), None, None)
    else if e.failed then Row(q.name, iteration, true, e.elapsedMs, None, None)
    else Row(q.name, iteration, false, e.elapsedMs, e.cpuMs, e.rowsRead)
  }

  /** The worker tries to open a SQL client. */
  function Open(s: Store, w: Worker, connects: bool): Worked {
    if connects then Worked(s, Some(w.(phase := Looping(1, 0))), None)
    else Worked(Finish(s, w.run, FAILED, CouldNotOpen), None, None)
  }

  /** After the last iteration: a run whose every query failed is not a success. */
  function Close(s: Store, w: Worker): Worked {
    if w.executed > 0 && w.failures == w.executed
    then Worked(Finish(s, w.run, FAILED, EveryQueryFailed), None, None)
    else Worked(Finish(s, w.run, SUCCEEDED, NoNote), None, None)
  }

  /** One turn of the loop, reading the live query list: stop if asked, otherwise execute one query. */
  function Turn(allows: Allowlist, s: Store, w: Worker, live: seq<Query>, stopping: bool, e: Event): Worked
    requires w.phase.Looping?
  {
    var Looping(iteration, index) := w.phase;
    if iteration > w.repetitions then Close(s, w)
    else if index >= |live| then Worked(s, Some(w.(phase := Looping(iteration + 1, 0))), None)
    else if stopping then Worked(Finish(s, w.run, ABORTED, StoppedAfter(w.executed)), None, None)
    else if e.Raises? then Worked(Finish(s, w.run, FAILED, WorkerError), None, None)
    else
      var q := live[index];
      var row := RowFor(allows, q, iteration, e);
      Worked(AddResult(s, w.run, row),
             Some(w.(phase := Looping(iteration, index + 1), executed := w.executed + 1,
                     failures := if row.failed then w.failures + 1 else w.failures)),
             Some(Execution(q.name, iteration, q.sql, allows(q.sql))))
  }

  // ------------------------------------------------ the order of execution

  /** One iteration of a query list. */
  function Round(allows: Allowlist, queries: seq<Query>, iteration: nat): seq<Execution> {
    seq(|queries|, i requires 0 <= i < |queries| =>
      Execution(queries[i].name, iteration, queries[i].sql, allows(queries[i].sql)))
  }

  /** Iterations 1, 2, ... `n`, each over the whole list in order. */
  function Plan(allows: Allowlist, queries: seq<Query>, n: nat): seq<Execution> {
    if n == 0 then [] else Plan(allows, queries, n - 1) + Round(allows, queries, n)
  }

  /** What a worker standing at (iteration, index) has executed. */
  function Done(allows: Allowlist, queries: seq<Query>, iteration: nat, index: nat): seq<Execution>
    requires iteration >= 1 && index <= |queries|
  {
    Plan(allows, queries, iteration - 1) + Round(allows, queries, iteration)[..index]
  }

  lemma {:induction false} PlanPrefix(allows: Allowlist, queries: seq<Query>, m: nat, n: nat)
    requires m <= n
    ensures Plan(allows, queries, m) <= Plan(allows, queries, n)
  {
    if m < n {
      PlanPrefix(allows, queries, m, n - 1);
    }
  }

  lemma {:induction false} PlanLength(allows: Allowlist, queries: seq<Query>, n: nat)
    ensures |Plan(allows, queries, n)| == n * |queries|
  {
    if n > 0 {
      PlanLength(allows, queries, n - 1);
      assert n * |queries| == (n - 1) * |queries| + |queries|;
    }
  }

  /** Mid-iteration, what is done is a proper prefix of the plan. */
  lemma DoneIsPrefix(allows: Allowlist, queries: seq<Query>, iteration: nat, index: nat, repetitions: nat)
    requires 1 <= iteration <= repetitions && index <= |queries|
    ensures Done(allows, queries, iteration, index) <= Plan(allows, queries, repetitions)
    ensures index < |queries| ==> Done(allows, queries, iteration, index) < Plan(allows, queries, repetitions)
  {
    PlanPrefix(allows, queries, iteration, repetitions);
    var upTo := Plan(allows, queries, iteration);
    assert upTo == Plan(allows, queries, iteration - 1) + Round(allows, queries, iteration);
    assert Done(allows, queries, iteration, index) == upTo[..|Done(allows, queries, iteration, index)|];
    assert Plan(allows, queries, repetitions)[..|upTo|] == upTo;
  }

  lemma DoneStep(allows: Allowlist, queries: seq<Query>, iteration: nat, index: nat)
    requires iteration >= 1 && index < |queries|
    ensures Done(allows, queries, iteration, index + 1)
        == Done(allows, queries, iteration, index) + [Round(allows, queries, iteration)[index]]
  {
    var r := Round(allows, queries, iteration);
    assert r[..index + 1] == r[..index] + [r[index]];
  }

  lemma DoneRollsOver(allows: Allowlist, queries: seq<Query>, iteration: nat)
    requires iteration >= 1
    ensures Done(allows, queries, iteration, |queries|) == Done(allows, queries, iteration + 1, 0)
        == Plan(allows, queries, iteration)
  {
    var r := Round(allows, queries, iteration);
    assert r[..|queries|] == r;
  }

  // ------------------------------------------------------ the loop itself

  /** Before each pass at (iteration, index): which runs administrators have asked to stop since the pass
      before, and what the cluster answers if the query is executed. */
  type Environment = (nat, nat) -> (set<nat>, Event)

  /** Some time or other a stop of this run is asked for. */
  ghost predicate EverAsked(env: Environment, id: nat) { exists i: nat, k: nat :: id in env(i, k).0 }

  /** A stop of the run has been asked for. */
  ghost predicate Up(flags: map<nat, bool>, id: nat) { id in flags && flags[id] }

  /** No flag but that of run `id` went down, and none went up without a request. */
  ghost predicate OnlyRequested(before: map<nat, bool>, after: map<nat, bool>, id: nat, env: Environment) {
    && (forall k: nat | k != id && Up(before, k) :: Up(after, k))
    && (forall k: nat | Up(after, k) :: Up(before, k) || EverAsked(env, k))
  }

  lemma RequestedTransitive(a: map<nat, bool>, b: map<nat, bool>, c: map<nat, bool>, id: nat, env: Environment)
    requires OnlyRequested(a, b, id, env) && OnlyRequested(b, c, id, env)
    ensures OnlyRequested(a, c, id, env)
  {
  }

  /** The turns of one worker taken one after another until it ends. A request to stop stays pending. */
  function Drive(allows: Allowlist, s: Store, w: Worker, live: seq<Query>, env: Environment, pending: bool): Store
    requires w.phase.Looping?
    decreases
      if w.phase.iteration > w.repetitions then 0 else w.repetitions + 1 - w.phase.iteration,
      if w.phase.index > |live| then 0 else |live| - w.phase.index
  {
    var (asked, e) := env(w.phase.iteration, w.phase.index);
    var atQuery := w.phase.iteration <= w.repetitions && w.phase.index < |live|;
    var stopping := pending || (atQuery && w.run in asked);
    var r := Turn(allows, s, w, live, stopping, e);
    if r.worker.None? then r.store else Drive(allows, r.store, r.worker.value, live, env, stopping)
  }

  /** The two stores differ in run `id` alone, and in how that run is going alone. */
  ghost predicate OnlyRunDiffers(s: Store, t: Store, id: nat) {
    && t.next == s.next && |t.runs| == |s.runs|
    && (forall i | 0 <= i < |s.runs| ::
          t.runs[i] == s.runs[i].(state := t.runs[i].state, error := t.runs[i].error, stamped := t.runs[i].stamped))
    && (forall i | 0 <= i < |s.runs| && s.runs[i].id != id :: t.runs[i] == s.runs[i])
    && (forall k: nat | k != id :: k in t.results <==> k in s.results)
    && (forall k: nat | k != id && k in s.results :: t.results[k] == s.results[k])
  }

  lemma TurnTouchesOneRun(allows: Allowlist, s: Store, w: Worker, live: seq<Query>, stopping: bool, e: Event)
    requires w.phase.Looping?
    ensures OnlyRunDiffers(s, Turn(allows, s, w, live, stopping, e).store, w.run)
    ensures var r := Turn(allows, s, w, live, stopping, e); r.worker.Some? ==> r.worker.value.run == w.run
  {
  }

  /** Whatever happens meanwhile, a worker changes no run but its own. */
  lemma {:induction false} DriveTouchesOneRun(allows: Allowlist, s: Store, w: Worker, live: seq<Query>,
                                              env: Environment, pending: bool)
    requires w.phase.Looping?
    ensures OnlyRunDiffers(s, Drive(allows, s, w, live, env, pending), w.run)
    decreases
      if w.phase.iteration > w.repetitions then 0 else w.repetitions + 1 - w.phase.iteration,
      if w.phase.index > |live| then 0 else |live| - w.phase.index
  {
    var (asked, e) := env(w.phase.iteration, w.phase.index);
    var atQuery := w.phase.iteration <= w.repetitions && w.phase.index < |live|;
    var stopping := pending || (atQuery && w.run in asked);
    var r := Turn(allows, s, w, live, stopping, e);
    TurnTouchesOneRun(allows, s, w, live, stopping, e);
    if r.worker.Some? { DriveTouchesOneRun(allows, r.store, r.worker.value, live, env, stopping); }
  }

  class BenchmarkRunner {
    const repository: InMemoryBenchmarkRepository
    const allows: Allowlist
    var aborting: map<nat, bool>

    constructor (repository: InMemoryBenchmarkRepository, allows: Allowlist)
      ensures this.repository == repository && this.allows == allows && aborting == map[]
    {
      this.repository := repository;
      this.allows := allows;
      aborting := map[];
    }

    method Abort(runId: nat)
      modifies this
      ensures aborting == old(aborting)[runId := true]
    {
      aborting := aborting[runId := true];
    }

    /** The abort calls that arrive between two passes of a worker. */
    method AbortAll(runIds: set<nat>)
      modifies this
      ensures forall id: nat :: Up(aborting, id) <==> Up(old(aborting), id) || id in runIds
    {
      var left := runIds;
      while left != {}
        invariant left <= runIds
        invariant forall id: nat :: Up(aborting, id) <==> Up(old(aborting), id) || (id in runIds && id !in left)
      {
        var id :| id in left;
        Abort(id);
        left := left - {id};
      }
    }

    method ShouldAbort(runId: nat) returns (stop: bool)
      ensures stop <==> runId in aborting && aborting[runId]
    {
      stop := runId in aborting && aborting[runId];
    }

    method Forget(runId: nat)
      modifies this
      ensures aborting == old(aborting) - {runId}
    {
      aborting := aborting - {runId};
    }

    /** The body of the inner loop up to the pause: check for a stop, execute, record. */
    method Execute(runId: nat, query: Query, iteration: nat, executed: nat, e: Event)
      returns (ended: bool, failed: bool)
      modifies repository
      ensures ended <==> Up(aborting, runId) || e.Raises?
      ensures Up(aborting, runId) ==>
        repository.View() == Finish(old(repository.View()), runId, ABORTED, StoppedAfter(executed))
      ensures !Up(aborting, runId) && e.Raises? ==>
        repository.View() == Finish(old(repository.View()), runId, FAILED, WorkerError)
      ensures !ended ==>
        && repository.View() == AddResult(old(repository.View()), runId, RowFor(allows, query, iteration, e))
        && failed == RowFor(allows, query, iteration, e).failed
    {
      var stopping := ShouldAbort(runId);
      if stopping {
        repository.FinishRun(runId, ABORTED, StoppedAfter(executed));
        return true, false;
      }
      if e.Raises? {
        repository.FinishRun(runId, FAILED, WorkerError);
        return true, false;
      }
      var outcome := RowFor(allows, query, iteration, e);
      repository.AddResultRow(runId, outcome);
      return false, outcome.failed;
    }

    /** One pass of the inner loop, after whatever was asked since the pass before. */
    method Pass(runId: nat, query: Query, iteration: nat, index: nat, executed: nat, env: Environment,
                ghost since: map<nat, bool>)
      returns (ended: bool, failed: bool)
      requires repository as object != this && OnlyRequested(since, aborting, runId, env)
      modifies this, repository
      ensures Up(aborting, runId) <==> Up(old(aborting), runId) || runId in env(iteration, index).0
      ensures OnlyRequested(since, aborting, runId, env)
      ensures ended <==> Up(aborting, runId) || env(iteration, index).1.Raises?
      ensures Up(aborting, runId) ==>
        repository.View() == Finish(old(repository.View()), runId, ABORTED, StoppedAfter(executed))
      ensures !Up(aborting, runId) && ended ==>
        repository.View() == Finish(old(repository.View()), runId, FAILED, WorkerError)
      ensures !ended ==>
        && repository.View() == AddResult(old(repository.View()), runId,
                                          RowFor(allows, query, iteration, env(iteration, index).1))
        && failed == RowFor(allows, query, iteration, env(iteration, index).1).failed
    {
      var (asked, e) := env(iteration, index);
      assert asked == env(iteration, index).0;
      AbortAll(asked);
      ended, failed := Execute(runId, query, iteration, executed, e);
    }

    /** One iteration over the set: every query in order, until one pass ends the run. */
    method Iterate(run: Run, querySet: QuerySet, setId: nat, repetitions: nat, iteration: nat, env: Environment,
                   already: nat, failedAlready: nat)
      returns (ended: bool, executed: nat, failures: nat)
      requires repository as object != this && repository as object != querySet && 1 <= iteration <= repetitions
      modifies this, repository
      ensures OnlyRequested(old(aborting), aborting, run.id, env)
      ensures var goal := Drive(allows, old(repository.View()),
          Worker(run.id, setId, repetitions, Looping(iteration, 0), already, failedAlready), querySet.queries, env,
          Up(old(aborting), run.id));
        goal == if ended then repository.View() else Drive(allows, repository.View(),
          Worker(run.id, setId, repetitions, Looping(iteration + 1, 0), executed, failures), querySet.queries, env,
          Up(aborting, run.id))
    {
      executed, failures := already, failedAlready;
      ghost var goal := Drive(allows, repository.View(),
        Worker(run.id, setId, repetitions, Looping(iteration, 0), already, failedAlready), querySet.queries, env,
        Up(aborting, run.id));
      var index := 0;
      while index < |querySet.queries|
        invariant 0 <= index <= |querySet.queries|
        invariant OnlyRequested(old(aborting), aborting, run.id, env)
        invariant goal == Drive(allows, repository.View(),
          Worker(run.id, setId, repetitions, Looping(iteration, index), executed, failures), querySet.queries, env,
          Up(aborting, run.id))
      {
        var failed;
        ended, failed := Pass(run.id, querySet.queries[index], iteration, index, executed, env, old(aborting));
        if ended {
          return;
        }
        executed := executed + 1;
        if failed {
          failures := failures + 1;
        }
        index := index + 1;
      }
      ended := false;
    }

    /** `_run`: the loops do exactly the turns the protocol takes one at a time, stopping when this run's
        flag is up. On every way out that flag is forgotten; no other run is changed, and no other run's
        flag goes down, or goes up without a request. */
    method Run(run: Run, querySet: QuerySet, setId: nat, repetitions: nat, connects: bool, env: Environment)
      requires repository as object != this && repository as object != querySet
      modifies this, repository
      ensures !Up(aborting, run.id)
      ensures OnlyRequested(old(aborting), aborting, run.id, env)
      ensures OnlyRunDiffers(old(repository.View()), repository.View(), run.id)
      ensures repository.View() ==
        if connects then Drive(allows, old(repository.View()),
          Worker(run.id, setId, repetitions, Looping(1, 0), 0, 0), querySet.queries, env, Up(old(aborting), run.id))
        else Finish(old(repository.View()), run.id, FAILED, CouldNotOpen)
    {
      if !connects {
        repository.FinishRun(run.id, FAILED, CouldNotOpen);
        Forget(run.id);
        return;
      }
      ghost var first := Worker(run.id, setId, repetitions, Looping(1, 0), 0, 0);
      ghost var goal := Drive(allows, repository.View(), first, querySet.queries, env, Up(aborting, run.id));
      DriveTouchesOneRun(allows, repository.View(), first, querySet.queries, env, Up(aborting, run.id));
      var executed, failures := 0, 0;
      var iteration := 1;
      while iteration <= repetitions
        invariant 1 <= iteration <= repetitions + 1
        invariant OnlyRequested(old(aborting), aborting, run.id, env)
        invariant goal == Drive(allows, repository.View(),
          Worker(run.id, setId, repetitions, Looping(iteration, 0), executed, failures), querySet.queries, env,
          Up(aborting, run.id))
      {
        ghost var flags := aborting;
        var ended;
        ended, executed, failures := Iterate(run, querySet, setId, repetitions, iteration, env, executed, failures);
        RequestedTransitive(old(aborting), flags, aborting, run.id, env);
        if ended {
          Forget(run.id);
          return;
        }
        iteration := iteration + 1;
      }
      if executed > 0 && failures == executed {
        repository.FinishRun(run.id, FAILED, EveryQueryFailed);
      } else {
        repository.FinishRun(run.id, SUCCEEDED, NoNote);
      }
      Forget(run.id);
    }
  }
}
