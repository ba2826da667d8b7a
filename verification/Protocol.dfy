/** The protocol's guarantees, over every interleaving of steps from an empty store. */
module Protocol {
  import opened Wrappers
  import opened QuerySets
  import opened RunStore
  import opened Runner
  import opened Service
  import opened RunProofs
  import Audit

  // ---------------------------------------------------- safety at every moment

  lemma {:induction false} InvAlways(cfg: Config, heap: Heap, steps: seq<Step>)
    requires HeapOk(heap)
    ensures Inv(cfg, After(cfg, Initial(heap), steps))
  {
    if steps != [] {
      InvAlways(cfg, heap, steps[..|steps|-1]);
      StepKeeps(cfg, After(cfg, Initial(heap), steps[..|steps|-1]), steps[|steps|-1]);
    }
  }

  /** Each cluster has at most one RUNNING run and at most one live worker; a worker is live
      exactly while its run is RUNNING. */
  lemma OneRunAndOneWorkerPerCluster(cfg: Config, heap: Heap, steps: seq<Step>)
    requires HeapOk(heap)
    ensures var s := After(cfg, Initial(heap), steps);
      && OnePerCluster(s.store.runs)
      && (forall i | 0 <= i < |s.store.runs| :: s.store.runs[i].state == RUNNING <==> i + 1 in s.workers)
      && (forall id: nat | id in s.workers :: 1 <= id <= |s.store.runs|)
      && (forall a: nat, b: nat | a in s.workers && b in s.workers && a != b ::
            s.store.runs[a - 1].cluster != s.store.runs[b - 1].cluster)
  {
    InvAlways(cfg, heap, steps);
    var s := After(cfg, Initial(heap), steps);
    forall id: nat | id in s.workers ensures 1 <= id <= |s.store.runs| && s.store.runs[id - 1].state == RUNNING {
      WorkerAt(cfg, s, id);
    }
  }

  /** At every moment a run's executions, and the rows measuring them, are a prefix of the
      iteration-major plan of the statements the run itself recorded. ABORTED means a proper
      prefix after a request for this run; SUCCEEDED means the whole plan, empty or not all failed. */
  lemma RunsFollowTheirOwnSnapshot(cfg: Config, heap: Heap, steps: seq<Step>, i: nat)
    requires HeapOk(heap) && i < |After(cfg, Initial(heap), steps).store.runs|
    ensures var s := After(cfg, Initial(heap), steps);
      && i + 1 in s.store.results && i + 1 in s.ran
      && var run, rows, ran := s.store.runs[i], s.store.results[i + 1], s.ran[i + 1];
         var plan := Plan(cfg.allows, run.queries, run.repetitions);
      && Measures(rows, ran) && ran <= plan
      && (run.state == ABORTED ==> ran < plan && i + 1 in s.asked)
      && (run.state == SUCCEEDED ==> ran == plan && (ran == [] || !AllFailed(rows)))
      && (run.error == EveryQueryFailed ==> run.state == FAILED && ran == plan && ran != [] && AllFailed(rows))
  {
    InvAlways(cfg, heap, steps);
    RunAt(cfg, After(cfg, Initial(heap), steps), i + 1);
  }

  /** A live worker reads an object that administrators may edit, and still executes the recorded SQL. */
  lemma LiveSetIsTheRecordedOne(cfg: Config, heap: Heap, steps: seq<Step>, id: nat)
    requires HeapOk(heap) && id in After(cfg, Initial(heap), steps).workers
    ensures var s := After(cfg, Initial(heap), steps);
      && 1 <= id <= |s.store.runs|
      && Live(s.heap, s.workers[id].setRef) == s.store.runs[id - 1].queries
  {
    InvAlways(cfg, heap, steps);
    WorkerAt(cfg, After(cfg, Initial(heap), steps), id);
  }

  // -------------------------------------------------------- what never changes

  /** Everything about a run except how it is going. */
  ghost predicate SameRun(a: Run, b: Run) {
    a == b.(state := a.state, error := a.error, stamped := a.stamped)
  }

  /** `after` may be a later moment of the same system. */
  ghost predicate RunGrows(a: Run, aRows: seq<Row>, aRan: seq<Execution>, b: Run, bRows: seq<Row>,
                           bRan: seq<Execution>)
  {
    && SameRun(a, b)
    && aRows <= bRows && aRan <= bRan
    && (Terminal(a.state) ==> b == a && bRows == aRows && bRan == aRan)
  }

  ghost predicate HasRuns(s: System) {
    forall k: nat | 1 <= k <= |s.store.runs| :: k in s.store.results && k in s.ran
  }

  ghost predicate Grows(s: System, t: System) {
    && HasRuns(s) && HasRuns(t)
    && |s.store.runs| <= |t.store.runs|
    && s.asked <= t.asked
    && forall i | 0 <= i < |s.store.runs| ::
      RunGrows(s.store.runs[i], s.store.results[i + 1], s.ran[i + 1],
               t.store.runs[i], t.store.results[i + 1], t.ran[i + 1])
  }

  lemma GrowsTransitive(s: System, t: System, u: System)
    requires Grows(s, t) && Grows(t, u)
    ensures Grows(s, u)
  {
    forall i | 0 <= i < |s.store.runs|
      ensures RunGrows(s.store.runs[i], s.store.results[i + 1], s.ran[i + 1],
                       u.store.runs[i], u.store.results[i + 1], u.ran[i + 1])
    {
      assert RunGrows(s.store.runs[i], s.store.results[i + 1], s.ran[i + 1],
                      t.store.runs[i], t.store.results[i + 1], t.ran[i + 1]);
    }
  }

  lemma InvHasRuns(cfg: Config, s: System)
    requires Inv(cfg, s)
    ensures HasRuns(s) && Grows(s, s)
  {
    forall k: nat | 1 <= k <= |s.store.runs| ensures k in s.store.results && k in s.ran { RunAt(cfg, s, k); }
  }

  /** Run `id` is RUNNING, and run `k` is the k-th. */
  ghost predicate Going(s: System, id: nat) {
    && StoreValid(s.store) && HasRuns(s)
    && 1 <= id <= |s.store.runs| && s.store.runs[id - 1].state == RUNNING
  }

  lemma EndGrows(s: System, id: nat, state: RunState, error: Note)
    requires Going(s, id)
    ensures Grows(s, Apply(s, id, Worked(Finish(s.store, id, state, error), None, None)))
  {
  }

  lemma MoveGrows(s: System, id: nat, w: Worked)
    requires Going(s, id) && w.store == s.store && w.ran.None?
    ensures Grows(s, Apply(s, id, w))
  {
  }

  lemma RecordGrows(s: System, id: nat, row: Row, w: Worked)
    requires Going(s, id) && w.store == AddResult(s.store, id, row)
    ensures Grows(s, Apply(s, id, w))
  {
    var t := Apply(s, id, w);
    forall i | 0 <= i < |s.store.runs|
      ensures RunGrows(s.store.runs[i], s.store.results[i + 1], s.ran[i + 1],
                       t.store.runs[i], t.store.results[i + 1], t.ran[i + 1])
    {
      var k := i + 1;
      assert k in s.store.results && k in s.ran;
    }
  }

  lemma WorkerGoing(cfg: Config, s: System, id: nat)
    requires Inv(cfg, s) && id in s.workers
    ensures Going(s, id)
  {
    InvHasRuns(cfg, s);
    WorkerAt(cfg, s, id);
  }

  lemma TurnApplies(allows: Allowlist, s: System, id: nat, live: seq<Query>, stopping: bool, e: Event)
    requires Going(s, id) && Turning(s, id) && s.workers[id].run == id
    ensures Grows(s, Apply(s, id, Turn(allows, s.store, s.workers[id], live, stopping, e)))
  {
    var w := s.workers[id];
    var r := Turn(allows, s.store, w, live, stopping, e);
    if w.phase.iteration > w.repetitions {
      if w.executed > 0 && w.failures == w.executed {
        EndGrows(s, id, FAILED, EveryQueryFailed);
      } else {
        EndGrows(s, id, SUCCEEDED, NoNote);
      }
    } else if w.phase.index >= |live| {
      MoveGrows(s, id, r);
    } else if stopping {
      EndGrows(s, id, ABORTED, StoppedAfter(w.executed));
    } else if e.Raises? {
      EndGrows(s, id, FAILED, WorkerError);
    } else {
      RecordGrows(s, id, RowFor(allows, live[w.phase.index], w.phase.iteration, e), r);
    }
  }

  lemma TurnGrows(cfg: Config, s: System, id: nat, e: Event)
    requires Inv(cfg, s)
    ensures Grows(s, WorkerTurn(cfg, s, id, e))
  {
    InvHasRuns(cfg, s);
    if Turning(s, id) {
      WorkerAt(cfg, s, id);
      WorkerGoing(cfg, s, id);
      TurnApplies(cfg.allows, s, id, Live(s.heap, s.workers[id].setRef), id in s.aborting, e);
    }
  }

  lemma OpensGrows(cfg: Config, s: System, id: nat, connects: bool)
    requires Inv(cfg, s)
    ensures Grows(s, WorkerOpens(s, id, connects))
  {
    InvHasRuns(cfg, s);
    if id in s.workers && s.workers[id].phase.Opening? {
      WorkerAt(cfg, s, id);
      WorkerGoing(cfg, s, id);
      if connects {
        MoveGrows(s, id, Open(s.store, s.workers[id], connects));
      } else {
        EndGrows(s, id, FAILED, CouldNotOpen);
      }
    }
  }

  lemma LaunchGrows(s: System, q: Request, setRef: nat, log: Audit.Log, a: Attempt)
    requires StoreValid(s.store) && HasRuns(s) && setRef < |s.heap.objects| && q.repetitions >= 1
    ensures Grows(s, Launch(s, q, setRef, log, a))
  {
    var t := Launch(s, q, setRef, log, a);
    forall i | 0 <= i < |s.store.runs|
      ensures RunGrows(s.store.runs[i], s.store.results[i + 1], s.ran[i + 1],
                       t.store.runs[i], t.store.results[i + 1], t.ran[i + 1])
    {
      var k := i + 1;
      assert k in s.store.results && k in s.ran;
      assert t.store.runs[i] == s.store.runs[i];
    }
  }

  lemma StartGrows(cfg: Config, s: System, q: Request, a: Attempt)
    requires Inv(cfg, s)
    ensures Grows(s, Start(cfg, s, q, a).state)
  {
    InvHasRuns(cfg, s);
    if Precheck(cfg, s, q).None? {
      var begin := Audit.Begin(Checked(s.log, a), q.actor, Audit.BENCHMARK_RUN, q.cluster + ":" + q.querySet,
                               q.reason);
      if begin.Ok? && !Busy(s.store.runs, q.cluster) {
        LaunchGrows(s, q, Lookup(s.heap, q.querySet).value, Written(s.log, begin.value, "", a), a);
      }
    }
  }

  lemma TickGrows(cfg: Config, s: System, now: int, tries: Attempts)
    requires Inv(cfg, s)
    ensures Grows(s, Tick(cfg, s, now, tries))
  {
    InvHasRuns(cfg, s);
    var holds: System -> bool := (t: System) => Inv(cfg, t) && Grows(s, t);
    forall t: System, q: Request, id: nat, k: nat | holds(t) ensures holds(Start(cfg, t, q, tries(id, k)).state) {
      StartKeeps(cfg, t, q, tries(id, k));
      StartGrows(cfg, t, q, tries(id, k));
      GrowsTransitive(s, t, Start(cfg, t, q, tries(id, k)).state);
    }
    forall t: System, u: System | holds(t) && OnlyRows(t, u) ensures holds(u) { SameRunsKeeps(cfg, t, u); }
    TickCarries(cfg, s, now, tries, holds);
  }

  lemma RestartGrows(cfg: Config, s: System)
    requires Inv(cfg, s)
    ensures Grows(s, Restart(s))
  {
    InvHasRuns(cfg, s);
  }

  ghost predicate LeavesRuns(s: System, t: System) {
    t.store == s.store && t.ran == s.ran && t.asked == s.asked && t.workers == s.workers
  }

  lemma SaveLeavesRuns(cfg: Config, s: System, step: Step)
    requires step.SavesQuery?
    ensures LeavesRuns(s, Next(cfg, s, step))
  {
  }

  lemma OtherSetEditsLeaveRuns(cfg: Config, s: System, step: Step)
    requires EditsSets(step) && !step.SavesQuery?
    ensures LeavesRuns(s, Next(cfg, s, step))
  {
  }

  lemma SetEditsLeaveRuns(cfg: Config, s: System, step: Step)
    requires EditsSets(step)
    ensures LeavesRuns(s, Next(cfg, s, step))
  {
    if step.SavesQuery? { SaveLeavesRuns(cfg, s, step); } else { OtherSetEditsLeaveRuns(cfg, s, step); }
  }

  /** Every step keeps the identity of every run, only appends to its results, and leaves a terminal run alone. */
  lemma StepGrows(cfg: Config, s: System, step: Step)
    requires Inv(cfg, s)
    ensures Grows(s, Next(cfg, s, step))
  {
    InvHasRuns(cfg, s);
    match step
    case Starts(q, a) => StartGrows(cfg, s, q, a);
    case Ticks(now, tries) => TickGrows(cfg, s, now, tries);
    case Opens(id, connects) => OpensGrows(cfg, s, id, connects);
    case Works(id, e) => TurnGrows(cfg, s, id, e);
    case Restarts => RestartGrows(cfg, s);
    case Aborts(admin, id) =>
    case _ =>
      if EditsSets(step) { SetEditsLeaveRuns(cfg, s, step); } else { ScheduleEditsLeaveRuns(cfg, s, step); }
  }

  /** A terminal run never changes again, whatever happens later; no run is ever lost or rewritten. */
  lemma {:induction false} TerminalRunsAreFinal(cfg: Config, heap: Heap, steps: seq<Step>, later: seq<Step>)
    requires HeapOk(heap)
    ensures Grows(After(cfg, Initial(heap), steps), After(cfg, Initial(heap), steps + later))
  {
    InvAlways(cfg, heap, steps);
    if later == [] {
      assert steps + later == steps;
      InvHasRuns(cfg, After(cfg, Initial(heap), steps));
    } else {
      var shorter := steps + later[..|later|-1];
      assert (steps + later)[..|steps + later|-1] == shorter;
      TerminalRunsAreFinal(cfg, heap, steps, later[..|later|-1]);
      InvAlways(cfg, heap, shorter);
      StepGrows(cfg, After(cfg, Initial(heap), shorter), later[|later|-1]);
      GrowsTransitive(After(cfg, Initial(heap), steps), After(cfg, Initial(heap), shorter),
                      After(cfg, Initial(heap), steps + later));
    }
  }

  // -------------------------------------------------------------- aborts

  lemma OnlyAbortAsks(cfg: Config, s: System, step: Step, id: nat)
    requires id in Next(cfg, s, step).asked && id !in s.asked
    ensures step == Aborts(true, id)
  {
    if EditsSets(step) {
      SetEditsLeaveRuns(cfg, s, step);
    } else if EditsSchedules(step) {
      ScheduleEditsLeaveRuns(cfg, s, step);
    } else if step.Ticks? {
      var holds: System -> bool := (t: System) => t.asked == s.asked;
      TickCarries(cfg, s, step.now, step.tries, holds);
    }
  }

  /** A stop was asked of run `id` only by an operator's abort of that very run. */
  lemma {:induction false} AskedMeansAborted(cfg: Config, heap: Heap, steps: seq<Step>, id: nat)
    ensures id in After(cfg, Initial(heap), steps).asked ==> Aborts(true, id) in steps
  {
    if steps != [] && id in After(cfg, Initial(heap), steps).asked {
      var before, step := steps[..|steps|-1], steps[|steps|-1];
      var s := After(cfg, Initial(heap), before);
      AskedMeansAborted(cfg, heap, before, id);
      assert step in steps;
      if id !in s.asked { OnlyAbortAsks(cfg, s, step, id); }
    }
  }

  /** Aborting one run stops no other: a run that ended ABORTED was itself aborted. */
  lemma AbortStopsNoOtherRun(cfg: Config, heap: Heap, steps: seq<Step>, i: nat)
    requires HeapOk(heap) && i < |After(cfg, Initial(heap), steps).store.runs|
    requires After(cfg, Initial(heap), steps).store.runs[i].state == ABORTED
    ensures Aborts(true, i + 1) in steps
  {
    RunsFollowTheirOwnSnapshot(cfg, heap, steps, i);
    AskedMeansAborted(cfg, heap, steps, i + 1);
  }
}
