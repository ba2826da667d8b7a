/** Benchmark runs and their results: append-only, at most one RUNNING run per cluster. */
module RunStore {
  import opened Wrappers
  import opened QuerySets

  datatype RunState = RUNNING | SUCCEEDED | FAILED | ABORTED | UNKNOWN

  /** The `error` column: what the run says about its own end. */
  datatype Note =
    | NoNote
    | StoppedAfter(executed: nat)
    | EveryQueryFailed
    | CouldNotOpen
    | WorkerError
    | Restarted

  datatype Run = Run(
    id: nat, cluster: string, querySet: string, state: RunState, reason: string, actor: string,
    repetitions: nat, queries: seq<Query>, scheduleId: Option<nat>, error: Note, stamped: bool)

  /** One execution of one query. Measurements that were not taken are absent, not zero. */
  datatype Row = Row(
    query: string, iteration: nat, failed: bool,
    elapsedMs: Option<real>, cpuMs: Option<real>, rowsRead: Option<real>)

  datatype Store = Store(runs: seq<Run>, results: map<nat, seq<Row>>, next: nat)

  const EMPTY_STORE := Store([], map[], 1)

  predicate Terminal(state: RunState) { state != RUNNING }

  predicate Busy(runs: seq<Run>, cluster: string) {
    exists i | 0 <= i < |runs| :: runs[i].state == RUNNING && runs[i].cluster == cluster
  }

  function NewRun(s: Store, cluster: string, querySet: string, reason: string, actor: string,
                  repetitions: nat, queries: seq<Query>, scheduleId: Option<nat>): Run
  {
    Run(s.next, cluster, querySet, RUNNING, reason, actor, repetitions, queries, scheduleId, NoNote, false)
  }

  function Created(s: Store, run: Run): Store {
    Store(s.runs + [run], s.results[run.id := []], s.next + 1)
  }

  function ResultsOf(s: Store, id: nat): seq<Row> {
    if id in s.results then s.results[id] else []
  }

  function AddResult(s: Store, id: nat, row: Row): Store {
    s.(results := s.results[id := ResultsOf(s, id) + [row]])
  }

  /** `finished_at` is stamped unless the run ends UNKNOWN. */
  function Ended(run: Run, state: RunState, error: Note): Run {
    run.(state := state, error := error, stamped := state != UNKNOWN)
  }

  function Finish(s: Store, id: nat, state: RunState, error: Note): Store {
    s.(runs := seq(|s.runs|, i requires 0 <= i < |s.runs| =>
      if s.runs[i].id == id then Ended(s.runs[i], state, error) else s.runs[i]))
  }

  /** The startup statement: every run left RUNNING becomes UNKNOWN and keeps an error it already has. */
  function Orphaned(run: Run): Run {
    if run.state == RUNNING
    then run.(state := UNKNOWN, error := if run.error == NoNote then Restarted else run.error)
    else run
  }

  function Reconcile(s: Store): Store {
    s.(runs := seq(|s.runs|, i requires 0 <= i < |s.runs| => Orphaned(s.runs[i])))
  }

  /** Is some run of this set executing? What an edit asks first. */
  predicate SetIsRunning(s: Store, querySet: string) {
    exists i | 0 <= i < |s.runs| :: s.runs[i].state == RUNNING && s.runs[i].querySet == querySet
  }

  // ------------------------------------------------------------ invariants

  ghost predicate OnePerCluster(runs: seq<Run>) {
    forall i, j | 0 <= i < j < |runs| && runs[i].state == RUNNING && runs[j].state == RUNNING ::
      runs[i].cluster != runs[j].cluster
  }

  /** Run `k` is the k-th created, its results exist, and no cluster runs two. */
  ghost predicate StoreValid(s: Store) {
    && s.next == |s.runs| + 1
    && (forall i | 0 <= i < |s.runs| :: s.runs[i].id == i + 1)
    && (forall k: nat :: k in s.results <==> 1 <= k < s.next)
    && OnePerCluster(s.runs)
  }

  lemma CreatedIsValid(s: Store, run: Run)
    requires StoreValid(s) && run.id == s.next && !Busy(s.runs, run.cluster)
    ensures StoreValid(Created(s, run))
  {
  }

  lemma AddResultIsValid(s: Store, id: nat, row: Row)
    requires StoreValid(s) && 1 <= id < s.next
    ensures StoreValid(AddResult(s, id, row))
  {
  }

  lemma FinishIsValid(s: Store, id: nat, state: RunState, error: Note)
    requires StoreValid(s) && Terminal(state)
    ensures StoreValid(Finish(s, id, state, error))
    ensures forall c | Busy(Finish(s, id, state, error).runs, c) :: Busy(s.runs, c)
  {
  }

  /** After a restart no run is RUNNING and no cluster is blocked. */
  lemma ReconcileFreesEveryCluster(s: Store, cluster: string)
    requires StoreValid(s)
    ensures StoreValid(Reconcile(s)) && !Busy(Reconcile(s).runs, cluster)
    ensures Reconcile(s).results == s.results
  {
  }

  // ------------------------------------------------------------- the class

  class InMemoryBenchmarkRepository {
    var runs: seq<Run>
    var results: map<nat, seq<Row>>
    var next: nat

    constructor ()
      ensures View() == EMPTY_STORE && StoreValid(View())
    {
      runs, results, next := [], map[], 1;
    }

    ghost function View(): Store
      reads this
    {
      Store(runs, results, next)
    }

    /** Refused exactly when the cluster already has a RUNNING run. */
    method Create(cluster: string, querySet: string, reason: string, actor: string,
                  repetitions: nat, queries: seq<Query>, scheduleId: Option<nat>)
      returns (r: Option<Run>)
      modifies this
      ensures r.None? <==> Busy(old(runs), cluster)
      ensures r.None? ==> View() == old(View())
      ensures r.Some? ==>
        && r.value == NewRun(old(View()), cluster, querySet, reason, actor, repetitions, queries, scheduleId)
        && View() == Created(old(View()), r.value)
      ensures old(StoreValid(View())) ==> StoreValid(View())
    {
      var i := 0;
      while i < |runs|
        invariant 0 <= i <= |runs|
        invariant forall j | 0 <= j < i :: !(runs[j].state == RUNNING && runs[j].cluster == cluster)
      {
        if runs[i].state == RUNNING && runs[i].cluster == cluster {
          return None;
        }
        i := i + 1;
      }
      var run := Run(next, cluster, querySet, RUNNING, reason, actor, repetitions, queries, scheduleId, NoNote, false);
      if StoreValid(View()) { CreatedIsValid(View(), run); }
      next := next + 1;
      runs := runs + [run];
      results := results[run.id := []];
      return Some(run);
    }

    method AddResultRow(id: nat, row: Row)
      modifies this`results
      ensures View() == AddResult(old(View()), id, row)
    {
      var rows := if id in results then results[id] else [];
      results := results[id := rows + [row]];
    }

    method FinishRun(id: nat, state: RunState, error: Note)
      modifies this`runs
      ensures View() == Finish(old(View()), id, state, error)
    {
      ghost var before := runs;
      var i := 0;
      while i < |runs|
        invariant 0 <= i <= |runs| == |before|
        invariant forall j | 0 <= j < i ::
          runs[j] == if before[j].id == id then Ended(before[j], state, error) else before[j]
        invariant forall j | i <= j < |runs| :: runs[j] == before[j]
      {
        if runs[i].id == id {
          runs := runs[i := runs[i].(state := state, error := error, stamped := state != UNKNOWN)];
        }
        i := i + 1;
      }
      assert runs == Finish(old(View()), id, state, error).runs;
    }

    /** The RUNNING runs, oldest first. */
    method Active() returns (active: seq<Run>)
      ensures forall r :: r in active <==> r in runs && r.state == RUNNING
      ensures OnePerCluster(runs) ==> forall i, j | 0 <= i < j < |active| :: active[i].cluster != active[j].cluster
    {
      active := [];
      ghost var from: seq<nat> := [];
      var i := 0;
      while i < |runs|
        invariant 0 <= i <= |runs| && |from| == |active|
        invariant forall r :: r in active <==> r in runs[..i] && r.state == RUNNING
        invariant forall k | 0 <= k < |from| :: from[k] < i && active[k] == runs[from[k]] && active[k].state == RUNNING
        invariant forall k, m | 0 <= k < m < |from| :: from[k] < from[m]
      {
        assert runs[..i + 1] == runs[..i] + [runs[i]];
        if runs[i].state == RUNNING {
          active := active + [runs[i]];
          from := from + [i];
        }
        i := i + 1;
      }
      assert runs[..|runs|] == runs;
    }
  }
}
