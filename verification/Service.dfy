/**
  The benchmark service as one system: every service call, every tick of the scheduler, every
  turn of a worker and every restart of the process is one atomic step. What the audit store does
  during an action is an input of the step that performs it.
 */
module Service {
  import opened Wrappers
  import opened QuerySets
  import opened RunStore
  import opened Runner
  import opened Schedules
  import Audit

  /** The declared clusters, the repetition ceiling, the statement check and how a statement is stored. */
  datatype Config = Config(clusters: set<string>, maxRepetitions: int, allows: Allowlist, stores: string -> string)

  /** Query-set objects live in memory and are shared: `named` is the repository's dictionary,
      and a worker keeps the index of the object it was started with. */
  datatype SetObject = SetObject(key: string, queries: seq<Query>)
  datatype Heap = Heap(objects: seq<SetObject>, named: map<string, nat>)

  /** What has happened to one schedule, kept by this model only. */
  datatype Turnout = Ran | Broke | Skipped | SwitchedOn
  datatype History = History(first: int, claims: seq<int>, firings: seq<Turnout>)

  /** What the audit store does for one action: whether it answers the check before, and whether it
      keeps the record written after. It may go down in between. */
  datatype Attempt = Attempt(answers: bool, keeps: bool)

  /** The same for every start of a tick: by schedule and by position in its list of clusters. */
  type Attempts = (nat, nat) -> Attempt

  function Checked(log: Audit.Log, a: Attempt): Audit.Log { log.(writable := a.answers) }

  function Written(log: Audit.Log, record: Audit.Record, failure: string, a: Attempt): Audit.Log {
    Audit.Exit(Audit.Enter(log).(writable := a.keeps), record, failure)
  }

  datatype System = System(
    store: Store, heap: Heap,
    workers: map<nat, Worker>, aborting: set<nat>,
    schedules: seq<Schedule>, nextSchedule: nat,
    log: Audit.Log,
    // kept by this model only
    asked: set<nat>, ran: map<nat, seq<Execution>>, histories: seq<History>, trail: seq<Attempt>)

  function Initial(heap: Heap): System {
    System(EMPTY_STORE, heap, map[], {}, [], 1, Audit.EMPTY, {}, map[], [], [])
  }

  function Lookup(heap: Heap, key: string): Option<nat> {
    if key in heap.named && heap.named[key] < |heap.objects| then Some(heap.named[key]) else None
  }

  function Live(heap: Heap, setRef: nat): seq<Query> {
    if setRef < |heap.objects| then heap.objects[setRef].queries else []
  }

  // -------------------------------------------------------------- starting

  datatype Request = Request(
    admin: bool, actor: string, cluster: string, querySet: string, reason: Audit.Reason,
    repetitions: int, scheduleId: Option<nat>)

  datatype Refusal =
    | Forbidden
    | NoSuchCluster
    | NoSuchSet
    | RepetitionsOutOfRange
    | NotAudited(why: Audit.AuditError)
    | AlreadyRunning

  datatype Started = Started(state: System, refusal: Option<Refusal>)

  /** Everything `start` checks before it opens an audited action. */
  function Precheck(cfg: Config, s: System, q: Request): Option<Refusal> {
    if !q.admin then Some(Forbidden)
    else if q.cluster !in cfg.clusters then Some(NoSuchCluster)
    else if Lookup(s.heap, q.querySet).None? then Some(NoSuchSet)
    else if !(1 <= q.repetitions <= cfg.maxRepetitions) then Some(RepetitionsOutOfRange)
    else None
  }

  /** The run is recorded with the set by value; the worker is given the set by reference. */
  function Launch(s: System, q: Request, setRef: nat, log: Audit.Log, a: Attempt): System
    requires setRef < |s.heap.objects| && q.repetitions >= 1
  {
    var declared := s.heap.objects[setRef];
    var text := if q.reason.Given? then q.reason.text else "";
    var run := NewRun(s.store, q.cluster, declared.key, text, q.actor, q.repetitions, declared.queries, q.scheduleId);
    s.(store := Created(s.store, run),
       workers := s.workers[run.id := Worker(run.id, setRef, q.repetitions, Opening, 0, 0)],
       ran := s.ran[run.id := []],
       log := log,
       trail := s.trail + [a])
  }

  function Start(cfg: Config, s: System, q: Request, a: Attempt): Started {
    var refusal := Precheck(cfg, s, q);
    if refusal.Some? then Started(s, refusal)
    else
      match Audit.Begin(Checked(s.log, a), q.actor, Audit.BENCHMARK_RUN, q.cluster + ":" + q.querySet, q.reason)
      case Err(e) => Started(s, Some(NotAudited(e)))
      case Ok(record) =>
        if Busy(s.store.runs, q.cluster)
        then Started(s.(log := Written(s.log, record, "BenchmarkAlreadyRunning", a)), Some(AlreadyRunning))
        else Started(Launch(s, q, Lookup(s.heap, q.querySet).value, Written(s.log, record, "", a), a), None)
  }

  // ------------------------------------------------------------- scheduling

  function RequestOf(row: Schedule, cluster: string): Request {
    Request(true, row.createdBy, cluster, row.querySet, Audit.Given(row.reason), row.repetitions, Some(row.id))
  }

  datatype Progress = Progress(state: System, firing: Firing)

  /** One schedule's turn on its first `n` clusters. A busy cluster is skipped, any other refusal broke. */
  function FireOn(cfg: Config, s: System, row: Schedule, n: nat, tries: Attempts): Progress
    requires n <= |row.clusters|
  {
    if n == 0 then Progress(s, Fired(0, 0))
    else
      var p := FireOn(cfg, s, row, n - 1, tries);
      var r := Start(cfg, p.state, RequestOf(row, row.clusters[n - 1]), tries(row.id, n - 1));
      match r.refusal
      case None => Progress(r.state, p.firing.(started := p.firing.started + 1))
      case Some(AlreadyRunning) => Progress(r.state, p.firing)
      case Some(_) => Progress(r.state, p.firing.(broke := p.firing.broke + 1))
  }

  function TurnoutOf(f: Firing): Turnout {
    if f.started > 0 then Ran else if f.broke > 0 then Broke else Skipped
  }

  function Noted(h: History, t: Turnout): History { h.(firings := h.firings + [t]) }

  /** Start on every cluster, then record on the row what happened. */
  function Fire(cfg: Config, s: System, row: Schedule, now: int, tries: Attempts): System {
    var p := FireOn(cfg, s, row, |row.clusters|, tries);
    var at := IndexById(p.state.schedules, row.id);
    if at.None? || at.value >= |p.state.histories| then p.state
    else p.state.(
      schedules := p.state.schedules[at.value := AfterFiring(p.state.schedules[at.value], row, p.firing, now)],
      histories := p.state.histories[at.value := Noted(p.state.histories[at.value], TurnoutOf(p.firing))])
  }

  function FireAll(cfg: Config, s: System, due: seq<Schedule>, n: nat, now: int, tries: Attempts): System
    requires n <= |due|
  {
    if n == 0 then s else Fire(cfg, FireAll(cfg, s, due, n - 1, now, tries), due[n - 1], now, tries)
  }

  function ClaimStep(s: System, now: int): System {
    s.(schedules := ClaimAll(s.schedules, now),
       histories := seq(|s.histories|, i requires 0 <= i < |s.histories| =>
         if i < |s.schedules| && Due(s.schedules[i], now)
         then s.histories[i].(claims := s.histories[i].claims + [now]) else s.histories[i]))
  }

  /** `tick_schedules`: claim, then fire every claimed row in order. */
  function Tick(cfg: Config, s: System, now: int, tries: Attempts): System {
    var due := Claimed(s.schedules, now);
    FireAll(cfg, ClaimStep(s, now), due, |due|, now, tries)
  }

  // ------------------------------------------------------------------ steps

  datatype Step =
    | Starts(q: Request, a: Attempt)
    | Aborts(admin: bool, id: nat)
    | SavesSet(admin: bool, actor: string, key: string, reason: Audit.Reason, a: Attempt)
    | DeletesSet(admin: bool, actor: string, key: string, reason: Audit.Reason, a: Attempt)
    | SavesQuery(admin: bool, actor: string, key: string, name: string, title: string, statement: string,
                 position: int, original: Option<string>, reason: Audit.Reason, a: Attempt)
    | DeletesQuery(admin: bool, actor: string, key: string, name: string, reason: Audit.Reason, a: Attempt)
    | CreatesSchedule(admin: bool, actor: string, name: string, querySet: string, clusters: seq<string>,
                      interval: int, repetitions: int, why: string, startsAt: int, a: Attempt)
    | SwitchesSchedule(admin: bool, actor: string, id: nat, enabled: bool, reason: Audit.Reason, now: int, a: Attempt)
    | DeletesSchedule(admin: bool, actor: string, id: nat, reason: Audit.Reason, a: Attempt)
    | Ticks(now: int, tries: Attempts)
    | Opens(id: nat, connects: bool)
    | Works(id: nat, event: Event)
    | Restarts

  function Abort(s: System, admin: bool, id: nat): System {
    if admin && (exists i | 0 <= i < |s.store.runs| :: s.store.runs[i].id == id && s.store.runs[i].state == RUNNING)
    then s.(aborting := s.aborting + {id}, asked := s.asked + {id})
    else s
  }

  /** An audited edit of the query sets: refused while the set runs, recorded whether or not it succeeds. */
  function Edit(s: System, actor: string, key: string, target: string, reason: Audit.Reason,
                changed: Option<Heap>, a: Attempt): System
  {
    if SetIsRunning(s.store, key) then s
    else match Audit.Begin(Checked(s.log, a), actor, Audit.BENCHMARK_QUERY_CHANGE, target, reason)
      case Err(_) => s
      case Ok(record) =>
        match changed
        case None => s.(log := Written(s.log, record, "refused", a))
        case Some(heap) => s.(log := Written(s.log, record, "", a), heap := heap)
  }

  function WithSet(heap: Heap, key: string): Heap {
    if Lookup(heap, key).Some? then heap
    else Heap(heap.objects + [SetObject(key, [])], heap.named[key := |heap.objects|])
  }

  function WithQueries(heap: Heap, at: nat, queries: seq<Query>): Heap
    requires at < |heap.objects|
  {
    heap.(objects := heap.objects[at := heap.objects[at].(queries := queries)])
  }

  /** The cap is checked only when the call says it adds: no original name, or a different one. */
  predicate OverCap(queries: seq<Query>, name: string, original: Option<string>) {
    original != Some(name) && |queries| >= MAX_QUERIES
  }

  function SaveQuery(cfg: Config, s: System, actor: string, key: string, name: string, title: string,
                     statement: string, position: int, original: Option<string>, reason: Audit.Reason,
                     a: Attempt): System
  {
    var at := Lookup(s.heap, key);
    if at.None? || !ValidName(name) || !cfg.allows(cfg.stores(statement)) then s
    else
      var queries := s.heap.objects[at.value].queries;
      if OverCap(queries, name, original) then s
      else
        var saved := SaveInto(queries, name, title, cfg.stores(statement), position, original);
        Edit(s, actor, key, key + "." + name, reason,
             if saved.Some? then Some(WithQueries(s.heap, at.value, saved.value)) else None, a)
  }

  function DeleteQuery(s: System, actor: string, key: string, name: string, reason: Audit.Reason, a: Attempt): System {
    var at := Lookup(s.heap, key);
    if at.None? then s
    else Edit(s, actor, key, key + "." + name, reason,
              Some(WithQueries(s.heap, at.value, Without(s.heap.objects[at.value].queries, name))), a)
  }

  function CreateSchedule(cfg: Config, s: System, actor: string, name: string, querySet: string, clusters: seq<string>,
                          interval: int, repetitions: int, reason: string, startsAt: int, a: Attempt): System
  {
    if Validate(name, interval, repetitions, clusters, reason).Some? || Lookup(s.heap, querySet).None? then s
    else if exists c | c in Chosen(clusters) :: c !in cfg.clusters then s
    else match Audit.Begin(Checked(s.log, a), actor, Audit.BENCHMARK_SCHEDULE_CHANGE, Stripped(name),
                           Audit.Given(Stripped(reason)))
      case Err(_) => s
      case Ok(record) =>
        if exists i | 0 <= i < |s.schedules| :: s.schedules[i].name == Stripped(name)
        then s.(log := Written(s.log, record, "name taken", a))
        else s.(
          log := Written(s.log, record, "", a),
          schedules := s.schedules + [Schedule(s.nextSchedule, Stripped(name), querySet, Chosen(clusters), repetitions,
                         Stripped(reason), interval, startsAt, actor, true, false, 0, None)],
          histories := s.histories + [History(startsAt, [], [])],
          nextSchedule := s.nextSchedule + 1)
  }

  function SwitchSchedule(s: System, actor: string, id: nat, enabled: bool, reason: Audit.Reason, now: int,
                          a: Attempt): System
  {
    var at := IndexById(s.schedules, id);
    if at.None? || at.value >= |s.histories| then s
    else match Audit.Begin(Checked(s.log, a), actor, Audit.BENCHMARK_SCHEDULE_CHANGE,
                           s.schedules[at.value].name, reason)
      case Err(_) => s
      case Ok(record) => s.(
        log := Written(s.log, record, "", a),
        schedules := s.schedules[at.value := Switched(s.schedules[at.value], enabled, now)],
        histories := if enabled then s.histories[at.value := Noted(s.histories[at.value], SwitchedOn)] else s.histories)
  }

  function DeleteSchedule(s: System, actor: string, id: nat, reason: Audit.Reason, a: Attempt): System {
    var at := IndexById(s.schedules, id);
    if at.None? || at.value >= |s.histories| then s
    else match Audit.Begin(Checked(s.log, a), actor, Audit.BENCHMARK_SCHEDULE_CHANGE,
                           s.schedules[at.value].name, reason)
      case Err(_) => s
      case Ok(record) => s.(
        log := Written(s.log, record, "", a),
        schedules := s.schedules[..at.value] + s.schedules[at.value + 1..],
        histories := s.histories[..at.value] + s.histories[at.value + 1..])
  }

  /** One worker step put back into the system; a worker that ended forgets its abort flag. */
  function Apply(s: System, id: nat, w: Worked): System {
    var ran := if w.ran.None? then s.ran
               else s.ran[id := (if id in s.ran then s.ran[id] else []) + [w.ran.value]];
    if w.worker.Some? then s.(store := w.store, workers := s.workers[id := w.worker.value], ran := ran)
    else s.(store := w.store, workers := s.workers - {id}, aborting := s.aborting - {id}, ran := ran)
  }

  function WorkerOpens(s: System, id: nat, connects: bool): System {
    if id in s.workers && s.workers[id].phase.Opening? then Apply(s, id, Open(s.store, s.workers[id], connects)) else s
  }

  function WorkerTurn(cfg: Config, s: System, id: nat, e: Event): System {
    if id in s.workers && s.workers[id].phase.Looping?
    then Apply(s, id, Turn(cfg.allows, s.store, s.workers[id], Live(s.heap, s.workers[id].setRef), id in s.aborting, e))
    else s
  }

  /** The process dies with its workers and flags; at startup the orphans are reconciled. */
  function Restart(s: System): System {
    s.(workers := map[], aborting := {}, store := Reconcile(s.store))
  }

  /** Edits of the query sets. */
  predicate EditsSets(step: Step) {
    step.SavesSet? || step.DeletesSet? || step.SavesQuery? || step.DeletesQuery?
  }

  /** Edits of the schedules. */
  predicate EditsSchedules(step: Step) {
    step.CreatesSchedule? || step.SwitchesSchedule? || step.DeletesSchedule?
  }

  function Next(cfg: Config, s: System, step: Step): System {
    match step
    case Starts(q, a) => Start(cfg, s, q, a).state
    case Aborts(admin, id) => Abort(s, admin, id)
    case SavesSet(admin, actor, key, reason, a) =>
      if admin && ValidName(key) then Edit(s, actor, key, key, reason, Some(WithSet(s.heap, key)), a) else s
    case DeletesSet(admin, actor, key, reason, a) =>
      if admin && Lookup(s.heap, key).Some?
      then Edit(s, actor, key, key, reason, Some(s.heap.(named := s.heap.named - {key})), a) else s
    case SavesQuery(admin, actor, key, name, title, statement, position, original, reason, a) =>
      if admin then SaveQuery(cfg, s, actor, key, name, title, statement, position, original, reason, a) else s
    case DeletesQuery(admin, actor, key, name, reason, a) =>
      if admin then DeleteQuery(s, actor, key, name, reason, a) else s
    case CreatesSchedule(admin, actor, name, querySet, clusters, interval, repetitions, reason, startsAt, a) =>
      if admin
      then CreateSchedule(cfg, s, actor, name, querySet, clusters, interval, repetitions, reason, startsAt, a) else s
    case SwitchesSchedule(admin, actor, id, enabled, reason, now, a) =>
      if admin then SwitchSchedule(s, actor, id, enabled, reason, now, a) else s
    case DeletesSchedule(admin, actor, id, reason, a) =>
      if admin then DeleteSchedule(s, actor, id, reason, a) else s
    case Ticks(now, tries) => Tick(cfg, s, now, tries)
    case Opens(id, connects) => WorkerOpens(s, id, connects)
    case Works(id, e) => WorkerTurn(cfg, s, id, e)
    case Restarts => Restart(s)
  }

  /** Any interleaving of steps. */
  function After(cfg: Config, s: System, steps: seq<Step>): System {
    if steps == [] then s
    else Next(cfg, After(cfg, s, steps[..|steps|-1]), steps[|steps|-1])
  }
}
