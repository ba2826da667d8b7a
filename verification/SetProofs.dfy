/** What every interleaving keeps about query sets, and what runs inherit from them. */
module SetProofs {
  import opened Wrappers
  import opened Order
  import opened QuerySets
  import opened RunStore
  import opened Runner
  import opened Service
  import opened RunProofs
  import opened Protocol
  import AuditTrail
  import Audit
  import Sql

  /** Sorted by position then name, no name twice, every name usable, every statement allowed. */
  ghost predicate SetOk(allows: Allowlist, queries: seq<Query>) {
    && WellFormed(queries)
    && forall q | q in queries :: q.name != "" && allows(q.sql)
  }

  ghost predicate SetsOk(cfg: Config, heap: Heap) {
    forall i | 0 <= i < |heap.objects| :: SetOk(cfg.allows, heap.objects[i].queries)
  }

  ghost predicate SnapshotsOk(cfg: Config, runs: seq<Run>) {
    forall i | 0 <= i < |runs| :: SetOk(cfg.allows, runs[i].queries)
  }

  ghost predicate AllOk(cfg: Config, s: System) { SetsOk(cfg, s.heap) && SnapshotsOk(cfg, s.store.runs) }

  lemma SavedSetOk(allows: Allowlist, queries: seq<Query>, name: string, title: string, sql: string, position: int,
                   original: Option<string>)
    requires SetOk(allows, queries) && name != "" && allows(sql)
    ensures var r := SaveInto(queries, name, title, sql, position, original);
      r.Some? ==> SetOk(allows, r.value)
  {
    SaveKeepsSetWellFormed(queries, name, title, sql, position, original);
    var r := SaveInto(queries, name, title, sql, position, original);
    if r.Some? {
      var placed := Placed(queries, name, title, sql, position, original);
      QueryOrder();
      SortedSameElements(placed, QueryLeq);
      forall q | q in r.value ensures q.name != "" && allows(q.sql) {
        assert q in placed;
        var at := Target(queries, original);
        if at.Some? {
          var k :| 0 <= k < |placed| && placed[k] == q;
          if k != at.value { assert queries[k] == q; }
        } else {
          assert q in queries || q == Saved(queries, name, title, sql, position, original);
        }
      }
    }
  }

  lemma ReplacedHeapOk(cfg: Config, heap: Heap, at: nat, queries: seq<Query>)
    requires SetsOk(cfg, heap) && at < |heap.objects| && SetOk(cfg.allows, queries)
    ensures SetsOk(cfg, WithQueries(heap, at, queries))
  {
  }

  lemma SaveKeepsSets(cfg: Config, s: System, actor: string, key: string, name: string, title: string,
                      statement: string, position: int, original: Option<string>, reason: Audit.Reason, a: Attempt)
    requires SetsOk(cfg, s.heap)
    ensures SetsOk(cfg, SaveQuery(cfg, s, actor, key, name, title, statement, position, original, reason, a).heap)
  {
    var at := Lookup(s.heap, key);
    if at.Some? && ValidName(name) && cfg.allows(cfg.stores(statement)) {
      var queries := s.heap.objects[at.value].queries;
      var saved := SaveInto(queries, name, title, cfg.stores(statement), position, original);
      SavedSetOk(cfg.allows, queries, name, title, cfg.stores(statement), position, original);
      if saved.Some? { ReplacedHeapOk(cfg, s.heap, at.value, saved.value); }
      EditTakesOrLeaves(s, actor, key, key + "." + name, reason,
                 if saved.Some? then Some(WithQueries(s.heap, at.value, saved.value)) else None, a);
    }
  }

  lemma DeleteKeepsSets(cfg: Config, s: System, actor: string, key: string, name: string, reason: Audit.Reason,
                        a: Attempt)
    requires SetsOk(cfg, s.heap)
    ensures SetsOk(cfg, DeleteQuery(s, actor, key, name, reason, a).heap)
  {
    var at := Lookup(s.heap, key);
    if at.Some? {
      var queries := s.heap.objects[at.value].queries;
      DeleteKeepsSetWellFormed(queries, name);
      ReplacedHeapOk(cfg, s.heap, at.value, Without(queries, name));
      EditTakesOrLeaves(s, actor, key, key + "." + name, reason,
                 Some(WithQueries(s.heap, at.value, Without(queries, name))), a);
    }
  }

  lemma SetEditKeepsSets(cfg: Config, s: System, step: Step)
    requires SetsOk(cfg, s.heap) && EditsSets(step)
    ensures SetsOk(cfg, Next(cfg, s, step).heap)
  {
    match step
    case SavesSet(_, actor, key, reason, a) =>
      EditTakesOrLeaves(s, actor, key, key, reason, Some(WithSet(s.heap, key)), a);
    case DeletesSet(_, actor, key, reason, a) =>
      EditTakesOrLeaves(s, actor, key, key, reason, Some(s.heap.(named := s.heap.named - {key})), a);
    case SavesQuery(_, actor, key, name, title, statement, position, original, reason, a) =>
      SaveKeepsSets(cfg, s, actor, key, name, title, statement, position, original, reason, a);
    case DeletesQuery(_, actor, key, name, reason, a) => DeleteKeepsSets(cfg, s, actor, key, name, reason, a);
  }

  lemma StartInherits(cfg: Config, s: System, q: Request, a: Attempt)
    requires AllOk(cfg, s)
    ensures AllOk(cfg, Start(cfg, s, q, a).state)
  {
  }

  lemma TickInherits(cfg: Config, s: System, now: int, tries: Attempts)
    requires AllOk(cfg, s)
    ensures AllOk(cfg, Tick(cfg, s, now, tries))
  {
    var holds: System -> bool := (t: System) => AllOk(cfg, t);
    forall t: System, q: Request, id: nat, k: nat | holds(t) ensures holds(Start(cfg, t, q, tries(id, k)).state) {
      StartInherits(cfg, t, q, tries(id, k));
    }
    TickCarries(cfg, s, now, tries, holds);
  }

  lemma QuietStepInherits(cfg: Config, s: System, step: Step)
    requires AllOk(cfg, s) && (step.Opens? || step.Works? || step.Aborts? || step.Restarts?)
    ensures AllOk(cfg, Next(cfg, s, step))
  {
    AuditTrail.QuietStep(cfg, s, step);
    var t := Next(cfg, s, step);
    assert t.heap == s.heap;
    forall i | 0 <= i < |t.store.runs| ensures SetOk(cfg.allows, t.store.runs[i].queries) {
      assert SameRun(s.store.runs[i], t.store.runs[i]);
    }
  }

  lemma StepInherits(cfg: Config, s: System, step: Step)
    requires AllOk(cfg, s)
    ensures AllOk(cfg, Next(cfg, s, step))
  {
    if EditsSets(step) {
      SetEditKeepsSets(cfg, s, step);
      SetEditsLeaveRuns(cfg, s, step);
    } else if EditsSchedules(step) {
      ScheduleEditsLeaveRuns(cfg, s, step);
    } else if step.Starts? {
      StartInherits(cfg, s, step.q, step.a);
    } else if step.Ticks? {
      TickInherits(cfg, s, step.now, step.tries);
    } else {
      QuietStepInherits(cfg, s, step);
    }
  }

  /** Every set, and every snapshot a run recorded, stays in its repeatable order with unique names and
      only allowed statements. */
  lemma {:induction false} SetsAndSnapshotsStayOk(cfg: Config, heap: Heap, steps: seq<Step>)
    requires SetsOk(cfg, heap)
    ensures AllOk(cfg, After(cfg, Initial(heap), steps))
  {
    if steps != [] {
      SetsAndSnapshotsStayOk(cfg, heap, steps[..|steps|-1]);
      StepInherits(cfg, After(cfg, Initial(heap), steps[..|steps|-1]), steps[|steps|-1]);
    }
  }

  lemma {:induction false} PlanIsSent(allows: Allowlist, queries: seq<Query>, n: nat, k: nat)
    requires forall q | q in queries :: allows(q.sql)
    requires k < |Plan(allows, queries, n)|
    ensures Plan(allows, queries, n)[k].sent && allows(Plan(allows, queries, n)[k].sql)
  {
    if n > 0 && k < |Plan(allows, queries, n - 1)| {
      PlanIsSent(allows, queries, n - 1, k);
    } else if n > 0 {
      var i := k - |Plan(allows, queries, n - 1)|;
      assert queries[i] in queries;
    }
  }

  /** Everything a worker executed was an allowed statement and really reached the cluster: with edits
      going only through the console, the runner's second check never fires. */
  lemma OnlyAllowedStatementsRun(cfg: Config, heap: Heap, steps: seq<Step>, i: nat, k: nat)
    requires HeapOk(heap) && SetsOk(cfg, heap)
    requires var s := After(cfg, Initial(heap), steps);
      i < |s.store.runs| && i + 1 in s.ran && k < |s.ran[i + 1]|
    ensures var x := After(cfg, Initial(heap), steps).ran[i + 1][k]; x.sent && cfg.allows(x.sql)
  {
    var s := After(cfg, Initial(heap), steps);
    SetsAndSnapshotsStayOk(cfg, heap, steps);
    RunsFollowTheirOwnSnapshot(cfg, heap, steps, i);
    var run := s.store.runs[i];
    PlanIsSent(cfg.allows, run.queries, run.repetitions, k);
    assert s.ran[i + 1][k] == Plan(cfg.allows, run.queries, run.repetitions)[k];
  }

  // ----------------------------------------------------------------- the cap

  /** An accepted save makes the set longer than the cap and than it was exactly when the set was full or
      more, and the call names as original the very query it saves, which is not there. */
  lemma SaveIntoPassesCap(queries: seq<Query>, name: string, title: string, sql: string, position: int,
                          original: Option<string>)
    requires ValidName(name) && !OverCap(queries, name, original)
    requires SaveInto(queries, name, title, sql, position, original).Some?
    ensures var after := SaveInto(queries, name, title, sql, position, original).value;
      && (|after| > MAX_QUERIES && |after| > |queries|
          <==> |queries| >= MAX_QUERIES && original == Some(name) && IndexOf(queries, name).None?)
  {
    QueryOrder();
    SortedSameElements(Placed(queries, name, title, sql, position, original), QueryLeq);
  }

  /** Everything the service asks of a save, but for the cap. */
  predicate SaveIsTaken(cfg: Config, s: System, step: Step)
    requires step.SavesQuery?
  {
    && step.admin && Lookup(s.heap, step.key).Some? && ValidName(step.name) && cfg.allows(cfg.stores(step.statement))
    && !SetIsRunning(s.store, step.key)
    && step.a.answers && !Audit.Blank(step.reason)
  }

  /** A save that takes a full set past the cap. */
  predicate PassesCap(cfg: Config, s: System, step: Step) {
    && step.SavesQuery? && SaveIsTaken(cfg, s, step)
    && var queries := s.heap.objects[Lookup(s.heap, step.key).value].queries;
       |queries| >= MAX_QUERIES && step.original == Some(step.name) && IndexOf(queries, step.name).None?
  }

  /** What an edit does to the sets: it is refused while its set runs, while the audit store does not
      answer, and for a blank reason. */
  lemma EditTakes(s: System, actor: string, key: string, target: string, reason: Audit.Reason, changed: Option<Heap>,
                  a: Attempt)
    ensures Edit(s, actor, key, target, reason, changed, a).heap ==
      if !SetIsRunning(s.store, key) && a.answers && !Audit.Blank(reason) && changed.Some?
      then changed.value else s.heap
  {
    Audit.NormalisedReasonIsOneShortLine(reason);
  }

  lemma SaveChanges(cfg: Config, s: System, step: Step)
    requires step.SavesQuery? && Lookup(s.heap, step.key).Some?
    ensures var at := Lookup(s.heap, step.key).value;
      var queries := s.heap.objects[at].queries;
      var saved := SaveInto(queries, step.name, step.title, cfg.stores(step.statement), step.position, step.original);
      Next(cfg, s, step).heap ==
        if SaveIsTaken(cfg, s, step) && !OverCap(queries, step.name, step.original) && saved.Some?
        then WithQueries(s.heap, at, saved.value) else s.heap
  {
    var at := Lookup(s.heap, step.key).value;
    var queries := s.heap.objects[at].queries;
    var saved := SaveInto(queries, step.name, step.title, cfg.stores(step.statement), step.position, step.original);
    EditTakes(s, step.actor, step.key, step.key + "." + step.name, step.reason,
              if saved.Some? then Some(WithQueries(s.heap, at, saved.value)) else None, step.a);
  }

  /** A call of the service leaves its set above the cap, and longer than it was, exactly when it is such
      a save; sets that are above it already can only grow that way. */
  lemma CapIsExceededExactlyWhen(cfg: Config, s: System, step: Step)
    requires step.SavesQuery? && Lookup(s.heap, step.key).Some?
    ensures var at := Lookup(s.heap, step.key).value;
      var before, after := Live(s.heap, at), Live(Next(cfg, s, step).heap, at);
      && (|after| > MAX_QUERIES && |after| > |before| <==> PassesCap(cfg, s, step))
  {
    var at := Lookup(s.heap, step.key).value;
    var queries := s.heap.objects[at].queries;
    SaveChanges(cfg, s, step);
    if SaveIsTaken(cfg, s, step) && !OverCap(queries, step.name, step.original) {
      var saved := SaveInto(queries, step.name, step.title, cfg.stores(step.statement), step.position, step.original);
      if saved.Some? {
        SaveIntoPassesCap(queries, step.name, step.title, cfg.stores(step.statement), step.position, step.original);
      }
    }
  }

  ghost predicate WithinCap(heap: Heap) {
    forall i | 0 <= i < |heap.objects| :: |heap.objects[i].queries| <= MAX_QUERIES
  }

  lemma DeleteStaysWithinCap(s: System, actor: string, key: string, name: string, reason: Audit.Reason, a: Attempt)
    requires WithinCap(s.heap)
    ensures WithinCap(DeleteQuery(s, actor, key, name, reason, a).heap)
  {
    var at := Lookup(s.heap, key);
    if at.Some? {
      var queries := s.heap.objects[at.value].queries;
      WithoutShrinks(queries, name);
      EditTakesOrLeaves(s, actor, key, key + "." + name, reason,
                 Some(WithQueries(s.heap, at.value, Without(queries, name))), a);
    }
  }

  lemma SaveStaysWithinCap(cfg: Config, s: System, step: Step)
    requires WithinCap(s.heap) && step.SavesQuery?
    ensures WithinCap(Next(cfg, s, step).heap) <==> !PassesCap(cfg, s, step)
  {
    var at := Lookup(s.heap, step.key);
    if at.Some? {
      SaveChanges(cfg, s, step);
      CapIsExceededExactlyWhen(cfg, s, step);
    }
  }

  lemma SetEditWithinCap(cfg: Config, s: System, step: Step)
    requires WithinCap(s.heap) && EditsSets(step) && !step.SavesQuery?
    ensures WithinCap(Next(cfg, s, step).heap)
  {
    match step
    case DeletesQuery(_, actor, key, name, reason, a) => DeleteStaysWithinCap(s, actor, key, name, reason, a);
    case SavesSet(_, actor, key, reason, a) =>
      EditTakesOrLeaves(s, actor, key, key, reason, Some(WithSet(s.heap, key)), a);
    case DeletesSet(_, actor, key, reason, a) =>
      EditTakesOrLeaves(s, actor, key, key, reason, Some(s.heap.(named := s.heap.named - {key})), a);
  }

  lemma OtherStepsLeaveSets(cfg: Config, s: System, step: Step)
    requires !EditsSets(step)
    ensures Next(cfg, s, step).heap == s.heap
  {
    if EditsSchedules(step) {
      ScheduleEditsLeaveRuns(cfg, s, step);
    } else if step.Ticks? {
      var holds: System -> bool := (t: System) => t.heap == s.heap;
      TickCarries(cfg, s, step.now, step.tries, holds);
    }
  }

  lemma StepWithinCap(cfg: Config, s: System, step: Step)
    requires WithinCap(s.heap)
    ensures WithinCap(Next(cfg, s, step).heap) <==> !PassesCap(cfg, s, step)
  {
    if step.SavesQuery? {
      SaveStaysWithinCap(cfg, s, step);
    } else if EditsSets(step) {
      SetEditWithinCap(cfg, s, step);
    } else {
      OtherStepsLeaveSets(cfg, s, step);
    }
  }

  /** After the first `n` steps every set is within the cap; step `n` passes it. */
  ghost predicate WithinAt(cfg: Config, heap: Heap, steps: seq<Step>, n: nat)
    requires n <= |steps|
  {
    WithinCap(After(cfg, Initial(heap), steps[..n]).heap)
  }

  predicate PassedAt(cfg: Config, heap: Heap, steps: seq<Step>, n: nat)
    requires n < |steps|
  {
    PassesCap(cfg, After(cfg, Initial(heap), steps[..n]), steps[n])
  }

  lemma WithinOneMore(cfg: Config, heap: Heap, steps: seq<Step>, n: nat)
    requires n < |steps| && WithinAt(cfg, heap, steps, n)
    ensures WithinAt(cfg, heap, steps, n + 1) <==> !PassedAt(cfg, heap, steps, n)
  {
    assert steps[..n + 1][..n] == steps[..n];
    StepWithinCap(cfg, After(cfg, Initial(heap), steps[..n]), steps[n]);
  }

  lemma {:induction false} WithinWhile(cfg: Config, heap: Heap, steps: seq<Step>, n: nat)
    requires WithinCap(heap) && n <= |steps| && forall m: nat | m < n :: !PassedAt(cfg, heap, steps, m)
    ensures WithinAt(cfg, heap, steps, n)
  {
    if n > 0 {
      WithinWhile(cfg, heap, steps, n - 1);
      WithinOneMore(cfg, heap, steps, n - 1);
    }
  }

  /** Over any history, every set holds at most 50 queries at every moment exactly when no such save was made. */
  lemma CapHoldsExactlyUnless(cfg: Config, heap: Heap, steps: seq<Step>)
    requires WithinCap(heap)
    ensures (forall n: nat | n <= |steps| :: WithinAt(cfg, heap, steps, n))
            <==> (forall n: nat | n < |steps| :: !PassedAt(cfg, heap, steps, n))
  {
    if forall n: nat | n <= |steps| :: WithinAt(cfg, heap, steps, n) {
      forall n: nat | n < |steps| ensures !PassedAt(cfg, heap, steps, n) {
        assert WithinAt(cfg, heap, steps, n + 1);
        WithinOneMore(cfg, heap, steps, n);
      }
    } else {
      var n: nat :| n <= |steps| && !WithinAt(cfg, heap, steps, n);
      if forall m: nat | m < n :: !PassedAt(cfg, heap, steps, m) { WithinWhile(cfg, heap, steps, n); }
    }
  }

  function NameOfLength(n: nat): (s: string)
    ensures |s| == n && forall c | c in s :: c == 'a'
  {
    seq(n, i => 'a')
  }

  /** `n` queries whose names grow by one letter each. */
  function GrowingNames(n: nat): seq<Query> {
    seq(n, i requires 0 <= i < n => Query(NameOfLength(i + 1), "SELECT 1", "t", i))
  }

  lemma GrowingNamesAreFine(n: nat)
    ensures WellFormed(GrowingNames(n)) && |GrowingNames(n)| == n
    ensures IndexOf(GrowingNames(n), "b").None?
  {
    var full := GrowingNames(n);
    forall i, j | 0 <= i < j < |full| ensures full[i].name != full[j].name {
      assert |full[i].name| == i + 1 && |full[j].name| == j + 1;
    }
    forall k | 0 <= k < |full| ensures full[k].name != "b" {
      assert full[k].name[0] == 'a';
    }
  }

  lemma FullSetExceeds(cfg: Config, heap: Heap, save: Step)
    requires WithinCap(heap) && PassesCap(cfg, Initial(heap), save)
    ensures Lookup(heap, save.key).Some?
    ensures |Live(After(cfg, Initial(heap), [save]).heap, Lookup(heap, save.key).value)| > MAX_QUERIES
  {
    assert [save][..0] == [];
    assert After(cfg, Initial(heap), [save]) == Next(cfg, Initial(heap), save);
    CapIsExceededExactlyWhen(cfg, Initial(heap), save);
  }

  /** Such a call: one accepted save leaves a full set with 51 queries. */
  lemma CapCanBeExceeded(cfg: Config)
    requires cfg.allows(cfg.stores("SELECT 1"))
    ensures var heap := Heap([SetObject("daily", GrowingNames(MAX_QUERIES))], map["daily" := 0]);
      var save := SavesQuery(true, "ann", "daily", "b", "", "SELECT 1", 0, Some("b"), Audit.Given("one more"),
                             Attempt(true, true));
      && HeapOk(heap) && WithinCap(heap) && WellFormed(heap.objects[0].queries)
      && |Live(After(cfg, Initial(heap), [save]).heap, 0)| > MAX_QUERIES
  {
    GrowingNamesAreFine(MAX_QUERIES);
    var heap := Heap([SetObject("daily", GrowingNames(MAX_QUERIES))], map["daily" := 0]);
    var save := SavesQuery(true, "ann", "daily", "b", "", "SELECT 1", 0, Some("b"), Audit.Given("one more"),
                           Attempt(true, true));
    assert "one more"[0] in save.reason.text;
    assert Lookup(heap, "daily") == Some(0);
    FullSetExceeds(cfg, heap, save);
  }

  // ------------------------------------------------- from the configuration on

  /** The configuration: the real statement check, and the ceiling on repetitions or its default. */
  function Console(clusters: set<string>, maxRepetitions: Option<int>): Config {
    Config(clusters,
           if maxRepetitions.Some? && maxRepetitions.value != 0 then maxRepetitions.value else MAX_REPETITIONS,
           Acceptable, Sql.Stored)
  }

  datatype RawSet = RawSet(key: string, queries: seq<RawQuery>)

  predicate Loads(raw: RawSet) {
    && ValidName(raw.key) && 1 <= |raw.queries| <= MAX_QUERIES
    && forall i | 0 <= i < |raw.queries| :: Declarable(raw.queries, i, Acceptable)
  }

  /** The heap holds the declared sets and nothing else. */
  ghost predicate Configured(heap: Heap, raw: seq<RawSet>) {
    && HeapOk(heap) && |heap.objects| == |raw|
    && (forall i | 0 <= i < |raw| :: raw[i].key in heap.named && heap.named[raw[i].key] == i)
    && (forall key | key in heap.named :: heap.objects[heap.named[key]].key == key)
    && (forall i | 0 <= i < |raw| :: heap.objects[i].key == raw[i].key &&
          IsLoad(Loaded(heap.objects[i].queries), raw[i].queries, Acceptable, Sql.Stored))
  }

  datatype Built = Built(heap: Heap) | BadKey(at: nat) | BadSet(at: nat, error: LoadError)

  lemma OneMoreConfigured(heap: Heap, raw: seq<RawSet>, i: nat, queries: seq<Query>)
    requires i < |raw| && Configured(heap, raw[..i])
    requires forall j | 0 <= j < i :: raw[j].key != raw[i].key
    requires IsLoad(Loaded(queries), raw[i].queries, Acceptable, Sql.Stored)
    ensures Configured(Heap(heap.objects + [SetObject(raw[i].key, queries)], heap.named[raw[i].key := i]), raw[..i + 1])
  {
    var t := Heap(heap.objects + [SetObject(raw[i].key, queries)], heap.named[raw[i].key := i]);
    forall j | 0 <= j <= i
      ensures t.objects[j].key == raw[j].key
          && IsLoad(Loaded(t.objects[j].queries), raw[j].queries, Acceptable, Sql.Stored)
    {
      if j < i { assert raw[..i][j] == raw[j]; }
    }
    forall j | 0 <= j <= i ensures raw[j].key in t.named && t.named[raw[j].key] == j {
      if j < i { assert raw[..i][j] == raw[j]; }
    }
  }

  lemma LoadsExactly(raw: RawSet, loaded: Loaded)
    requires ValidName(raw.key) && IsLoad(loaded, raw.queries, Acceptable, Sql.Stored)
    ensures loaded.Loaded? <==> Loads(raw)
  {
  }

  /** The declared sets in the order of their keys: all of them, or what is wrong with the first bad one. */
  method BuildQuerySets(raw: seq<RawSet>) returns (r: Built)
    requires forall i, j | 0 <= i < j < |raw| :: raw[i].key != raw[j].key
    ensures r.Built? <==> forall i | 0 <= i < |raw| :: Loads(raw[i])
    ensures r.Built? ==> Configured(r.heap, raw)
    ensures !r.Built? ==> r.at < |raw| && !Loads(raw[r.at]) && forall j | 0 <= j < r.at :: Loads(raw[j])
    ensures r.BadKey? ==> !ValidName(raw[r.at].key)
    ensures r.BadSet? ==> ValidName(raw[r.at].key) && IsLoad(Failed(r.error), raw[r.at].queries, Acceptable, Sql.Stored)
  {
    var heap := Heap([], map[]);
    var i := 0;
    while i < |raw|
      invariant 0 <= i <= |raw|
      invariant forall j | 0 <= j < i :: Loads(raw[j])
      invariant Configured(heap, raw[..i])
    {
      if !ValidName(raw[i].key) {
        return BadKey(i);
      }
      var loaded := BuildQueries(raw[i].queries);
      LoadsExactly(raw[i], loaded);
      if loaded.Failed? {
        return BadSet(i, loaded.error);
      }
      OneMoreConfigured(heap, raw, i, loaded.queries);
      heap := Heap(heap.objects + [SetObject(raw[i].key, loaded.queries)], heap.named[raw[i].key := i]);
      i := i + 1;
    }
    assert raw[..|raw|] == raw;
    return Built(heap);
  }

  lemma ConfiguredSetsAreOk(cfg: Config, heap: Heap, raw: seq<RawSet>)
    requires Configured(heap, raw) && cfg.allows == Acceptable
    ensures SetsOk(cfg, heap) && WithinCap(heap)
  {
    forall i | 0 <= i < |heap.objects| ensures SetOk(cfg.allows, heap.objects[i].queries) {
      var declared, queries := raw[i].queries, heap.objects[i].queries;
      forall q | q in queries ensures q.name != "" && cfg.allows(q.sql) {
        var k :| 0 <= k < |queries| && queries[k] == q;
        assert Declarable(declared, k, Acceptable);
        LoadedQueriesAreAccepted(declared, k);
      }
    }
  }

  /** From the configuration on, whatever the console does: everything a worker executed passes the real
      statement check and was really sent. */
  lemma OnlyAcceptedStatementsRun(clusters: set<string>, maxRepetitions: Option<int>, heap: Heap, raw: seq<RawSet>,
                                  steps: seq<Step>, i: nat, k: nat)
    requires Configured(heap, raw)
    requires var s := After(Console(clusters, maxRepetitions), Initial(heap), steps);
      i < |s.store.runs| && i + 1 in s.ran && k < |s.ran[i + 1]|
    ensures var x := After(Console(clusters, maxRepetitions), Initial(heap), steps).ran[i + 1][k];
      x.sent && Acceptable(x.sql)
  {
    var cfg := Console(clusters, maxRepetitions);
    ConfiguredSetsAreOk(cfg, heap, raw);
    OnlyAllowedStatementsRun(cfg, heap, steps, i, k);
  }

  // ---------------------------------------------------- how long a run can be

  ghost predicate RepetitionsOk(cfg: Config, runs: seq<Run>) {
    forall i | 0 <= i < |runs| :: 1 <= runs[i].repetitions <= cfg.maxRepetitions
  }

  lemma StartBoundsRuns(cfg: Config, s: System, q: Request, a: Attempt)
    requires RepetitionsOk(cfg, s.store.runs)
    ensures RepetitionsOk(cfg, Start(cfg, s, q, a).state.store.runs)
  {
  }

  lemma StepBoundsRuns(cfg: Config, s: System, step: Step)
    requires RepetitionsOk(cfg, s.store.runs)
    ensures RepetitionsOk(cfg, Next(cfg, s, step).store.runs)
  {
    if EditsSets(step) {
      SetEditsLeaveRuns(cfg, s, step);
    } else if EditsSchedules(step) {
      ScheduleEditsLeaveRuns(cfg, s, step);
    } else if step.Starts? {
      StartBoundsRuns(cfg, s, step.q, step.a);
    } else if step.Ticks? {
      var holds: System -> bool := (t: System) => RepetitionsOk(cfg, t.store.runs);
      forall t: System, q: Request, id: nat, k: nat | holds(t)
        ensures holds(Start(cfg, t, q, step.tries(id, k)).state)
      {
        StartBoundsRuns(cfg, t, q, step.tries(id, k));
      }
      TickCarries(cfg, s, step.now, step.tries, holds);
    } else {
      AuditTrail.QuietStep(cfg, s, step);
      var t := Next(cfg, s, step);
      forall i | 0 <= i < |t.store.runs| ensures 1 <= t.store.runs[i].repetitions <= cfg.maxRepetitions {
        assert SameRun(s.store.runs[i], t.store.runs[i]);
      }
    }
  }

  lemma {:induction false} RunsStayWithinCeiling(cfg: Config, heap: Heap, steps: seq<Step>)
    ensures RepetitionsOk(cfg, After(cfg, Initial(heap), steps).store.runs)
  {
    if steps != [] {
      RunsStayWithinCeiling(cfg, heap, steps[..|steps|-1]);
      StepBoundsRuns(cfg, After(cfg, Initial(heap), steps[..|steps|-1]), steps[|steps|-1]);
    }
  }

  lemma Times(a: int, b: int, n: nat)
    requires a <= b
    ensures a * n <= b * n
  {
  }

  /** No run sends more statements than the ceiling times the queries it recorded, whoever started it. */
  lemma RunsAreBounded(cfg: Config, heap: Heap, steps: seq<Step>, i: nat)
    requires HeapOk(heap) && i < |After(cfg, Initial(heap), steps).store.runs|
    ensures var s := After(cfg, Initial(heap), steps);
      i + 1 in s.ran && |s.ran[i + 1]| <= cfg.maxRepetitions * |s.store.runs[i].queries|
  {
    RunsStayWithinCeiling(cfg, heap, steps);
    RunsFollowTheirOwnSnapshot(cfg, heap, steps, i);
    var run := After(cfg, Initial(heap), steps).store.runs[i];
    PlanLength(cfg.allows, run.queries, run.repetitions);
    Times(run.repetitions, cfg.maxRepetitions, |run.queries|);
  }
}
