/**
  The audit guard: a blank reason or an unwritable store refuses an action before it
  begins, and every action that begins leaves exactly one record or one lost write.
 */
module Audit {
  import opened Text

  const MAX_REASON_LENGTH := 512

  /** The catalogue of audited actions, and any other name. */
  datatype ActionType =
    | QUERY_KILL
    | HEALTH_TEST_TOGGLE
    | HEALTH_ROLLUP_TOGGLE
    | HEALTH_THRESHOLD_CHANGE
    | AUDIT_EXPORT
    | CLUSTER_RESTART
    | NODE_SHUTDOWN
    | RESOURCE_GROUP_CHANGE
    | RESOURCE_GROUP_REVERT
    | FLEET_JOB_RUN
    | BENCHMARK_RUN
    | BENCHMARK_QUERY_CHANGE
    | BENCHMARK_SCHEDULE_CHANGE
    | CATALOG_CHANGE
    | CATALOG_DEPLOY
    | CLUSTER_NODE_CHANGE
    | CONFIG_CHANGE
    | CONFIG_DEPLOY
    | Unlisted(name: string)

  datatype Outcome = SUCCESS | FAILURE

  datatype Record = Record(
    actor: string, action: ActionType, target: string, reason: string,
    outcome: Outcome, error: string)

  datatype AuditError = ReasonRequired | AuditUnavailable | InvalidActionType
  datatype Result<T> = Ok(value: T) | Err(error: AuditError)

  /** A reason may be absent (`None` in the source) or any text. */
  datatype Reason = Missing | Given(text: string)

  predicate Blank(reason: Reason) {
    reason == Missing || forall c | c in reason.text :: IsSpace(c)
  }

  function Cap(flat: string): string {
    if |flat| > MAX_REASON_LENGTH then flat[..MAX_REASON_LENGTH - 3] + "..." else flat
  }

  function NormaliseReason(reason: Reason): Result<string> {
    if reason == Missing then Err(ReasonRequired)
    else
      var flat := Flatten(reason.text);
      if flat == "" then Err(ReasonRequired) else Ok(Cap(flat))
  }

  /** What is left of the reason is one line of at most 512 characters, and only a blank one is refused. */
  lemma NormalisedReasonIsOneShortLine(reason: Reason)
    ensures NormaliseReason(reason).Err? <==> Blank(reason)
    ensures NormaliseReason(reason).Ok? ==>
      var text := NormaliseReason(reason).value;
      && text != "" && Flat(text) && |text| <= MAX_REASON_LENGTH
  {
    if reason != Missing {
      var flat := Flatten(reason.text);
      FlattenIsFlat(reason.text);
      if |flat| > MAX_REASON_LENGTH {
        CutWithDotsIsFlat(flat, MAX_REASON_LENGTH - 3);
      }
    }
  }

  /** Normalising twice is normalising once. */
  lemma NormaliseIsIdempotent(reason: Reason)
    requires NormaliseReason(reason).Ok?
    ensures NormaliseReason(Given(NormaliseReason(reason).value)) == NormaliseReason(reason)
  {
    NormalisedReasonIsOneShortLine(reason);
    FlattenFlat(NormaliseReason(reason).value);
  }

  /** The text sent back to the user whose query was killed. */
  function BuildKillMessage(actor: string, reason: string, requestId: string): string {
    "Killed by TMS. actor=" + actor + ", reason=" + Cap(Flatten(reason)) + ", request_id=" + requestId
  }

  /** The kill message carries the audited reason word for word: it does not clean it a second time. */
  lemma KillMessageEmbedsAuditedReason(actor: string, reason: Reason, requestId: string)
    requires NormaliseReason(reason).Ok?
    ensures BuildKillMessage(actor, NormaliseReason(reason).value, requestId)
            == "Killed by TMS. actor=" + actor + ", reason=" + NormaliseReason(reason).value
               + ", request_id=" + requestId
  {
    NormaliseIsIdempotent(reason);
    NormalisedReasonIsOneShortLine(reason);
    FlattenFlat(NormaliseReason(reason).value);
  }

  // ------------------------------------------------------------ the guard

  /** The store's rows and whether it accepts writes, with two counters that only this model keeps:
      actions entered and writes lost. */
  datatype Log = Log(records: seq<Record>, writable: bool, entered: nat, lost: nat)

  const EMPTY := Log([], true, 0, 0)

  /** `AuditGuard.action` up to the `with` body: the record to write, or the refusal. */
  function Begin(log: Log, actor: string, action: ActionType, target: string, reason: Reason): Result<Record> {
    if action.Unlisted? then Err(InvalidActionType)
    else match NormaliseReason(reason)
      case Err(e) => Err(e)
      case Ok(clean) =>
        if !log.writable then Err(AuditUnavailable)
        else Ok(Record(actor, action, target, clean, FAILURE, ""))
  }

  function Enter(log: Log): Log { log.(entered := log.entered + 1) }

  /** `__exit__`: the outcome is filled in and the write is attempted, never raised. */
  function Exit(log: Log, record: Record, failure: string): Log {
    var done := if failure == "" then record.(outcome := SUCCESS)
                else record.(outcome := FAILURE, error := failure);
    if log.writable then log.(records := log.records + [done])
    else log.(lost := log.lost + 1)
  }

  class AuditGuard {
    var records: seq<Record>
    var writable: bool
    ghost var entered: nat
    ghost var lost: nat

    constructor ()
      ensures View() == EMPTY
    {
      records, writable := [], true;
      entered, lost := 0, 0;
    }

    ghost function View(): Log
      reads this
    {
      Log(records, writable, entered, lost)
    }

    /** Nothing is written, whatever the answer; an accepted action counts as entered. */
    method Action(actor: string, action: ActionType, target: string, reason: Reason)
      returns (r: Result<Record>)
      modifies this
      ensures r == Begin(old(View()), actor, action, target, reason)
      ensures View() == if r.Ok? then Enter(old(View())) else old(View())
    {
      if action.Unlisted? {
        return Err(InvalidActionType);
      }
      var clean := NormaliseReason(reason);
      if clean.Err? {
        return Err(clean.error);
      }
      if !writable {
        return Err(AuditUnavailable);
      }
      entered := entered + 1;
      return Ok(Record(actor, action, target, clean.value, FAILURE, ""));
    }

    method Write(record: Record) returns (ok: bool)
      modifies this`records
      ensures ok == writable
      ensures records == if ok then old(records) + [record] else old(records)
    {
      ok := writable;
      if ok {
        records := records + [record];
      }
    }

    /** `failure` is empty when the body raised nothing. */
    method ExitAction(record: Record, failure: string)
      modifies this
      ensures View() == Exit(old(View()), record, failure)
    {
      var done := if failure == "" then record.(outcome := SUCCESS)
                  else record.(outcome := FAILURE, error := failure);
      var ok := Write(done);
      if !ok {
        lost := lost + 1;
      }
    }
  }

  // ---------------------------------------------------- any history of use

  /** What can happen to the guard, concurrently: actions begin, actions end, the store comes and goes. */
  datatype Event =
    | Begins(id: nat, actor: string, action: ActionType, target: string, reason: Reason)
    | Ends(id: nat, failure: string)
    | Outage(writable: bool)

  datatype Desk = Desk(log: Log, open: map<nat, Record>)

  function Happen(d: Desk, e: Event): Desk {
    match e
    case Begins(id, actor, action, target, reason) =>
      var r := Begin(d.log, actor, action, target, reason);
      if id in d.open || r.Err? then d else Desk(Enter(d.log), d.open[id := r.value])
    case Ends(id, failure) =>
      if id in d.open then Desk(Exit(d.log, d.open[id], failure), d.open - {id}) else d
    case Outage(w) => d.(log := d.log.(writable := w))
  }

  function Replay(events: seq<Event>): Desk {
    if events == [] then Desk(EMPTY, map[])
    else Happen(Replay(events[..|events|-1]), events[|events|-1])
  }

  /** Every action entered is still open, has one record, or is one lost write. */
  lemma {:induction false} OneRecordPerAction(events: seq<Event>)
    ensures var d := Replay(events);
      d.log.entered == |d.log.records| + d.log.lost + |d.open|
  {
    if events != [] {
      var before, e := Replay(events[..|events|-1]), events[|events|-1];
      OneRecordPerAction(events[..|events|-1]);
      var d := Happen(before, e);
      match e
      case Begins(id, _, _, _, _) =>
        if d != before {
          assert d.open.Keys == before.open.Keys + {id};
          assert |d.open.Keys| == |before.open.Keys| + 1;
        }
      case Ends(id, _) =>
        if id in before.open {
          assert d.open.Keys == before.open.Keys - {id};
          assert |d.open.Keys| == |before.open.Keys| - 1;
        }
      case Outage(_) =>
    }
  }

  /** The log only grows, and only at its end. */
  lemma {:induction false} AppendOnly(events: seq<Event>, more: seq<Event>)
    ensures Replay(events).log.records <= Replay(events + more).log.records
  {
    if more == [] {
      assert events + more == events;
    } else {
      assert (events + more)[..|events + more|-1] == events + more[..|more|-1];
      AppendOnly(events, more[..|more|-1]);
    }
  }

  ghost predicate Sound(r: Record) {
    && r.reason != "" && Flat(r.reason) && |r.reason| <= MAX_REASON_LENGTH
    && !r.action.Unlisted?
  }

  /** No record, written or still open, has a blank reason or an action outside the catalogue. */
  lemma {:induction false} EveryRecordIsSound(events: seq<Event>)
    ensures forall r | r in Replay(events).log.records :: Sound(r)
    ensures forall id | id in Replay(events).open :: Sound(Replay(events).open[id])
  {
    if events != [] {
      EveryRecordIsSound(events[..|events|-1]);
      var e := events[|events|-1];
      if e.Begins? { NormalisedReasonIsOneShortLine(e.reason); }
    }
  }
}
