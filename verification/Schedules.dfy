/** Benchmark schedules: when a row fires, how it moves forward, and when it is paused. Times are microseconds. */
module Schedules {
  import opened Wrappers
  import opened Text

  const MIN_INTERVAL_MINUTES := 15
  const MAX_INTERVAL_MINUTES := 60 * 24 * 90
  const FAILURE_LIMIT := 3
  const MICROSECONDS_PER_MINUTE := 60_000_000

  datatype Schedule = Schedule(
    id: nat, name: string, querySet: string, clusters: seq<string>, repetitions: int, reason: string,
    interval: nat, next: int, createdBy: string,
    enabled: bool, paused: bool, failures: nat, lastRun: Option<int>)

  // ------------------------------------------------------------ validation

  datatype Invalid = NoName | NameTooLong | NoReason | IntervalTooShort | IntervalTooLong | BadRepetitions | NoClusters

  function Stripped(s: string): string { Trim(s, IsSpace) }

  function Chosen(clusters: seq<string>): seq<string> {
    if clusters == [] then []
    else (if clusters[0] == "" then [] else [clusters[0]]) + Chosen(clusters[1..])
  }

  /** The checks of `validate` in the order it makes them; `None` is acceptance. */
  function Validate(name: string, interval: int, repetitions: int, clusters: seq<string>,
                    reason: string): Option<Invalid>
  {
    if Stripped(name) == "" then Some(NoName)
    else if |Stripped(name)| > 200 then Some(NameTooLong)
    else if Stripped(reason) == "" then Some(NoReason)
    else if interval < MIN_INTERVAL_MINUTES then Some(IntervalTooShort)
    else if interval > MAX_INTERVAL_MINUTES then Some(IntervalTooLong)
    else if !(1 <= repetitions <= 50) then Some(BadRepetitions)
    else if Chosen(clusters) == [] then Some(NoClusters)
    else None
  }

  // ----------------------------------------------------------- the next slot

  function Period(interval: nat): nat { interval * MICROSECONDS_PER_MINUTE }

  /** `advance`: one interval on, or past every slot that was missed. */
  function Advance(next: int, interval: nat, now: int): int
    requires interval > 0
  {
    var step := Period(interval);
    if next + step <= now then next + step * ((now - next) / step + 1) else next + step
  }

  /** The single-statement claim: next + interval * (1 + floor((now - next) / interval)). */
  function Claim(next: int, interval: nat, now: int): int
    requires interval > 0
  {
    next + Period(interval) * (1 + (now - next) / Period(interval))
  }

  ghost predicate OnGrid(first: int, interval: nat, t: int) {
    exists k: int :: t == first + Slots(k, interval)
  }

  function Slots(k: int, interval: nat): int { k * Period(interval) }

  /** A slot of the grid after `now`, with none between. */
  ghost predicate NextSlot(t: int, next: int, interval: nat, now: int) {
    && t > now
    && OnGrid(next, interval, t)
    && forall k: int :: next + Slots(k, interval) > now ==> t <= next + Slots(k, interval)
  }

  lemma DivisionBounds(a: int, d: nat)
    requires d > 0
    ensures d * (a / d) <= a < d * (a / d) + d
  {
  }

  lemma SlotsApart(j: int, k: int, interval: nat)
    requires interval > 0 && j < k
    ensures Slots(j, interval) + Period(interval) <= Slots(k, interval)
  {
    var d := Period(interval);
    Distribute(j + 1, k - j - 1, d);
    Distribute(j, 1, d);
    NonNegativeProduct(k - j - 1, d);
  }

  lemma Distribute(a: int, b: int, d: int)
    ensures (a + b) * d == a * d + b * d
  {
  }

  lemma NonNegativeProduct(a: int, d: int)
    requires a >= 0 && d >= 0
    ensures a * d >= 0
  {
  }

  lemma SlotOrder(j: int, k: int, interval: nat)
    requires interval > 0
    ensures j < k ==> Slots(j, interval) + Period(interval) <= Slots(k, interval)
    ensures j <= k <==> Slots(j, interval) <= Slots(k, interval)
  {
    if j < k { SlotsApart(j, k, interval); }
    if k < j { SlotsApart(k, j, interval); }
  }

  lemma ClaimIsNextSlot(next: int, interval: nat, now: int)
    requires interval > 0
    ensures NextSlot(Claim(next, interval, now), next, interval, now)
  {
    var d := Period(interval);
    var q := (now - next) / d;
    DivisionBounds(now - next, d);
    assert Claim(next, interval, now) == next + Slots(q + 1, interval);
    assert Slots(q + 1, interval) == d * q + d;
    forall k: int | next + Slots(k, interval) > now
      ensures Claim(next, interval, now) <= next + Slots(k, interval)
    {
      SlotOrder(q + 1, k, interval);
      if k <= q {
        SlotOrder(k, q, interval);
        assert false;
      }
    }
  }

  /** A due row moves to the first slot of its grid after now, whichever store moves it. */
  lemma DueRowMovesToNextSlot(next: int, interval: nat, now: int)
    requires interval > 0 && next <= now
    ensures Advance(next, interval, now) == Claim(next, interval, now)
    ensures NextSlot(Advance(next, interval, now), next, interval, now)
  {
    var d := Period(interval);
    ClaimIsNextSlot(next, interval, now);
    if next + d > now {
      assert 0 <= now - next < d;
      assert (now - next) / d == 0;
    } else {
      assert (now - next) / d + 1 == 1 + (now - next) / d;
    }
  }

  /** From a time that has not come yet, `advance` skips a slot: exactly then it is not the next one. */
  lemma AdvanceIsNextSlotExactlyWhenDue(next: int, interval: nat, now: int)
    requires interval > 0
    ensures NextSlot(Advance(next, interval, now), next, interval, now) <==> next <= now
  {
    if next <= now {
      DueRowMovesToNextSlot(next, interval, now);
    } else {
      assert next + Slots(0, interval) == next > now;
      assert Advance(next, interval, now) > next;
    }
  }

  /** Whatever the clock says, `advance` moves at least one interval and stays on the grid. */
  lemma AdvanceMovesForwardOnGrid(first: int, next: int, interval: nat, now: int)
    requires interval > 0 && OnGrid(first, interval, next)
    ensures OnGrid(first, interval, Advance(next, interval, now))
    ensures Advance(next, interval, now) >= next + Period(interval) > next
    ensures Advance(next, interval, now) > now
  {
    var d := Period(interval);
    var k: int :| next == first + Slots(k, interval);
    var m := if next + d <= now then (now - next) / d + 1 else 1;
    DivisionBounds(now - next, d);
    assert (k + m) * d == k * d + m * d;
    assert Advance(next, interval, now) == first + Slots(k + m, interval);
    if next + d <= now {
      SlotOrder(1, m, interval);
    }
  }

  // ------------------------------------------------------------- the table

  predicate Due(r: Schedule, now: int) { r.enabled && r.next <= now }

  /** A claimed row is moved before it is returned. */
  function Moved(r: Schedule, now: int): Schedule {
    if r.interval > 0 then r.(next := Advance(r.next, r.interval, now)) else r
  }

  function ClaimAll(rows: seq<Schedule>, now: int): seq<Schedule> {
    seq(|rows|, i requires 0 <= i < |rows| => if Due(rows[i], now) then Moved(rows[i], now) else rows[i])
  }

  function Claimed(rows: seq<Schedule>, now: int): seq<Schedule> {
    if rows == [] then []
    else (if Due(rows[0], now) then [Moved(rows[0], now)] else []) + Claimed(rows[1..], now)
  }

  ghost predicate ValidRows(rows: seq<Schedule>) {
    && (forall i | 0 <= i < |rows| :: rows[i].interval >= MIN_INTERVAL_MINUTES)
    && (forall i, j | 0 <= i < j < |rows| :: rows[i].id != rows[j].id)
  }

  /** After a claim nothing is due: a second ticker at the same moment takes nothing. */
  lemma {:induction false} ClaimingTwiceTakesNothing(rows: seq<Schedule>, now: int)
    requires ValidRows(rows)
    ensures Claimed(ClaimAll(rows, now), now) == []
    ensures forall i | 0 <= i < |rows| :: Due(rows[i], now) ==> !Due(ClaimAll(rows, now)[i], now)
  {
    if rows != [] {
      assert ValidRows(rows[1..]) by {
        assert forall i | 0 <= i < |rows[1..]| :: rows[1..][i] == rows[i + 1];
      }
      ClaimingTwiceTakesNothing(rows[1..], now);
      assert ClaimAll(rows, now)[1..] == ClaimAll(rows[1..], now);
      var r := rows[0];
      if Due(r, now) {
        assert r.next == r.next + Slots(0, r.interval);
        AdvanceMovesForwardOnGrid(r.next, r.next, r.interval, now);
      }
      forall i | 0 < i < |rows| ensures Due(rows[i], now) ==> !Due(ClaimAll(rows, now)[i], now) {
        assert rows[i] == rows[1..][i - 1];
        assert ClaimAll(rows, now)[i] == ClaimAll(rows[1..], now)[i - 1];
      }
    }
  }

  /** The rows before `i` as the claim leaves them, the others as they were. */
  ghost predicate ClaimedUpTo(rows: seq<Schedule>, before: seq<Schedule>, i: nat, now: int) {
    && i <= |rows| == |before|
    && (forall j | 0 <= j < i :: rows[j] == ClaimAll(before, now)[j])
    && (forall j | i <= j < |rows| :: rows[j] == before[j])
  }

  lemma ClaimedOneMore(before: seq<Schedule>, i: nat, now: int)
    requires i < |before|
    ensures Claimed(before[i..], now)
         == (if Due(before[i], now) then [Moved(before[i], now)] else []) + Claimed(before[i + 1..], now)
  {
    assert before[i..][0] == before[i] && before[i..][1..] == before[i + 1..];
  }

  class InMemoryScheduleRepository {
    var rows: seq<Schedule>
    var nextId: nat

    constructor ()
      ensures rows == [] && nextId == 1
    {
      rows, nextId := [], 1;
    }

    /** Every due row is moved and returned, in table order; no other row changes. */
    method ClaimDue(now: int) returns (claimed: seq<Schedule>)
      requires ValidRows(rows)
      modifies this`rows
      ensures rows == ClaimAll(old(rows), now)
      ensures claimed == Claimed(old(rows), now)
    {
      ghost var before := rows;
      claimed := [];
      var i := 0;
      while i < |rows|
        invariant 0 <= i <= |rows| && ClaimedUpTo(rows, before, i, now)
        invariant claimed + Claimed(before[i..], now) == Claimed(before, now)
      {
        ClaimedOneMore(before, i, now);
        if rows[i].enabled && rows[i].next <= now {
          var moved := Moved(rows[i], now);
          rows := rows[i := moved];
          claimed := claimed + [moved];
        }
        i := i + 1;
      }
      assert rows == ClaimAll(before, now);
    }
  }

  function IndexById(rows: seq<Schedule>, id: nat): (r: Option<nat>)
    ensures r.Some? ==> r.value < |rows| && rows[r.value].id == id
    ensures r.None? ==> forall i | 0 <= i < |rows| :: rows[i].id != id
  {
    if rows == [] then None
    else if rows[0].id == id then Some(0)
    else match IndexById(rows[1..], id) case None => None case Some(i) => Some(i + 1)
  }

  // -------------------------------------------------------- after a firing

  /** What one firing did, over all its clusters. */
  datatype Firing = Fired(started: nat, broke: nat)

  /** The columns `_fire` writes: computed from the claimed copy, applied to the stored row. */
  function AfterFiring(stored: Schedule, copy: Schedule, f: Firing, now: int): Schedule {
    var touched := stored.(lastRun := Some(now));
    if f.started > 0 then touched.(failures := 0)
    else if f.broke > 0 then
      var counted := touched.(failures := copy.failures + 1);
      if copy.failures + 1 >= FAILURE_LIMIT then counted.(enabled := false, paused := true) else counted
    else touched
  }

  /** Switching on clears the count and the pause and moves the row; switching off keeps them. */
  function Switched(r: Schedule, enabled: bool, now: int): Schedule {
    if enabled && r.interval > 0
    then r.(enabled := true, failures := 0, paused := false, next := Advance(r.next, r.interval, now))
    else r.(enabled := enabled)
  }
}
