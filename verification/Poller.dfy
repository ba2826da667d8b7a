/** When one coordinator is polled, how often, and when its empty query list is disbelieved. */
module Poller {
  import opened Wrappers

  datatype Kind = Jmx | Queries | Info | ResourceGroups

  /** JMX first, so the query poll that follows it has a fresh count to check against. */
  const POLL_ORDER := [Jmx, Queries, Info, ResourceGroups]

  datatype Config = Config(
    baseInterval: int, jmxInterval: int, infoInterval: int, groupInterval: Option<int>,
    backoffBytes: nat, backoffInterval: int, maxJmxAge: int, confirm: int)
  {
    predicate GroupsEnabled() { groupInterval.Some? && groupInterval.value != 0 }

    /** `max(1, h09_confirm_polls)`. */
    function Confirm(): nat { if confirm < 1 then 1 else confirm }

    ghost predicate Valid() {
      && baseInterval >= 0 && jmxInterval >= 0 && infoInterval >= 0 && backoffInterval >= 0
      && (groupInterval.Some? ==> groupInterval.value >= 0)
    }
  }

  /** A JMX snapshot as stored: when it was collected, and RunningQueries if it holds a number. */
  datatype Reading = Reading(at: int, running: Option<int>)

  datatype QueryReply = NoAnswer | Answer(count: nat, bytes: nat)

  /** Everything outside the poller during one tick: the clocks, the replies, and whether a save works. */
  datatype World = World(
    now: int, read: Kind -> int, done: Kind -> int, jmxWall: int, queryWall: int,
    jmxAnswers: bool, running: Option<int>, query: QueryReply, infoAnswers: bool, groupsFound: bool,
    jmxSaved: bool)

  datatype State = State(
    suspicious: nat, interval: int, nextDue: map<Kind, int>, lastSuccess: map<Kind, int>, jmx: Option<Reading>)

  /** A poll that brought a list back: its size, the JMX count it was checked against, and the verdict. */
  datatype Listing = Listing(count: nat, bytes: nat, seen: Option<int>, tripped: bool)

  /** One poll: found due at `at`, finished at `done`, and the interval then in force. */
  datatype Poll = Poll(kind: Kind, at: int, done: int, interval: int, listing: Option<Listing>)

  datatype Run = Run(s: State, polls: seq<Poll>)

  // --------------------------------------------------- what one poll does

  function Start(cfg: Config): Run {
    var due := map[Jmx := 0, Queries := 0, Info := 0];
    Run(State(0, cfg.baseInterval, if cfg.GroupsEnabled() then due[ResourceGroups := 0] else due, map[], None), [])
  }

  /** `_last_jmx_running_queries`: nothing, unless the stored reading is recent enough and a number. */
  function Seen(cfg: Config, s: State, wall: int): Option<int> {
    if s.jmx.None? || wall - s.jmx.value.at > cfg.maxJmxAge then None else s.jmx.value.running
  }

  /** An empty list beside a JMX count that says queries are running. */
  predicate Suspicious(l: Listing) { l.count == 0 && l.seen.Some? && l.seen.value != 0 }

  function Adapted(cfg: Config, interval: int, bytes: nat): int {
    if bytes >= cfg.backoffBytes then cfg.backoffInterval
    else if bytes < cfg.backoffBytes / 2 then cfg.baseInterval
    else interval
  }

  function Interval(cfg: Config, s: State, kind: Kind): int {
    match kind
    case Jmx => cfg.jmxInterval
    case Queries => s.interval
    case Info => cfg.infoInterval
    case ResourceGroups => if cfg.groupInterval.Some? then cfg.groupInterval.value else 0
  }

  function Listed(cfg: Config, s: State, w: World): Option<Listing> {
    if w.query.NoAnswer? then None else
      var l := Listing(w.query.count, w.query.bytes, Seen(cfg, s, w.queryWall), false);
      Some(l.(tripped := Suspicious(l) && s.suspicious + 1 >= cfg.Confirm()))
  }

  function QueriesPolled(cfg: Config, s: State, w: World): State {
    var l := Listed(cfg, s, w);
    if l.None? then s else
      s.(suspicious := if Suspicious(l.value) then s.suspicious + 1 else 0,
         interval := Adapted(cfg, s.interval, l.value.bytes),
         lastSuccess := if l.value.tripped then s.lastSuccess else s.lastSuccess[Queries := w.read(Queries)])
  }

  function Succeeded(s: State, kind: Kind, ok: bool, w: World): State {
    if ok then s.(lastSuccess := s.lastSuccess[kind := w.read(kind)]) else s
  }

  function Polled(cfg: Config, s: State, kind: Kind, w: World): State {
    match kind
    case Jmx => Succeeded(s, Jmx, w.jmxAnswers, w)
    case Queries => QueriesPolled(cfg, s, w)
    case Info => Succeeded(s, Info, w.infoAnswers, w)
    case ResourceGroups => Succeeded(s, ResourceGroups, w.groupsFound, w)
  }

  /** `save` replaces the stored snapshot of its kind; a failed save leaves the old one. */
  function Saved(s: State, kind: Kind, w: World): State {
    if kind == Jmx && w.jmxSaved
    then s.(jmx := Some(Reading(w.jmxWall, if w.jmxAnswers then w.running else None))) else s
  }

  function Rescheduled(cfg: Config, s: State, kind: Kind, w: World): State {
    s.(nextDue := s.nextDue[kind := w.done(kind) + Interval(cfg, s, kind)])
  }

  function PollOne(cfg: Config, r: Run, kind: Kind, w: World): Run {
    var s := Polled(cfg, r.s, kind, w);
    Run(Saved(Rescheduled(cfg, s, kind, w), kind, w),
        r.polls + [Poll(kind, w.now, w.done(kind), Interval(cfg, s, kind),
                        if kind == Queries then Listed(cfg, r.s, w) else None)])
  }

  function PollAll(cfg: Config, r: Run, kinds: seq<Kind>, w: World): Run {
    if kinds == [] then r
    else PollOne(cfg, PollAll(cfg, r, kinds[..|kinds|-1], w), kinds[|kinds|-1], w)
  }

  predicate IsDue(nextDue: map<Kind, int>, kind: Kind, now: int) { kind in nextDue && now >= nextDue[kind] }

  function Due(nextDue: map<Kind, int>, order: seq<Kind>, now: int): seq<Kind> {
    if order == [] then []
    else Due(nextDue, order[..|order|-1], now)
         + if IsDue(nextDue, order[|order|-1], now) then [order[|order|-1]] else []
  }

  function Ticked(cfg: Config, r: Run, w: World): Run {
    PollAll(cfg, r, Due(r.s.nextDue, POLL_ORDER, w.now), w)
  }

  /** Everything polled over a sequence of ticks since the poller was made. */
  function Ran(cfg: Config, worlds: seq<World>): Run {
    if worlds == [] then Start(cfg) else Ticked(cfg, Ran(cfg, worlds[..|worlds|-1]), worlds[|worlds|-1])
  }

  // -------------------------------------------------------------- the class

  class ClusterPoller {
    const cfg: Config
    var suspicious: nat
    var queryInterval: int
    var nextDue: map<Kind, int>
    var lastSuccess: map<Kind, int>
    var jmxSnapshot: Option<Reading>
    ghost var polls: seq<Poll>

    constructor (cfg: Config)
      ensures this.cfg == cfg && View() == Start(cfg)
    {
      this.cfg := cfg;
      suspicious, queryInterval := 0, cfg.baseInterval;
      var due := map[Jmx := 0, Queries := 0, Info := 0];
      nextDue := if cfg.GroupsEnabled() then due[ResourceGroups := 0] else due;
      lastSuccess, jmxSnapshot, polls := map[], None, [];
    }

    ghost function View(): Run
      reads this
    {
      Run(State(suspicious, queryInterval, nextDue, lastSuccess, jmxSnapshot), polls)
    }

    method DueKinds(now: int) returns (kinds: seq<Kind>)
      ensures kinds == Due(nextDue, POLL_ORDER, now)
      ensures forall k :: k in kinds <==> IsDue(nextDue, k, now)
    {
      kinds := [];
      var i := 0;
      while i < |POLL_ORDER|
        invariant 0 <= i <= |POLL_ORDER|
        invariant kinds == Due(nextDue, POLL_ORDER[..i], now)
        invariant forall k :: k in kinds <==> k in POLL_ORDER[..i] && IsDue(nextDue, k, now)
      {
        assert POLL_ORDER[..i + 1][..i] == POLL_ORDER[..i];
        assert POLL_ORDER[..i + 1] == POLL_ORDER[..i] + [POLL_ORDER[i]];
        if POLL_ORDER[i] in nextDue && now >= nextDue[POLL_ORDER[i]] {
          kinds := kinds + [POLL_ORDER[i]];
        }
        i := i + 1;
      }
      assert POLL_ORDER[..|POLL_ORDER|] == POLL_ORDER;
      forall k: Kind ensures k in POLL_ORDER {
        assert k == POLL_ORDER[match k case Jmx => 0 case Queries => 1 case Info => 2 case ResourceGroups => 3];
      }
    }

    method Reschedule(kind: Kind, clock: int)
      modifies this`nextDue
      ensures nextDue == old(nextDue)[kind := clock + Interval(cfg, View().s, kind)]
    {
      var interval := match kind
        case Jmx => cfg.jmxInterval
        case Queries => queryInterval
        case Info => cfg.infoInterval
        case ResourceGroups => if cfg.groupInterval.Some? then cfg.groupInterval.value else 0;
      nextDue := nextDue[kind := clock + interval];
    }

    method AdaptInterval(bytes: nat)
      modifies this`queryInterval
      ensures queryInterval == Adapted(cfg, old(queryInterval), bytes)
    {
      if bytes >= cfg.backoffBytes {
        queryInterval := cfg.backoffInterval;
      } else if bytes < cfg.backoffBytes / 2 {
        queryInterval := cfg.baseInterval;
      }
    }

    method PollQueries(seen: Option<int>, w: World) returns (listing: Option<Listing>)
      requires seen == Seen(cfg, View().s, w.queryWall)
      modifies this`suspicious, this`queryInterval, this`lastSuccess
      ensures View().s == QueriesPolled(cfg, old(View().s), w)
      ensures listing == Listed(cfg, old(View().s), w)
    {
      if w.query.NoAnswer? {
        return None;
      }
      var tripped := false;
      if w.query.count == 0 && seen.Some? && seen.value != 0 {
        suspicious := suspicious + 1;
        if suspicious >= cfg.Confirm() {
          tripped := true;
        }
      } else {
        suspicious := 0;
      }
      AdaptInterval(w.query.bytes);
      if !tripped {
        lastSuccess := lastSuccess[Queries := w.read(Queries)];
      }
      return Some(Listing(w.query.count, w.query.bytes, seen, tripped));
    }

    method PollKind(kind: Kind, w: World) returns (listing: Option<Listing>)
      modifies this`suspicious, this`queryInterval, this`lastSuccess
      ensures View().s == Polled(cfg, old(View().s), kind, w)
      ensures listing == if kind == Queries then Listed(cfg, old(View().s), w) else None
    {
      listing := None;
      if kind == Info {
        if w.infoAnswers { lastSuccess := lastSuccess[Info := w.read(Info)]; }
      } else if kind == Jmx {
        if w.jmxAnswers { lastSuccess := lastSuccess[Jmx := w.read(Jmx)]; }
      } else if kind == ResourceGroups {
        if w.groupsFound { lastSuccess := lastSuccess[ResourceGroups := w.read(ResourceGroups)]; }
      } else {
        var seen := if jmxSnapshot.None? || w.queryWall - jmxSnapshot.value.at > cfg.maxJmxAge
          then None else jmxSnapshot.value.running;
        listing := PollQueries(seen, w);
      }
    }

    method PollAndSave(kind: Kind, w: World)
      modifies this
      ensures View() == PollOne(cfg, old(View()), kind, w)
    {
      var listing := PollKind(kind, w);
      polls := polls + [Poll(kind, w.now, w.done(kind), Interval(cfg, View().s, kind), listing)];
      Reschedule(kind, w.done(kind));
      if kind == Jmx && w.jmxSaved {
        jmxSnapshot := Some(Reading(w.jmxWall, if w.jmxAnswers then w.running else None));
      }
    }

    method Tick(w: World)
      modifies this
      ensures View() == Ticked(cfg, old(View()), w)
    {
      var kinds := DueKinds(w.now);
      ghost var before := View();
      var i := 0;
      while i < |kinds|
        invariant 0 <= i <= |kinds|
        invariant View() == PollAll(cfg, before, kinds[..i], w)
      {
        PollAndSave(kinds[i], w);
        assert kinds[..i + 1][..i] == kinds[..i];
        i := i + 1;
      }
      assert kinds[..|kinds|] == kinds;
    }
  }

  // ------------------------------------------------------------ over a run

  /** The polls that brought a list back; a poll that got no answer is not among them. */
  function Listings(polls: seq<Poll>): seq<Listing> {
    if polls == [] then []
    else
      var last := polls[|polls|-1];
      Listings(polls[..|polls|-1]) + if last.listing.Some? then [last.listing.value] else []
  }

  /** How many of the latest lists are suspicious without a break. */
  function Streak(ls: seq<Listing>): (n: nat)
    ensures n <= |ls|
  {
    if ls == [] || !Suspicious(ls[|ls|-1]) then 0 else 1 + Streak(ls[..|ls|-1])
  }

  ghost predicate LatestSuspicious(ls: seq<Listing>, upTo: nat, n: nat)
    requires upTo <= |ls|
  {
    n <= upTo && forall i | upTo - n <= i < upTo :: Suspicious(ls[i])
  }

  lemma {:induction false} StreakIsLatest(ls: seq<Listing>, n: nat)
    ensures Streak(ls) >= n <==> LatestSuspicious(ls, |ls|, n)
  {
    if n > 0 && ls != [] {
      var rest := ls[..|ls|-1];
      StreakIsLatest(rest, n - 1);
      if Suspicious(ls[|ls|-1]) {
        assert LatestSuspicious(rest, |rest|, n - 1) <==> LatestSuspicious(ls, |ls|, n) by {
          if LatestSuspicious(ls, |ls|, n) {
            forall i | |rest| - (n - 1) <= i < |rest| ensures Suspicious(rest[i]) { assert rest[i] == ls[i]; }
          }
          if LatestSuspicious(rest, |rest|, n - 1) {
            forall i | |ls| - n <= i < |ls| ensures Suspicious(ls[i]) { if i < |rest| { assert rest[i] == ls[i]; } }
          }
        }
      }
    }
  }

  predicate Large(cfg: Config, l: Listing) { l.bytes >= cfg.backoffBytes }

  predicate DeadBand(cfg: Config, l: Listing) { cfg.backoffBytes / 2 <= l.bytes < cfg.backoffBytes }

  /** The last response outside the dead band was a large one. */
  ghost predicate BackedOff(cfg: Config, ls: seq<Listing>) {
    exists i | 0 <= i < |ls| :: Large(cfg, ls[i]) && forall j | i < j < |ls| :: DeadBand(cfg, ls[j])
  }

  ghost predicate VerdictsAre(cfg: Config, ls: seq<Listing>) {
    forall i | 0 <= i < |ls| :: ls[i].tripped <==> LatestSuspicious(ls, i + 1, cfg.Confirm())
  }

  /** No poll of a kind starts before the interval that the previous one set has passed. */
  ghost predicate Spaced(polls: seq<Poll>) {
    forall i, j | 0 <= i < j < |polls| && polls[i].kind == polls[j].kind ::
      polls[j].at >= polls[i].done + polls[i].interval
  }

  ghost predicate DueAfterAll(r: Run) {
    forall i | 0 <= i < |r.polls| ::
      r.polls[i].kind in r.s.nextDue && r.s.nextDue[r.polls[i].kind] >= r.polls[i].done + r.polls[i].interval
  }

  /** The shortest interval that polls of a kind can have. */
  function Shortest(cfg: Config, kind: Kind): int {
    match kind
    case Jmx => cfg.jmxInterval
    case Queries => if cfg.backoffInterval < cfg.baseInterval then cfg.backoffInterval else cfg.baseInterval
    case Info => cfg.infoInterval
    case ResourceGroups => if cfg.groupInterval.Some? then cfg.groupInterval.value else 0
  }

  ghost predicate Timed(cfg: Config, polls: seq<Poll>) {
    forall i | 0 <= i < |polls| ::
      0 <= Shortest(cfg, polls[i].kind) <= polls[i].interval && polls[i].at <= polls[i].done
  }

  ghost predicate Counted(cfg: Config, r: Run) {
    var ls := Listings(r.polls);
    r.s.suspicious == Streak(ls) && VerdictsAre(cfg, ls)
  }

  ghost predicate Adaptive(cfg: Config, r: Run) {
    r.s.interval == if BackedOff(cfg, Listings(r.polls)) then cfg.backoffInterval else cfg.baseInterval
  }

  ghost predicate OnTime(cfg: Config, r: Run) {
    Spaced(r.polls) && DueAfterAll(r) && Timed(cfg, r.polls)
  }

  /** The clock does not run backwards inside a tick. */
  ghost predicate Monotone(w: World) { forall k: Kind :: w.done(k) >= w.now }

  lemma ListingsGrow(polls: seq<Poll>, p: Poll)
    ensures Listings(polls + [p]) == Listings(polls) + if p.listing.Some? then [p.listing.value] else []
  {
    assert (polls + [p])[..|polls|] == polls;
  }

  /** What a list says about an earlier list brought back does not change when another follows. */
  lemma LatestIsLocal(ls: seq<Listing>, l: Listing, n: nat, confirm: nat)
    requires n <= |ls|
    ensures LatestSuspicious(ls, n, confirm) <==> LatestSuspicious(ls + [l], n, confirm)
  {
    assert forall k | 0 <= k < |ls| :: (ls + [l])[k] == ls[k];
  }

  lemma VerdictsGrow(cfg: Config, ls: seq<Listing>, l: Listing)
    requires VerdictsAre(cfg, ls) && (l.tripped <==> LatestSuspicious(ls + [l], |ls| + 1, cfg.Confirm()))
    ensures VerdictsAre(cfg, ls + [l])
  {
    var ls' := ls + [l];
    forall i | 0 <= i < |ls'| ensures ls'[i].tripped <==> LatestSuspicious(ls', i + 1, cfg.Confirm()) {
      if i < |ls| { LatestIsLocal(ls, l, i + 1, cfg.Confirm()); }
    }
  }

  /** The counter after a list, and what the list reports. */
  ghost predicate Judges(cfg: Config, before: nat, l: Listing, after: nat) {
    after == (if Suspicious(l) then before + 1 else 0) && (l.tripped <==> after >= cfg.Confirm())
  }

  lemma OnePoll(cfg: Config, r: Run, kind: Kind, w: World)
    ensures var r' := PollOne(cfg, r, kind, w);
      && |r'.polls| == |r.polls| + 1 && r'.polls == r.polls + [r'.polls[|r.polls|]]
      && match r'.polls[|r.polls|].listing
         case None => r'.s.suspicious == r.s.suspicious
         case Some(l) => Judges(cfg, r.s.suspicious, l, r'.s.suspicious)
  {
  }

  lemma CountGoesOn(cfg: Config, ls: seq<Listing>, l: Listing, after: nat)
    requires VerdictsAre(cfg, ls) && Judges(cfg, Streak(ls), l, after)
    ensures after == Streak(ls + [l]) && VerdictsAre(cfg, ls + [l])
  {
    assert (ls + [l])[..|ls|] == ls;
    StreakIsLatest(ls + [l], cfg.Confirm());
    VerdictsGrow(cfg, ls, l);
  }

  lemma CountedStep(cfg: Config, r: Run, kind: Kind, w: World)
    requires Counted(cfg, r)
    ensures Counted(cfg, PollOne(cfg, r, kind, w))
  {
    var r' := PollOne(cfg, r, kind, w);
    var p := r'.polls[|r.polls|];
    OnePoll(cfg, r, kind, w);
    ListingsGrow(r.polls, p);
    if p.listing.Some? {
      CountGoesOn(cfg, Listings(r.polls), p.listing.value, r'.s.suspicious);
    } else {
      assert Listings(r'.polls) == Listings(r.polls);
    }
  }

  lemma BackedOffStep(cfg: Config, ls: seq<Listing>, l: Listing)
    ensures BackedOff(cfg, ls + [l]) <==> Large(cfg, l) || (DeadBand(cfg, l) && BackedOff(cfg, ls))
  {
    var ls' := ls + [l];
    if Large(cfg, l) {
      assert Large(cfg, ls'[|ls|]);
    }
    if DeadBand(cfg, l) && BackedOff(cfg, ls) {
      var i :| 0 <= i < |ls| && Large(cfg, ls[i]) && forall j | i < j < |ls| :: DeadBand(cfg, ls[j]);
      assert ls'[i] == ls[i];
      forall j | i < j < |ls'| ensures DeadBand(cfg, ls'[j]) { if j < |ls| { assert ls'[j] == ls[j]; } }
    }
    if BackedOff(cfg, ls') && !Large(cfg, l) {
      var i :| 0 <= i < |ls'| && Large(cfg, ls'[i]) && forall j | i < j < |ls'| :: DeadBand(cfg, ls'[j]);
      assert ls'[|ls|] == l && ls[i] == ls'[i];
      forall j | i < j < |ls| ensures DeadBand(cfg, ls[j]) { assert ls'[j] == ls[j]; }
    }
  }

  lemma AdaptiveStep(cfg: Config, r: Run, kind: Kind, w: World)
    requires Adaptive(cfg, r)
    ensures Adaptive(cfg, PollOne(cfg, r, kind, w))
  {
    var r' := PollOne(cfg, r, kind, w);
    var p := r'.polls[|r.polls|];
    ListingsGrow(r.polls, p);
    if p.listing.Some? {
      BackedOffStep(cfg, Listings(r.polls), p.listing.value);
    } else {
      assert Listings(r'.polls) == Listings(r.polls);
    }
  }

  lemma OnTimeStep(cfg: Config, r: Run, kind: Kind, w: World)
    requires cfg.Valid() && Monotone(w) && OnTime(cfg, r)
    requires r.s.interval >= Shortest(cfg, Queries)
    requires IsDue(r.s.nextDue, kind, w.now)
    ensures OnTime(cfg, PollOne(cfg, r, kind, w))
    ensures forall k | k != kind :: IsDue(r.s.nextDue, k, w.now) ==> IsDue(PollOne(cfg, r, kind, w).s.nextDue, k, w.now)
  {
    var r' := PollOne(cfg, r, kind, w);
    assert Interval(cfg, Polled(cfg, r.s, kind, w), kind) >= Shortest(cfg, kind) >= 0;
    forall i | 0 <= i < |r'.polls|
      ensures r'.polls[i].kind in r'.s.nextDue
      ensures r'.s.nextDue[r'.polls[i].kind] >= r'.polls[i].done + r'.polls[i].interval
    {
      if i < |r.polls| { assert r'.polls[i] == r.polls[i]; }
    }
  }

  lemma DistinctDue(nextDue: map<Kind, int>, order: seq<Kind>, now: int)
    requires forall i, j | 0 <= i < j < |order| :: order[i] != order[j]
    ensures var d := Due(nextDue, order, now);
      && (forall i, j | 0 <= i < j < |d| :: d[i] != d[j])
      && (forall k | k in d :: IsDue(nextDue, k, now) && k in order)
  {
  }

  ghost predicate Sound(cfg: Config, r: Run) {
    Counted(cfg, r) && Adaptive(cfg, r) && OnTime(cfg, r)
  }

  lemma PollOneSound(cfg: Config, r: Run, kind: Kind, w: World)
    requires cfg.Valid() && Monotone(w) && Sound(cfg, r) && IsDue(r.s.nextDue, kind, w.now)
    ensures Sound(cfg, PollOne(cfg, r, kind, w))
    ensures forall k | k != kind :: IsDue(r.s.nextDue, k, w.now) ==> IsDue(PollOne(cfg, r, kind, w).s.nextDue, k, w.now)
  {
    assert r.s.interval >= Shortest(cfg, Queries);
    CountedStep(cfg, r, kind, w);
    AdaptiveStep(cfg, r, kind, w);
    OnTimeStep(cfg, r, kind, w);
  }

  lemma {:induction false} PollAllSound(cfg: Config, r: Run, kinds: seq<Kind>, w: World)
    requires cfg.Valid() && Monotone(w) && Sound(cfg, r)
    requires forall i, j | 0 <= i < j < |kinds| :: kinds[i] != kinds[j]
    requires forall k | k in kinds :: IsDue(r.s.nextDue, k, w.now)
    ensures Sound(cfg, PollAll(cfg, r, kinds, w))
    ensures forall k | IsDue(r.s.nextDue, k, w.now) && k !in kinds ::
        IsDue(PollAll(cfg, r, kinds, w).s.nextDue, k, w.now)
  {
    if kinds != [] {
      var n := |kinds| - 1;
      PollAllSound(cfg, r, kinds[..n], w);
      var mid := PollAll(cfg, r, kinds[..n], w);
      assert kinds[n] !in kinds[..n] && kinds[n] in kinds;
      assert IsDue(mid.s.nextDue, kinds[n], w.now);
      PollOneSound(cfg, mid, kinds[n], w);
      forall k | IsDue(r.s.nextDue, k, w.now) && k !in kinds
        ensures IsDue(PollOne(cfg, mid, kinds[n], w).s.nextDue, k, w.now)
      {
        assert k !in kinds[..n] && k != kinds[n];
      }
    }
  }

  lemma {:induction false} RanSound(cfg: Config, worlds: seq<World>)
    requires cfg.Valid() && forall w | w in worlds :: Monotone(w)
    ensures Sound(cfg, Ran(cfg, worlds))
  {
    if worlds != [] {
      var n := |worlds| - 1;
      var r := Ran(cfg, worlds[..n]);
      assert worlds[n] in worlds;
      RanSound(cfg, worlds[..n]);
      DistinctDue(r.s.nextDue, POLL_ORDER, worlds[n].now);
      PollAllSound(cfg, r, Due(r.s.nextDue, POLL_ORDER, worlds[n].now), worlds[n]);
    }
  }

  // --------------------------------------------------------- the theorems

  /** H-09 is reported exactly when the last `h09_confirm_polls` lists brought back were all empty
      beside a fresh non-zero JMX count. Polls that got no answer neither count nor reset; a list
      checked against nothing, or against a stale reading, resets. */
  lemma FilteredListIsReportedExactlyWhenItPersists(cfg: Config, worlds: seq<World>, i: nat)
    requires cfg.Valid() && forall w | w in worlds :: Monotone(w)
    requires i < |Listings(Ran(cfg, worlds).polls)|
    ensures var ls := Listings(Ran(cfg, worlds).polls);
      ls[i].tripped <==> LatestSuspicious(ls, i + 1, cfg.Confirm())
  {
    RanSound(cfg, worlds);
  }

  /** The query interval is the backed-off one exactly when the last response outside the dead band was large. */
  lemma IntervalFollowsLastClearResponse(cfg: Config, worlds: seq<World>)
    requires cfg.Valid() && forall w | w in worlds :: Monotone(w)
    ensures var r := Ran(cfg, worlds);
      r.s.interval == if BackedOff(cfg, Listings(r.polls)) then cfg.backoffInterval else cfg.baseInterval
  {
    RanSound(cfg, worlds);
  }

  /** Two polls of one kind are never closer than the interval in force after the first of them. */
  lemma PollsKeepTheirInterval(cfg: Config, worlds: seq<World>, i: nat, j: nat)
    requires cfg.Valid() && forall w | w in worlds :: Monotone(w)
    requires i < j < |Ran(cfg, worlds).polls|
    requires Ran(cfg, worlds).polls[i].kind == Ran(cfg, worlds).polls[j].kind
    ensures var polls := Ran(cfg, worlds).polls;
      polls[j].at >= polls[i].done + polls[i].interval
  {
    RanSound(cfg, worlds);
  }

  /** Two polls of one kind are at least the shortest interval of that kind apart. */
  lemma PollsApart(cfg: Config, worlds: seq<World>, kind: Kind, i: nat, j: nat)
    requires cfg.Valid() && forall w | w in worlds :: Monotone(w)
    requires i < j < |Ran(cfg, worlds).polls|
    requires Ran(cfg, worlds).polls[i].kind == kind && Ran(cfg, worlds).polls[j].kind == kind
    ensures Ran(cfg, worlds).polls[j].at - Ran(cfg, worlds).polls[i].at >= Shortest(cfg, kind)
  {
    RanSound(cfg, worlds);
    PollsKeepTheirInterval(cfg, worlds, i, j);
  }

  lemma OneMoreGap(n: nat, gap: int)
    ensures (n + 1) * gap == n * gap + gap
  {
  }

  /** The picked polls are polls of this kind, in the order they were made. */
  ghost predicate Picks(polls: seq<Poll>, kind: Kind, picks: seq<nat>) {
    && (forall k | 0 <= k < |picks| :: picks[k] < |polls| && polls[picks[k]].kind == kind)
    && (forall k, m | 0 <= k < m < |picks| :: picks[k] < picks[m])
  }

  /** Hence the load: `n + 1` polls of one kind take at least `n` of the shortest interval that kind can have. */
  lemma {:induction false} PollLoadIsBounded(cfg: Config, worlds: seq<World>, kind: Kind, picks: seq<nat>)
    requires cfg.Valid() && forall w | w in worlds :: Monotone(w)
    requires |picks| > 0 && Picks(Ran(cfg, worlds).polls, kind, picks)
    ensures var polls := Ran(cfg, worlds).polls;
      polls[picks[|picks|-1]].at - polls[picks[0]].at >= (|picks| - 1) * Shortest(cfg, kind)
  {
    if |picks| > 1 {
      var n := |picks| - 1;
      PollLoadIsBounded(cfg, worlds, kind, picks[..n]);
      PollsApart(cfg, worlds, kind, picks[n - 1], picks[n]);
      OneMoreGap(n - 1, Shortest(cfg, kind));
    }
  }
}
