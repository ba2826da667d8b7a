/**
  Account lockout: a pruned list of recent failures that stands in for the full log.

  Password checking is an oracle (`good`): true when the account exists and the password
  verifies. Every parameter named `t...` is one reading of the monotonic clock.
 */
module LocalAuth {

  const MAX_FAILED_ATTEMPTS := 5
  const LOCKOUT_SECONDS := 300.0

  /** The failures still inside the window at `now`: the list comprehension of the source. */
  function Recent(times: seq<real>, now: real): seq<real> {
    if times == [] then []
    else if now - times[0] < LOCKOUT_SECONDS then [times[0]] + Recent(times[1..], now)
    else Recent(times[1..], now)
  }

  /** One call of `authenticate` for one account: the clock when it checks the lock and the
      clock when it records a failure. */
  datatype Attempt = Attempt(good: bool, checked: real, recorded: real)

  datatype Outcome = Locked | Invalid | Accepted

  predicate IsLockedAt(list: seq<real>, now: real) {
    |Recent(list, now)| >= MAX_FAILED_ATTEMPTS
  }

  function OutcomeOf(list: seq<real>, a: Attempt): Outcome {
    if IsLockedAt(list, a.checked) then Locked else if a.good then Accepted else Invalid
  }

  /** What the authenticator keeps for the account after an attempt. */
  function Kept(list: seq<real>, a: Attempt): seq<real> {
    match OutcomeOf(list, a)
    case Locked => Recent(list, a.checked)
    case Accepted => []
    case Invalid => Recent(Recent(list, a.checked), a.recorded) + [a.recorded]
  }

  function UnlockDelay(list: seq<real>, now: real): real {
    if list == [] then 0.0
    else
      var left := LOCKOUT_SECONDS - (now - list[0]);
      if left > 0.0 then left else 0.0
  }

  // ------------------------------------------------------------ the class

  class LocalAuthenticator {
    var failures: map<string, seq<real>>

    constructor ()
      ensures failures == map[]
    {
      failures := map[];
    }

    ghost function ListOf(username: string): seq<real>
      reads this
    {
      if username in failures then failures[username] else []
    }

    ghost predicate OthersKept(before: map<string, seq<real>>, username: string)
      reads this
    {
      failures - {username} == before - {username}
    }

    method Prune(username: string, now: real) returns (attempts: seq<real>)
      ensures attempts == Recent(ListOf(username), now)
    {
      var all := if username in failures then failures[username] else [];
      attempts := [];
      var i := 0;
      while i < |all|
        invariant 0 <= i <= |all|
        invariant attempts + Recent(all[i..], now) == Recent(all, now)
      {
        if now - all[i] < LOCKOUT_SECONDS {
          attempts := attempts + [all[i]];
        }
        assert all[i..][0] == all[i] && all[i..][1..] == all[i + 1..];
        i := i + 1;
      }
    }

    method IsLocked(username: string, now: real) returns (locked: bool)
      modifies this
      ensures locked <==> IsLockedAt(old(ListOf(username)), now)
      ensures ListOf(username) == Recent(old(ListOf(username)), now)
      ensures OthersKept(old(failures), username)
    {
      var attempts := Prune(username, now);
      failures := failures[username := attempts];
      locked := |attempts| >= MAX_FAILED_ATTEMPTS;
    }

    method RecordFailure(username: string, now: real)
      modifies this
      ensures ListOf(username) == Recent(old(ListOf(username)), now) + [now]
      ensures OthersKept(old(failures), username)
    {
      var attempts := Prune(username, now);
      failures := failures[username := attempts + [now]];
    }

    method SecondsUntilUnlock(username: string, now: real) returns (s: real)
      ensures s == UnlockDelay(ListOf(username), now)
    {
      var attempts := if username in failures then failures[username] else [];
      if attempts == [] {
        return 0.0;
      }
      var left := LOCKOUT_SECONDS - (now - attempts[0]);
      s := if left > 0.0 then left else 0.0;
    }

    method Authenticate(username: string, a: Attempt) returns (r: Outcome)
      modifies this
      ensures r == OutcomeOf(old(ListOf(username)), a)
      ensures ListOf(username) == Kept(old(ListOf(username)), a)
      ensures OthersKept(old(failures), username)
    {
      var locked := IsLocked(username, a.checked);
      if locked {
        return Locked;
      }
      if !a.good {
        RecordFailure(username, a.recorded);
        return Invalid;
      }
      failures := failures - {username};
      return Accepted;
    }
  }

  // ------------------------------------------------- histories of one account

  function ListAfter(history: seq<Attempt>): seq<real> {
    if history == [] then [] else Kept(ListAfter(history[..|history|-1]), history[|history|-1])
  }

  /** The clock never runs backwards. */
  ghost predicate Monotone(history: seq<Attempt>) {
    && (forall i | 0 <= i < |history| :: history[i].checked <= history[i].recorded)
    && (forall i, j | 0 <= i < j < |history| :: history[i].recorded <= history[j].checked)
  }

  /** An authenticator that forgets nothing: every failure since the last success. */
  function FullLog(history: seq<Attempt>): seq<real> {
    if history == [] then []
    else
      var log, a := FullLog(history[..|history|-1]), history[|history|-1];
      match OutcomeOf(log, a)
      case Locked => log
      case Accepted => []
      case Invalid => log + [a.recorded]
  }

  ghost predicate Ascending(s: seq<real>) {
    forall i, j | 0 <= i < j < |s| :: s[i] <= s[j]
  }

  lemma {:induction false} RecentOfConcat(a: seq<real>, b: seq<real>, now: real)
    ensures Recent(a + b, now) == Recent(a, now) + Recent(b, now)
  {
    if a == [] {
      assert a + b == b;
    } else {
      assert (a + b)[1..] == a[1..] + b;
      RecentOfConcat(a[1..], b, now);
    }
  }

  /** Pruning early loses nothing that a later look would have kept. */
  lemma {:induction false} RecentTwice(s: seq<real>, early: real, late: real)
    requires early <= late
    ensures Recent(Recent(s, early), late) == Recent(s, late)
  {
    if s != [] {
      RecentTwice(s[1..], early, late);
    }
  }

  lemma TailAscends(s: seq<real>)
    requires s != [] && Ascending(s)
    ensures Ascending(s[1..]) && forall i | 0 < i < |s| :: s[0] <= s[i] == s[1..][i - 1]
  {
    assert forall i, j | 0 <= i < j < |s| - 1 :: s[1..][i] == s[i + 1] && s[1..][j] == s[j + 1];
  }

  /** If the oldest is recent, all are. */
  lemma {:induction false} OldestRecentAllRecent(s: seq<real>, now: real)
    requires Ascending(s) && (s != [] ==> now - s[0] < LOCKOUT_SECONDS)
    ensures Recent(s, now) == s && forall i | 0 <= i < |s| :: now - s[i] < LOCKOUT_SECONDS
  {
    if s != [] {
      TailAscends(s);
      OldestRecentAllRecent(s[1..], now);
    }
  }

  /** In an ascending list what is recent is a suffix. */
  lemma {:induction false} RecentIsSuffix(s: seq<real>, now: real)
    requires Ascending(s)
    ensures |Recent(s, now)| <= |s| && Recent(s, now) == s[|s| - |Recent(s, now)|..]
    ensures forall i | 0 <= i < |s| :: now - s[i] < LOCKOUT_SECONDS <==> i >= |s| - |Recent(s, now)|
  {
    if s == [] || now - s[0] < LOCKOUT_SECONDS {
      OldestRecentAllRecent(s, now);
    } else {
      TailAscends(s);
      RecentIsSuffix(s[1..], now);
      var k := |Recent(s[1..], now)|;
      assert Recent(s, now) == Recent(s[1..], now) && s[|s| - k..] == s[1..][|s| - 1 - k..];
    }
  }

  /** The invariant that ties the pruned list to the full log. */
  ghost predicate StandsFor(list: seq<real>, log: seq<real>, last: real) {
    && Ascending(log)
    && (forall t | t in log :: t <= last)
    && (forall now | now >= last :: Recent(list, now) == Recent(log, now))
  }

  lemma KeepsStandingFor(list: seq<real>, log: seq<real>, last: real, a: Attempt)
    requires StandsFor(list, log, last) && last <= a.checked <= a.recorded
    ensures OutcomeOf(list, a) == OutcomeOf(log, a)
    ensures OutcomeOf(log, a) == Locked ==> StandsFor(Kept(list, a), log, a.recorded)
    ensures OutcomeOf(log, a) == Accepted ==> StandsFor(Kept(list, a), [], a.recorded)
    ensures OutcomeOf(log, a) == Invalid ==> StandsFor(Kept(list, a), log + [a.recorded], a.recorded)
  {
    match OutcomeOf(log, a)
    case Locked =>
      forall now | now >= a.recorded ensures Recent(Kept(list, a), now) == Recent(log, now) {
        RecentTwice(list, a.checked, now);
      }
    case Accepted =>
    case Invalid =>
      assert Ascending(log + [a.recorded]) by {
        forall i | 0 <= i < |log| ensures log[i] <= a.recorded { assert log[i] in log; }
      }
      forall now | now >= a.recorded
        ensures Recent(Kept(list, a), now) == Recent(log + [a.recorded], now)
      {
        RecentTwice(list, a.checked, a.recorded);
        RecentTwice(list, a.recorded, now);
        RecentOfConcat(Recent(list, a.recorded), [a.recorded], now);
        RecentOfConcat(log, [a.recorded], now);
      }
  }

  function LastClock(history: seq<Attempt>): real {
    if history == [] then 0.0 else history[|history|-1].recorded
  }

  /**
    The pruned list is as good as the full log: from the last attempt on, filtering either
    at any later moment gives the same failures, so every answer is the same.
   */
  lemma {:induction false} PrunedListStandsForFullLog(history: seq<Attempt>, now: real)
    requires Monotone(history)
    requires history != [] ==> LastClock(history) <= now
    ensures Recent(ListAfter(history), now) == Recent(FullLog(history), now)
    ensures history != [] ==> StandsFor(ListAfter(history), FullLog(history), LastClock(history))
    ensures IsLockedAt(ListAfter(history), now) <==> IsLockedAt(FullLog(history), now)
  {
    if history != [] {
      var before, a := history[..|history|-1], history[|history|-1];
      PrunedListStandsForFullLog(before, a.checked);
      if before == [] {
        assert StandsFor([], [], a.checked);
        KeepsStandingFor([], [], a.checked, a);
      } else {
        KeepsStandingFor(ListAfter(before), FullLog(before), LastClock(before), a);
      }
    }
  }

  /** Six failures with no success between them span at least the lockout window. */
  ghost predicate RateBounded(log: seq<real>) {
    forall i | 0 <= i && i + MAX_FAILED_ATTEMPTS < |log| ::
      log[i + MAX_FAILED_ATTEMPTS] - log[i] >= LOCKOUT_SECONDS
  }

  lemma {:induction false} GuessingRateIsBounded(history: seq<Attempt>)
    requires Monotone(history)
    ensures RateBounded(FullLog(history))
  {
    if history != [] {
      var before, a := history[..|history|-1], history[|history|-1];
      GuessingRateIsBounded(before);
      PrunedListStandsForFullLog(before, a.checked);
      var log := FullLog(before);
      if OutcomeOf(log, a) == Invalid && |log| >= MAX_FAILED_ATTEMPTS {
        assert Ascending(log);
        RecentIsSuffix(log, a.checked);
        var i := |log| - MAX_FAILED_ATTEMPTS;
        assert a.checked - log[i] >= LOCKOUT_SECONDS;
      }
    }
  }

  /** The list an account costs never holds more than five entries. */
  lemma {:induction false} ListStaysShort(history: seq<Attempt>)
    ensures |ListAfter(history)| <= MAX_FAILED_ATTEMPTS
  {
    if history != [] {
      var before, a := history[..|history|-1], history[|history|-1];
      ListStaysShort(before);
      RecentShrinks(ListAfter(before), a.checked);
      RecentShrinks(Recent(ListAfter(before), a.checked), a.recorded);
    }
  }

  lemma {:induction false} RecentShrinks(s: seq<real>, now: real)
    ensures |Recent(s, now)| <= |s|
  {
    if s != [] { RecentShrinks(s[1..], now); }
  }

  /** Nothing has left the window exactly while the oldest has not. */
  lemma OldestDecides(s: seq<real>, now: real)
    requires Ascending(s) && s != []
    ensures now - s[0] < LOCKOUT_SECONDS <==> |Recent(s, now)| >= |s|
  {
    if now - s[0] < LOCKOUT_SECONDS {
      OldestRecentAllRecent(s, now);
    } else {
      RecentShrinks(s[1..], now);
    }
  }

  /** The delay told at `asked` is over when the failure at `first` has left the window. */
  lemma DelayEndsTheWindow(first: real, asked: real, later: real)
    requires asked <= later
    ensures later - first < LOCKOUT_SECONDS <==> later - asked < UnlockDelay([first], asked)
  {
  }

  /** Five failures lock until the oldest leaves the window. */
  lemma FiveStayUntilTheOldestLeaves(seen: seq<real>, asked: real, later: real)
    requires Ascending(seen) && |seen| == MAX_FAILED_ATTEMPTS && asked <= later
    ensures IsLockedAt(seen, later) <==> later - asked < UnlockDelay(seen, asked)
  {
    OldestDecides(seen, later);
    DelayEndsTheWindow(seen[0], asked, later);
    assert UnlockDelay(seen, asked) == UnlockDelay([seen[0]], asked);
  }

  /** What was locked at `now`, told its delay at `asked`, is locked later exactly while that delay has not elapsed. */
  lemma DelayIsExact(history: seq<Attempt>, now: real, asked: real, later: real)
    requires Monotone(history) && history != []
    requires LastClock(history) <= now <= asked <= later
    requires IsLockedAt(ListAfter(history), now)
    ensures var seen := Recent(ListAfter(history), now);
      && UnlockDelay(seen, now) > 0.0
      && (IsLockedAt(seen, later) <==> later - asked < UnlockDelay(seen, asked))
      && (IsLockedAt(FullLog(history), later) <==> later - asked < UnlockDelay(seen, asked))
  {
    var list := ListAfter(history);
    var seen := Recent(list, now);
    ListStaysShort(history);
    RecentShrinks(list, now);
    PrunedListStandsForFullLog(history, now);
    PrunedListStandsForFullLog(history, later);
    RecentIsSuffix(FullLog(history), now);
    RecentTwice(list, now, later);
    RecentTwice(list, now, now);
    RecentIsSuffix(seen, now);
    FiveStayUntilTheOldestLeaves(seen, asked, later);
  }

  /** The moment announced to an attempt that is refused because the account is locked. */
  function UnlocksAt(before: seq<Attempt>, refused: Attempt): real {
    refused.recorded + UnlockDelay(Recent(ListAfter(before), refused.checked), refused.recorded)
  }

  /** The next attempt after refused ones is judged by the log and the announcement alone. */
  lemma NextIsJudgedByTheClock(before: seq<Attempt>, refused: Attempt, more: seq<Attempt>, next: Attempt)
    requires Monotone(before + [refused] + more + [next])
    requires OutcomeOf(ListAfter(before), refused) == Locked
    requires FullLog(before + [refused] + more) == FullLog(before)
    ensures OutcomeOf(ListAfter(before + [refused] + more), next) == Locked
        <==> next.checked < UnlocksAt(before, refused)
  {
    var all := before + [refused] + more + [next];
    var soFar := before + [refused] + more;
    assert forall i | 0 <= i < |soFar| :: all[i] == soFar[i];
    assert forall i | 0 <= i < |before| :: all[i] == before[i];
    assert all[|before|] == refused && all[|soFar|] == next;
    assert Monotone(soFar) && Monotone(before);
    assert before != [] by { RecentShrinks(ListAfter(before), refused.checked); }
    assert all[|before| - 1] == before[|before| - 1] && all[|soFar| - 1] == soFar[|soFar| - 1];
    PrunedListStandsForFullLog(soFar, next.checked);
    DelayIsExact(before, refused.checked, refused.recorded, next.checked);
  }

  /**
    An attempt is refused because the account is locked, and told the seconds to wait. Whatever
    attempts follow, with the right password or a wrong one, each is refused exactly until those
    seconds have passed: the first one after is judged on its password.
   */
  lemma {:induction false} UnlocksExactlyOnTime(before: seq<Attempt>, refused: Attempt, more: seq<Attempt>,
                                                next: Attempt)
    requires Monotone(before + [refused] + more + [next])
    requires OutcomeOf(ListAfter(before), refused) == Locked
    requires forall a | a in more :: a.checked < UnlocksAt(before, refused)
    ensures FullLog(before + [refused] + more) == FullLog(before)
    ensures OutcomeOf(ListAfter(before + [refused] + more), next) == Locked
        <==> next.checked < UnlocksAt(before, refused)
  {
    var soFar := before + [refused] + more;
    if more == [] {
      assert soFar[..|soFar| - 1] == before && soFar[|soFar| - 1] == refused;
      assert before + ([refused] + more + [next]) == before + [refused] + more + [next];
      MonotonePrefix(before, [refused] + more + [next]);
      LockedLeavesTheLog(before, [refused] + more + [next], refused);
    } else {
      var init, last := more[..|more| - 1], more[|more| - 1];
      assert before + [refused] + init + [last] == soFar;
      MonotonePrefix(soFar, [next]);
      UnlocksExactlyOnTime(before, refused, init, last);
      assert last in more;
      assert soFar[..|soFar| - 1] == before + [refused] + init && soFar[|soFar| - 1] == last;
      MonotonePrefix(before + [refused] + init, [last]);
      LockedLeavesTheLog(before + [refused] + init, [last], last);
    }
    NextIsJudgedByTheClock(before, refused, more, next);
  }

  lemma MonotonePrefix(a: seq<Attempt>, b: seq<Attempt>)
    requires Monotone(a + b)
    ensures Monotone(a)
  {
    assert forall i | 0 <= i < |a| :: (a + b)[i] == a[i];
  }

  /** The pruned list and the full log refuse the same attempt. */
  lemma LockedLeavesTheLog(history: seq<Attempt>, later: seq<Attempt>, a: Attempt)
    requires Monotone(history + later) && later != [] && later[0] == a
    requires OutcomeOf(ListAfter(history), a) == Locked
    ensures OutcomeOf(FullLog(history), a) == Locked
  {
    MonotonePrefix(history, later);
    assert (history + later)[|history|] == a;
    if history != [] { assert (history + later)[|history| - 1] == history[|history| - 1]; }
    PrunedListStandsForFullLog(history, a.checked);
  }
}
