/**
  Rate limits. Two kinds: the daily quota, which locks an identity's bucket, counts its recent
  rows and inserts (db/corpus.go, handlers/transcripts.go, handlers/social.go), and the fixed
  window kept in Redis, written twice (handlers/distributed_limit.go, handlers/update_podcast.go).
  Quota times are seconds, Redis times milliseconds.
 */
module Limits {
  import opened Common

  // ---------------------------------------------------------------- the daily quota

  const DAY := 86400

  /** Who inserted when: the rows an identity is counted by. */
  type Logs<!Id> = map<Id, seq<int>>

  /** `inserts` is false when the insert finds its row already there. */
  datatype Call<Id> = Call(who: Id, now: int, inserts: bool)

  function Log<Id>(logs: Logs<Id>, who: Id): seq<int> {
    if who in logs then logs[who] else []
  }

  /** Rows with a time in (lo, hi]. */
  function CountIn(log: seq<int>, lo: int, hi: int): nat {
    if log == [] then 0 else (if lo < log[0] <= hi then 1 else 0) + CountIn(log[1..], lo, hi)
  }

  /** SELECT count(*) ... WHERE received_at > now - 24 hours. */
  function CountSince(log: seq<int>, cutoff: int): nat {
    if log == [] then 0 else (if log[0] > cutoff then 1 else 0) + CountSince(log[1..], cutoff)
  }

  predicate Admits<Id>(logs: Logs<Id>, c: Call<Id>, limit: nat) {
    CountSince(Log(logs, c.who), c.now - DAY) < limit
  }

  function AfterCall<Id>(logs: Logs<Id>, c: Call<Id>, limit: nat): Logs<Id> {
    if Admits(logs, c, limit) && c.inserts then logs[c.who := Log(logs, c.who) + [c.now]] else logs
  }

  function AfterCalls<Id>(logs: Logs<Id>, calls: seq<Call<Id>>, limit: nat): Logs<Id>
    decreases |calls|
  {
    if calls == [] then logs else AfterCalls(AfterCall(logs, calls[0], limit), calls[1..], limit)
  }

  predicate InOrder<Id>(calls: seq<Call<Id>>) {
    forall i, j :: 0 <= i < j < |calls| ==> calls[i].now <= calls[j].now
  }

  lemma {:induction false} CountInAppend(log: seq<int>, t: int, lo: int, hi: int)
    ensures CountIn(log + [t], lo, hi) == CountIn(log, lo, hi) + if lo < t <= hi then 1 else 0
    decreases |log|
  {
    if log == [] {
      assert log + [t] == [t] && [t][1..] == [];
    } else {
      assert (log + [t])[1..] == log[1..] + [t];
      CountInAppend(log[1..], t, lo, hi);
    }
  }

  lemma {:induction false} WindowWithinRecent(log: seq<int>, lo: int, hi: int, cutoff: int)
    requires cutoff <= lo
    ensures CountIn(log, lo, hi) <= CountSince(log, cutoff)
    decreases |log|
  {
    if log != [] {
      WindowWithinRecent(log[1..], lo, hi, cutoff);
    }
  }

  /** No 24-hour window, wherever it starts, holds more rows of one identity than the limit. */
  ghost predicate WithinQuota<Id(!new)>(logs: Logs<Id>, limit: nat) {
    forall who, lo :: InDay(Log(logs, who), lo) <= limit
  }

  /** Rows in the 24 hours after `lo`. */
  function InDay(log: seq<int>, lo: int): nat {
    CountIn(log, lo, lo + DAY)
  }

  lemma CallKeepsQuota<Id(!new)>(logs: Logs<Id>, c: Call<Id>, limit: nat)
    requires WithinQuota(logs, limit)
    ensures WithinQuota(AfterCall(logs, c, limit), limit)
  {
    var logs' := AfterCall(logs, c, limit);
    forall who, lo ensures InDay(Log(logs', who), lo) <= limit {
      assert InDay(Log(logs, who), lo) <= limit;
      if logs' != logs && who == c.who {
        CountInAppend(Log(logs, who), c.now, lo, lo + DAY);
        if lo < c.now <= lo + DAY {
          WindowWithinRecent(Log(logs, who), lo, lo + DAY, c.now - DAY);
        }
      }
    }
  }

  /** Main result: the quota holds in every window of every run, not only at the checks. */
  lemma {:induction false} QuotaHolds<Id(!new)>(logs: Logs<Id>, calls: seq<Call<Id>>, limit: nat)
    requires WithinQuota(logs, limit)
    ensures WithinQuota(AfterCalls(logs, calls, limit), limit)
    decreases |calls|
  {
    if calls != [] {
      CallKeepsQuota(logs, calls[0], limit);
      QuotaHolds(AfterCall(logs, calls[0], limit), calls[1..], limit);
    }
  }

  /** The positions of the rows of the last 24 hours. */
  ghost function Recent(log: seq<int>, now: int): set<int> {
    set i | 0 <= i < |log| && log[i] > now - 86400
  }

  lemma {:induction false} CountIsSize(log: seq<int>, now: int)
    ensures CountSince(log, now - 86400) == |Recent(log, now)|
    decreases |log|
  {
    if log != [] {
      var n := |log| - 1;
      CountIsSize(log[..n], now);
      CountLast(log, now - 86400);
      assert Recent(log, now) == Recent(log[..n], now) + if log[n] > now - 86400 then {n} else {};
    } else {
      assert Recent(log, now) == {};
    }
  }

  lemma {:induction false} CountLast(log: seq<int>, cutoff: int)
    requires log != []
    ensures var n := |log| - 1;
            CountSince(log, cutoff) == CountSince(log[..n], cutoff) + if log[n] > cutoff then 1 else 0
    decreases |log|
  {
    if |log| > 1 {
      assert log[..|log| - 1][1..] == log[1..][..|log| - 2];
      CountLast(log[1..], cutoff);
    } else {
      assert log[1..] == [];
    }
  }

  /** Main result: exactly whom the gate lets through, and what it stores. */
  lemma GateOutcome<Id>(logs: Logs<Id>, c: Call<Id>, limit: nat)
    ensures var rows := if c.who in logs then logs[c.who] else [];
            && (Admits(logs, c, limit) <==> |Recent(rows, c.now)| < limit)
            && AfterCall(logs, c, limit)
               == (if |Recent(rows, c.now)| < limit && c.inserts then logs[c.who := rows + [c.now]] else logs)
  {
    CountIsSize(if c.who in logs then logs[c.who] else [], c.now);
  }

  /** The window must be half open: exactly 24 hours apart, twice the limit gets through. */
  lemma ClosedWindowHoldsMore()
    ensures exists calls: seq<Call<string>> :: InOrder(calls) && AfterCalls(map[], calls, 1) == map["u" := [0, DAY]]
  {
    var a, b := Call("u", 0, true), Call("u", DAY, true);
    var none: Logs<string> := map[];
    var one: Logs<string> := map["u" := [0]];
    var two: Logs<string> := map["u" := [0, DAY]];
    assert AfterCall(none, a, 1) == one by {
      assert Log(none, "u") + [0] == [0];
    }
    assert AfterCall(one, b, 1) == two by {
      assert [0][1..] == [];
      assert CountSince(Log(one, "u"), 0) == 0;
      assert Log(one, "u") + [DAY] == [0, DAY];
    }
    assert [a, b][1..] == [b] && [b][1..] == [];
    assert AfterCalls(one, [b], 1) == two;
    assert AfterCalls(none, [a, b], 1) == two;
    assert InOrder([a, b]);
  }

  /** The rows of one gate: lock, count, insert as one transaction. */
  class QuotaTable<Id(==)> {
    var logs: Logs<Id>

    constructor ()
      ensures logs == map[]
    {
      logs := map[];
    }

    /** The count as a loop over the identity's rows. */
    method CountRecent(who: Id, cutoff: int) returns (count: nat)
      ensures count == CountSince(Log(logs, who), cutoff)
    {
      var log := Log(logs, who);
      count := 0;
      for i := 0 to |log|
        invariant count + CountSince(log[i..], cutoff) == CountSince(log, cutoff)
      {
        assert log[i..][1..] == log[i + 1..];
        if log[i] > cutoff {
          count := count + 1;
        }
      }
    }

    method TryInsert(c: Call<Id>, limit: nat) returns (allowed: bool)
      modifies this
      ensures allowed <==> Admits(old(logs), c, limit)
      ensures logs == AfterCall(old(logs), c, limit)
    {
      var count := CountRecent(c.who, c.now - DAY);
      if count >= limit {
        return false;
      }
      if c.inserts {
        logs := logs[c.who := Log(logs, c.who) + [c.now]];
      }
      return true;
    }
  }

  // ---------------------------------------------------------------- Redis

  /** A counter key: there up to and including its deadline, everlasting while it has none. */
  datatype Key = Missing | Stored(count: int, deadline: Option<int>)

  /** The key as a command at time `now` finds it. */
  function Present(k: Key, now: int): Key {
    if k.Stored? && k.deadline.Some? && k.deadline.value < now then Missing else k
  }

  function Incr(k: Key, now: int): Key {
    match Present(k, now)
    case Missing => Stored(1, None)
    case Stored(count, deadline) => Stored(count + 1, deadline)
  }

  function PExpire(k: Key, millis: int, now: int): Key {
    match Present(k, now)
    case Missing => Missing
    case Stored(count, _) => if millis <= 0 then Missing else Stored(count, Some(now + millis))
  }

  /** -2 for a missing key, -1 for one without a deadline. */
  function PTtl(k: Key, now: int): int {
    match Present(k, now)
    case Missing => -2
    case Stored(_, None) => -1
    case Stored(_, Some(deadline)) => deadline - now
  }

  // ---------------------------------------------------------------- the two scripts and their callers

  datatype Reply = Reply(key: Key, first: int, second: int)

  /** distributedFixedWindowScript, with the limit and the window as its arguments: a flag and the time left. */
  function FlagScript(k: Key, argv: seq<int>, now: int): Reply
    requires |argv| == 2
  {
    var k1 := Incr(k, now);
    var k2 := if k1.count == 1 then PExpire(k1, argv[1], now) else k1;
    Reply(k2, if k1.count > argv[0] then 0 else 1, PTtl(k2, now))
  }

  /** fixedWindowScript, with the window as its argument: the count and the time left. */
  function CountScript(k: Key, argv: seq<int>, now: int): Reply
    requires |argv| == 1
  {
    var k1 := Incr(k, now);
    var k2 := if k1.count == 1 then PExpire(k1, argv[0], now) else k1;
    Reply(k2, k1.count, PTtl(k2, now))
  }

  /** What a caller learns from one call, and the key it leaves behind. */
  datatype Answer = Answer(key: Key, allowed: bool, retry: int)

  /** Duration arithmetic in nanoseconds, rounded up to seconds, at least one (writeRateLimited). */
  function RetryFromDuration(millis: int): int {
    var seconds := (millis * 1_000_000 + 1_000_000_000 - 1) / 1_000_000_000;
    if seconds < 1 then 1 else seconds
  }

  /** Milliseconds rounded up to seconds, at least one (allowRedisWindow). */
  function RetryFromMillis(millis: int): int {
    var seconds := (millis + 999) / 1000;
    if seconds < 1 then 1 else seconds
  }

  function LimitCall(k: Key, limit: int, window: int, now: int): Answer {
    var reply := FlagScript(k, [limit, window], now);
    Answer(reply.key, reply.first == 1, RetryFromDuration(reply.second))
  }

  function WindowCall(k: Key, limit: int, window: int, now: int): Answer {
    var reply := CountScript(k, [window], now);
    Answer(reply.key, reply.first <= limit, RetryFromMillis(reply.second))
  }

  function LimitCalls(k: Key, times: seq<int>, limit: int, window: int): (answers: seq<Answer>)
    ensures |answers| == |times|
    decreases |times|
  {
    if times == [] then []
    else
      var a := LimitCall(k, limit, window, times[0]);
      [a] + LimitCalls(a.key, times[1..], limit, window)
  }

  function WindowCalls(k: Key, times: seq<int>, limit: int, window: int): (answers: seq<Answer>)
    ensures |answers| == |times|
    decreases |times|
  {
    if times == [] then []
    else
      var a := WindowCall(k, limit, window, times[0]);
      [a] + WindowCalls(a.key, times[1..], limit, window)
  }

  // ---------------------------------------------------------------- rounding

  /** Both roundings agree on every remaining time, the negative answers for no key and no deadline included. */
  lemma RetryRoundings(millis: int)
    requires millis >= -2
    ensures RetryFromDuration(millis) == RetryFromMillis(millis) >= 1
    ensures millis <= 1000 * RetryFromMillis(millis) && (millis > 0 ==> 1000 * (RetryFromMillis(millis) - 1) < millis)
  {
    var q, r := millis / 1000, millis % 1000;
    assert millis == 1000 * q + r;
    var up := if r == 0 then q else q + 1;
    assert (millis + 999) / 1000 == up;
    assert millis * 1_000_000 + 999_999_999 == 1_000_000_000 * q + (r * 1_000_000 + 999_999_999);
    assert (millis * 1_000_000 + 1_000_000_000 - 1) / 1_000_000_000 == up;
  }

  lemma TtlBounds(k: Key, now: int)
    ensures PTtl(k, now) >= -2
  {
  }

  /** On every trace the two implementations store the same key, decide alike and advertise the same wait. */
  lemma {:induction false} ImplementationsAgree(k: Key, times: seq<int>, limit: int, window: int)
    ensures LimitCalls(k, times, limit, window) == WindowCalls(k, times, limit, window)
    decreases |times|
  {
    if times != [] {
      var a := LimitCall(k, limit, window, times[0]);
      TtlBounds(a.key, times[0]);
      RetryRoundings(PTtl(a.key, times[0]));
      ImplementationsAgree(a.key, times[1..], limit, window);
    }
  }

  // ---------------------------------------------------------------- at most twice the limit

  /** Admissions at times in [from, to]. */
  function Admissions(times: seq<int>, answers: seq<Answer>, from: int, to: int): nat
    requires |times| == |answers|
  {
    if times == [] then 0
    else
      (if answers[0].allowed && from <= times[0] <= to then 1 else 0)
      + Admissions(times[1..], answers[1..], from, to)
  }

  predicate NonDecreasing(times: seq<int>) {
    forall i, j :: 0 <= i < j < |times| ==> times[i] <= times[j]
  }

  lemma {:induction false} NoneAfter(times: seq<int>, answers: seq<Answer>, from: int, to: int)
    requires |times| == |answers| && forall i :: 0 <= i < |times| ==> times[i] > to
    ensures Admissions(times, answers, from, to) == 0
    decreases |times|
  {
    if times != [] {
      NoneAfter(times[1..], answers[1..], from, to);
    }
  }

  /** What this window can still admit. */
  function Rest(k: Key, limit: nat): nat
    requires k.Stored? && Counts(k)
  {
    if k.count < limit then limit - k.count else 0
  }

  /** A stored counter has counted a call. */
  predicate Counts(k: Key) {
    k.Stored? ==> k.count > 0
  }

  /**
    What can still be admitted in [from, from + window]: this window's rest, and one more window if
    this one ends inside. A window that starts inside has spent one call on starting.
   */
  function Headroom(k: Key, from: int, limit: nat, window: nat): nat
    requires Counts(k)
  {
    if k.Missing? || (k.deadline.Some? && k.deadline.value < from) then Most(limit)
    else Rest(k, limit) + if k.deadline.Some? && k.deadline.value < from + window then limit else 0
  }

  /** Twice the limit, less the call that starts the first window. */
  function Most(limit: nat): nat {
    if limit == 0 then 0 else 2 * limit - 1
  }

  lemma CallSpends(k: Key, t: int, from: int, limit: nat, window: nat)
    requires Counts(k) && window > 0 && t <= from + window
    ensures var a := LimitCall(k, limit, window, t);
            && Counts(a.key)
            && (if from <= t && a.allowed then 1 else 0) + Headroom(a.key, from, limit, window)
               <= Headroom(k, from, limit, window)
  {
  }

  lemma HeadroomBound(k: Key, from: int, limit: nat, window: nat)
    requires Counts(k)
    ensures Headroom(k, from, limit, window) <= Most(limit)
  {
  }

  lemma {:induction false} SpendsHeadroom(k: Key, times: seq<int>, from: int, limit: nat, window: nat)
    requires Counts(k) && window > 0 && NonDecreasing(times)
    ensures Admissions(times, LimitCalls(k, times, limit, window), from, from + window)
            <= Headroom(k, from, limit, window)
    decreases |times|
  {
    if times != [] {
      if times[0] > from + window {
        NoneAfter(times, LimitCalls(k, times, limit, window), from, from + window);
      } else {
        CallSpends(k, times[0], from, limit, window);
        var a := LimitCall(k, limit, window, times[0]);
        SpendsHeadroom(a.key, times[1..], from, limit, window);
        assert LimitCalls(k, times, limit, window)[1..] == LimitCalls(a.key, times[1..], limit, window);
      }
    }
  }

  /**
    Main result: both implementations admit fewer than twice the limit in any interval of one
    window length, ends included, whatever the key held before.
   */
  lemma TwiceTheLimit(k: Key, times: seq<int>, from: int, limit: nat, window: nat)
    requires Counts(k) && window > 0 && NonDecreasing(times)
    ensures Admissions(times, LimitCalls(k, times, limit, window), from, from + window) <= Most(limit)
    ensures Admissions(times, WindowCalls(k, times, limit, window), from, from + window) <= Most(limit)
  {
    SpendsHeadroom(k, times, from, limit, window);
    HeadroomBound(k, from, limit, window);
    ImplementationsAgree(k, times, limit, window);
  }

  /** How many of the calls at `times` are admitted in [from, to]. */
  function Admitted(k: Key, times: seq<int>, limit: nat, window: nat, from: int, to: int): nat {
    Admissions(times, LimitCalls(k, times, limit, window), from, to)
  }

  lemma AdmittedFirst(k: Key, t: int, rest: seq<int>, limit: nat, window: nat, from: int, to: int)
    ensures var a := LimitCall(k, limit, window, t);
            Admitted(k, [t] + rest, limit, window, from, to)
            == (if a.allowed && from <= t <= to then 1 else 0) + Admitted(a.key, rest, limit, window, from, to)
  {
    var a := LimitCall(k, limit, window, t);
    assert ([t] + rest)[1..] == rest;
    assert LimitCalls(k, [t] + rest, limit, window)[1..] == LimitCalls(a.key, rest, limit, window);
  }

  /** `n` calls at one time. */
  function Burst(n: nat, t: int): seq<int> {
    if n == 0 then [] else [t] + Burst(n - 1, t)
  }

  /** Inside a live window a burst is admitted as far as the limit allows, and what follows goes on from there. */
  lemma {:induction false} BurstAdmitted(count: nat, deadline: int, n: nat, t: int, rest: seq<int>, limit: nat,
                                         window: nat, from: int, to: int)
    requires 0 < count && count + n <= limit && t <= deadline && from <= t <= to
    ensures Admitted(Stored(count, Some(deadline)), Burst(n, t) + rest, limit, window, from, to)
            == n + Admitted(Stored(count + n, Some(deadline)), rest, limit, window, from, to)
    decreases n
  {
    if n == 0 {
      assert Burst(n, t) + rest == rest;
    } else {
      assert Burst(n, t) + rest == [t] + (Burst(n - 1, t) + rest);
      AdmittedFirst(Stored(count, Some(deadline)), t, Burst(n - 1, t) + rest, limit, window, from, to);
      BurstAdmitted(count + 1, deadline, n - 1, t, rest, limit, window, from, to);
    }
  }

  lemma {:induction false} BurstAt(n: nat, t: int)
    ensures |Burst(n, t)| == n && forall i :: 0 <= i < n ==> Burst(n, t)[i] == t
    decreases n
  {
    if n > 0 {
      BurstAt(n - 1, t);
    }
  }

  /** A full window one tick after the first one's end. */
  function NextWindow(limit: nat, window: nat): seq<int>
    requires limit > 0
  {
    [window + 1] + (Burst(limit - 1, window + 1) + [])
  }

  /** One window's first call, the rest of it at its end, and a full next window. */
  function WorstCase(limit: nat, window: nat): seq<int>
    requires limit > 0
  {
    [0] + (Burst(limit - 1, window) + NextWindow(limit, window))
  }

  lemma NextWindowAdmitted(limit: nat, window: nat)
    requires limit > 0 && window > 0
    ensures Admitted(Stored(limit, Some(window)), NextWindow(limit, window), limit, window, window, 2 * window) == limit
  {
    AdmittedFirst(Stored(limit, Some(window)), window + 1, Burst(limit - 1, window + 1) + [],
                  limit, window, window, 2 * window);
    BurstAdmitted(1, 2 * window + 1, limit - 1, window + 1, [], limit, window, window, 2 * window);
  }

  lemma WorstCaseInOrder(limit: nat, window: nat)
    requires limit > 0
    ensures NonDecreasing(WorstCase(limit, window))
  {
    BurstAt(limit - 1, window);
    BurstAt(limit - 1, window + 1);
  }

  /** ... and that many do get through, for every limit and window. */
  lemma TwiceTheLimitIsReached(limit: nat, window: nat)
    requires limit > 0 && window > 0
    ensures NonDecreasing(WorstCase(limit, window))
    ensures Admitted(Missing, WorstCase(limit, window), limit, window, window, window + window) == Most(limit)
  {
    WorstCaseInOrder(limit, window);
    AdmittedFirst(Missing, 0, Burst(limit - 1, window) + NextWindow(limit, window), limit, window, window, 2 * window);
    BurstAdmitted(1, window, limit - 1, window, NextWindow(limit, window), limit, window, window, 2 * window);
    NextWindowAdmitted(limit, window);
  }

  // ---------------------------------------------------------------- Retry-After

  /** No key is left without a deadline: the script that creates it sets one before anybody sees it. */
  predicate Expiring(k: Key) {
    k.Stored? ==> k.deadline.Some?
  }

  /** The key after calls at `times`. */
  function AfterCallsAt(k: Key, times: seq<int>, limit: int, window: int): Key
    decreases |times|
  {
    if times == [] then k else AfterCallsAt(LimitCall(k, limit, window, times[0]).key, times[1..], limit, window)
  }

  /** ... over every trace that starts without the key. */
  lemma {:induction false} KeysExpire(k: Key, times: seq<int>, limit: int, window: nat)
    requires Counts(k) && Expiring(k) && window > 0
    ensures var k' := AfterCallsAt(k, times, limit, window); Counts(k') && Expiring(k')
    decreases |times|
  {
    if times != [] {
      KeysExpire(LimitCall(k, limit, window, times[0]).key, times[1..], limit, window);
    }
  }

  /** Further calls never move a window's deadline; another window starts at or after it. */
  lemma {:induction false} DeadlineStands(k: Key, times: seq<int>, limit: nat, window: nat)
    requires k.Stored? && k.count > 0 && k.deadline.Some? && window > 0
    ensures var k' := AfterCallsAt(k, times, limit, window);
            && k'.Stored? && k'.count > 0 && k'.deadline.Some?
            && (k'.deadline == k.deadline || k'.deadline.value > k.deadline.value + window)
    decreases |times|
  {
    if times != [] {
      DeadlineStands(LimitCall(k, limit, window, times[0]).key, times[1..], limit, window);
    }
  }

  /**
    Main result: after the advertised wait the window that refused the call is over, whatever calls
    came in between, if and only if the caller is not back in the very millisecond of its deadline,
    which is possible only when the time left was a whole number of seconds.
   */
  lemma WaitingSufficesIff(k: Key, t: int, limit: nat, window: nat, between: seq<int>, later: int)
    requires window > 0 && Counts(k) && Expiring(k)
    requires !LimitCall(k, limit, window, t).allowed
    requires later >= t + 1000 * LimitCall(k, limit, window, t).retry
    ensures var refused := LimitCall(k, limit, window, t);
            var k' := AfterCallsAt(refused.key, between, limit, window);
            var ttl := PTtl(refused.key, t);
            && refused.key.Stored? && refused.key.deadline == Some(t + ttl) && k'.Stored?
            && (Present(refused.key, later).Missing? <==>
                !(later == t + 1000 * refused.retry && ttl == 1000 * refused.retry))
            && (Present(refused.key, later).Missing? && Present(k', later).Stored? ==>
                  k'.deadline != refused.key.deadline)
  {
    var refused := LimitCall(k, limit, window, t).key;
    RetryRoundings(PTtl(refused, t));
    DeadlineStands(refused, between, limit, window);
  }

  /** A caller who comes back later than advertised, and finds no new window opened, is admitted. */
  lemma LaterIsAdmitted(k: Key, t: int, limit: nat, window: nat, between: seq<int>, later: int)
    requires limit > 0 && window > 0 && Counts(k) && Expiring(k)
    requires !LimitCall(k, limit, window, t).allowed
    requires later > t + 1000 * LimitCall(k, limit, window, t).retry
    ensures var refused := LimitCall(k, limit, window, t).key;
            var k' := AfterCallsAt(refused, between, limit, window);
            k'.Stored? && (k'.deadline == refused.deadline ==> LimitCall(k', limit, window, later).allowed)
  {
    WaitingSufficesIff(k, t, limit, window, between, later);
    DeadlineStands(LimitCall(k, limit, window, t).key, between, limit, window);
  }

  /** The failing case is real: a one-second window, and a caller back after exactly one second. */
  lemma ExactWaitIsTooShort()
    ensures var k := LimitCall(Missing, 1, 1000, 0).key;
            var refused := LimitCall(k, 1, 1000, 0);
            && !refused.allowed && refused.retry == 1
            && !LimitCall(refused.key, 1, 1000, 1000).allowed
  {
    var k := LimitCall(Missing, 1, 1000, 0).key;
    assert k == Stored(1, Some(1000));
    assert LimitCall(k, 1, 1000, 0).key == Stored(2, Some(1000));
    RetryRoundings(1000);
  }

  // ---------------------------------------------------------------- the server and its callers

  class Redis {
    var keys: map<string, Key>

    constructor ()
      ensures keys == map[]
    {
      keys := map[];
    }

    function At(name: string): Key
      reads this
    {
      if name in keys then keys[name] else Missing
    }

    method Increment(name: string, now: int) returns (count: int)
      modifies this
      ensures keys == old(keys)[name := Incr(old(At(name)), now)] && count == keys[name].count
    {
      var k := Present(At(name), now);
      count := if k.Missing? then 1 else k.count + 1;
      keys := keys[name := if k.Missing? then Stored(1, None) else k.(count := count)];
    }

    method Expire(name: string, millis: int, now: int)
      modifies this
      ensures keys == old(keys)[name := PExpire(old(At(name)), millis, now)]
    {
      var k := Present(At(name), now);
      keys := keys[name := if k.Missing? || millis <= 0 then Missing else k.(deadline := Some(now + millis))];
    }

    /** The first script, command by command. */
    method RunFlagScript(name: string, argv: seq<int>, now: int) returns (flag: int, ttl: int)
      requires |argv| == 2
      modifies this
      ensures var reply := FlagScript(old(At(name)), argv, now);
              keys == old(keys)[name := reply.key] && flag == reply.first && ttl == reply.second
    {
      var current := Increment(name, now);
      if current == 1 {
        Expire(name, argv[1], now);
      }
      ttl := PTtl(At(name), now);
      if current > argv[0] {
        return 0, ttl;
      }
      return 1, ttl;
    }

    /** The second script, command by command. */
    method RunCountScript(name: string, argv: seq<int>, now: int) returns (count: int, ttl: int)
      requires |argv| == 1
      modifies this
      ensures var reply := CountScript(old(At(name)), argv, now);
              keys == old(keys)[name := reply.key] && count == reply.first && ttl == reply.second
    {
      count := Increment(name, now);
      if count == 1 {
        Expire(name, argv[0], now);
      }
      ttl := PTtl(At(name), now);
    }

    /** redisLimit and writeRateLimited: the script compares, the caller reads the flag. */
    method RedisLimit(key: string, limit: int, window: int, now: int) returns (allowed: bool, retry: int)
      modifies this
      ensures var a := LimitCall(old(At("rate:" + key)), limit, window, now);
              keys == old(keys)["rate:" + key := a.key] && allowed == a.allowed && retry == a.retry
    {
      var flag, ttl := RunFlagScript("rate:" + key, [limit, window], now);
      allowed := flag == 1;
      retry := RetryFromDuration(ttl);
    }

    /** allowRedisWindow: the caller compares the count. */
    method AllowRedisWindow(key: string, limit: int, window: int, now: int) returns (allowed: bool, retry: int)
      modifies this
      ensures var a := WindowCall(old(At(key)), limit, window, now);
              keys == old(keys)[key := a.key] && allowed == a.allowed && retry == a.retry
    {
      var count, ttl := RunCountScript(key, [window], now);
      allowed := count <= limit;
      retry := RetryFromMillis(ttl);
    }
  }
}
