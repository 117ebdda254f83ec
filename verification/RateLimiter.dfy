// The fixed-window rate limiter: an atomic INCR/EXPIRE/TTL script on one shared Redis
// store, under a moving clock that counts milliseconds, as Redis does.
module RateLimiter {
  import opened Wrappers

  // ---------- Policies and keys ----------

  datatype Policy = Anonymous | Authenticated | SqlAnalytics | WriteMutation | RagVision

  /** `window` is in seconds. */
  datatype RatePolicy = RatePolicy(requests: nat, window: nat)

  function PolicyName(p: Policy): string {
    match p
    case Anonymous => "anon"
    case Authenticated => "auth"
    case SqlAnalytics => "sql"
    case WriteMutation => "write"
    case RagVision => "vision"
  }

  function Config(p: Policy): (c: RatePolicy)
    ensures c.requests > 0 && c.window > 0
  {
    match p
    case Anonymous => RatePolicy(30, 60)
    case Authenticated => RatePolicy(120, 60)
    case SqlAnalytics => RatePolicy(60, 60)
    case WriteMutation => RatePolicy(20, 60)
    case RagVision => RatePolicy(15, 60)
  }

  /** f"rl:{policy}:{identifier}" */
  function Key(p: Policy, identifier: string): string {
    "rl:" + PolicyName(p) + ":" + identifier
  }

  // ---------- Redis ----------

  /** A counter; it lives through the millisecond of its expiry, or for ever without one. */
  datatype Counter = Counter(count: nat, expiresAt: Option<int>)

  type Store = map<string, Counter>

  predicate Live(store: Store, key: string, now: int) {
    key in store && (store[key].expiresAt.None? || now <= store[key].expiresAt.value)
  }

  datatype Reply = Reply(store: Store, count: nat, ttl: int)

  /** TTL replies in whole seconds, rounded to the nearest. */
  function Seconds(milliseconds: int): int { (milliseconds + 500) / 1_000 }

  /** INCR, EXPIRE when the count is 1, TTL: one atomic step. */
  function Script(store: Store, key: string, window: nat, now: int): Reply {
    var previous := if Live(store, key, now) then store[key] else Counter(0, None);
    var count := previous.count + 1;
    var expiresAt := if count == 1 then Some(now + 1_000 * window) else previous.expiresAt;
    Reply(store[key := Counter(count, expiresAt)], count,
          if expiresAt.Some? then Seconds(expiresAt.value - now) else -1)
  }

  // ---------- check_rate_limit ----------

  datatype LimitResult = LimitResult(allowed: bool, remaining: int, retryAfter: int)

  function Judge(c: RatePolicy, reply: Reply): LimitResult {
    var safeTtl := if reply.ttl > 0 then reply.ttl else c.window;
    if reply.count > c.requests then LimitResult(false, 0, safeTtl)
    else LimitResult(true, if c.requests > reply.count then c.requests - reply.count else 0, 0)
  }

  /** The answer when Redis gave none: allowed, with an unknown remainder. */
  const UNKNOWN := LimitResult(true, -1, 0)

  /** Whether a call reaches Redis, and whether the reply comes back. */
  datatype Link = Up | ReplyLost | Down

  datatype Call = Call(time: int, policy: Policy, identifier: string, link: Link)

  function CallKey(c: Call): string { Key(c.policy, c.identifier) }

  datatype Run = Run(store: Store, results: seq<LimitResult>)

  /** A whole log of calls, in the order they are served, from an empty store. */
  function RunLog(log: seq<Call>): (r: Run)
    ensures |r.results| == |log|
  {
    if log == [] then Run(map[], [])
    else
      var before := RunLog(log[..|log| - 1]);
      var c := log[|log| - 1];
      var reply := Script(before.store, CallKey(c), Config(c.policy).window, c.time);
      Run(if c.link.Down? then before.store else reply.store,
          before.results + [if c.link.Up? then Judge(Config(c.policy), reply) else UNKNOWN])
  }

  /** One more call. */
  lemma RunLogStep(log: seq<Call>, c: Call)
    ensures var before, reply := RunLog(log), Script(RunLog(log).store, CallKey(c), Config(c.policy).window, c.time);
            RunLog(log + [c]) ==
            Run(if c.link.Down? then before.store else reply.store,
                before.results + [if c.link.Up? then Judge(Config(c.policy), reply) else UNKNOWN])
  {
    hide Key, Config, Script, Judge;
    assert (log + [c])[..|log|] == log;
  }

  /** The limiter around the shared store, with a ghost log of the calls it served. */
  class Limiter {
    var store: Store
    ghost var log: seq<Call>
    ghost var results: seq<LimitResult>

    ghost predicate Valid()
      reads this
    {
      RunLog(log) == Run(store, results)
    }

    constructor ()
      ensures Valid() && log == []
    {
      store, log, results := map[], [], [];
    }

    /** `link` says how the connection to Redis fares. */
    method CheckRateLimit(now: int, policy: Policy, identifier: string, link: Link) returns (result: LimitResult)
      requires Valid()
      modifies this
      ensures Valid()
      ensures log == old(log) + [Call(now, policy, identifier, link)]
      ensures results == old(results) + [result]
    {
      RunLogStep(log, Call(now, policy, identifier, link));
      hide Key, Config, Script, RunLog;
      if link.Down? {
        result := UNKNOWN;
      } else {
        var config := Config(policy);
        var key := Key(policy, identifier);
        var reply := Script(store, key, config.window, now);
        store := reply.store;
        var safeTtl := if reply.ttl > 0 then reply.ttl else config.window;
        if link.ReplyLost? {
          result := UNKNOWN;
        } else if reply.count > config.requests {
          result := LimitResult(false, 0, safeTtl);
        } else {
          result := LimitResult(true, if config.requests > reply.count then config.requests - reply.count else 0, 0);
        }
      }
      log := log + [Call(now, policy, identifier, link)];
      results := results + [result];
    }
  }

  // ---------- The reference: windows of one key's call times ----------

  /** The number of milliseconds in which a call joins the window: up to and including the
      one in which the counter expires. */
  function Span(c: RatePolicy): (span: nat)
    ensures span > 0
  {
    1_000 * c.window + 1
  }

  /** Call i belongs to the window of call i-1 until that window is `span` old. */
  function Start(ts: seq<int>, span: nat, i: nat): int
    requires i < |ts|
  {
    if i == 0 || Start(ts, span, i - 1) + span <= ts[i] then ts[i] else Start(ts, span, i - 1)
  }

  /** The position of call i in its window, from 1. */
  function Rank(ts: seq<int>, span: nat, i: nat): (r: nat)
    requires i < |ts|
    ensures r >= 1
  {
    if i == 0 || Start(ts, span, i - 1) + span <= ts[i] then 1 else Rank(ts, span, i - 1) + 1
  }

  predicate Admitted(ts: seq<int>, c: RatePolicy, i: nat)
    requires i < |ts|
  {
    Rank(ts, Span(c), i) <= c.requests
  }

  /** The milliseconds left before call i's window expires. */
  function Remaining(ts: seq<int>, c: RatePolicy, i: nat): int
    requires i < |ts|
  {
    Start(ts, Span(c), i) + 1_000 * c.window - ts[i]
  }

  function Decision(ts: seq<int>, c: RatePolicy, i: nat): LimitResult
    requires i < |ts|
  {
    if Admitted(ts, c, i) then LimitResult(true, c.requests - Rank(ts, Span(c), i), 0)
    else
      var left := Remaining(ts, c, i);
      LimitResult(false, 0, if left < 500 then c.window else Seconds(left))
  }

  /** The times of the calls that counted on a key: those that reached Redis. */
  function TimesOf(log: seq<Call>, key: string): seq<int> {
    if log == [] then []
    else
      var c := log[|log| - 1];
      TimesOf(log[..|log| - 1], key) + if CallKey(c) == key && !c.link.Down? then [c.time] else []
  }

  // ---------- Keys ----------

  function BeforeColon(s: string): string {
    if s == "" || s[0] == ':' then "" else [s[0]] + BeforeColon(s[1..])
  }

  lemma {:induction false} BeforeColonOf(a: string, x: string)
    requires ':' !in a
    ensures BeforeColon(a + ":" + x) == a
  {
    if a != "" {
      BeforeColonOf(a[1..], x);
      var s := a + ":" + x;
      assert s[0] == a[0] && s[1..] == a[1..] + ":" + x;
      assert [a[0]] + a[1..] == a;
    }
  }

  lemma NameThenColon(a: string, b: string, x: string, y: string)
    requires ':' !in a && ':' !in b && a + ":" + x == b + ":" + y
    ensures a == b && x == y
  {
    BeforeColonOf(a, x);
    BeforeColonOf(b, y);
    assert (a + ":" + x)[|a| + 1..] == x && (b + ":" + y)[|b| + 1..] == y;
  }

  lemma NamesDiffer(p: Policy, q: Policy)
    ensures ':' !in PolicyName(p)
    ensures PolicyName(p) == PolicyName(q) ==> p == q
  {
    var a, b := PolicyName(p), PolicyName(q);
    assert a == b ==> |a| == |b| && a[0] == b[0] && a[1] == b[1];
  }

  /** Different (policy, identifier) pairs never share a counter. */
  lemma KeysAreDistinct(p: Policy, x: string, q: Policy, y: string)
    requires Key(p, x) == Key(q, y)
    ensures p == q && x == y
  {
    NamesDiffer(p, q);
    NamesDiffer(q, p);
    assert Key(p, x)[3..] == PolicyName(p) + ":" + x;
    assert Key(q, y)[3..] == PolicyName(q) + ":" + y;
    NameThenColon(PolicyName(p), PolicyName(q), x, y);
  }

  // ---------- The implementation computes the reference, key by key ----------

  lemma {:induction false} PrefixUnchanged(ts: seq<int>, t: int, span: nat, i: nat)
    requires i < |ts|
    ensures Start(ts + [t], span, i) == Start(ts, span, i)
    ensures Rank(ts + [t], span, i) == Rank(ts, span, i)
  {
    if i > 0 {
      PrefixUnchanged(ts, t, span, i - 1);
    }
  }

  /** The key is absent before its first call; then it counts the last call's rank and
      expires at the end of that call's window. */
  ghost predicate HoldsWindow(store: Store, key: string, ts: seq<int>, c: RatePolicy) {
    if ts == [] then key !in store else key in store && store[key] == CounterOf(ts, c, |ts| - 1)
  }

  function CounterOf(ts: seq<int>, c: RatePolicy, i: nat): Counter
    requires i < |ts|
  {
    Counter(Rank(ts, Span(c), i), Some(Start(ts, Span(c), i) + 1_000 * c.window))
  }

  lemma CounterAfter(store: Store, key: string, ts: seq<int>, c: RatePolicy, now: int)
    requires HoldsWindow(store, key, ts, c)
    ensures Script(store, key, c.window, now).store == store[key := CounterOf(ts + [now], c, |ts|)]
    ensures Judge(c, Script(store, key, c.window, now)) == Decision(ts + [now], c, |ts|)
  {
    if ts != [] {
      PrefixUnchanged(ts, now, Span(c), |ts| - 1);
    }
  }

  /** A call's counter and expiry are its rank and the end of its window. */
  lemma {:induction false} StoreHoldsTheWindow(log: seq<Call>, policy: Policy, identifier: string)
    ensures var key := Key(policy, identifier);
            HoldsWindow(RunLog(log).store, key, TimesOf(log, key), Config(policy))
  {
    hide Key, Config, Script, Judge, Decision, CounterOf;
    if log != [] {
      var key, config := Key(policy, identifier), Config(policy);
      var before, c := log[..|log| - 1], log[|log| - 1];
      StoreHoldsTheWindow(before, policy, identifier);
      var ts := TimesOf(before, key);
      if c.link.Down? {
        assert TimesOf(log, key) == ts + [] == ts;
      } else if CallKey(c) == key {
        KeysAreDistinct(c.policy, c.identifier, policy, identifier);
        assert TimesOf(log, key) == ts + [c.time];
        CounterAfter(RunLog(before).store, key, ts, config, c.time);
      } else {
        assert TimesOf(log, key) == ts + [] == ts;
        ScriptElsewhere(RunLog(before).store, CallKey(c), Config(c.policy).window, c.time, key);
      }
    }
  }

  lemma ScriptElsewhere(store: Store, key: string, window: nat, now: int, other: string)
    requires other != key
    ensures var after := Script(store, key, window, now).store;
            (other in after <==> other in store) && (other in store ==> after[other] == store[other])
  {
  }

  lemma LastDecision(before: seq<Call>, c: Call)
    ensures var ts := TimesOf(before, CallKey(c)) + [c.time];
            Judge(Config(c.policy), Script(RunLog(before).store, CallKey(c), Config(c.policy).window, c.time))
            == Decision(ts, Config(c.policy), |ts| - 1)
  {
    hide Key, Config, RunLog, TimesOf, HoldsWindow, Script, Judge, Decision;
    StoreHoldsTheWindow(before, c.policy, c.identifier);
    CounterAfter(RunLog(before).store, CallKey(c), TimesOf(before, CallKey(c)), Config(c.policy), c.time);
  }

  lemma {:induction false} ResultsOfPrefix(log: seq<Call>, n: nat)
    requires n <= |log|
    ensures RunLog(log).results[..n] == RunLog(log[..n]).results
    decreases |log| - n
  {
    if n < |log| {
      ResultsOfPrefix(log, n + 1);
      assert log[..n + 1][..n] == log[..n];
      assert RunLog(log[..n + 1]).results[..n] == RunLog(log[..n]).results;
      assert RunLog(log).results[..n + 1][..n] == RunLog(log).results[..n];
    } else {
      assert log[..n] == log;
    }
  }

  /** Every answer is the reference decision on the calls that have reached Redis on the same
      key, so calls on other keys change nothing; a call without a reply is allowed. */
  lemma RunDecidesPerKey(log: seq<Call>, i: nat)
    requires i < |log|
    ensures var c := log[i];
            var ts := TimesOf(log[..i + 1], CallKey(c));
            && (!c.link.Down? ==> ts != [] && ts[|ts| - 1] == c.time)
            && RunLog(log).results[i] ==
               if c.link.Up? then Decision(ts, Config(c.policy), |ts| - 1) else LimitResult(true, -1, 0)
  {
    hide Key, Config, Script, Judge, Decision;
    var upTo := log[..i + 1];
    assert upTo[..|upTo| - 1] == log[..i];
    ResultsOfPrefix(log, i + 1);
    assert RunLog(log).results[i] == RunLog(log).results[..i + 1][i];
    LastDecision(log[..i], log[i]);
  }

  // ---------- Counting ----------

  ghost function Count(n: nat, p: nat -> bool): nat {
    if n == 0 then 0 else Count(n - 1, p) + if p(n - 1) then 1 else 0
  }

  lemma {:induction false} CountCovered(n: nat, p: nat -> bool, q: nat -> bool, r: nat -> bool)
    requires forall i :: 0 <= i < n && p(i) ==> q(i) || r(i)
    ensures Count(n, p) <= Count(n, q) + Count(n, r)
  {
    if n > 0 {
      CountCovered(n - 1, p, q, r);
    }
  }

  lemma {:induction false} CountNone(n: nat, p: nat -> bool)
    requires forall i :: 0 <= i < n ==> !p(i)
    ensures Count(n, p) == 0
  {
    if n > 0 {
      CountNone(n - 1, p);
    }
  }

  lemma {:induction false} CountAll(n: nat, p: nat -> bool)
    requires forall i :: 0 <= i < n ==> p(i)
    ensures Count(n, p) == n
  {
    if n > 0 {
      CountAll(n - 1, p);
    }
  }

  ghost predicate Sorted(ts: seq<int>) {
    forall i, j :: 0 <= i < j < |ts| ==> ts[i] <= ts[j]
  }

  /** Windows are `span` long and disjoint: a later window starts where the earlier ended, or after. */
  lemma {:induction false} WindowsAreDisjoint(ts: seq<int>, span: nat, i: nat, j: nat)
    requires i <= j < |ts| && Sorted(ts) && span > 0
    ensures Start(ts, span, i) <= ts[i] < Start(ts, span, i) + span
    ensures Start(ts, span, i) == Start(ts, span, j) || Start(ts, span, i) + span <= Start(ts, span, j)
    decreases j, i
  {
    if i > 0 {
      WindowsAreDisjoint(ts, span, i - 1, i - 1);
    }
    if i < j {
      WindowsAreDisjoint(ts, span, i, j - 1);
    }
  }

  ghost function InWindow(ts: seq<int>, c: RatePolicy, s: int): nat -> bool {
    (i: nat) => i < |ts| && Start(ts, Span(c), i) == s && Admitted(ts, c, i)
  }

  ghost function Smaller(a: nat, b: nat): nat { if a < b then a else b }

  /** Among the first n calls a window admits as many as it has seen, up to the quota. */
  lemma {:induction false} WindowAdmits(ts: seq<int>, c: RatePolicy, n: nat, s: int)
    requires n <= |ts| && Sorted(ts)
    ensures Count(n, InWindow(ts, c, s)) <= c.requests
    ensures n > 0 && Start(ts, Span(c), n - 1) == s ==>
              Count(n, InWindow(ts, c, s)) == Smaller(Rank(ts, Span(c), n - 1), c.requests)
  {
    hide Start, Rank, Sorted;
    if n > 0 {
      WindowAdmits(ts, c, n - 1, s);
      if Start(ts, Span(c), n - 1) == s {
        if Rank(ts, Span(c), n - 1) == 1 {
          FreshWindow(ts, c, n - 1);
        } else {
          SameWindow(ts, Span(c), n - 1);
        }
      }
    }
  }

  lemma SameWindow(ts: seq<int>, span: nat, i: nat)
    requires i < |ts| && Rank(ts, span, i) != 1
    ensures i > 0 && Start(ts, span, i) == Start(ts, span, i - 1)
    ensures Rank(ts, span, i) == Rank(ts, span, i - 1) + 1
  {
  }

  lemma FreshWindow(ts: seq<int>, c: RatePolicy, i: nat)
    requires i < |ts| && Sorted(ts) && Rank(ts, Span(c), i) == 1
    ensures Count(i, InWindow(ts, c, Start(ts, Span(c), i))) == 0
  {
    hide Start, Rank, Sorted, Admitted;
    forall k | 0 <= k < i
      ensures Start(ts, Span(c), k) < Start(ts, Span(c), i)
    {
      FreshWindowIsLater(ts, Span(c), k, i);
    }
    CountNone(i, InWindow(ts, c, Start(ts, Span(c), i)));
  }

  lemma FreshWindowIsLater(ts: seq<int>, span: nat, k: nat, i: nat)
    requires k < i < |ts| && Sorted(ts) && span > 0 && Rank(ts, span, i) == 1
    ensures Start(ts, span, k) < Start(ts, span, i)
  {
    WindowsAreDisjoint(ts, span, k, i - 1);
  }

  /** A call is refused only after exactly `requests` admissions in its window, and is told
      to come back after one to `window` seconds. */
  lemma RefusalMeansQuotaSpent(ts: seq<int>, c: RatePolicy, i: nat)
    requires i < |ts| && Sorted(ts) && c.window > 0 && !Decision(ts, c, i).allowed
    ensures Count(i, InWindow(ts, c, Start(ts, Span(c), i))) == c.requests
    ensures 0 < Decision(ts, c, i).retryAfter <= c.window
  {
    hide Sorted, Start, Rank;
    WindowAdmits(ts, c, i + 1, Start(ts, Span(c), i));
    WindowsAreDisjoint(ts, Span(c), i, i);
  }

  // ---------- What retry_after promises ----------

  /** After a refusal, the next call to be admitted is the first one after the window's last
      millisecond, however many are refused before it. */
  lemma {:induction false} AdmittedOnceTheWindowIsOver(ts: seq<int>, c: RatePolicy, i: nat, j: nat)
    requires i < j < |ts| && c.requests > 0 && !Decision(ts, c, i).allowed
    requires forall k :: i < k < j ==> ts[k] - ts[i] <= Remaining(ts, c, i)
    ensures Decision(ts, c, j).allowed <==> ts[j] - ts[i] > Remaining(ts, c, i)
  {
    StaysInWindow(ts, c, i, j - 1);
  }

  lemma {:induction false} StaysInWindow(ts: seq<int>, c: RatePolicy, i: nat, j: nat)
    requires i <= j < |ts| && !Decision(ts, c, i).allowed
    requires forall k :: i < k <= j ==> ts[k] - ts[i] <= Remaining(ts, c, i)
    ensures Start(ts, Span(c), j) == Start(ts, Span(c), i) && Rank(ts, Span(c), j) >= Rank(ts, Span(c), i)
  {
    if i < j {
      StaysInWindow(ts, c, i, j - 1);
    }
  }

  /** retry_after is within half a second of the time left if and only if half a second or
      more is left; otherwise TTL replies 0 and the caller is told a whole window. */
  lemma RetryAfterIsAccurateIff(ts: seq<int>, c: RatePolicy, i: nat)
    requires i < |ts| && Sorted(ts) && c.window > 0 && !Decision(ts, c, i).allowed
    ensures var left, told := Remaining(ts, c, i), Decision(ts, c, i).retryAfter;
            && 0 <= left <= 1_000 * c.window
            && (-500 <= 1_000 * told - left <= 500 <==> left >= 500)
            && (left < 500 ==> told == c.window)
  {
    WindowsAreDisjoint(ts, Span(c), i, i);
  }

  /** A caller who waits exactly retry_after is admitted if and only if the time left was
      rounded up, or was so short that a whole window was answered. */
  lemma WaitingAsToldIsEnoughIff(ts: seq<int>, c: RatePolicy, i: nat, j: nat)
    requires i < j < |ts| && Sorted(ts) && c.window > 0 && c.requests > 0 && !Decision(ts, c, i).allowed
    requires forall k :: i < k < j ==> ts[k] - ts[i] <= Remaining(ts, c, i)
    requires ts[j] == ts[i] + 1_000 * Decision(ts, c, i).retryAfter
    ensures var left := Remaining(ts, c, i);
            Decision(ts, c, j).allowed <==> left < 500 || left % 1_000 >= 500
  {
    hide Sorted;
    AdmittedOnceTheWindowIsOver(ts, c, i, j);
    WindowsAreDisjoint(ts, Span(c), i, i);
  }

  lemma {:induction false} OneWindow(ts: seq<int>, span: nat, i: nat)
    requires i < |ts| && forall k :: 0 <= k <= i ==> ts[k] < ts[0] + span
    ensures Start(ts, span, i) == ts[0] && Rank(ts, span, i) == i + 1
  {
    if i > 0 {
      OneWindow(ts, span, i - 1);
    }
  }

  /** Under every policy of two seconds or more: with 1.4 seconds left a caller is told to
      wait one second, does, and is refused again. */
  lemma ToldTooShort(c: RatePolicy)
    requires c.requests > 0 && c.window >= 2
    ensures var n, t := c.requests, 1_000 * c.window - 1_400;
            var ts := seq(n, _ => 0) + [t, t + 1_000];
            && Sorted(ts)
            && Decision(ts, c, n) == LimitResult(false, 0, 1)
            && Decision(ts, c, n + 1) == LimitResult(false, 0, c.window)
  {
    var n, t := c.requests, 1_000 * c.window - 1_400;
    var ts := seq(n, _ => 0) + [t, t + 1_000];
    OneWindow(ts, Span(c), n);
    OneWindow(ts, Span(c), n + 1);
  }

  /** Under every policy: with 0.4 seconds left a caller is told to wait a whole window,
      although a call 401 milliseconds later is admitted. */
  lemma ToldTooLong(c: RatePolicy)
    requires c.requests > 0 && c.window > 0
    ensures var n, t := c.requests, 1_000 * c.window - 400;
            var ts := seq(n, _ => 0) + [t, t + 401];
            && Sorted(ts)
            && Decision(ts, c, n) == LimitResult(false, 0, c.window)
            && Decision(ts, c, n + 1).allowed
  {
    var n, t := c.requests, 1_000 * c.window - 400;
    var ts := seq(n, _ => 0) + [t, t + 401];
    OneWindow(ts, Span(c), n);
  }

  // ---------- How many calls an interval admits ----------

  ghost function InInterval(ts: seq<int>, c: RatePolicy, lo: int, hi: int): nat -> bool {
    (i: nat) => i < |ts| && lo <= ts[i] <= hi && Admitted(ts, c, i)
  }

  /** An interval of one window's length meets the windows of its first and last calls only. */
  lemma IntervalMeetsTwoWindows(ts: seq<int>, span: nat, a: nat, i: nat, b: nat)
    requires a <= i <= b < |ts| && Sorted(ts) && span > 0 && ts[b] - ts[a] <= span
    ensures Start(ts, span, i) == Start(ts, span, a) || Start(ts, span, i) == Start(ts, span, b)
  {
    WindowsAreDisjoint(ts, span, a, i);
    WindowsAreDisjoint(ts, span, i, b);
    WindowsAreDisjoint(ts, span, b, b);
  }

  lemma {:induction false} FirstAndLast(n: nat, p: nat -> bool) returns (a: nat, b: nat)
    requires Count(n, p) > 0
    ensures a <= b < n && p(a) && p(b)
    ensures forall i :: 0 <= i < n && p(i) ==> a <= i <= b
  {
    if Count(n - 1, p) > 0 {
      a, b := FirstAndLast(n - 1, p);
      if p(n - 1) {
        b := n - 1;
      }
    } else {
      a, b := n - 1, n - 1;
      CountZero(n - 1, p);
    }
  }

  lemma {:induction false} CountZero(n: nat, p: nat -> bool)
    requires Count(n, p) == 0
    ensures forall i :: 0 <= i < n ==> !p(i)
  {
    if n > 0 {
      CountZero(n - 1, p);
    }
  }

  lemma {:induction false} CountLess(n: nat, p: nat -> bool, q: nat -> bool, f: nat)
    requires forall i :: 0 <= i < n && p(i) ==> q(i)
    requires f < n ==> q(f) && !p(f)
    ensures Count(n, p) + (if f < n then 1 else 0) <= Count(n, q)
  {
    if n > 0 {
      CountLess(n - 1, p, q, f);
    }
  }

  /** The first and the last window that an interval's admitted calls belong to. */
  lemma TwoWindows(ts: seq<int>, c: RatePolicy, lo: int, hi: int) returns (a: nat, b: nat)
    requires Sorted(ts) && hi - lo <= Span(c) && Count(|ts|, InInterval(ts, c, lo, hi)) > 0
    ensures a <= b < |ts| && lo <= ts[a] && ts[b] <= hi
    ensures forall i :: 0 <= i < |ts| && InInterval(ts, c, lo, hi)(i) ==>
              InWindow(ts, c, Start(ts, Span(c), a))(i) || InWindow(ts, c, Start(ts, Span(c), b))(i)
  {
    hide Admitted, Span;
    var p := InInterval(ts, c, lo, hi);
    a, b := FirstAndLast(|ts|, p);
    forall i | 0 <= i < |ts| && p(i)
      ensures InWindow(ts, c, Start(ts, Span(c), a))(i) || InWindow(ts, c, Start(ts, Span(c), b))(i)
    {
      IntervalMeetsTwoWindows(ts, Span(c), a, i, b);
    }
  }

  /** In any interval no longer than a window, at most twice the quota is admitted. */
  lemma AtMostTwiceTheQuota(ts: seq<int>, c: RatePolicy, lo: int, hi: int)
    requires Sorted(ts) && hi - lo <= Span(c)
    ensures Count(|ts|, InInterval(ts, c, lo, hi)) <= 2 * c.requests
  {
    hide Sorted, Span, InInterval, InWindow;
    var n, p := |ts|, InInterval(ts, c, lo, hi);
    if Count(n, p) > 0 {
      var a, b := TwoWindows(ts, c, lo, hi);
      var s, t := Start(ts, Span(c), a), Start(ts, Span(c), b);
      CountCovered(n, p, InWindow(ts, c, s), InWindow(ts, c, t));
      WindowAdmits(ts, c, n, s);
      WindowAdmits(ts, c, n, t);
    }
  }

  /** The call that opened call i's window. */
  lemma {:induction false} Opener(ts: seq<int>, span: nat, i: nat) returns (f: nat)
    requires i < |ts|
    ensures f <= i && ts[f] == Start(ts, span, f) == Start(ts, span, i) && Rank(ts, span, f) == 1
  {
    if i == 0 || Start(ts, span, i - 1) + span <= ts[i] {
      f := i;
    } else {
      f := Opener(ts, span, i - 1);
    }
  }

  ghost function LateInWindow(ts: seq<int>, c: RatePolicy, s: int, lo: int): nat -> bool {
    (i: nat) => i < |ts| && lo <= ts[i] && InWindow(ts, c, s)(i)
  }

  /** In a shorter interval one call fewer: if it reaches into a second window, it misses the
      call that opened the first one. */
  lemma OneLessThanTwiceTheQuota(ts: seq<int>, c: RatePolicy, lo: int, hi: int)
    requires Sorted(ts) && c.requests > 0 && hi - lo < Span(c)
    ensures Count(|ts|, InInterval(ts, c, lo, hi)) <= 2 * c.requests - 1
  {
    hide Sorted, Span, Admitted;
    var n, p := |ts|, InInterval(ts, c, lo, hi);
    if Count(n, p) > 0 {
      var a, b := TwoWindows(ts, c, lo, hi);
      var s, t := Start(ts, Span(c), a), Start(ts, Span(c), b);
      WindowAdmits(ts, c, n, s);
      WindowAdmits(ts, c, n, t);
      if s == t {
        CountCovered(n, p, InWindow(ts, c, s), _ => false);
        CountNone(n, _ => false);
      } else {
        WindowsAreDisjoint(ts, Span(c), a, b);
        WindowsAreDisjoint(ts, Span(c), b, b);
        var f := Opener(ts, Span(c), a);
        assert Admitted(ts, c, f) by {
          OpenerAdmitted(ts, c, f);
        }
        CountLess(n, LateInWindow(ts, c, s, lo), InWindow(ts, c, s), f);
        CountCovered(n, p, LateInWindow(ts, c, s, lo), InWindow(ts, c, t));
      }
    }
  }

  lemma OpenerAdmitted(ts: seq<int>, c: RatePolicy, f: nat)
    requires f < |ts| && c.requests > 0 && Rank(ts, Span(c), f) == 1
    ensures Admitted(ts, c, f)
  {
  }

  /** The first call at 0, the rest of its quota in the window's last millisecond, and
      another quota in the next millisecond. */
  function Burst(c: RatePolicy): seq<int> {
    seq(2 * c.requests, i => if i == 0 then 0 else if i < c.requests then Span(c) - 1 else Span(c))
  }

  /** Both bounds are met under every policy, the smaller one within two milliseconds. */
  lemma BoundsAreReached(c: RatePolicy)
    requires c.requests > 0 && c.window > 0
    ensures var ts, end := Burst(c), Span(c);
            && Sorted(ts)
            && Count(|ts|, InInterval(ts, c, 0, end)) == 2 * c.requests
            && Count(|ts|, InInterval(ts, c, end - 1, end)) == 2 * c.requests - 1
  {
    var ts, end := Burst(c), Span(c);
    var whole, late := InInterval(ts, c, 0, end), InInterval(ts, c, end - 1, end);
    forall i | 0 <= i < |ts|
      ensures whole(i) && (late(i) <==> i > 0)
    {
      BurstRank(c, i);
    }
    CountAll(|ts|, whole);
    CountAllButFirst(|ts|, late);
  }

  lemma {:induction false} BurstRank(c: RatePolicy, i: nat)
    requires i < 2 * c.requests
    ensures Start(Burst(c), Span(c), i) == if i < c.requests then 0 else Span(c)
    ensures Rank(Burst(c), Span(c), i) == if i < c.requests then i + 1 else i + 1 - c.requests
  {
    if i > 0 {
      BurstRank(c, i - 1);
    }
  }

  lemma {:induction false} CountAllButFirst(n: nat, p: nat -> bool)
    requires n > 0 && forall i :: 0 <= i < n ==> (p(i) <==> i > 0)
    ensures Count(n, p) == n - 1
  {
    if n > 1 {
      CountAllButFirst(n - 1, p);
    } else {
      assert Count(0, p) == 0;
    }
  }

  // ---------- The limits, over whole logs ----------

  ghost predicate ClockMovesForward(log: seq<Call>) {
    forall i, j :: 0 <= i < j < |log| ==> log[i].time <= log[j].time
  }

  lemma {:induction false} TimesAreSorted(log: seq<Call>, key: string)
    requires ClockMovesForward(log)
    ensures Sorted(TimesOf(log, key))
    ensures forall t :: t in TimesOf(log, key) ==> t <= log[|log| - 1].time
  {
    if log != [] {
      var before := log[..|log| - 1];
      TimesAreSorted(before, key);
      if before != [] {
        assert before[|before| - 1].time <= log[|log| - 1].time;
      }
      var ts := TimesOf(before, key);
      forall i | 0 <= i < |ts|
        ensures ts[i] <= log[|log| - 1].time
      {
        assert ts[i] in ts;
      }
    }
  }

  ghost predicate CallIn(c: Call, key: string, lo: int, hi: int) {
    CallKey(c) == key && lo <= c.time <= hi
  }

  ghost function AllowedBetween(log: seq<Call>, key: string, lo: int, hi: int): nat -> bool {
    (i: nat) => i < |log| && CallIn(log[i], key, lo, hi) && RunLog(log).results[i].allowed
  }

  ghost function UnansweredBetween(log: seq<Call>, key: string, lo: int, hi: int): nat -> bool {
    (i: nat) => i < |log| && CallIn(log[i], key, lo, hi) && !log[i].link.Up?
  }

  lemma {:induction false} CountSame(n: nat, p: nat -> bool, q: nat -> bool)
    requires forall i :: 0 <= i < n ==> p(i) == q(i)
    ensures Count(n, p) == Count(n, q)
  {
    if n > 0 {
      CountSame(n - 1, p, q);
    }
  }

  lemma CountsOfPrefix(log: seq<Call>, key: string, lo: int, hi: int)
    requires log != []
    ensures var n := |log| - 1;
            && Count(n, AllowedBetween(log, key, lo, hi)) == Count(n, AllowedBetween(log[..n], key, lo, hi))
            && Count(n, UnansweredBetween(log, key, lo, hi)) == Count(n, UnansweredBetween(log[..n], key, lo, hi))
  {
    var n := |log| - 1;
    forall i | 0 <= i < n
      ensures RunLog(log).results[i] == RunLog(log[..n]).results[i]
    {
      assert RunLog(log).results[..n] == RunLog(log[..n]).results;
    }
    CountSame(n, AllowedBetween(log, key, lo, hi), AllowedBetween(log[..n], key, lo, hi));
    CountSame(n, UnansweredBetween(log, key, lo, hi), UnansweredBetween(log[..n], key, lo, hi));
  }

  lemma IntervalExtends(ts: seq<int>, t: int, c: RatePolicy, lo: int, hi: int)
    ensures Count(|ts| + 1, InInterval(ts + [t], c, lo, hi)) ==
            Count(|ts|, InInterval(ts, c, lo, hi))
            + if lo <= t <= hi && Decision(ts + [t], c, |ts|).allowed then 1 else 0
  {
    forall i | 0 <= i < |ts|
      ensures InInterval(ts + [t], c, lo, hi)(i) == InInterval(ts, c, lo, hi)(i)
    {
      PrefixUnchanged(ts, t, Span(c), i);
    }
    CountSame(|ts|, InInterval(ts + [t], c, lo, hi), InInterval(ts, c, lo, hi));
  }

  /** Every allowed call was admitted by the counter or got no answer. */
  lemma {:induction false} AllowedAreAdmittedOrUnanswered(log: seq<Call>, policy: Policy, identifier: string,
                                                          lo: int, hi: int)
    ensures var key := Key(policy, identifier);
            var ts := TimesOf(log, key);
            Count(|log|, AllowedBetween(log, key, lo, hi)) <=
            Count(|ts|, InInterval(ts, Config(policy), lo, hi)) + Count(|log|, UnansweredBetween(log, key, lo, hi))
  {
    hide Key, Config, Script, Judge, Decision, InInterval;
    if log != [] {
      var key, n := Key(policy, identifier), |log| - 1;
      var before, c := log[..n], log[n];
      var ts := TimesOf(before, key);
      AllowedAreAdmittedOrUnanswered(before, policy, identifier, lo, hi);
      CountsOfPrefix(log, key, lo, hi);
      IntervalExtends(ts, c.time, Config(policy), lo, hi);
      assert ts + [] == ts;
      if CallKey(c) == key {
        KeysAreDistinct(c.policy, c.identifier, policy, identifier);
        LastDecision(before, c);
      }
    }
  }

  /** For any schedule of calls on any mix of keys, outages included: within any `window`
      seconds a key is allowed less than twice its quota, and at most that within one
      millisecond more, not counting the calls that Redis did not answer. */
  lemma NoKeyExceedsTwiceItsQuota(log: seq<Call>, policy: Policy, identifier: string, lo: int, hi: int)
    requires ClockMovesForward(log)
    ensures var key, c := Key(policy, identifier), Config(policy);
            var allowed := Count(|log|, AllowedBetween(log, key, lo, hi));
            var unanswered := Count(|log|, UnansweredBetween(log, key, lo, hi));
            && (hi - lo <= 1_000 * c.window ==> allowed < 2 * c.requests + unanswered)
            && (hi - lo <= 1_000 * c.window + 1 ==> allowed <= 2 * c.requests + unanswered)
  {
    hide Key, Config, AllowedBetween, UnansweredBetween, InInterval;
    var ts, c := TimesOf(log, Key(policy, identifier)), Config(policy);
    TimesAreSorted(log, Key(policy, identifier));
    AllowedAreAdmittedOrUnanswered(log, policy, identifier, lo, hi);
    if hi - lo < Span(c) {
      OneLessThanTwiceTheQuota(ts, c, lo, hi);
    } else if hi - lo <= Span(c) {
      AtMostTwiceTheQuota(ts, c, lo, hi);
    }
  }

  /** The bound in figures: how many calls a key may be allowed within any minute. */
  lemma CallsPerMinute(log: seq<Call>, policy: Policy, identifier: string, lo: int)
    requires ClockMovesForward(log)
    requires forall i :: 0 <= i < |log| ==> log[i].link.Up?
    ensures Count(|log|, AllowedBetween(log, Key(policy, identifier), lo, lo + 60_000)) <=
            match policy
            case Anonymous => 59
            case Authenticated => 239
            case SqlAnalytics => 119
            case WriteMutation => 39
            case RagVision => 29
  {
    hide Key, AllowedBetween, Count;
    NoKeyExceedsTwiceItsQuota(log, policy, identifier, lo, lo + 60_000);
    CountNone(|log|, UnansweredBetween(log, Key(policy, identifier), lo, lo + 60_000));
  }

  /** The first calls on a key are admitted with one less left each time; once the quota is
      used up, a call in the same instant is told to wait a minute. */
  lemma FirstMinute(policy: Policy, identifier: string, n: nat)
    ensures var log := seq(n + 1, _ => Call(0, policy, identifier, Up));
            var quota := match policy case Anonymous => 30 case Authenticated => 120 case SqlAnalytics => 60
                                      case WriteMutation => 20 case RagVision => 15;
            RunLog(log).results[n] ==
            if n < quota then LimitResult(true, quota - 1 - n, 0) else LimitResult(false, 0, 60)
  {
    hide Key, Script, Judge, RunLog, Decision, TimesOf;
    var c := Call(0, policy, identifier, Up);
    var log := seq(n + 1, _ => c);
    SameCalls(c, n + 1);
    RunDecidesPerKey(log, n);
    assert log[..n + 1] == log;
    BurstDecision(Config(policy), n);
  }

  lemma BurstDecision(c: RatePolicy, n: nat)
    requires c.window > 0
    ensures Decision(seq(n + 1, _ => 0), c, n) ==
            if n < c.requests then LimitResult(true, c.requests - 1 - n, 0) else LimitResult(false, 0, c.window)
  {
    OneWindow(seq(n + 1, _ => 0), Span(c), n);
  }

  lemma {:induction false} SameCalls(c: Call, n: nat)
    requires !c.link.Down?
    ensures TimesOf(seq(n, _ => c), CallKey(c)) == seq(n, _ => c.time)
  {
    if n > 0 {
      SameCalls(c, n - 1);
      var log := seq(n, _ => c);
      assert log[..n - 1] == seq(n - 1, _ => c);
      assert seq(n, _ => c.time) == seq(n - 1, _ => c.time) + [c.time];
    }
  }
}
