/**
 The fixed-window counter (packages/domain/src/services.ts, RateLimitService): what its
 two methods do to the counters, and how many grants any stretch of time can hold.
 */
module RateLimitCounters {

  datatype Counter = Counter(used: int, resetAt: int)

  datatype Decision = Decision(key: string, allowed: bool, limit: int, used: int, remaining: int, resetAt: int)

  function AtLeastZero(n: int): int {
    if n > 0 then n else 0
  }

  /** The stored counter while its window is open, otherwise one that starts now. */
  function Current(counters: map<string, Counter>, key: string, windowMs: int, now: int): Counter {
    if key in counters && counters[key].resetAt > now then counters[key] else Counter(0, now + windowMs)
  }

  function Check(counters: map<string, Counter>, key: string, limit: int, windowMs: int, now: int): Decision {
    var current := Current(counters, key, windowMs, now);
    var remaining := AtLeastZero(limit - current.used);
    Decision(key, remaining > 0, limit, current.used, remaining, current.resetAt)
  }

  /** A grant is counted in the window; a refusal stores nothing, not even a fresh window. */
  function Consume(counters: map<string, Counter>, key: string, limit: int, windowMs: int, now: int): (map<string, Counter>, Decision) {
    var decision := Check(counters, key, limit, windowMs, now);
    if !decision.allowed then (counters, decision)
    else
      var used := decision.used + 1;
      (counters[key := Counter(used, decision.resetAt)],
       decision.(used := used, remaining := AtLeastZero(limit - used), allowed := used <= limit))
  }

  class RateLimitService {
    var counters: map<string, Counter>

    constructor ()
      ensures counters == map[]
    {
      counters := map[];
    }

    method CheckLimit(key: string, limit: int, windowMs: int, now: int) returns (decision: Decision)
      ensures decision == Check(counters, key, limit, windowMs, now)
    {
      var current := Counter(0, now + windowMs);
      if key in counters && counters[key].resetAt > now {
        current := counters[key];
      }
      var remaining := AtLeastZero(limit - current.used);
      decision := Decision(key, remaining > 0, limit, current.used, remaining, current.resetAt);
    }

    method ConsumeLimit(key: string, limit: int, windowMs: int, now: int) returns (decision: Decision)
      modifies this
      ensures (counters, decision) == Consume(old(counters), key, limit, windowMs, now)
    {
      decision := CheckLimit(key, limit, windowMs, now);
      if !decision.allowed {
        return;
      }
      var used := decision.used + 1;
      counters := counters[key := Counter(used, decision.resetAt)];
      decision := decision.(used := used, remaining := AtLeastZero(limit - used), allowed := used <= limit);
    }
  }

  // Runs

  datatype Call = Call(consumes: bool, key: string, limit: int, windowMs: int, now: int)

  function Answer(counters: map<string, Counter>, call: Call): (map<string, Counter>, Decision) {
    if call.consumes then Consume(counters, call.key, call.limit, call.windowMs, call.now)
    else (counters, Check(counters, call.key, call.limit, call.windowMs, call.now))
  }

  function After(calls: seq<Call>): map<string, Counter> {
    if calls == [] then map[] else Answer(After(calls[..|calls| - 1]), calls[|calls| - 1]).0
  }

  /** A granted consume: when, and when the window it was counted in closes. */
  datatype Grant = Grant(at: int, resetAt: int)

  function GrantOf(counters: map<string, Counter>, call: Call, key: string): seq<Grant> {
    var decision := Answer(counters, call).1;
    if call.consumes && call.key == key && decision.allowed then [Grant(call.now, decision.resetAt)] else []
  }

  function Grants(calls: seq<Call>, key: string): seq<Grant> {
    if calls == [] then []
    else
      var front := calls[..|calls| - 1];
      Grants(front, key) + GrantOf(After(front), calls[|calls| - 1], key)
  }

  /** The calls on one key have one limit and one window; other keys are called in any way at any time. */
  predicate Steady(calls: seq<Call>, key: string, limit: int, windowMs: int) {
    && (forall i :: 0 <= i < |calls| && calls[i].key == key ==> calls[i].limit == limit && calls[i].windowMs == windowMs)
    && (forall i, j :: 0 <= i < j < |calls| && calls[i].key == key && calls[j].key == key ==> calls[i].now <= calls[j].now)
  }

  function InWindow(grants: seq<Grant>, resetAt: int): nat {
    if grants == [] then 0
    else InWindow(grants[..|grants| - 1], resetAt) + if grants[|grants| - 1].resetAt == resetAt then 1 else 0
  }

  function InInterval(grants: seq<Grant>, from: int, to: int): nat {
    if grants == [] then 0
    else InInterval(grants[..|grants| - 1], from, to) + if from <= grants[|grants| - 1].at < to then 1 else 0
  }

  lemma CountAppend(grants: seq<Grant>, grant: Grant, resetAt: int)
    ensures InWindow(grants + [grant], resetAt) == InWindow(grants, resetAt) + if grant.resetAt == resetAt then 1 else 0
  {}

  lemma {:induction false} NoGrantOutside(grants: seq<Grant>, resetAt: int)
    requires forall g :: g in grants ==> g.resetAt != resetAt
    ensures InWindow(grants, resetAt) == 0
  {
    if grants != [] {
      NoGrantOutside(grants[..|grants| - 1], resetAt);
    }
  }

  predicate Opens(grants: seq<Grant>, resetAt: int, windowMs: int) {
    Grant(resetAt - windowMs, resetAt) in grants
  }

  /** A grant lies in its window, windows are a window's length apart, and each opens with a grant. */
  ghost predicate WindowsAreApart(grants: seq<Grant>, windowMs: int) {
    && (forall g :: g in grants ==> g.resetAt - windowMs <= g.at < g.resetAt && Opens(grants, g.resetAt, windowMs))
    && (forall g, h :: g in grants && h in grants && g.resetAt < h.resetAt ==> g.resetAt + windowMs <= h.resetAt)
  }

  /** The stored counter counts the grants of the last window. */
  ghost predicate CounterIsExact(counters: map<string, Counter>, grants: seq<Grant>, key: string, limit: int, windowMs: int) {
    && (forall resetAt :: InWindow(grants, resetAt) <= AtLeastZero(limit))
    && (key !in counters ==> grants == [])
    && (key in counters ==> LastWindowIs(grants, counters[key], windowMs))
  }

  ghost predicate LastWindowIs(grants: seq<Grant>, counter: Counter, windowMs: int) {
    && InWindow(grants, counter.resetAt) == counter.used
    && Opens(grants, counter.resetAt, windowMs)
    && forall g :: g in grants ==> g.resetAt <= counter.resetAt
  }

  /** A grant counted in the window that is open. */
  lemma GrantInOpenWindow(grants: seq<Grant>, counter: Counter, windowMs: int, now: int)
    requires WindowsAreApart(grants, windowMs) && LastWindowIs(grants, counter, windowMs)
    requires counter.resetAt - windowMs <= now < counter.resetAt
    ensures var more := grants + [Grant(now, counter.resetAt)];
            WindowsAreApart(more, windowMs) && LastWindowIs(more, Counter(counter.used + 1, counter.resetAt), windowMs)
  {}

  lemma OpeningGrantIsApart(grants: seq<Grant>, windowMs: int, now: int)
    requires 0 < windowMs && WindowsAreApart(grants, windowMs) && forall g :: g in grants ==> g.resetAt <= now
    ensures WindowsAreApart(grants + [Grant(now, now + windowMs)], windowMs)
  {
    var grant := Grant(now, now + windowMs);
    var more := grants + [grant];
    assert grant in more && forall g :: g in more <==> g in grants || g == grant;
    forall g | g in more
      ensures g.resetAt - windowMs <= g.at < g.resetAt && Opens(more, g.resetAt, windowMs)
    {
      if g in grants {
        assert Opens(grants, g.resetAt, windowMs);
      }
    }
  }

  /** A grant that opens a window after the last one has closed. */
  lemma GrantOpensWindow(grants: seq<Grant>, windowMs: int, now: int)
    requires 0 < windowMs && WindowsAreApart(grants, windowMs) && forall g :: g in grants ==> g.resetAt <= now
    ensures var more := grants + [Grant(now, now + windowMs)];
            WindowsAreApart(more, windowMs) && LastWindowIs(more, Counter(1, now + windowMs), windowMs)
  {
    OpeningGrantIsApart(grants, windowMs, now);
    CountAppend(grants, Grant(now, now + windowMs), now + windowMs);
    NoGrantOutside(grants, now + windowMs);
    assert (grants + [Grant(now, now + windowMs)])[|grants|] == Grant(now, now + windowMs);
  }

  lemma GrantKeepsCount(counters: map<string, Counter>, grants: seq<Grant>, key: string, limit: int, windowMs: int, now: int)
    requires 0 < windowMs && WindowsAreApart(grants, windowMs) && CounterIsExact(counters, grants, key, limit, windowMs)
    requires forall g :: g in grants ==> g.at <= now
    requires Check(counters, key, limit, windowMs, now).allowed
    ensures var (after, decision) := Consume(counters, key, limit, windowMs, now);
            && WindowsAreApart(grants + [Grant(now, decision.resetAt)], windowMs)
            && CounterIsExact(after, grants + [Grant(now, decision.resetAt)], key, limit, windowMs)
  {
    var (after, decision) := Consume(counters, key, limit, windowMs, now);
    var grant := Grant(now, decision.resetAt);
    if key in counters && counters[key].resetAt > now {
      GrantInOpenWindow(grants, counters[key], windowMs, now);
    } else {
      GrantOpensWindow(grants, windowMs, now);
    }
    CountsStayWithinLimit(grants, grant, limit);
  }

  lemma CountsStayWithinLimit(grants: seq<Grant>, grant: Grant, limit: int)
    requires forall resetAt :: InWindow(grants, resetAt) <= AtLeastZero(limit)
    requires InWindow(grants + [grant], grant.resetAt) <= limit
    ensures forall resetAt :: InWindow(grants + [grant], resetAt) <= AtLeastZero(limit)
  {}

  lemma {:induction false} GrantsArePast(calls: seq<Call>, key: string, now: int)
    requires forall i :: 0 <= i < |calls| && calls[i].key == key ==> calls[i].now <= now
    ensures forall g :: g in Grants(calls, key) ==> g.at <= now
  {
    if calls != [] {
      GrantsArePast(calls[..|calls| - 1], key, now);
    }
  }

  lemma {:induction false} RunCounts(calls: seq<Call>, key: string, limit: int, windowMs: int)
    requires 0 < windowMs && Steady(calls, key, limit, windowMs)
    ensures WindowsAreApart(Grants(calls, key), windowMs)
    ensures CounterIsExact(After(calls), Grants(calls, key), key, limit, windowMs)
  {
    if calls != [] {
      var front, last := calls[..|calls| - 1], calls[|calls| - 1];
      RunCounts(front, key, limit, windowMs);
      if GrantOf(After(front), last, key) == [] {
        assert Grants(calls, key) == Grants(front, key);
      } else {
        GrantsArePast(front, key, last.now);
        GrantKeepsCount(After(front), Grants(front, key), key, limit, windowMs, last.now);
      }
    }
  }

  /** No counter window grants more than its limit. */
  lemma WindowGrantsAtMostLimit(calls: seq<Call>, key: string, limit: int, windowMs: int, resetAt: int)
    requires 0 < windowMs && Steady(calls, key, limit, windowMs)
    ensures InWindow(Grants(calls, key), resetAt) <= AtLeastZero(limit)
  {
    RunCounts(calls, key, limit, windowMs);
  }

  /** Counting the grants of an interval that two windows cover; the grant that opened the first lies outside. */
  lemma {:induction false} TwoWindowsCover(grants: seq<Grant>, from: int, to: int, first: int, second: int, opening: Grant)
    requires forall g :: g in grants && from <= g.at < to ==> g.resetAt == first || g.resetAt == second
    requires first != second && opening.resetAt == first && !(from <= opening.at < to)
    ensures InInterval(grants, from, to) + (if opening in grants then 1 else 0)
         <= InWindow(grants, first) + InWindow(grants, second)
  {
    if grants != [] {
      var front, last := grants[..|grants| - 1], grants[|grants| - 1];
      assert grants == front + [last];
      TwoWindowsCover(front, from, to, first, second, opening);
    }
  }

  lemma {:induction false} OneWindowCovers(grants: seq<Grant>, from: int, to: int, only: int)
    requires forall g :: g in grants && from <= g.at < to ==> g.resetAt == only
    ensures InInterval(grants, from, to) <= InWindow(grants, only)
  {
    if grants != [] {
      var front, last := grants[..|grants| - 1], grants[|grants| - 1];
      assert grants == front + [last];
      OneWindowCovers(front, from, to, only);
    }
  }

  /** Two windows with grants in the interval leave no room for a third; the earlier one opened before it. */
  lemma TwoWindowsSpanInterval(grants: seq<Grant>, windowMs: int, from: int, g: Grant, h: Grant)
    requires WindowsAreApart(grants, windowMs) && g in grants && h in grants && g.resetAt < h.resetAt
    requires from <= g.at < from + windowMs && from <= h.at < from + windowMs
    ensures g.resetAt - windowMs < from
    ensures forall k :: k in grants && from <= k.at < from + windowMs ==> k.resetAt == g.resetAt || k.resetAt == h.resetAt
  {}

  lemma IntervalHoldsFewGrants(grants: seq<Grant>, limit: int, windowMs: int, from: int)
    requires WindowsAreApart(grants, windowMs)
    requires forall resetAt :: InWindow(grants, resetAt) <= AtLeastZero(limit)
    ensures InInterval(grants, from, from + windowMs) <= AtLeastZero(2 * limit - 1)
  {
    var to := from + windowMs;
    if g, h :| g in grants && h in grants && from <= g.at < to && from <= h.at < to && g.resetAt < h.resetAt {
      TwoWindowsSpanInterval(grants, windowMs, from, g, h);
      assert Opens(grants, g.resetAt, windowMs);
      TwoWindowsCover(grants, from, to, g.resetAt, h.resetAt, Grant(g.resetAt - windowMs, g.resetAt));
    } else if g :| g in grants && from <= g.at < to {
      OneWindowCovers(grants, from, to, g.resetAt);
    } else {
      NoneInside(grants, from, to);
    }
  }

  /**
   A window's length of time, wherever it is placed, sees at most two windows, and the
   grant that opened the first of them lies before it: at most 2 * limit - 1 grants.
   */
  lemma IntervalGrantsLessThanTwiceLimit(calls: seq<Call>, key: string, limit: int, windowMs: int, from: int)
    requires 0 < windowMs && Steady(calls, key, limit, windowMs)
    ensures InInterval(Grants(calls, key), from, from + windowMs) <= AtLeastZero(2 * limit - 1)
  {
    RunCounts(calls, key, limit, windowMs);
    IntervalHoldsFewGrants(Grants(calls, key), limit, windowMs, from);
  }

  lemma {:induction false} NoneInside(grants: seq<Grant>, from: int, to: int)
    requires forall g :: g in grants ==> !(from <= g.at < to)
    ensures InInterval(grants, from, to) == 0
  {
    if grants != [] {
      NoneInside(grants[..|grants| - 1], from, to);
    }
  }

  // The bound is reached

  function Consumes(n: nat, key: string, limit: int, windowMs: int, now: int): seq<Call> {
    seq(n, _ => Call(true, key, limit, windowMs, now))
  }

  lemma OneIsGranted(calls: seq<Call>, key: string, limit: int, windowMs: int, now: int)
    requires 0 < windowMs && Current(After(calls), key, windowMs, now).used < limit
    ensures var more := calls + [Call(true, key, limit, windowMs, now)];
            var counter := Current(After(calls), key, windowMs, now);
            && key in After(more) && After(more)[key] == Current(After(more), key, windowMs, now)
            && After(more)[key] == Counter(counter.used + 1, counter.resetAt)
            && Grants(more, key) == Grants(calls, key) + [Grant(now, counter.resetAt)]
  {
    var more := calls + [Call(true, key, limit, windowMs, now)];
    assert more[..|more| - 1] == calls;
  }

  lemma IntervalAppend(grants: seq<Grant>, grant: Grant, from: int, to: int)
    ensures InInterval(grants + [grant], from, to) == InInterval(grants, from, to) + if from <= grant.at < to then 1 else 0
  {
    assert (grants + [grant])[..|grants|] == grants;
  }

  /** A burst in an open window with room for it is granted in full. */
  lemma {:induction false} BurstIsGranted(calls: seq<Call>, n: nat, key: string, limit: int, windowMs: int, now: int)
    requires 0 < windowMs
    requires Current(After(calls), key, windowMs, now).used + n <= limit
    ensures var all := calls + Consumes(n, key, limit, windowMs, now);
            && Current(After(all), key, windowMs, now)
               == Counter(Current(After(calls), key, windowMs, now).used + n, Current(After(calls), key, windowMs, now).resetAt)
            && (n > 0 ==> key in After(all) && After(all)[key] == Current(After(all), key, windowMs, now))
            && forall from, to :: from <= now < to ==>
                 InInterval(Grants(all, key), from, to) == InInterval(Grants(calls, key), from, to) + n
    decreases n
  {
    var all := calls + Consumes(n, key, limit, windowMs, now);
    if n == 0 {
      assert all == calls;
    } else {
      BurstIsGranted(calls, n - 1, key, limit, windowMs, now);
      var front := calls + Consumes(n - 1, key, limit, windowMs, now);
      assert all == front + [Call(true, key, limit, windowMs, now)];
      OneIsGranted(front, key, limit, windowMs, now);
      forall from, to | from <= now < to
        ensures InInterval(Grants(all, key), from, to) == InInterval(Grants(calls, key), from, to) + n
      {
        IntervalAppend(Grants(front, key), Grant(now, Current(After(front), key, windowMs, now).resetAt), from, to);
      }
    }
  }

  /** Calls on the key so far happened by `now`, under one limit and window. */
  predicate SteadyUntil(calls: seq<Call>, key: string, limit: int, windowMs: int, now: int) {
    Steady(calls, key, limit, windowMs) && forall i :: 0 <= i < |calls| && calls[i].key == key ==> calls[i].now <= now
  }

  lemma BurstKeepsSteady(calls: seq<Call>, n: nat, key: string, limit: int, windowMs: int, now: int)
    requires SteadyUntil(calls, key, limit, windowMs, now)
    ensures SteadyUntil(calls + Consumes(n, key, limit, windowMs, now), key, limit, windowMs, now)
  {}

  lemma OpeningBurst(key: string, limit: int, windowMs: int) returns (calls: seq<Call>)
    requires 0 < limit && 1 < windowMs
    ensures SteadyUntil(calls, key, limit, windowMs, 0)
    ensures key in After(calls) && After(calls)[key] == Counter(1, windowMs)
    ensures InInterval(Grants(calls, key), windowMs - 1, 2 * windowMs - 1) == 0
  {
    calls := [] + Consumes(1, key, limit, windowMs, 0);
    BurstKeepsSteady([], 1, key, limit, windowMs, 0);
    BurstIsGranted([], 1, key, limit, windowMs, 0);
    GrantsArePast(calls, key, 0);
    NoneInside(Grants(calls, key), windowMs - 1, 2 * windowMs - 1);
  }

  lemma FillingBurst(opening: seq<Call>, key: string, limit: int, windowMs: int) returns (calls: seq<Call>)
    requires 0 < limit && 1 < windowMs && SteadyUntil(opening, key, limit, windowMs, 0)
    requires key in After(opening) && After(opening)[key] == Counter(1, windowMs)
    requires InInterval(Grants(opening, key), windowMs - 1, 2 * windowMs - 1) == 0
    ensures SteadyUntil(calls, key, limit, windowMs, windowMs - 1)
    ensures key in After(calls) && After(calls)[key].resetAt == windowMs
    ensures InInterval(Grants(calls, key), windowMs - 1, 2 * windowMs - 1) == limit - 1
  {
    var burst := Consumes(limit - 1, key, limit, windowMs, windowMs - 1);
    calls := opening + burst;
    BurstKeepsSteady(opening, limit - 1, key, limit, windowMs, windowMs - 1);
    BurstIsGranted(opening, limit - 1, key, limit, windowMs, windowMs - 1);
    if limit == 1 {
      assert burst == [] && calls == opening;
    }
  }

  lemma ClosingBurst(filled: seq<Call>, key: string, limit: int, windowMs: int) returns (calls: seq<Call>)
    requires 0 < limit && 1 < windowMs && SteadyUntil(filled, key, limit, windowMs, windowMs - 1)
    requires key in After(filled) && After(filled)[key].resetAt == windowMs
    ensures Steady(calls, key, limit, windowMs)
    ensures InInterval(Grants(calls, key), windowMs - 1, 2 * windowMs - 1)
         == InInterval(Grants(filled, key), windowMs - 1, 2 * windowMs - 1) + limit
  {
    calls := filled + Consumes(limit, key, limit, windowMs, windowMs);
    BurstKeepsSteady(filled, limit, key, limit, windowMs, windowMs);
    BurstIsGranted(filled, limit, key, limit, windowMs, windowMs);
  }

  /** For every limit and every window longer than an instant, some run fills an interval to the bound. */
  lemma TwiceLimitLessOneIsReached(key: string, limit: int, windowMs: int) returns (calls: seq<Call>, from: int)
    requires 0 < limit && 1 < windowMs
    ensures Steady(calls, key, limit, windowMs)
    ensures InInterval(Grants(calls, key), from, from + windowMs) == 2 * limit - 1
  {
    from := windowMs - 1;
    var opening := OpeningBurst(key, limit, windowMs);
    var filled := FillingBurst(opening, key, limit, windowMs);
    calls := ClosingBurst(filled, key, limit, windowMs);
  }

  /** A window of a single instant is the exception: there an interval of its length holds at most the limit. */
  lemma InstantGrantsAtMostLimit(calls: seq<Call>, key: string, limit: int, from: int)
    requires Steady(calls, key, limit, 1)
    ensures InInterval(Grants(calls, key), from, from + 1) <= AtLeastZero(limit)
  {
    RunCounts(calls, key, limit, 1);
    OneWindowCovers(Grants(calls, key), from, from + 1, from + 1);
  }

  /** And that many it may hold. */
  lemma InstantLimitIsReached(key: string, limit: nat) returns (calls: seq<Call>)
    ensures Steady(calls, key, limit, 1) && InInterval(Grants(calls, key), 0, 1) == limit
  {
    calls := [] + Consumes(limit, key, limit, 1, 0);
    BurstKeepsSteady([], limit, key, limit, 1, 0);
    BurstIsGranted([], limit, key, limit, 1, 0);
  }
}
