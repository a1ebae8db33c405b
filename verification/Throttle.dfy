/** The distributed rate limiter: a Lua script over a counter key and a block key.
    The script is proved to refine a small meter, and the limits are proved of the meter
    over arbitrary runs. All times are milliseconds. */
module Throttle {
  import opened Wrappers
  import opened Redis

  /** ttl and block are what the script receives, already raised to at least one. */
  datatype Limits = Limits(ttl: int, limit: int, block: int)

  ghost predicate ValidLimits(c: Limits) {
    c.ttl >= 1 && c.block >= 1
  }

  datatype Reply = Reply(hits: int, counterTtl: int, blocked: bool, blockTtl: int)

  datatype ThrottleRecord = ThrottleRecord(totalHits: int, timeToExpire: int, isBlocked: bool, timeToBlockExpire: int)

  /** Math.ceil(Math.max(ms, 0) / 1000). */
  function ToSeconds(milliseconds: int): (s: int)
    ensures s >= 0
    ensures milliseconds <= 1000 * s
    ensures milliseconds > 0 ==> 1000 * s < milliseconds + 1000
  {
    (Max(milliseconds, 0) + 999) / 1000
  }

  // ---------------------------------------------------------------- the meter

  /** A counting window that lasts until windowEnd, and a block that lasts until blockedUntil. */
  datatype Meter = Meter(windowEnd: int, hits: int, blockedUntil: int)

  const IDLE := Meter(0, 0, 0)

  predicate Blocked(m: Meter, now: int) {
    now < m.blockedUntil
  }

  /** The window a hit at this time falls into: the running one, or a new one. */
  function Counted(m: Meter, now: int, c: Limits): Meter {
    if now < m.windowEnd then m.(hits := m.hits + 1) else m.(windowEnd := now + c.ttl, hits := 1)
  }

  predicate Admits(m: Meter, now: int, c: Limits) {
    !Blocked(m, now) && Counted(m, now, c).hits <= c.limit
  }

  function Hit(m: Meter, now: int, c: Limits): Meter {
    if Blocked(m, now) then m
    else if Counted(m, now, c).hits > c.limit then Counted(m, now, c).(blockedUntil := now + c.block)
    else Counted(m, now, c)
  }

  // ---------------------------------------------------------------- the script refines the meter

  /** The counter key of an idle store stands for a window that has already ended. */
  function MeterOf(db: Db<string, int>, counterKey: string, blockKey: string): Meter {
    Meter(if counterKey in db && db[counterKey].expiry.At? then db[counterKey].expiry.time else 0,
          if counterKey in db then db[counterKey].value else 0,
          if blockKey in db && db[blockKey].expiry.At? then db[blockKey].expiry.time else 0)
  }

  /** Both keys, when present, carry an expiry, a counter has counted, and time has started. */
  ghost predicate WellTimed(db: Db<string, int>, now: int, counterKey: string, blockKey: string) {
    && now >= 0
    && counterKey != blockKey
    && (counterKey in db ==> db[counterKey].expiry.At? && db[counterKey].value >= 1)
    && (blockKey in db ==> db[blockKey].expiry.At?)
  }

  function CounterKey(throttlerName: string, key: string): string {
    "throttle:" + throttlerName + ":" + key
  }

  function BlockKey(throttlerName: string, key: string): (b: string) {
    CounterKey(throttlerName, key) + ":blocked"
  }

  /** Two hashed keys (no colon in them) of one throttler share neither counter nor block. */
  lemma {:induction false} OtherKeysUntouched(name: string, key: string, other: string)
    requires key != other && ':' !in key && ':' !in other
    ensures CounterKey(name, key) != CounterKey(name, other)
    ensures CounterKey(name, key) != BlockKey(name, other)
    ensures BlockKey(name, key) != CounterKey(name, other)
    ensures BlockKey(name, key) != BlockKey(name, other)
  {
    var prefix := "throttle:" + name + ":";
    assert forall k: string :: (prefix + k)[|prefix|..] == k;
    assert forall k: string :: (prefix + k + ":blocked")[|prefix|..] == k + ":blocked";
    assert CounterKey(name, key) == prefix + key && CounterKey(name, other) == prefix + other;
    assert BlockKey(name, key) == prefix + key + ":blocked";
    assert BlockKey(name, other) == prefix + other + ":blocked";
    assert (key + ":blocked")[|key|] == ':' && (other + ":blocked")[|other|] == ':';
    assert (key + ":blocked")[..|key|] == key && (other + ":blocked")[..|other|] == other;
  }

  /** Two throttlers whose names have no colon never share a key. */
  lemma {:induction false} OtherThrottlersUntouched(name: string, other: string, key: string, otherKey: string)
    requires name != other && ':' !in name && ':' !in other
    ensures CounterKey(name, key) != CounterKey(other, otherKey)
    ensures CounterKey(name, key) != BlockKey(other, otherKey) && BlockKey(name, key) != CounterKey(other, otherKey)
    ensures BlockKey(name, key) != BlockKey(other, otherKey)
  {
    NamesDecide(name, other, key, otherKey);
    NamesDecide(name, other, key, otherKey + ":blocked");
    NamesDecide(name, other, key + ":blocked", otherKey);
    NamesDecide(name, other, key + ":blocked", otherKey + ":blocked");
    assert forall n: string, k: string :: BlockKey(n, k) == CounterKey(n, k + ":blocked");
  }

  lemma {:induction false} NamesDecide(name: string, other: string, key: string, otherKey: string)
    requires name != other && ':' !in name && ':' !in other
    ensures CounterKey(name, key) != CounterKey(other, otherKey)
  {
    var a, b := CounterKey(name, key), CounterKey(other, otherKey);
    assert a[9..] == name + ":" + key && b[9..] == other + ":" + otherKey;
    var n, o := |name|, |other|;
    assert a[9..][n] == ':' && b[9..][o] == ':';
    if n < o {
      assert b[9..][n] == other[n];
    } else if o < n {
      assert a[9..][o] == name[o];
    } else {
      assert a[9..][..n] == name && b[9..][..n] == other;
    }
  }

  class RedisThrottlerStorage {
    var db: Db<string, int>
    var now: int

    constructor ()
      ensures db == map[] && now == 0
    {
      db, now := map[], 0;
    }

    /** One atomic run of the script: commands in the order of the Lua text. */
    method RunScript(counterKey: string, blockKey: string, c: Limits) returns (r: Reply)
      requires ValidLimits(c)
      requires WellTimed(db, now, counterKey, blockKey)
      modifies `db
      ensures WellTimed(db, now, counterKey, blockKey)
      ensures MeterOf(db, counterKey, blockKey) == Hit(MeterOf(old(db), counterKey, blockKey), now, c)
      ensures r.blocked == !Admits(MeterOf(old(db), counterKey, blockKey), now, c)
      ensures r.blocked ==> r.blockTtl == MeterOf(db, counterKey, blockKey).blockedUntil - now > 0
      ensures !r.blocked ==> r.blockTtl == 0
      ensures var m := MeterOf(old(db), counterKey, blockKey);
              Blocked(m, now) ==> r.hits == (if now < m.windowEnd then m.hits else 0) &&
                                  r.counterTtl == if now < m.windowEnd then m.windowEnd - now else -2
      ensures !Blocked(MeterOf(old(db), counterKey, blockKey), now) ==>
                r.hits == MeterOf(db, counterKey, blockKey).hits &&
                r.counterTtl == MeterOf(db, counterKey, blockKey).windowEnd - now > 0
      ensures SameApartFrom(old(db), db, {counterKey, blockKey})
    {
      var blockTtl := PTtl(db, now, blockKey);
      if blockTtl > 0 {
        var stored := Lookup(db, now, counterKey);
        return Reply(if stored.Some? then stored.value else 0, PTtl(db, now, counterKey), true, blockTtl);
      }

      db := Incr(db, now, counterKey);
      var hits := db[counterKey].value;
      if hits == 1 || PTtl(db, now, counterKey) < 0 {
        db := PExpire(db, now, counterKey, c.ttl);
      }

      var isBlocked := false;
      if hits > c.limit {
        db := SetPx(db, now, blockKey, 1, c.block);
        isBlocked := true;
        blockTtl := c.block;
      } else {
        blockTtl := 0;
      }
      r := Reply(hits, PTtl(db, now, counterKey), isBlocked, blockTtl);
    }

    method Increment(key: string, ttl: int, limit: int, blockDuration: int, throttlerName: string)
      returns (r: ThrottleRecord)
      requires WellTimed(db, now, CounterKey(throttlerName, key), BlockKey(throttlerName, key))
      modifies `db
      ensures var ck, bk := CounterKey(throttlerName, key), BlockKey(throttlerName, key);
              var c := Limits(Max(ttl, 1), limit, Max(blockDuration, 1));
              && WellTimed(db, now, ck, bk)
              && MeterOf(db, ck, bk) == Hit(MeterOf(old(db), ck, bk), now, c)
              && r.isBlocked == !Admits(MeterOf(old(db), ck, bk), now, c)
              && (r.isBlocked ==> r.timeToBlockExpire == ToSeconds(MeterOf(db, ck, bk).blockedUntil - now))
              && (!r.isBlocked ==> r.timeToBlockExpire == 0)
              && (Blocked(MeterOf(old(db), ck, bk), now) ==>
                    var m := MeterOf(old(db), ck, bk);
                    r.totalHits == (if now < m.windowEnd then m.hits else 0) &&
                    r.timeToExpire == if now < m.windowEnd then ToSeconds(m.windowEnd - now) else 0)
              && (!Blocked(MeterOf(old(db), ck, bk), now) ==>
                    r.totalHits == MeterOf(db, ck, bk).hits &&
                    r.timeToExpire == ToSeconds(MeterOf(db, ck, bk).windowEnd - now))
              && SameApartFrom(old(db), db, {ck, bk})
    {
      var redisKey := "throttle:" + throttlerName + ":" + key;
      var reply := RunScript(redisKey, redisKey + ":blocked", Limits(Max(ttl, 1), limit, Max(blockDuration, 1)));
      r := ThrottleRecord(reply.hits, ToSeconds(reply.counterTtl), reply.blocked, ToSeconds(reply.blockTtl));
    }
  }

  // ---------------------------------------------------------------- runs

  ghost predicate Nondecreasing(arrivals: seq<int>) {
    forall i, j :: 0 <= i < j < |arrivals| ==> arrivals[i] <= arrivals[j]
  }

  function After(m: Meter, arrivals: seq<int>, c: Limits): Meter
    decreases |arrivals|
  {
    if arrivals == [] then m else After(Hit(m, arrivals[0], c), arrivals[1..], c)
  }

  /** How many of the calls that arrive in [from, to] are admitted. */
  function AdmittedWithin(m: Meter, arrivals: seq<int>, c: Limits, from: int, to: int): nat
    decreases |arrivals|
  {
    if arrivals == [] then 0
    else
      (if Admits(m, arrivals[0], c) && from <= arrivals[0] <= to then 1 else 0)
      + AdmittedWithin(Hit(m, arrivals[0], c), arrivals[1..], c, from, to)
  }

  /** How many windows can still open in [start, to]: their starts are at least ttl apart. */
  function Openings(start: int, to: int, ttl: int): nat
    requires ttl >= 1
  {
    if to < start then 0 else (to - start) / ttl + 1
  }

  function Quota(c: Limits): nat {
    if c.limit > 0 then c.limit else 0
  }

  /** Admissions the meter can still grant in [now, to]. */
  function Budget(m: Meter, c: Limits, now: int, to: int): nat
    requires c.ttl >= 1
  {
    (if now < m.windowEnd && m.hits < c.limit then c.limit - m.hits else 0)
    + Quota(c) * Openings(Max(m.windowEnd, now), to, c.ttl)
  }

  lemma {:induction false} OpeningsShrink(start: int, later: int, to: int, ttl: int)
    requires ttl >= 1 && start <= later
    ensures Openings(later, to, ttl) <= Openings(start, to, ttl)
  {
    if later <= to {
      DivMonotone(to - later, to - start, ttl);
    }
  }

  lemma {:induction false} DivMonotone(a: int, b: int, d: int)
    requires 0 <= a <= b && d >= 1
    ensures a / d <= b / d
  {
    TimesGap(d, b / d, a / d);
  }

  lemma {:induction false} OpeningUsed(t: int, to: int, ttl: int)
    requires ttl >= 1 && t <= to
    ensures Openings(t, to, ttl) == 1 + Openings(t + ttl, to, ttl)
  {
    if t + ttl <= to {
      DivStep(to - t, ttl);
    }
  }

  lemma {:induction false} DivStep(a: int, d: int)
    requires 1 <= d <= a
    ensures a / d == (a - d) / d + 1
  {
    var p, q := a / d, (a - d) / d + 1;
    assert d * q == d * ((a - d) / d) + d;
    TimesGap(d, p, q);
    TimesGap(d, q, p);
  }

  /** Multiples of d that differ, differ by at least d. */
  lemma {:induction false} TimesGap(d: nat, p: nat, q: nat)
    ensures p < q ==> d * p + d <= d * q
  {
    if p < q {
      TimesMonotone(d, p + 1, q);
    }
  }

  lemma {:induction false} TimesMonotone(k: nat, a: nat, b: nat)
    requires a <= b
    ensures k * a <= k * b
  {
  }

  /** Waiting never enlarges the budget. */
  lemma {:induction false} BudgetShrinks(m: Meter, c: Limits, now: int, later: int, to: int)
    requires c.ttl >= 1 && now <= later && m.hits >= 0
    ensures Budget(m, c, later, to) <= Budget(m, c, now, to)
  {
    var s, s' := Max(m.windowEnd, now), Max(m.windowEnd, later);
    OpeningsShrink(s, s', to, c.ttl);
    TimesMonotone(Quota(c), Openings(s', to, c.ttl), Openings(s, to, c.ttl));
  }

  /** One call spends from the budget exactly what it admits. */
  lemma {:induction false} HitSpendsBudget(m: Meter, c: Limits, t: int, to: int)
    requires ValidLimits(c) && m.hits >= 0 && t <= to
    ensures Hit(m, t, c).hits >= 0
    ensures (if Admits(m, t, c) then 1 else 0) + Budget(Hit(m, t, c), c, t, to) <= Budget(m, c, t, to)
  {
    if !Blocked(m, t) && m.windowEnd <= t {
      OpeningUsed(t, to, c.ttl);
      var rest := Openings(t + c.ttl, to, c.ttl);
      assert Quota(c) * (1 + rest) == Quota(c) + Quota(c) * rest;
    }
  }

  lemma {:induction false} RunWithinBudget(m: Meter, arrivals: seq<int>, c: Limits, now: int, from: int, to: int)
    requires ValidLimits(c) && m.hits >= 0 && Nondecreasing(arrivals)
    requires from <= now && forall i :: 0 <= i < |arrivals| ==> now <= arrivals[i]
    ensures AdmittedWithin(m, arrivals, c, from, to) <= Budget(m, c, now, to)
    decreases |arrivals|
  {
    if arrivals != [] {
      var t := arrivals[0];
      if t <= to {
        BudgetShrinks(m, c, now, t, to);
        HitSpendsBudget(m, c, t, to);
        RunWithinBudget(Hit(m, t, c), arrivals[1..], c, t, from, to);
      } else {
        NothingAfter(m, arrivals, c, from, to);
      }
    }
  }

  lemma {:induction false} NothingAfter(m: Meter, arrivals: seq<int>, c: Limits, from: int, to: int)
    requires forall i :: 0 <= i < |arrivals| ==> to < arrivals[i]
    ensures AdmittedWithin(m, arrivals, c, from, to) == 0
    decreases |arrivals|
  {
    if arrivals != [] {
      NothingAfter(Hit(m, arrivals[0], c), arrivals[1..], c, from, to);
    }
  }

  /** Whatever the arrival times, an interval of the given length admits at most
      limit * (length / ttl + 2) calls: one window may be running when it begins, and
      at most length / ttl + 1 more can open inside it. */
  lemma {:induction false} IntervalBound(m: Meter, arrivals: seq<int>, c: Limits, from: int, length: nat)
    requires ValidLimits(c) && m.hits >= 0 && Nondecreasing(arrivals)
    ensures AdmittedWithin(m, arrivals, c, from, from + length) <= Quota(c) * (length / c.ttl + 2)
    decreases |arrivals|
  {
    if arrivals != [] && arrivals[0] < from {
      IntervalBound(Hit(m, arrivals[0], c), arrivals[1..], c, from, length);
    } else {
      var to := from + length;
      var s := Max(m.windowEnd, from);
      RunWithinBudget(m, arrivals, c, from, from, to);
      OpeningsShrink(from, s, to, c.ttl);
      QuotaTimes(c, Openings(s, to, c.ttl), length / c.ttl + 1);
    }
  }

  lemma {:induction false} QuotaTimes(c: Limits, openings: nat, most: nat)
    requires openings <= most
    ensures Quota(c) + Quota(c) * openings <= Quota(c) * (most + 1)
  {
  }

  /** The calls of a run that land in the window open at its end, and how many were admitted. */
  function WindowTally(m: Meter, tally: (nat, nat), arrivals: seq<int>, c: Limits): (nat, nat)
    decreases |arrivals|
  {
    if arrivals == [] then tally
    else
      var t := arrivals[0];
      var base := if Blocked(m, t) || t < m.windowEnd then tally else (0, 0);
      WindowTally(Hit(m, t, c),
                  (base.0 + (if Blocked(m, t) then 0 else 1), base.1 + (if Admits(m, t, c) then 1 else 0)),
                  arrivals[1..], c)
  }

  /** In every window of every run the admitted calls are exactly the first limit unblocked ones. */
  lemma {:induction false} WindowAdmitsFirst(m: Meter, tally: (nat, nat), arrivals: seq<int>, c: Limits)
    requires m.hits == tally.0 && tally.1 == Min(tally.0, Quota(c))
    ensures var w := WindowTally(m, tally, arrivals, c);
            After(m, arrivals, c).hits == w.0 && w.1 == Min(w.0, Quota(c))
    decreases |arrivals|
  {
    if arrivals != [] {
      var t := arrivals[0];
      var base := if Blocked(m, t) || t < m.windowEnd then tally else (0, 0);
      WindowAdmitsFirst(Hit(m, t, c),
                        (base.0 + (if Blocked(m, t) then 0 else 1), base.1 + (if Admits(m, t, c) then 1 else 0)),
                        arrivals[1..], c);
    }
  }

  // ---------------------------------------------------------------- windows, from the times alone

  /** Call i comes when no block is running: each one raised before it lasted c.block. */
  ghost predicate Free(a: seq<int>, i: nat, c: Limits)
    requires i < |a|
    decreases i, 0
  {
    forall j: nat :: j < i && Exceeds(a, j, c) ==> a[j] + c.block <= a[i]
  }

  /** Call i opens a window: it is free, and every window opened before it has lasted c.ttl. */
  ghost predicate Opens(a: seq<int>, i: nat, c: Limits)
    requires i < |a|
    decreases i, 1
  {
    Free(a, i, c) && forall j: nat :: j < i && Opens(a, j, c) ==> a[j] + c.ttl <= a[i]
  }

  /** The free calls up to call i since the last opening up to it. */
  ghost function Through(a: seq<int>, i: nat, c: Limits): set<nat>
    requires i < |a|
    decreases i, 2
  {
    set k: nat | k <= i && Free(a, k, c) && (forall j: nat :: k < j <= i ==> !Opens(a, j, c))
  }

  /** Which of the free calls of its window call i is, counted from one. */
  ghost function Rank(a: seq<int>, i: nat, c: Limits): nat
    requires i < |a|
    decreases i, 3
  {
    |Through(a, i, c)|
  }

  /** Call i is one too many and raises a block. */
  ghost predicate Exceeds(a: seq<int>, i: nat, c: Limits)
    requires i < |a|
    decreases i, 4
  {
    Free(a, i, c) && Rank(a, i, c) > c.limit
  }

  /** The same of the first n calls. */
  ghost function SinceOpening(a: seq<int>, n: nat, c: Limits): set<nat>
    requires n <= |a|
  {
    if n == 0 then {} else Through(a, n - 1, c)
  }

  /** A free call that opens a window is the first of it; another one comes on top. */
  lemma {:induction false} SinceOpeningGrows(a: seq<int>, n: nat, c: Limits)
    requires n < |a|
    ensures SinceOpening(a, n + 1, c)
            == (if Opens(a, n, c) then {} else SinceOpening(a, n, c)) + (if Free(a, n, c) then {n} else {})
  {
    var before, after := SinceOpening(a, n, c), SinceOpening(a, n + 1, c);
    forall k: nat
      ensures k in after <==> k in (if Opens(a, n, c) then {} else before) + (if Free(a, n, c) then {n} else {})
    {
      if k < n {
        assert (forall j: nat :: k < j < n + 1 ==> !Opens(a, j, c)) <==>
                 (forall j: nat :: k < j < n ==> !Opens(a, j, c)) && !Opens(a, n, c);
      }
    }
  }

  /** o is the last opening before n. */
  ghost predicate LastOpening(a: seq<int>, o: nat, n: nat, c: Limits)
    requires n <= |a|
  {
    o < n && Opens(a, o, c) && forall j: nat :: o < j < n ==> !Opens(a, j, c)
  }

  /** x is the last excess before n. */
  ghost predicate LastExcess(a: seq<int>, x: nat, n: nat, c: Limits)
    requires n <= |a|
  {
    x < n && Exceeds(a, x, c) && forall j: nat :: x < j < n ==> !Exceeds(a, j, c)
  }

  ghost predicate NoneOpens(a: seq<int>, n: nat, c: Limits)
    requires n <= |a|
  {
    forall j: nat :: j < n ==> !Opens(a, j, c)
  }

  ghost predicate NoneExceeds(a: seq<int>, n: nat, c: Limits)
    requires n <= |a|
  {
    forall j: nat :: j < n ==> !Exceeds(a, j, c)
  }

  /** The meter after the first n calls is what their times say. */
  ghost predicate Tracks(a: seq<int>, n: nat, c: Limits, m: Meter)
    requires n <= |a|
  {
    && m.hits == |SinceOpening(a, n, c)|
    && (if NoneOpens(a, n, c) then m.windowEnd == 0 else exists o: nat :: LastOpening(a, o, n, c) && m.windowEnd == a[o] + c.ttl)
    && (if NoneExceeds(a, n, c) then m.blockedUntil == 0 else exists x: nat :: LastExcess(a, x, n, c) && m.blockedUntil == a[x] + c.block)
  }

  ghost predicate Arrivals(a: seq<int>) {
    Nondecreasing(a) && forall i :: 0 <= i < |a| ==> 0 <= a[i]
  }

  lemma {:induction false} BlockedIsNotFree(a: seq<int>, n: nat, c: Limits, m: Meter)
    requires Arrivals(a) && n < |a| && Tracks(a, n, c, m)
    ensures Blocked(m, a[n]) <==> !Free(a, n, c)
  {
    if !NoneExceeds(a, n, c) {
      var x: nat :| LastExcess(a, x, n, c) && m.blockedUntil == a[x] + c.block;
      assert forall j: nat :: j < n && Exceeds(a, j, c) ==> j <= x;
    }
  }

  lemma {:induction false} WindowOverOpens(a: seq<int>, n: nat, c: Limits, m: Meter)
    requires Arrivals(a) && n < |a| && Tracks(a, n, c, m) && Free(a, n, c)
    ensures m.windowEnd <= a[n] <==> Opens(a, n, c)
  {
    if !NoneOpens(a, n, c) {
      var o: nat :| LastOpening(a, o, n, c) && m.windowEnd == a[o] + c.ttl;
      assert forall j: nat :: j < n && Opens(a, j, c) ==> j <= o;
    }
  }

  /** The count after a free call is its rank. */
  lemma {:induction false} CountIsRank(a: seq<int>, n: nat, c: Limits, m: Meter)
    requires Arrivals(a) && n < |a| && Tracks(a, n, c, m) && Free(a, n, c)
    ensures Counted(m, a[n], c).hits == Rank(a, n, c)
  {
    WindowOverOpens(a, n, c, m);
    SinceOpeningGrows(a, n, c);
    assert n !in SinceOpening(a, n, c);
    assert {} + {n} == {n};
  }

  /** A call that opens no window leaves the running one as it was. */
  lemma {:induction false} WindowStays(a: seq<int>, n: nat, c: Limits, m: Meter)
    requires Arrivals(a) && n < |a| && Tracks(a, n, c, m) && !Opens(a, n, c)
    ensures Hit(m, a[n], c).windowEnd == m.windowEnd
  {
    BlockedIsNotFree(a, n, c, m);
    if Free(a, n, c) {
      WindowOverOpens(a, n, c, m);
    }
  }

  lemma {:induction false} WindowOpened(a: seq<int>, n: nat, c: Limits, m: Meter)
    requires Arrivals(a) && n < |a| && Tracks(a, n, c, m) && Opens(a, n, c)
    ensures Hit(m, a[n], c).windowEnd == a[n] + c.ttl && LastOpening(a, n, n + 1, c)
  {
    BlockedIsNotFree(a, n, c, m);
    WindowOverOpens(a, n, c, m);
  }

  lemma {:induction false} OpeningsStay(a: seq<int>, n: nat, c: Limits)
    requires n < |a| && !Opens(a, n, c)
    ensures NoneOpens(a, n + 1, c) <==> NoneOpens(a, n, c)
    ensures forall o: nat :: LastOpening(a, o, n, c) ==> LastOpening(a, o, n + 1, c)
  {
  }

  lemma {:induction false} WindowTracks(a: seq<int>, n: nat, c: Limits, m: Meter)
    requires Arrivals(a) && n < |a| && Tracks(a, n, c, m)
    ensures var m' := Hit(m, a[n], c);
            if NoneOpens(a, n + 1, c) then m'.windowEnd == 0
            else exists o: nat :: LastOpening(a, o, n + 1, c) && m'.windowEnd == a[o] + c.ttl
  {
    if Opens(a, n, c) {
      WindowOpened(a, n, c, m);
    } else {
      WindowStays(a, n, c, m);
      OpeningsStay(a, n, c);
    }
  }

  lemma {:induction false} BlockTracks(a: seq<int>, n: nat, c: Limits, m: Meter)
    requires Arrivals(a) && n < |a| && Tracks(a, n, c, m)
    ensures var m' := Hit(m, a[n], c);
            if NoneExceeds(a, n + 1, c) then m'.blockedUntil == 0
            else exists x: nat :: LastExcess(a, x, n + 1, c) && m'.blockedUntil == a[x] + c.block
  {
    BlockedIsNotFree(a, n, c, m);
    if Free(a, n, c) {
      CountIsRank(a, n, c, m);
    }
    if Exceeds(a, n, c) {
      assert LastExcess(a, n, n + 1, c);
    } else if !NoneExceeds(a, n, c) {
      var x: nat :| LastExcess(a, x, n, c) && m.blockedUntil == a[x] + c.block;
      assert LastExcess(a, x, n + 1, c);
    }
  }

  lemma {:induction false} HitTracks(a: seq<int>, n: nat, c: Limits, m: Meter)
    requires Arrivals(a) && n < |a| && Tracks(a, n, c, m)
    ensures Tracks(a, n + 1, c, Hit(m, a[n], c))
  {
    BlockedIsNotFree(a, n, c, m);
    WindowTracks(a, n, c, m);
    BlockTracks(a, n, c, m);
    if Free(a, n, c) {
      CountIsRank(a, n, c, m);
    } else {
      SinceOpeningGrows(a, n, c);
    }
  }

  lemma {:induction false} AfterOneMore(m: Meter, arrivals: seq<int>, t: int, c: Limits)
    ensures After(m, arrivals + [t], c) == Hit(After(m, arrivals, c), t, c)
    decreases |arrivals|
  {
    if arrivals == [] {
      assert ([] + [t])[1..] == [];
    } else {
      assert (arrivals + [t])[1..] == arrivals[1..] + [t];
      AfterOneMore(Hit(m, arrivals[0], c), arrivals[1..], t, c);
    }
  }

  lemma {:induction false} RunTracks(a: seq<int>, n: nat, c: Limits)
    requires Arrivals(a) && n <= |a|
    ensures Tracks(a, n, c, After(IDLE, a[..n], c))
  {
    if n == 0 {
      assert SinceOpening(a, 0, c) == {};
    } else {
      RunTracks(a, n - 1, c);
      assert a[..n] == a[..n - 1] + [a[n - 1]];
      AfterOneMore(IDLE, a[..n - 1], a[n - 1], c);
      HitTracks(a, n - 1, c, After(IDLE, a[..n - 1], c));
    }
  }

  /** For any arrivals: a call is admitted if and only if it is free and among the first c.limit free
      calls since its window was opened; the count is its rank there, and the window ends c.ttl
      after its opening. */
  lemma {:induction false} AdmittedExactly(a: seq<int>, i: nat, c: Limits)
    requires Arrivals(a) && i < |a|
    ensures var m := After(IDLE, a[..i], c);
            && (Admits(m, a[i], c) <==> Free(a, i, c) && Rank(a, i, c) <= c.limit)
            && (Free(a, i, c) ==>
                  && Hit(m, a[i], c).hits == Rank(a, i, c)
                  && exists o: nat :: LastOpening(a, o, i + 1, c) && Hit(m, a[i], c).windowEnd == a[o] + c.ttl)
            && (Exceeds(a, i, c) ==> Hit(m, a[i], c).blockedUntil == a[i] + c.block)
  {
    var m := After(IDLE, a[..i], c);
    RunTracks(a, i, c);
    BlockedIsNotFree(a, i, c, m);
    if Free(a, i, c) {
      CountIsRank(a, i, c, m);
      WindowTracks(a, i, c, m);
      if NoneOpens(a, i, c) {
        assert Opens(a, i, c);
      }
    }
  }

  // ---------------------------------------------------------------- coming back after a refusal

  /** While a call is refused the window is exhausted. */
  ghost predicate Exhausted(m: Meter, now: int, c: Limits) {
    Blocked(m, now) ==> m.hits > c.limit
  }

  lemma {:induction false} RunKeepsExhausted(m: Meter, arrivals: seq<int>, c: Limits, now: int)
    requires ValidLimits(c) && Nondecreasing(arrivals) && Exhausted(m, now, c)
    requires forall i :: 0 <= i < |arrivals| ==> now <= arrivals[i]
    ensures Exhausted(After(m, arrivals, c), if arrivals == [] then now else arrivals[|arrivals| - 1], c)
    decreases |arrivals|
  {
    if arrivals != [] {
      RunKeepsExhausted(Hit(m, arrivals[0], c), arrivals[1..], c, arrivals[0]);
    }
  }

  /** A caller refused at time t who next calls once the block is over is admitted
      exactly when the limit allows any call and the exhausted window has ended. */
  lemma {:induction false} ReturnAfterBlock(m: Meter, t: int, c: Limits, later: int)
    requires ValidLimits(c) && Exhausted(m, t, c) && !Admits(m, t, c)
    requires later >= Hit(m, t, c).blockedUntil
    ensures Admits(Hit(m, t, c), later, c) <==> c.limit >= 1 && Hit(m, t, c).windowEnd <= later
  {
  }

  /** The whole seconds advertised for a block never fall short of one second. */
  function Cover(c: Limits): int {
    Max(c.block, 1000)
  }

  /** A running block was raised at most its length ago, in a window no longer than it covers. */
  ghost predicate BlockCovers(m: Meter, now: int, c: Limits) {
    Blocked(m, now) ==> m.blockedUntil - c.block <= now && m.windowEnd <= m.blockedUntil - c.block + Cover(c)
  }

  lemma {:induction false} RunKeepsBlockCovers(m: Meter, arrivals: seq<int>, c: Limits, now: int)
    requires ValidLimits(c) && c.ttl <= Cover(c)
    requires Nondecreasing(arrivals) && BlockCovers(m, now, c) && m.windowEnd <= now + c.ttl
    requires forall i :: 0 <= i < |arrivals| ==> now <= arrivals[i]
    ensures var end := if arrivals == [] then now else arrivals[|arrivals| - 1];
            BlockCovers(After(m, arrivals, c), end, c) && After(m, arrivals, c).windowEnd <= end + c.ttl
    decreases |arrivals|
  {
    if arrivals != [] {
      RunKeepsBlockCovers(Hit(m, arrivals[0], c), arrivals[1..], c, arrivals[0]);
    }
  }

  /** The caller of time t, refused after this history, comes back after the advertised seconds. */
  ghost predicate ComesBack(history: seq<int>, t: int, c: Limits, later: int) {
    && Nondecreasing(history + [t]) && (history + [t])[0] >= 0
    && var m := After(IDLE, history, c);
    && !Admits(m, t, c) && later >= t + 1000 * ToSeconds(Hit(m, t, c).blockedUntil - t)
  }

  ghost predicate AdmittedThen(history: seq<int>, t: int, c: Limits, later: int) {
    Admits(Hit(After(IDLE, history, c), t, c), later, c)
  }

  lemma {:induction false} AdvertisedWaitSuffices(history: seq<int>, t: int, c: Limits, later: int)
    requires ValidLimits(c) && c.limit >= 1 && c.ttl <= Cover(c) && ComesBack(history, t, c, later)
    ensures AdmittedThen(history, t, c, later)
  {
    var m := After(IDLE, history, c);
    assert forall i :: 0 <= i < |history| ==> history[i] == (history + [t])[i];
    assert (history + [t])[|history|] == t;
    RunKeepsExhausted(IDLE, history, c, 0);
    RunKeepsBlockCovers(IDLE, history, c, 0);
    ReturnAfterBlock(m, t, c, later);
  }

  /** n calls at time 0. */
  function AtOnce(n: nat): (arrivals: seq<int>)
    ensures |arrivals| == n && forall i :: 0 <= i < n ==> arrivals[i] == 0
  {
    if n == 0 then [] else [0] + AtOnce(n - 1)
  }

  /** Calls within the limit, all at time 0, are only counted. */
  lemma {:induction false} AfterAtOnce(m: Meter, n: nat, c: Limits)
    requires c.ttl >= 1 && m.blockedUntil == 0 && m.hits >= 0
    requires (if 0 < m.windowEnd then m.hits else 0) + n <= c.limit && (0 < m.windowEnd ==> m.windowEnd == c.ttl)
    ensures After(m, AtOnce(n), c) == if n == 0 then m else Meter(c.ttl, (if 0 < m.windowEnd then m.hits else 0) + n, 0)
    decreases n
  {
    if n > 0 {
      assert AtOnce(n)[1..] == AtOnce(n - 1);
      AfterAtOnce(Hit(m, 0, c), n - 1, c);
    }
  }

  /** With a longer window the wait can be too short: the window is exhausted at once, and the
      caller is told of the last second of the block, or of the second that a shorter one fills. */
  lemma {:induction false} ShortBlockRefusesAgain(c: Limits) returns (history: seq<int>, t: int, later: int)
    requires ValidLimits(c) && (c.limit < 1 || Cover(c) < c.ttl)
    ensures ComesBack(history, t, c, later) && !AdmittedThen(history, t, c, later)
  {
    if c.limit < 1 {
      history, t, later := [], 0, 1000 * ToSeconds(c.block);
      assert After(IDLE, history, c) == IDLE && (history + [t])[0] == 0;
      return;
    }
    var full := AtOnce(c.limit);
    AfterAtOnce(IDLE, c.limit, c);
    var refused := Hit(After(IDLE, full, c), 0, c);
    assert refused == Meter(c.ttl, c.limit + 1, c.block);
    if c.block < 1000 {
      history, t, later := full, 0, 1000;
    } else {
      history, t, later := full + [0], c.block - 1000, c.block;
      AfterOneMore(IDLE, full, 0, c);
    }
  }

  /** Waiting the advertised whole seconds is enough after every history if and only if the limit
      allows any call and the window is no longer than the block, or than a second. */
  lemma {:induction false} AdvertisedWaitExactly(c: Limits)
    requires ValidLimits(c)
    ensures (forall history: seq<int>, t: int, later: int :: ComesBack(history, t, c, later) ==> AdmittedThen(history, t, c, later))
            <==> c.limit >= 1 && c.ttl <= Max(c.block, 1000)
  {
    if c.limit >= 1 && c.ttl <= Cover(c) {
      forall history: seq<int>, t: int, later: int | ComesBack(history, t, c, later)
        ensures AdmittedThen(history, t, c, later)
      {
        AdvertisedWaitSuffices(history, t, c, later);
      }
    } else {
      var history, t, later := ShortBlockRefusesAgain(c);
      assert ComesBack(history, t, c, later);
    }
  }
}
