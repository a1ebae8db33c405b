/** Logging in: a captcha that is consumed by its first check, and an account that is locked for a
    quarter of an hour by its fifth wrong password. The counter and the lock are proved to be a
    meter of the rate limiter, and its bound is carried over to password guesses. */
module LoginGuard {
  import opened Wrappers
  import opened Redis
  import opened Throttle

  datatype LoginKey = Captcha(captchaId: string) | Attempts(email: string) | Lock(email: string)

  datatype LoginValue = Answer(text: string) | Count(n: int) | Locked

  type LoginDb = Db<LoginKey, LoginValue>

  datatype LoginError = WrongCaptcha | AccountLocked | WrongCredentials | JustLocked

  const MAX_LOGIN_ATTEMPTS: int := 5
  const LOCKOUT_DURATION: int := 15 * 60
  const CAPTCHA_TTL: int := 300

  /** Four failures pass, the fifth of a window locks, in milliseconds. */
  const GUARD := Limits(1000 * LOCKOUT_DURATION, MAX_LOGIN_ATTEMPTS - 1, 1000 * LOCKOUT_DURATION)

  function GuardOf(db: LoginDb, email: string): Meter {
    Meter(if Attempts(email) in db && db[Attempts(email)].expiry.At? then db[Attempts(email)].expiry.time else 0,
          if Attempts(email) in db && db[Attempts(email)].value.Count? then db[Attempts(email)].value.n else 0,
          if Lock(email) in db && db[Lock(email)].expiry.At? then db[Lock(email)].expiry.time else 0)
  }

  /** Counter and lock, when present, carry an expiry, and a counter has counted. */
  ghost predicate GuardTimed(db: LoginDb, now: int, email: string) {
    && now >= 0
    && (Attempts(email) in db ==>
          db[Attempts(email)].expiry.At? && db[Attempts(email)].value.Count? && db[Attempts(email)].value.n >= 1)
    && (Lock(email) in db ==> db[Lock(email)].expiry.At?)
  }

  /** The captcha is live, not empty, and answered up to case. */
  predicate CaptchaSolved(db: LoginDb, now: int, captchaId: string, answer: string) {
    answer != "" && Lookup(db, now, Captcha(captchaId)) == Some(Answer(answer))
  }

  class AuthService {
    const redis: RedisService<LoginKey, LoginValue>

    constructor (redis: RedisService<LoginKey, LoginValue>)
      ensures this.redis == redis
    {
      this.redis := redis;
    }

    method GenerateCaptcha(captchaId: string, text: string)
      modifies redis`db
      ensures forall later: int, answer: string :: CaptchaSolved(redis.db, later, captchaId, answer) <==>
                                                     answer == text && text != "" && later < redis.now + 300000
      ensures SameApartFrom(old(redis.db), redis.db, {Captcha(captchaId)})
    {
      redis.Set(Captcha(captchaId), Answer(text), CAPTCHA_TTL);
    }

    /** answer is the submitted code in lower case; whatever it is, the captcha is gone after. */
    method VerifyCaptcha(captchaId: string, answer: string) returns (ok: bool)
      modifies redis`db
      ensures ok == CaptchaSolved(old(redis.db), redis.now, captchaId, answer)
      ensures ok <==> answer != "" && Captcha(captchaId) in old(redis.db) &&
                      var e := old(redis.db)[Captcha(captchaId)]; e.value == Answer(answer) && (e.expiry.At? ==> redis.now < e.expiry.time)
      ensures Captcha(captchaId) !in redis.db
      ensures SameApartFrom(old(redis.db), redis.db, {Captcha(captchaId)})
    {
      var expected := redis.GetDel(Captcha(captchaId));
      if expected.None? || expected.value == Answer("") {
        return false;
      }
      ok := expected.value == Answer(answer);
    }

    /** RedisService.incr with an expiry: a counter that starts at one lives for the lockout
        duration, and the following increments do not prolong it. */
    method RecordLoginFailure(email: string) returns (attempts: int)
      requires GuardTimed(redis.db, redis.now, email)
      modifies redis`db
      ensures GuardTimed(redis.db, redis.now, email)
      ensures GuardOf(redis.db, email) == Counted(GuardOf(old(redis.db), email), redis.now, GUARD)
      ensures attempts == GuardOf(redis.db, email).hits
      ensures var key := Attempts(email);
              && key in redis.db
              && redis.db[key] == if Live(old(redis.db), redis.now, key) then old(redis.db)[key].(value := Count(attempts))
                                  else Entry(Count(1), At(redis.now + 900000))
      ensures SameApartFrom(old(redis.db), redis.db, {Attempts(email)})
    {
      var key := Attempts(email);
      if Live(redis.db, redis.now, key) {
        attempts := redis.db[key].value.n + 1;
        redis.db := redis.db[key := redis.db[key].(value := Count(attempts))];
      } else {
        attempts := 1;
        redis.db := redis.db[key := Entry(Count(1), Never)];
      }
      if attempts == 1 {
        redis.db := PExpire(redis.db, redis.now, key, 1000 * LOCKOUT_DURATION);
      }
    }

    /** account is None for an unknown email, and tells otherwise whether the password matches. */
    method Login(email: string, captchaId: string, answer: string, account: Option<bool>) returns (r: Result<(), LoginError>)
      requires GuardTimed(redis.db, redis.now, email)
      modifies redis`db
      ensures GuardTimed(redis.db, redis.now, email)
      ensures Captcha(captchaId) !in redis.db
      ensures SameApartFrom(old(redis.db), redis.db, {Captcha(captchaId), Attempts(email), Lock(email)})
      ensures var db, now := old(redis.db), redis.now;
              var before, after := GuardOf(db, email), GuardOf(redis.db, email);
              if !CaptchaSolved(db, now, captchaId, answer) then r == Failure(WrongCaptcha) && after == before
              else if Blocked(before, now) then r == Failure(AccountLocked) && after == before
              else if account.None? then r == Failure(WrongCredentials) && after == Counted(before, now, GUARD)
              else if account.value then r.Success? && after == before.(windowEnd := 0, hits := 0)
              else after == Hit(before, now, GUARD) && r == Failure(if Blocked(after, now) then JustLocked else WrongCredentials)
      ensures r == Failure(JustLocked) ==> Lock(email) in redis.db && redis.db[Lock(email)] == Entry(Locked, At(redis.now + 900000))
    {
      var captchaValid := VerifyCaptcha(captchaId, answer);
      if !captchaValid {
        return Failure(WrongCaptcha);
      }
      var isLocked := redis.Exists(Lock(email));
      if isLocked {
        return Failure(AccountLocked);
      }
      if account.None? {
        var attempts := RecordLoginFailure(email);
        return Failure(WrongCredentials);
      }
      if !account.value {
        var attempts := RecordLoginFailure(email);
        if attempts >= MAX_LOGIN_ATTEMPTS {
          redis.Set(Lock(email), Locked, LOCKOUT_DURATION);
          return Failure(JustLocked);
        }
        return Failure(WrongCredentials);
      }
      redis.Del(Attempts(email));
      return Success(());
    }
  }

  // ---------------------------------------------------------------- guesses against one account

  /** The guesses whose locks would still hold are among those that exceeded the limit, and the last
      of these decides. */
  lemma {:induction false} LockedByExcess(a: seq<int>, i: nat, t: int)
    requires Arrivals(a) && i < |a| && a[i] <= t
    ensures Blocked(Throttle.After(IDLE, a[..i + 1], GUARD), t) <==>
              exists j: nat :: j <= i && Exceeds(a, j, GUARD) && t < a[j] + 900000
  {
    var m := Throttle.After(IDLE, a[..i + 1], GUARD);
    RunTracks(a, i + 1, GUARD);
    if !NoneExceeds(a, i + 1, GUARD) {
      var x: nat :| LastExcess(a, x, i + 1, GUARD) && m.blockedUntil == a[x] + 900000;
      assert forall j: nat :: j <= i && Exceeds(a, j, GUARD) ==> j <= x;
    }
  }

  /** Wrong passwords sent at any times from an idle account: it is locked at a time after guess i if
      and only if one of the guesses so far was compared and at least the fifth of its window, less
      than a quarter of an hour before. */
  lemma {:induction false} LockedExactly(a: seq<int>, i: nat, t: int)
    requires Arrivals(a) && i < |a| && a[i] <= t
    ensures GUARD == Limits(900000, 4, 900000)
    ensures Blocked(Throttle.After(IDLE, a[..i + 1], GUARD), t) <==>
              exists j: nat :: j <= i && Free(a, j, GUARD) && Rank(a, j, GUARD) >= 5 && t < a[j] + 900000
  {
    LockedByExcess(a, i, t);
    assert forall j: nat :: j <= i ==> (Exceeds(a, j, GUARD) <==> Free(a, j, GUARD) && Rank(a, j, GUARD) >= 5);
  }

  /** How many of the wrong passwords sent at these times are compared at all within [from, to]. */
  function GuessesWithin(m: Meter, arrivals: seq<int>, from: int, to: int): nat
    decreases |arrivals|
  {
    if arrivals == [] then 0
    else
      (if !Blocked(m, arrivals[0]) && from <= arrivals[0] <= to then 1 else 0)
      + GuessesWithin(Hit(m, arrivals[0], GUARD), arrivals[1..], from, to)
  }

  function Compared(m: Meter, arrivals: seq<int>): seq<int>
    decreases |arrivals|
  {
    if arrivals == [] then []
    else (if Blocked(m, arrivals[0]) then [] else [arrivals[0]]) + Compared(Hit(m, arrivals[0], GUARD), arrivals[1..])
  }

  /** A limiter of five calls a window, fed with the compared guesses only, admits them all. */
  const FIVE := GUARD.(limit := MAX_LOGIN_ATTEMPTS)

  function Unlocked(m: Meter): Meter {
    m.(blockedUntil := 0)
  }

  /** An exhausted window does not outlive its lock. */
  ghost predicate LockOutlives(m: Meter, now: int) {
    && 0 <= m.hits && m.windowEnd <= now + GUARD.ttl
    && (m.hits >= MAX_LOGIN_ATTEMPTS ==> m.windowEnd <= m.blockedUntil)
  }

  lemma {:induction false} LaterArrivals(arrivals: seq<int>)
    requires Nondecreasing(arrivals) && arrivals != []
    ensures Nondecreasing(arrivals[1..]) && forall t :: t in arrivals[1..] ==> t in arrivals && arrivals[0] <= t
  {
  }

  lemma {:induction false} ComparedInOrder(m: Meter, arrivals: seq<int>)
    requires Nondecreasing(arrivals)
    ensures Nondecreasing(Compared(m, arrivals))
    ensures forall t :: t in Compared(m, arrivals) ==> t in arrivals
    decreases |arrivals|
  {
    if arrivals != [] {
      var rest := Compared(Hit(m, arrivals[0], GUARD), arrivals[1..]);
      ComparedInOrder(Hit(m, arrivals[0], GUARD), arrivals[1..]);
      LaterArrivals(arrivals);
      forall k | 0 <= k < |rest|
        ensures rest[k] in arrivals[1..]
      {
        assert rest[k] in rest;
      }
    }
  }

  lemma {:induction false} GuessesAreAdmitted(m: Meter, arrivals: seq<int>, now: int, from: int, to: int)
    requires Nondecreasing(arrivals) && (forall t :: t in arrivals ==> now <= t) && now >= 0 && LockOutlives(m, now)
    ensures GuessesWithin(m, arrivals, from, to) == AdmittedWithin(Unlocked(m), Compared(m, arrivals), FIVE, from, to)
    decreases |arrivals|
  {
    if arrivals != [] {
      var t, next := arrivals[0], Hit(m, arrivals[0], GUARD);
      LaterArrivals(arrivals);
      assert t in arrivals;
      GuessesAreAdmitted(next, arrivals[1..], t, from, to);
      if !Blocked(m, t) {
        assert Compared(m, arrivals)[1..] == Compared(next, arrivals[1..]);
        assert Hit(Unlocked(m), t, FIVE) == Unlocked(next);
      } else {
        assert Compared(m, arrivals) == Compared(next, arrivals[1..]);
      }
    }
  }

  /** However often wrong passwords are sent to an account, in an interval of the given length no
      more than 5 * (length / 15 min + 2) of them are compared, as long as nobody logs in. */
  lemma {:induction false} GuessBound(m: Meter, arrivals: seq<int>, now: int, from: int, length: nat)
    requires Nondecreasing(arrivals) && (forall t :: t in arrivals ==> now <= t) && now >= 0 && LockOutlives(m, now)
    ensures GuessesWithin(m, arrivals, from, from + length) <= 5 * (length / 900000 + 2)
  {
    GuessesAreAdmitted(m, arrivals, now, from, from + length);
    ComparedInOrder(m, arrivals);
    IntervalBound(Unlocked(m), Compared(m, arrivals), FIVE, from, length);
    FiveEach(length / FIVE.ttl + 2);
  }

  lemma {:induction false} FiveEach(windows: nat)
    ensures Quota(FIVE) * windows == 5 * windows
  {
  }

  // ---------------------------------------------------------------- overlapping attempts

  /** An attempt with a wrong password looks up the lock, is compared and counted, and may have to
      write the lock: commands of their own, between which time passes and others run. */
  datatype Stage = LookUp | Compare | WriteLock

  datatype Overlap = Overlap(meter: Meter, stages: map<nat, Stage>)

  /** An attempt that has to write the lock does not leave before it has. */
  datatype Move = Arrive(i: nat) | Advance(i: nat) | Leave(i: nat)

  datatype Event = Event(move: Move, at: int)

  predicate Enabled(s: Overlap, m: Move) {
    match m
    case Arrive(i) => i !in s.stages
    case Advance(i) => i in s.stages
    case Leave(i) => i in s.stages && !s.stages[i].WriteLock?
  }

  function Step(s: Overlap, i: nat, now: int): Overlap
    requires i in s.stages
  {
    match s.stages[i]
    case LookUp =>
      if Blocked(s.meter, now) then s.(stages := s.stages - {i}) else s.(stages := s.stages[i := Compare])
    case Compare =>
      var counted := Counted(s.meter, now, GUARD);
      Overlap(counted, if counted.hits >= MAX_LOGIN_ATTEMPTS then s.stages[i := WriteLock] else s.stages - {i})
    case WriteLock =>
      Overlap(s.meter.(blockedUntil := now + GUARD.block), s.stages - {i})
  }

  function Apply(s: Overlap, e: Event): Overlap
    requires Enabled(s, e.move)
  {
    match e.move
    case Arrive(i) => s.(stages := s.stages[i := LookUp])
    case Advance(i) => Step(s, i, e.at)
    case Leave(i) => s.(stages := s.stages - {i})
  }

  /** An attempt whose commands come at one time with no other between does to the account what a
      login with a wrong password does: one hit of the meter. */
  lemma {:induction false} AttemptAlone(s: Overlap, i: nat, now: int)
    requires i !in s.stages
    ensures var s1 := Apply(s, Event(Arrive(i), now));
            var s2 := Apply(s1, Event(Advance(i), now));
            if i !in s2.stages then Blocked(s.meter, now) && s2 == s
            else
              !Blocked(s.meter, now) && Compares(s2, Advance(i)) &&
              var s3 := Apply(s2, Event(Advance(i), now));
              (if i in s3.stages then Apply(s3, Event(Advance(i), now)) else s3) == Overlap(Hit(s.meter, now, GUARD), s.stages)
  {
    assert s.stages[i := LookUp] - {i} == s.stages;
    assert s.stages[i := LookUp][i := Compare] - {i} == s.stages;
    assert s.stages[i := LookUp][i := Compare][i := WriteLock] - {i} == s.stages;
  }

  function AtStage(s: Overlap, stage: Stage): set<nat> {
    set i | i in s.stages && s.stages[i] == stage
  }

  /** Past the look-up and not yet gone. */
  function InFlight(s: Overlap): set<nat> {
    AtStage(s, Compare) + AtStage(s, WriteLock)
  }

  /** Any interleaving in which at most k attempts are in flight at a time. */
  ghost predicate ValidEvents(s: Overlap, events: seq<Event>, now: int, k: nat)
    decreases |events|
  {
    && |InFlight(s)| <= k
    && (events != [] ==>
          && Enabled(s, events[0].move) && now <= events[0].at
          && ValidEvents(Apply(s, events[0]), events[1..], events[0].at, k))
  }

  lemma {:induction false} ValidAfter(s: Overlap, events: seq<Event>, now: int, k: nat)
    requires ValidEvents(s, events, now, k) && events != []
    ensures |InFlight(Apply(s, events[0]))| <= k
  {
    assert ValidEvents(Apply(s, events[0]), events[1..], events[0].at, k);
  }

  predicate Compares(s: Overlap, m: Move) {
    m.Advance? && m.i in s.stages && s.stages[m.i].Compare?
  }

  /** When wrong passwords are compared. */
  ghost function ComparedAt(s: Overlap, events: seq<Event>, now: int, k: nat): seq<int>
    requires ValidEvents(s, events, now, k)
    decreases |events|
  {
    if events == [] then []
    else
      (if Compares(s, events[0].move) then [events[0].at] else [])
      + ComparedAt(Apply(s, events[0]), events[1..], events[0].at, k)
  }

  function CountWithin(times: seq<int>, from: int, to: int): nat {
    if times == [] then 0 else (if from <= times[0] <= to then 1 else 0) + CountWithin(times[1..], from, to)
  }

  /** A limiter of four calls a window, and one more for each attempt in flight. */
  function LimitOf(k: nat): Limits {
    GUARD.(limit := MAX_LOGIN_ATTEMPTS - 1 + k)
  }

  /** In the running window either no lock was written since the fifth guess, and every further one
      still has to, or the lock outlives the window and only those in flight can be added. */
  ghost predicate Bounded(s: Overlap, now: int, k: nat) {
    && 0 <= s.meter.hits && s.meter.windowEnd <= now + GUARD.ttl && |InFlight(s)| <= k
    && (now < s.meter.windowEnd ==>
          || s.meter.hits <= 4 + |AtStage(s, WriteLock)|
          || (s.meter.windowEnd <= s.meter.blockedUntil && s.meter.hits + |AtStage(s, Compare)| <= 4 + k))
  }

  lemma {:induction false} InFlightSize(s: Overlap)
    ensures |InFlight(s)| == |AtStage(s, Compare)| + |AtStage(s, WriteLock)|
  {
  }

  lemma {:induction false} Smaller(a: set<nat>, b: set<nat>)
    requires a <= b
    ensures |a| <= |b|
  {
    assert b == a + (b - a);
  }

  /** Attempt i goes on to another stage, */
  lemma {:induction false} MovedOn(s: Overlap, m: Meter, i: nat, next: Stage, stage: Stage)
    ensures AtStage(Overlap(m, s.stages[i := next]), stage)
            == if next == stage then AtStage(s, stage) + {i} else AtStage(s, stage) - {i}
  {
  }

  /** or is gone. */
  lemma {:induction false} Gone(s: Overlap, m: Meter, i: nat, stage: Stage)
    ensures AtStage(Overlap(m, s.stages - {i}), stage) == AtStage(s, stage) - {i}
    ensures |AtStage(s, stage) - {i}| <= |AtStage(s, stage)|
  {
    Smaller(AtStage(s, stage) - {i}, AtStage(s, stage));
  }

  lemma {:induction false} CompareKeepsBounded(s: Overlap, i: nat, now: int, at: int, k: nat)
    requires Bounded(s, now, k) && now <= at && i in s.stages && s.stages[i].Compare?
    requires |InFlight(Step(s, i, at))| <= k
    ensures Bounded(Step(s, i, at), at, k)
  {
    var m := Counted(s.meter, at, GUARD);
    if m.hits >= MAX_LOGIN_ATTEMPTS {
      MovedOn(s, m, i, WriteLock, Compare);
      MovedOn(s, m, i, WriteLock, WriteLock);
    } else {
      Gone(s, m, i, Compare);
      Gone(s, m, i, WriteLock);
    }
  }

  lemma {:induction false} LockKeepsBounded(s: Overlap, i: nat, now: int, at: int, k: nat)
    requires Bounded(s, now, k) && now <= at && i in s.stages && s.stages[i].WriteLock?
    ensures Bounded(Step(s, i, at), at, k)
  {
    var m := s.meter.(blockedUntil := at + GUARD.block);
    Gone(s, m, i, Compare);
    Gone(s, m, i, WriteLock);
    InFlightSize(s);
    InFlightSize(Step(s, i, at));
  }

  /** A look-up that finds no lock proves that none outlives the window. */
  lemma {:induction false} LookUpKeepsBounded(s: Overlap, i: nat, now: int, at: int, k: nat)
    requires Bounded(s, now, k) && now <= at && i in s.stages && s.stages[i].LookUp?
    requires |InFlight(Step(s, i, at))| <= k
    ensures Bounded(Step(s, i, at), at, k)
  {
    if Blocked(s.meter, at) {
      Gone(s, s.meter, i, Compare);
      Gone(s, s.meter, i, WriteLock);
    } else {
      MovedOn(s, s.meter, i, Compare, WriteLock);
      assert i !in AtStage(s, WriteLock);
      assert AtStage(s, WriteLock) - {i} == AtStage(s, WriteLock);
    }
    assert i !in AtStage(s, WriteLock) ==> AtStage(s, WriteLock) - {i} == AtStage(s, WriteLock);
  }

  lemma {:induction false} ComingAndGoing(s: Overlap, e: Event, now: int, k: nat)
    requires Bounded(s, now, k) && now <= e.at && Enabled(s, e.move) && !e.move.Advance? && |InFlight(Apply(s, e))| <= k
    ensures Bounded(Apply(s, e), e.at, k)
  {
    var i := e.move.i;
    if e.move.Arrive? {
      MovedOn(s, s.meter, i, LookUp, Compare);
      MovedOn(s, s.meter, i, LookUp, WriteLock);
    } else {
      Gone(s, s.meter, i, Compare);
      Gone(s, s.meter, i, WriteLock);
    }
    assert AtStage(s, WriteLock) - {i} == AtStage(s, WriteLock);
    Smaller(AtStage(s, Compare) - {i}, AtStage(s, Compare));
  }

  lemma {:induction false} EventKeepsBounded(s: Overlap, e: Event, now: int, k: nat)
    requires Bounded(s, now, k) && now <= e.at && Enabled(s, e.move) && |InFlight(Apply(s, e))| <= k
    ensures Bounded(Apply(s, e), e.at, k)
  {
    match e.move
    case Advance(i) =>
      match s.stages[i] {
        case LookUp => LookUpKeepsBounded(s, i, now, e.at, k);
        case Compare => CompareKeepsBounded(s, i, now, e.at, k);
        case WriteLock => LockKeepsBounded(s, i, now, e.at, k);
      }
    case _ => ComingAndGoing(s, e, now, k);
  }

  /** The guess is one the limiter admits. */
  lemma {:induction false} ComparedIsAdmitted(s: Overlap, e: Event, now: int, k: nat)
    requires Bounded(s, now, k) && 0 <= now <= e.at && Enabled(s, e.move) && |InFlight(Apply(s, e))| <= k && Compares(s, e.move)
    ensures Admits(Unlocked(s.meter), e.at, LimitOf(k)) && Hit(Unlocked(s.meter), e.at, LimitOf(k)) == Unlocked(Apply(s, e).meter)
  {
    EventKeepsBounded(s, e, now, k);
    InFlightSize(Apply(s, e));
  }

  lemma {:induction false} AllAdmitted(s: Overlap, events: seq<Event>, now: int, k: nat, from: int, to: int)
    requires Bounded(s, now, k) && 0 <= now && ValidEvents(s, events, now, k)
    ensures CountWithin(ComparedAt(s, events, now, k), from, to)
            == AdmittedWithin(Unlocked(s.meter), ComparedAt(s, events, now, k), LimitOf(k), from, to)
    decreases |events|
  {
    if events != [] {
      var e, s' := events[0], Apply(s, events[0]);
      ValidAfter(s, events, now, k);
      EventKeepsBounded(s, e, now, k);
      AllAdmitted(s', events[1..], e.at, k, from, to);
      var rest := ComparedAt(s', events[1..], e.at, k);
      if Compares(s, e.move) {
        ComparedIsAdmitted(s, e, now, k);
        assert ([e.at] + rest)[1..] == rest;
      } else {
        assert [] + rest == rest;
      }
    }
  }

  lemma {:induction false} ComparedInTurn(s: Overlap, events: seq<Event>, now: int, k: nat)
    requires ValidEvents(s, events, now, k)
    ensures Nondecreasing(ComparedAt(s, events, now, k))
    ensures forall t :: t in ComparedAt(s, events, now, k) ==> now <= t
    decreases |events|
  {
    if events != [] {
      ComparedInTurn(Apply(s, events[0]), events[1..], events[0].at, k);
      var rest := ComparedAt(Apply(s, events[0]), events[1..], events[0].at, k);
      forall j | 0 <= j < |rest|
        ensures events[0].at <= rest[j]
      {
        assert rest[j] in rest;
      }
    }
  }

  /** In every interleaving with at most k attempts in flight, an interval of the given length
      compares at most (4 + k) * (length / 15 min + 2) wrong passwords. For k = 1 this is the bound of
      attempts in turn. */
  lemma {:induction false} OverlapBound(s: Overlap, events: seq<Event>, now: int, k: nat, from: int, length: nat)
    requires Bounded(s, now, k) && 0 <= now && ValidEvents(s, events, now, k)
    ensures CountWithin(ComparedAt(s, events, now, k), from, from + length) <= (4 + k) * (length / 900000 + 2)
  {
    AllAdmitted(s, events, now, k, from, from + length);
    ComparedInTurn(s, events, now, k);
    IntervalBound(Unlocked(s.meter), ComparedAt(s, events, now, k), LimitOf(k), from, length);
    assert Quota(LimitOf(k)) == 4 + k;
  }

  const NOBODY := Overlap(IDLE, map[])

  lemma {:induction false} NobodyBounded(now: int, k: nat)
    requires 0 <= now
    ensures Bounded(NOBODY, now, k)
  {
    assert InFlight(NOBODY) == {};
  }

  // ---------------------------------------------------------------- how many at one instant

  ghost predicate AllAt(events: seq<Event>, now: int) {
    forall j :: 0 <= j < |events| ==> events[j].at == now
  }

  ghost function CountAll(s: Overlap, events: seq<Event>, now: int, k: nat): nat
    requires ValidEvents(s, events, now, k)
    decreases |events|
  {
    if events == [] then 0
    else (if Compares(s, events[0].move) then 1 else 0) + CountAll(Apply(s, events[0]), events[1..], events[0].at, k)
  }

  lemma {:induction false} InstantBound(s: Overlap, events: seq<Event>, now: int, k: nat)
    requires Bounded(s, now, k) && 0 <= now && ValidEvents(s, events, now, k) && AllAt(events, now)
    ensures CountAll(s, events, now, k) + (if now < s.meter.windowEnd then s.meter.hits else 0) <= 4 + k
    decreases |events|
  {
    InFlightSize(s);
    if events != [] {
      ValidAfter(s, events, now, k);
      EventKeepsBounded(s, events[0], now, k);
      InstantBound(Apply(s, events[0]), events[1..], now, k);
    }
  }

  /** So many guesses are compared by these events, all at one instant. */
  ghost predicate CountsTo(s: Overlap, events: seq<Event>, now: int, k: nat, count: nat) {
    AllAt(events, now) && ValidEvents(s, events, now, k) && CountAll(s, events, now, k) == count
  }

  lemma {:induction false} NoEvents(s: Overlap, now: int, k: nat)
    requires |InFlight(s)| <= k
    ensures CountsTo(s, [], now, k, 0)
  {
  }

  lemma {:induction false} EventFirst(s: Overlap, move: Move, s': Overlap, rest: seq<Event>, now: int, k: nat, count: nat, total: nat)
    returns (events: seq<Event>)
    requires total == count + if Compares(s, move) then 1 else 0
    requires Enabled(s, move) && s' == Apply(s, Event(move, now)) && |InFlight(s)| <= k && CountsTo(s', rest, now, k, count)
    ensures CountsTo(s, events, now, k, total)
  {
    events := [Event(move, now)] + rest;
    assert events[1..] == rest;
    assert forall j :: 0 < j < |events| ==> events[j] == rest[j - 1];
  }

  /** The first n attempts have passed the look-up. */
  function Passed(n: nat): (stages: map<nat, Stage>)
    ensures forall i: nat :: i in stages <==> i < n
    ensures forall i: nat :: i in stages ==> stages[i].Compare?
  {
    if n == 0 then map[] else Passed(n - 1)[n - 1 := Compare]
  }

  lemma {:induction false} PassedNext(i: nat)
    ensures i !in Passed(i) && Passed(i)[i := LookUp][i := Compare] == Passed(i + 1)
  {
    assert Passed(i)[i := LookUp][i := Compare] == Passed(i)[i := Compare];
  }

  /** The first n numbers. */
  function Below(n: nat): (numbers: set<nat>)
    ensures |numbers| == n && forall i: nat :: i in numbers <==> i < n
  {
    if n == 0 then {} else Below(n - 1) + {n - 1}
  }

  lemma {:induction false} PassedSize(m: Meter, n: nat)
    ensures |InFlight(Overlap(m, Passed(n)))| == n
  {
    assert AtStage(Overlap(m, Passed(n)), WriteLock) == {};
    assert AtStage(Overlap(m, Passed(n)), Compare) == Below(n);
  }

  /** The first n attempts are past the look-up, and with the others no more than k. */
  ghost predicate Waiting(s: Overlap, n: nat, k: nat) {
    |InFlight(s)| <= k && forall j: nat :: j < n ==> j in s.stages && s.stages[j].Compare?
  }

  lemma {:induction false} GuessLeaves(s: Overlap, i: nat, now: int, k: nat)
    requires Waiting(s, i + 1, k)
    ensures Waiting(Step(s, i, now), i, k)
  {
    assert InFlight(Step(s, i, now)) <= InFlight(s);
    Smaller(InFlight(Step(s, i, now)), InFlight(s));
  }

  lemma {:induction false} OneCompared(s: Overlap, i: nat, n: nat, rest: seq<Event>, now: int, k: nat) returns (events: seq<Event>)
    requires n == i + 1 && |InFlight(s)| <= k && i in s.stages && s.stages[i].Compare? && CountsTo(Step(s, i, now), rest, now, k, i)
    ensures CountsTo(s, events, now, k, n)
  {
    events := EventFirst(s, Advance(i), Step(s, i, now), rest, now, k, i, n);
  }

  /** n attempts past the look-up are compared, the last one first. */
  lemma {:induction false} AllCompared(s: Overlap, n: nat, now: int, k: nat) returns (events: seq<Event>)
    requires Waiting(s, n, k)
    ensures CountsTo(s, events, now, k, n)
    decreases n
  {
    if n == 0 {
      events := [];
      NoEvents(s, now, k);
    } else {
      var i := n - 1;
      GuessLeaves(s, i, now, k);
      var rest := AllCompared(Step(s, i, now), i, now, k);
      events := OneCompared(s, i, n, rest, now, k);
    }
  }

  /** Attempts 0 to i - 1 have passed the look-up, and i has arrived. */
  function Arrived(m: Meter, i: nat): Overlap {
    Overlap(m, Passed(i)[i := LookUp])
  }

  lemma {:induction false} ArrivedSize(m: Meter, i: nat)
    ensures |InFlight(Arrived(m, i))| == i
  {
    var s := Overlap(m, Passed(i));
    PassedSize(m, i);
    PassedNext(i);
    MovedOn(s, m, i, LookUp, Compare);
    MovedOn(s, m, i, LookUp, WriteLock);
    assert InFlight(Arrived(m, i)) == InFlight(s);
  }

  lemma {:induction false} OneLooksUp(m: Meter, i: nat, rest: seq<Event>, now: int, k: nat, count: nat) returns (events: seq<Event>)
    requires !Blocked(m, now) && i < k && CountsTo(Overlap(m, Passed(i + 1)), rest, now, k, count)
    ensures CountsTo(Arrived(m, i), events, now, k, count)
  {
    ArrivedSize(m, i);
    PassedNext(i);
    events := EventFirst(Arrived(m, i), Advance(i), Overlap(m, Passed(i + 1)), rest, now, k, count, count);
  }

  /** Attempt i arrives beside those that have passed the look-up, and passes it. */
  lemma {:induction false} OnePasses(m: Meter, i: nat, rest: seq<Event>, now: int, k: nat, count: nat) returns (events: seq<Event>)
    requires !Blocked(m, now) && i < k && CountsTo(Overlap(m, Passed(i + 1)), rest, now, k, count)
    ensures CountsTo(Overlap(m, Passed(i)), events, now, k, count)
  {
    var later := OneLooksUp(m, i, rest, now, k, count);
    PassedSize(m, i);
    events := EventFirst(Overlap(m, Passed(i)), Arrive(i), Arrived(m, i), later, now, k, count, count);
  }

  lemma {:induction false} AllWaiting(m: Meter, k: nat)
    ensures Waiting(Overlap(m, Passed(k)), k, k)
  {
    PassedSize(m, k);
  }

  /** After i attempts the others up to k pass the look-up, and all are compared. */
  lemma {:induction false} AllOverlap(m: Meter, i: nat, now: int, k: nat) returns (events: seq<Event>)
    requires !Blocked(m, now) && i <= k
    ensures CountsTo(Overlap(m, Passed(i)), events, now, k, k)
    decreases k - i
  {
    if i == k {
      AllWaiting(m, k);
      events := AllCompared(Overlap(m, Passed(k)), k, now, k);
    } else {
      var rest := AllOverlap(m, i + 1, now, k);
      events := OnePasses(m, i, rest, now, k, k);
    }
  }

  /** Guesses in turn up to the fourth, and then k that overlap. */
  lemma {:induction false} InTurnThenOverlap(m: Meter, now: int, k: nat, left: nat) returns (events: seq<Event>)
    requires !Blocked(m, now) && k >= 1 && left <= 4 && (if now < m.windowEnd then m.hits else 0) == 4 - left
    ensures CountsTo(Overlap(m, Passed(0)), events, now, k, left + k)
    decreases left
  {
    if left == 0 {
      events := AllOverlap(m, 0, now, k);
    } else {
      var counted := Counted(m, now, GUARD);
      var rest := InTurnThenOverlap(counted, now, k, left - 1);
      assert Passed(1) - {0} == Passed(0);
      PassedSize(m, 1);
      rest := EventFirst(Overlap(m, Passed(1)), Advance(0), Overlap(counted, Passed(0)), rest, now, k, left - 1 + k, left + k);
      events := OnePasses(m, 0, rest, now, k, left + k);
    }
  }

  /** The bound of a window is reached. */
  lemma {:induction false} OverlapReaches(k: nat, now: int) returns (events: seq<Event>)
    requires k >= 1 && 0 <= now
    ensures CountsTo(NOBODY, events, now, k, 4 + k)
  {
    events := InTurnThenOverlap(IDLE, now, k, 4);
  }

  /** With at most k attempts in flight, no interleaving compares more than most guesses at one
      instant if and only if most is at least 4 + k: five hold exactly for attempts in turn. */
  lemma {:induction false} OverlapComparesExactly(k: nat, most: nat, now: int)
    requires k >= 1 && 0 <= now
    ensures (forall events :: ValidEvents(NOBODY, events, now, k) && AllAt(events, now) ==> CountAll(NOBODY, events, now, k) <= most)
            <==> 4 + k <= most
  {
    var reached := OverlapReaches(k, now);
    NobodyBounded(now, k);
    forall events | ValidEvents(NOBODY, events, now, k) && AllAt(events, now)
      ensures CountAll(NOBODY, events, now, k) <= 4 + k
    {
      InstantBound(NOBODY, events, now, k);
    }
  }
}
