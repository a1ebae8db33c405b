/** The access check of every request, run alone: its verdict, its throttled refresh of the
    online record, and the timer that prunes the throttle table. */
module TokenCheck {
  import opened Wrappers
  import opened Redis
  import opened SessionStore

  const ONLINE_REFRESH_INTERVAL := 5 * 60 * 1000
  const MAP_CLEANUP_INTERVAL := 10 * 60 * 1000

  datatype Rejection = UserMissing | TokenBlacklisted | NoSessionId | KickedOff | SessionEnded

  /** The online record is refreshed at most once per interval and process. */
  predicate RefreshDue(lastRefresh: map<UserId, int>, user: UserId, now: int) {
    now - (if user in lastRefresh then lastRefresh[user] else 0) > ONLINE_REFRESH_INTERVAL
  }

  /** The entries the cleanup timer keeps. */
  function Pruned(lastRefresh: map<UserId, int>, now: int): map<UserId, int> {
    map u | u in lastRefresh && now - lastRefresh[u] <= MAP_CLEANUP_INTERVAL :: lastRefresh[u]
  }

  /** Pruning is invisible: no later request is treated differently. */
  lemma {:induction false} PruningUnobservable(lastRefresh: map<UserId, int>, pruneTime: int, user: UserId, now: int)
    requires now >= pruneTime && now > ONLINE_REFRESH_INTERVAL
    ensures RefreshDue(Pruned(lastRefresh, pruneTime), user, now) == RefreshDue(lastRefresh, user, now)
  {
  }

  /** A refresh noted at one time makes the next one due when more than five minutes have passed. */
  lemma {:induction false} DueAfterFiveMinutes(lastRefresh: map<UserId, int>, user: UserId, noted: int, now: int)
    ensures RefreshDue(lastRefresh[user := noted], user, now) <==> now - noted > 300000
    ensures user !in lastRefresh ==> (RefreshDue(lastRefresh, user, now) <==> now > 300000)
  {
  }

  /** A kick is noticed by every check of the next thirty seconds, and by none after, unless a login
      clears it. */
  lemma {:induction false} KickLastsExactly(db: SessionDb, now: int, user: UserId, later: int)
    ensures Live(Revoked(db, now, user, true), later, Kicked(user)) <==> later < now + 30000
    ensures Live(Revoked(db, now, user, false), later, Kicked(user)) <==> Live(db, later, Kicked(user))
  {
  }

  class JwtStrategy {
    const sessions: SessionService
    var onlineRefreshMap: map<UserId, int>

    constructor (sessions: SessionService)
      ensures this.sessions == sessions && onlineRefreshMap == map[]
    {
      this.sessions := sessions;
      onlineRefreshMap := map[];
    }

    /** user is the row found for the token's subject, blacklisted the answer of the
        blacklist key, jti the claim of the token and wallClock the process time. The store is
        never changed: an accepted check asks for a refresh of the online record when one is
        due and notes the time, but the script does not match. */
    method Validate(user: Option<UserId>, blacklisted: bool, jti: Option<Jti>, wallClock: int)
      returns (r: Result<UserId, Rejection>)
      modifies sessions.redis`db, this`onlineRefreshMap
      ensures var db, now := old(sessions.redis.db), sessions.redis.now;
              && (r.Success? <==>
                    && user.Some? && !blacklisted && jti.Some?
                    && !Live(db, now, Kicked(user.value))
                    && ActiveJtiOf(db, now, user.value) == jti)
              && sessions.redis.db == db
              && (r.Failure? ==> onlineRefreshMap == old(onlineRefreshMap))
              && (r.Success? ==>
                    && r.value == user.value
                    && onlineRefreshMap ==
                         if RefreshDue(old(onlineRefreshMap), user.value, wallClock) then old(onlineRefreshMap)[user.value := wallClock]
                         else old(onlineRefreshMap))
      ensures var db, now := old(sessions.redis.db), sessions.redis.now;
              r.Success? || r.error == (if user.None? then UserMissing
                                        else if blacklisted then TokenBlacklisted
                                        else if jti.None? then NoSessionId
                                        else if Live(db, now, Kicked(user.value)) then KickedOff
                                        else SessionEnded)
    {
      if user.None? {
        return Failure(UserMissing);
      }
      if blacklisted {
        return Failure(TokenBlacklisted);
      }
      if jti.None? {
        return Failure(NoSessionId);
      }
      var kicked := sessions.IsKicked(user.value);
      if kicked {
        return Failure(KickedOff);
      }
      var activeJti := sessions.GetActiveJti(user.value);
      if activeJti.None? || activeJti != jti {
        return Failure(SessionEnded);
      }
      var lastRefresh := if user.value in onlineRefreshMap then onlineRefreshMap[user.value] else 0;
      if wallClock - lastRefresh > ONLINE_REFRESH_INTERVAL {
        sessions.RefreshOnline(user.value, jti.value);
        onlineRefreshMap := onlineRefreshMap[user.value := wallClock];
      }
      return Success(user.value);
    }

    /** The timer loop. */
    method PruneRefreshMap(wallClock: int)
      modifies this`onlineRefreshMap
      ensures onlineRefreshMap == Pruned(old(onlineRefreshMap), wallClock)
      ensures forall u :: u in onlineRefreshMap <==> u in old(onlineRefreshMap) && wallClock - old(onlineRefreshMap)[u] <= 600000
      ensures forall u :: u in onlineRefreshMap ==> onlineRefreshMap[u] == old(onlineRefreshMap)[u]
    {
      var unvisited := onlineRefreshMap.Keys;
      while unvisited != {}
        invariant unvisited <= onlineRefreshMap.Keys <= old(onlineRefreshMap).Keys
        invariant forall u :: u in onlineRefreshMap ==> onlineRefreshMap[u] == old(onlineRefreshMap)[u]
        invariant forall u :: u in old(onlineRefreshMap) && u !in unvisited ==>
                    (u in onlineRefreshMap <==> wallClock - old(onlineRefreshMap)[u] <= MAP_CLEANUP_INTERVAL)
        decreases unvisited
      {
        var user :| user in unvisited;
        unvisited := unvisited - {user};
        if wallClock - onlineRefreshMap[user] > MAP_CLEANUP_INTERVAL {
          onlineRefreshMap := onlineRefreshMap - {user};
        }
      }
    }
  }
}
