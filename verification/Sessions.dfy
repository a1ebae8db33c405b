/** Single-device sessions: the Redis commands of the session service, and the service itself
    as a sequential object. */
module SessionStore {
  import opened Wrappers
  import opened Redis

  type UserId = string

  /** A generated session id: JSON puts it between quotes as it stands. */
  type Jti = s: string | s != "" && NeedsNoEscape(s) witness "0"

  predicate NeedsNoEscape(s: string) {
    forall c :: c in s ==> c != '"' && c != '\\' && c >= ' '
  }

  const QUOTE := "\""

  /** JSON.stringify of a session id: the text the active key holds. */
  function Stringify(jti: Jti): (text: string)
    ensures ParseJti(text) == Some(jti)
  {
    var text := QUOTE + jti + QUOTE;
    assert text[1..|text| - 1] == jti;
    text
  }

  /** JSON.parse, for the texts that hold a session id. */
  function ParseJti(text: string): Option<Jti> {
    if |text| > 2 && text[0] == '"' && text[|text| - 1] == '"' && NeedsNoEscape(text[1..|text| - 1])
    then Some(text[1..|text| - 1])
    else None
  }

  /** A text that JSON.parse reads as a session id is never itself one: it begins with a quote. */
  lemma {:induction false} QuotedIsNoJti(text: string, jti: Jti)
    requires ParseJti(text).Some?
    ensures text != jti
  {
    assert text[0] in text;
  }

  /** `${userId}.${random}`: the owner can be read off the token. */
  datatype RefreshToken = RefreshToken(user: UserId, secret: nat)

  /** An ideal hash: equal digests come from equal tokens. */
  datatype Digest = Sha256(token: RefreshToken)

  datatype Key = Active(user: UserId) | Refresh(user: UserId) | Online(user: UserId) | Kicked(user: UserId)

  /** The active key matters as text, because a script compares it; the other values do not. */
  datatype Value = ActiveText(text: string) | RefreshHash(digest: Digest) | OnlineInfo | KickedMark

  type SessionDb = Db<Key, Value>

  /** Token lifetimes in seconds; durationToSeconds only returns positive values. quotesArgument
      tells whether refreshOnline hands its script the JSON text of the jti. The code does not:
      it passes the jti as it is. */
  datatype Config = Config(tokenTtl: nat, refreshTtl: nat, quotesArgument: bool)

  function ScriptArgument(c: Config, jti: Jti): string {
    if c.quotesArgument then Stringify(jti) else jti
  }

  const ONLINE_USER_TTL := 30 * 60
  const KICKED_TTL := 30

  function KeyName(k: Key): string {
    match k
    case Active(u) => "token:active:" + u
    case Refresh(u) => "auth:refresh:" + u
    case Online(u) => "online:user:" + u
    case Kicked(u) => "kicked:user:" + u
  }

  /** The four key families never collide, so a typed key stands for its string. */
  lemma {:induction false} KeyNameInjective(a: Key, b: Key)
    requires KeyName(a) == KeyName(b)
    ensures a == b
  {
    assert KeyName(a)[0] == KeyName(b)[0];
    var n := match a case Active(_) => 13 case Refresh(_) => 13 case Online(_) => 12 case Kicked(_) => 12;
    assert KeyName(a)[n..] == a.user && KeyName(b)[n..] == b.user;
  }

  // ---------------------------------------------------------------- one command each

  function ActiveJtiOf(db: SessionDb, now: int, user: UserId): Option<Jti> {
    var stored: Option<Value> := Lookup(db, now, Active(user));
    if stored.Some? && stored.value.ActiveText? then ParseJti(stored.value.text) else None
  }

  function SetActive(db: SessionDb, now: int, user: UserId, jti: Jti, ttl: nat): SessionDb {
    SetEx(db, now, Active(user), ActiveText(Stringify(jti)), ttl)
  }

  function SetOnline(db: SessionDb, now: int, user: UserId, ttl: nat): SessionDb {
    SetEx(db, now, Online(user), OnlineInfo, Min(ttl, ONLINE_USER_TTL))
  }

  function SetRefresh(db: SessionDb, now: int, token: RefreshToken, ttl: nat): SessionDb {
    SetEx(db, now, Refresh(token.user), RefreshHash(Sha256(token)), ttl)
  }

  predicate HoldsRefresh(db: SessionDb, now: int, user: UserId, token: RefreshToken) {
    Lookup(db, now, Refresh(user)) == Some(RefreshHash(Sha256(token)))
  }

  /** The stored text of the active key is, byte for byte, the argument of the script. */
  predicate ScriptMatches(db: SessionDb, now: int, user: UserId, argument: string) {
    Lookup(db, now, Active(user)) == Some(ActiveText(argument))
  }

  /** The Lua script: it touches or creates the online record only on a match. */
  function TouchOnline(db: SessionDb, now: int, user: UserId, argument: string): SessionDb {
    if !ScriptMatches(db, now, user, argument) then db
    else if Live(db, now, Online(user)) then PExpire(db, now, Online(user), 1000 * ONLINE_USER_TTL)
    else SetEx(db, now, Online(user), OnlineInfo, ONLINE_USER_TTL)
  }

  /** A refresh changes the store if and only if the stored text is the argument, unless the
      record has its full time left already; it then gives the online record, and nothing else, half
      an hour. */
  lemma {:induction false} TouchChangesExactly(db: SessionDb, now: int, user: UserId, argument: string)
    ensures TouchOnline(db, now, user, argument) != db <==>
              && ScriptMatches(db, now, user, argument)
              && !(Online(user) in db && db[Online(user)].expiry == At(now + 1000 * ONLINE_USER_TTL))
    ensures SameApartFrom(db, TouchOnline(db, now, user, argument), {Online(user)})
    ensures var touched := TouchOnline(db, now, user, argument);
            ScriptMatches(db, now, user, argument) ==>
              Online(user) in touched && touched[Online(user)].expiry == At(now + 1800000)
  {
    var touched := TouchOnline(db, now, user, argument);
    if ScriptMatches(db, now, user, argument) {
      assert Online(user) in touched && touched[Online(user)].expiry == At(now + 1000 * ONLINE_USER_TTL);
    }
  }

  /** Whatever activate has stored, and however much later: with the jti as argument the script
      does not match, so the refresh changes nothing, although the session is found active. */
  lemma {:induction false} RawArgumentNeverTouches(db: SessionDb, now: int, user: UserId, jti: Jti)
    requires ActiveJtiOf(db, now, user).Some?
    ensures TouchOnline(db, now, user, jti) == db
  {
    QuotedIsNoJti(db[Active(user)].value.text, jti);
  }

  /** With the JSON text as argument it would match exactly for the active session. */
  lemma {:induction false} QuotedArgumentMatchesExactly(db: SessionDb, now: int, user: UserId, jti: Jti)
    ensures ScriptMatches(db, now, user, Stringify(jti)) <==> ActiveJtiOf(db, now, user) == Some(jti)
  {
    if ActiveJtiOf(db, now, user) == Some(jti) {
      var text := db[Active(user)].value.text;
      assert text == [text[0]] + text[1..|text| - 1] + [text[|text| - 1]];
    }
  }

  /** For example half an hour after a login with a session of one hour: the check accepts the
      jti, the user is not shown as online, and the refresh leaves it so. */
  lemma {:induction false} AcceptedButNotShown(user: UserId, jti: Jti)
    ensures var db := SetOnline(SetActive(map[], 0, user, jti, 3600), 0, user, 3600);
            && ActiveJtiOf(db, 1800000, user) == Some(jti)
            && !Live(db, 1800000, Online(user))
            && TouchOnline(db, 1800000, user, jti) == db
  {
    RawArgumentNeverTouches(SetOnline(SetActive(map[], 0, user, jti, 3600), 0, user, 3600), 1800000, user, jti);
  }

  function MarkKicked(db: SessionDb, now: int, user: UserId): SessionDb {
    SetEx(db, now, Kicked(user), KickedMark, KICKED_TTL)
  }

  // ---------------------------------------------------------------- the service, run alone

  /** What a revocation leaves when nothing runs beside it. */
  function Revoked(db: SessionDb, now: int, user: UserId, kicked: bool): SessionDb {
    var cleared := Remove(Remove(Remove(db, Active(user)), Refresh(user)), Online(user));
    if kicked then MarkKicked(cleared, now, user) else cleared
  }

  class SessionService {
    const redis: RedisService<Key, Value>

    constructor (redis: RedisService<Key, Value>)
      ensures this.redis == redis
    {
      this.redis := redis;
    }

    method Activate(user: UserId, jti: Jti, ttl: nat, recordOnline: bool)
      modifies redis`db
      ensures redis.db == var db := SetActive(old(redis.db), redis.now, user, jti, ttl);
                          if recordOnline then SetOnline(db, redis.now, user, ttl) else db
      ensures var now, active := redis.now, Entry(ActiveText("\"" + jti + "\""), At(redis.now + 1000 * ttl));
              redis.db == if recordOnline
                          then old(redis.db)[Active(user) := active][Online(user) := Entry(OnlineInfo, At(now + 1000 * Min(ttl, 1800)))]
                          else old(redis.db)[Active(user) := active]
    {
      redis.Set(Active(user), ActiveText(Stringify(jti)), ttl);
      if !recordOnline {
        return;
      }
      redis.Set(Online(user), OnlineInfo, Min(ttl, ONLINE_USER_TTL));
    }

    method RevokeUserSessions(user: UserId, kicked: bool) returns (hadSession: bool)
      modifies redis`db
      ensures redis.db == Revoked(old(redis.db), redis.now, user, kicked)
      ensures Active(user) !in redis.db && Refresh(user) !in redis.db && Online(user) !in redis.db
      ensures kicked ==> Kicked(user) in redis.db && redis.db[Kicked(user)] == Entry(KickedMark, At(redis.now + 30000))
      ensures SameApartFrom(old(redis.db), redis.db,
                            {Active(user), Refresh(user), Online(user)} + if kicked then {Kicked(user)} else {})
      ensures hadSession <==> Live(old(redis.db), redis.now, Active(user)) || Live(old(redis.db), redis.now, Online(user))
    {
      var hadActive := redis.Exists(Active(user));
      var hadOnline := redis.Exists(Online(user));
      redis.Del(Active(user));
      redis.Del(Refresh(user));
      redis.Del(Online(user));
      if kicked {
        redis.Set(Kicked(user), KickedMark, KICKED_TTL);
      }
      hadSession := hadActive || hadOnline;
    }

    method GetActiveJti(user: UserId) returns (jti: Option<Jti>)
      ensures jti == ActiveJtiOf(redis.db, redis.now, user)
    {
      var value := redis.Get(Active(user));
      jti := if value.Some? && value.value.ActiveText? then ParseJti(value.value.text) else None;
    }

    method ActivateRefresh(token: RefreshToken, ttl: nat)
      modifies redis`db
      ensures redis.db == SetRefresh(old(redis.db), redis.now, token, ttl)
      ensures redis.db == old(redis.db)[Refresh(token.user) := Entry(RefreshHash(Sha256(token)), At(redis.now + 1000 * ttl))]
    {
      redis.Set(Refresh(token.user), RefreshHash(Sha256(token)), ttl);
    }

    method RotateRefresh(current: RefreshToken, next: RefreshToken, ttl: nat) returns (rotated: bool)
      requires current.user == next.user
      modifies redis`db
      ensures rotated == HoldsRefresh(old(redis.db), redis.now, current.user, current)
      ensures redis.db == if rotated then SetRefresh(old(redis.db), redis.now, next, ttl) else old(redis.db)
      ensures rotated <==>
                && Refresh(current.user) in old(redis.db)
                && var e := old(redis.db)[Refresh(current.user)];
                   e.value == RefreshHash(Sha256(current)) && (e.expiry.At? ==> redis.now < e.expiry.time)
      ensures rotated ==>
                redis.db == old(redis.db)[Refresh(next.user) := Entry(RefreshHash(Sha256(next)), At(redis.now + 1000 * ttl))]
    {
      rotated := redis.CompareAndSet(
        Refresh(current.user), RefreshHash(Sha256(current)), RefreshHash(Sha256(next)), ttl);
    }

    method IsKicked(user: UserId) returns (kicked: bool)
      ensures kicked == Live(redis.db, redis.now, Kicked(user))
    {
      kicked := redis.Exists(Kicked(user));
    }

    method ClearKicked(user: UserId)
      modifies redis`db
      ensures redis.db == Remove(old(redis.db), Kicked(user))
    {
      redis.Del(Kicked(user));
    }

    method RefreshOnline(user: UserId, jti: Jti)
      modifies redis`db
      ensures redis.db == TouchOnline(old(redis.db), redis.now, user, jti)
      ensures ActiveJtiOf(old(redis.db), redis.now, user).Some? ==> redis.db == old(redis.db)
    {
      if ActiveJtiOf(redis.db, redis.now, user).Some? {
        RawArgumentNeverTouches(redis.db, redis.now, user, jti);
      }
      var active := redis.Get(Active(user));
      if active != Some(ActiveText(jti)) {
        return;
      }
      var online := redis.Exists(Online(user));
      if online {
        redis.db := PExpire(redis.db, redis.now, Online(user), 1000 * ONLINE_USER_TTL);
      } else {
        redis.Set(Online(user), OnlineInfo, ONLINE_USER_TTL);
      }
    }
  }
}
