/** Logins, refreshes, revocations and token checks of any number of users, interleaved at the
    granularity of one Redis command, over a store whose keys expire. A job may be abandoned
    at any point (a crash, a closed connection, a check that rejects for another reason). */
module SessionProtocol {
  import opened Wrappers
  import opened Redis
  import opened SessionStore

  datatype EstablishStage = DropKick | StoreRefresh | StoreActive | StoreOnline
  datatype RevokeStage = Probe | DropActive | DropRefresh | DropOnline | LeaveMark
  datatype ValidateStage = ReadKicked | ReadActive | Touch

  datatype Job =
    | Establish(user: UserId, jti: Jti, token: RefreshToken, previous: Option<RefreshToken>, doing: EstablishStage)
    | Revoke(user: UserId, kicked: bool, deleting: RevokeStage)
    | Validate(user: UserId, jti: Jti, checking: ValidateStage)

  /** tokens and jtis are those ever generated, and issued tells which were generated together;
      sessionEnd remembers the expiry the active key of a user was last given. */
  datatype State = State(
    db: SessionDb, now: int, jobs: map<nat, Job>,
    tokens: set<RefreshToken>, jtis: set<Jti>, issued: map<Jti, RefreshToken>, sessionEnd: map<UserId, int>)

  const INIT := State(map[], 0, map[], {}, {}, map[], map[])

  datatype Action =
    | Tick(elapsed: nat)
    | Login(id: nat, user: UserId, jti: Jti, secret: nat, clearsKick: bool)
    | UseRefresh(id: nat, presented: RefreshToken, jti: Jti, secret: nat)
    | StartRevoke(id: nat, user: UserId, kicked: bool)
    | StartValidate(id: nat, user: UserId, jti: Jti)
    | Advance(id: nat)
    | Abandon(id: nat)

  /** Jobs start under a new id, and generated tokens and jtis are fresh. A presented refresh
      token is arbitrary: it may be current, spent, stolen or invented. */
  predicate Enabled(s: State, a: Action) {
    match a
    case Tick(_) => true
    case Login(id, user, jti, secret, _) => id !in s.jobs && jti !in s.jtis && RefreshToken(user, secret) !in s.tokens
    case UseRefresh(id, presented, jti, secret) =>
      id !in s.jobs && jti !in s.jtis && RefreshToken(presented.user, secret) !in s.tokens
    case StartRevoke(id, _, _) => id !in s.jobs
    case StartValidate(id, _, _) => id !in s.jobs
    case Advance(id) => id in s.jobs
    case Abandon(id) => id in s.jobs
  }

  function Started(s: State, id: nat, job: Job): State {
    s.(jobs := s.jobs[id := job])
  }

  function Finished(s: State, id: nat): State {
    s.(jobs := s.jobs - {id})
  }

  /** The rotation of a refresh call succeeds when the presented token is the stored one. */
  predicate Refused(s: State, job: Job) {
    job.Establish? && job.previous.Some? && !HoldsRefresh(s.db, s.now, job.user, job.previous.value)
  }

  function AdvanceEstablish(c: Config, s: State, id: nat): State
    requires id in s.jobs && s.jobs[id].Establish?
  {
    var job := s.jobs[id];
    match job.doing
    case DropKick =>
      Started(s.(db := Remove(s.db, Kicked(job.user))), id, job.(doing := StoreRefresh))
    case StoreRefresh =>
      if Refused(s, job) then Finished(s, id)
      else Started(s.(db := SetRefresh(s.db, s.now, job.token, c.refreshTtl)), id, job.(doing := StoreActive))
    case StoreActive =>
      Started(s.(db := SetActive(s.db, s.now, job.user, job.jti, c.tokenTtl),
                 sessionEnd := s.sessionEnd[job.user := s.now + 1000 * c.tokenTtl]),
              id, job.(doing := StoreOnline))
    case StoreOnline =>
      Finished(s.(db := SetOnline(s.db, s.now, job.user, c.tokenTtl)), id)
  }

  function AdvanceRevoke(s: State, id: nat): State
    requires id in s.jobs && s.jobs[id].Revoke?
  {
    var job := s.jobs[id];
    match job.deleting
    case Probe => Started(s, id, job.(deleting := DropActive))
    case DropActive => Started(s.(db := Remove(s.db, Active(job.user))), id, job.(deleting := DropRefresh))
    case DropRefresh => Started(s.(db := Remove(s.db, Refresh(job.user))), id, job.(deleting := DropOnline))
    case DropOnline => Started(s.(db := Remove(s.db, Online(job.user))), id, job.(deleting := LeaveMark))
    case LeaveMark => Finished(if job.kicked then s.(db := MarkKicked(s.db, s.now, job.user)) else s, id)
  }

  function AdvanceValidate(c: Config, s: State, id: nat): State
    requires id in s.jobs && s.jobs[id].Validate?
  {
    var job := s.jobs[id];
    match job.checking
    case ReadKicked =>
      if Live(s.db, s.now, Kicked(job.user)) then Finished(s, id) else Started(s, id, job.(checking := ReadActive))
    case ReadActive =>
      if ActiveJtiOf(s.db, s.now, job.user) == Some(job.jti) then Started(s, id, job.(checking := Touch))
      else Finished(s, id)
    case Touch => Finished(s.(db := TouchOnline(s.db, s.now, job.user, ScriptArgument(c, job.jti))), id)
  }

  function Apply(c: Config, s: State, a: Action): State
    requires Enabled(s, a)
  {
    match a
    case Tick(elapsed) => s.(now := s.now + elapsed)
    case Login(id, user, jti, secret, clearsKick) =>
      var token := RefreshToken(user, secret);
      Started(s.(tokens := s.tokens + {token}, jtis := s.jtis + {jti}, issued := s.issued[jti := token]), id,
              Establish(user, jti, token, None, if clearsKick then DropKick else StoreRefresh))
    case UseRefresh(id, presented, jti, secret) =>
      var token := RefreshToken(presented.user, secret);
      Started(s.(tokens := s.tokens + {token}, jtis := s.jtis + {jti}, issued := s.issued[jti := token]), id,
              Establish(presented.user, jti, token, Some(presented), StoreRefresh))
    case StartRevoke(id, user, kicked) => Started(s, id, Revoke(user, kicked, Probe))
    case StartValidate(id, user, jti) => Started(s, id, Validate(user, jti, ReadKicked))
    case Advance(id) =>
      if s.jobs[id].Establish? then AdvanceEstablish(c, s, id)
      else if s.jobs[id].Revoke? then AdvanceRevoke(s, id)
      else AdvanceValidate(c, s, id)
    case Abandon(id) => Finished(s, id)
  }

  ghost predicate ValidRun(c: Config, s: State, acts: seq<Action>)
    decreases |acts|
  {
    acts != [] ==> Enabled(s, acts[0]) && ValidRun(c, Apply(c, s, acts[0]), acts[1..])
  }

  ghost function Run(c: Config, s: State, acts: seq<Action>): State
    requires ValidRun(c, s, acts)
    decreases |acts|
  {
    if acts == [] then s else Run(c, Apply(c, s, acts[0]), acts[1..])
  }

  function Next(doing: EstablishStage): EstablishStage {
    match doing
    case DropKick => StoreRefresh
    case StoreRefresh => StoreActive
    case StoreActive => StoreOnline
    case StoreOnline => StoreOnline
  }

  /** A job that went on is the same job at a later stage. */
  predicate WentOn(job: Job, job': Job) {
    match job
    case Establish(_, _, _, _, doing) => job' == job.(doing := Next(doing))
    case Revoke(user, kicked, _) => job'.Revoke? && job'.user == user && job'.kicked == kicked
    case Validate(user, jti, _) => job'.Validate? && job'.user == user && job'.jti == jti
  }

  /** Only job id of s differs in s': it went on, or is gone. */
  ghost predicate OnlyWentOn(s: State, s': State, id: nat) {
    && (forall i :: i != id ==> (i in s'.jobs <==> i in s.jobs))
    && (forall i :: i != id && i in s.jobs && i in s'.jobs ==> s'.jobs[i] == s.jobs[i])
    && (id in s'.jobs ==> id in s.jobs && WentOn(s.jobs[id], s'.jobs[id]))
  }

  predicate SameHistory(s: State, s': State) {
    s'.now == s.now && s'.tokens == s.tokens && s'.jtis == s.jtis && s'.issued == s.issued
  }

  lemma {:induction false} StartedGoesOn(s: State, db: SessionDb, id: nat, job: Job)
    requires id in s.jobs && WentOn(s.jobs[id], job)
    ensures OnlyWentOn(s, Started(s.(db := db), id, job), id)
  {
  }

  lemma {:induction false} EstablishGoesOn(c: Config, s: State, id: nat)
    requires id in s.jobs && s.jobs[id].Establish?
    ensures OnlyWentOn(s, AdvanceEstablish(c, s, id), id) && SameHistory(s, AdvanceEstablish(c, s, id))
  {
    match s.jobs[id].doing
    case DropKick =>
    case StoreRefresh =>
    case StoreActive =>
    case StoreOnline =>
  }

  lemma {:induction false} RevokeGoesOn(s: State, id: nat)
    requires id in s.jobs && s.jobs[id].Revoke?
    ensures OnlyWentOn(s, AdvanceRevoke(s, id), id) && SameHistory(s, AdvanceRevoke(s, id))
  {
    var s' := AdvanceRevoke(s, id);
    if s.jobs[id].deleting.LeaveMark? {
      assert s'.jobs == s.jobs - {id};
    } else {
      StartedGoesOn(s, s'.db, id, s'.jobs[id]);
    }
  }

  lemma {:induction false} ValidateGoesOn(c: Config, s: State, id: nat)
    requires id in s.jobs && s.jobs[id].Validate?
    ensures OnlyWentOn(s, AdvanceValidate(c, s, id), id) && SameHistory(s, AdvanceValidate(c, s, id))
  {
  }

  lemma {:induction false} AdvanceGoesOn(c: Config, s: State, id: nat)
    requires id in s.jobs
    ensures OnlyWentOn(s, Apply(c, s, Advance(id)), id) && SameHistory(s, Apply(c, s, Advance(id)))
  {
    if s.jobs[id].Establish? {
      EstablishGoesOn(c, s, id);
    } else if s.jobs[id].Revoke? {
      RevokeGoesOn(s, id);
    } else {
      ValidateGoesOn(c, s, id);
    }
  }

  /** A step starts at most one job and never changes the kind or the user of another. */
  lemma {:induction false} JobsAfterStep(c: Config, s: State, a: Action, i: nat)
    requires Enabled(s, a) && i in Apply(c, s, a).jobs
    ensures var job := Apply(c, s, a).jobs[i];
            if i in s.jobs then
              && job.user == s.jobs[i].user
              && (job.Establish? <==> s.jobs[i].Establish?)
              && (job.Revoke? <==> s.jobs[i].Revoke?)
            else
              || (a.Login? && i == a.id && job.Establish? && job.user == a.user)
              || (a.UseRefresh? && i == a.id && job.Establish? && job.user == a.presented.user)
              || (a.StartRevoke? && i == a.id && job.Revoke? && job.user == a.user)
              || (a.StartValidate? && i == a.id && job.Validate? && job.user == a.user)
  {
    if a.Advance? {
      AdvanceGoesOn(c, s, a.id);
    }
  }

  lemma {:induction false} JobKept(c: Config, s: State, a: Action, i: nat)
    requires Enabled(s, a) && i in s.jobs && a != Advance(i) && a != Abandon(i)
    ensures i in Apply(c, s, a).jobs && Apply(c, s, a).jobs[i] == s.jobs[i]
  {
    if a.Advance? {
      AdvanceGoesOn(c, s, a.id);
    }
  }

  /** The step may write this key; every other step leaves it as it is, or deletes it. */
  predicate Writes(s: State, a: Action, k: Key) {
    a.Advance? && a.id in s.jobs &&
    match s.jobs[a.id]
    case Establish(user, _, token, _, doing) =>
      (match doing
       case DropKick => false
       case StoreRefresh => k == Refresh(token.user)
       case StoreActive => k == Active(user)
       case StoreOnline => k == Online(user))
    case Revoke(user, kicked, deleting) => deleting.LeaveMark? && kicked && k == Kicked(user)
    case Validate(user, _, checking) => checking.Touch? && k == Online(user)
  }

  predicate KeptOrGone(db: SessionDb, db': SessionDb, k: Key) {
    k in db' ==> k in db && db'[k] == db[k]
  }

  lemma {:induction false} EstablishWritesOnly(c: Config, s: State, id: nat, k: Key)
    requires id in s.jobs && s.jobs[id].Establish? && !Writes(s, Advance(id), k)
    ensures KeptOrGone(s.db, AdvanceEstablish(c, s, id).db, k)
  {
  }

  lemma {:induction false} RevokeWritesOnly(s: State, id: nat, k: Key)
    requires id in s.jobs && s.jobs[id].Revoke? && !Writes(s, Advance(id), k)
    ensures KeptOrGone(s.db, AdvanceRevoke(s, id).db, k)
  {
  }

  lemma {:induction false} ValidateWritesOnly(c: Config, s: State, id: nat, k: Key)
    requires id in s.jobs && s.jobs[id].Validate? && !Writes(s, Advance(id), k)
    ensures KeptOrGone(s.db, AdvanceValidate(c, s, id).db, k)
  {
  }

  lemma {:induction false} OnlyWritten(c: Config, s: State, a: Action, k: Key)
    requires Enabled(s, a) && !Writes(s, a, k)
    ensures KeptOrGone(s.db, Apply(c, s, a).db, k)
    ensures !Live(s.db, s.now, k) ==> !Live(Apply(c, s, a).db, Apply(c, s, a).now, k)
  {
    if a.Advance? {
      AdvanceGoesOn(c, s, a.id);
      if s.jobs[a.id].Establish? {
        EstablishWritesOnly(c, s, a.id, k);
      } else if s.jobs[a.id].Revoke? {
        RevokeWritesOnly(s, a.id, k);
      } else {
        ValidateWritesOnly(c, s, a.id, k);
      }
    }
  }

  // ---------------------------------------------------------------- jobs run alone

  ghost function Repeat(a: Action, n: nat): seq<Action> {
    if n == 0 then [] else [a] + Repeat(a, n - 1)
  }

  lemma {:induction false} RepeatOnce(c: Config, s: State, a: Action, n: nat)
    requires Enabled(s, a) && ValidRun(c, Apply(c, s, a), Repeat(a, n))
    ensures ValidRun(c, s, Repeat(a, n + 1)) && Run(c, s, Repeat(a, n + 1)) == Run(c, Apply(c, s, a), Repeat(a, n))
  {
  }

  /** A session established without interruption leaves what the three service calls leave. */
  lemma {:induction false} EstablishAlone(c: Config, s: State, id: nat)
    requires id in s.jobs && s.jobs[id].Establish? && s.jobs[id].doing.StoreRefresh? && !Refused(s, s.jobs[id])
    ensures var job, acts := s.jobs[id], Repeat(Advance(id), 3);
            && ValidRun(c, s, acts)
            && Run(c, s, acts).db ==
                 SetOnline(SetActive(SetRefresh(s.db, s.now, job.token, c.refreshTtl), s.now, job.user, job.jti, c.tokenTtl),
                           s.now, job.user, c.tokenTtl)
            && id !in Run(c, s, acts).jobs
  {
    var s1 := Apply(c, s, Advance(id));
    var s2 := Apply(c, s1, Advance(id));
    var s3 := Apply(c, s2, Advance(id));
    assert ValidRun(c, s3, Repeat(Advance(id), 0)) && Run(c, s3, Repeat(Advance(id), 0)) == s3;
    RepeatOnce(c, s2, Advance(id), 0);
    RepeatOnce(c, s1, Advance(id), 1);
    RepeatOnce(c, s, Advance(id), 2);
  }

  /** A login that clears the kick mark does so first. */
  lemma {:induction false} LoginAlone(c: Config, s: State, id: nat)
    requires id in s.jobs && s.jobs[id].Establish? && s.jobs[id].doing.DropKick? && s.jobs[id].previous.None?
    ensures var job, acts := s.jobs[id], Repeat(Advance(id), 4);
            && ValidRun(c, s, acts)
            && Run(c, s, acts).db ==
                 SetOnline(SetActive(SetRefresh(s.db - {Kicked(job.user)}, s.now, job.token, c.refreshTtl), s.now, job.user, job.jti, c.tokenTtl),
                           s.now, job.user, c.tokenTtl)
            && id !in Run(c, s, acts).jobs
  {
    var s1 := Apply(c, s, Advance(id));
    EstablishAlone(c, s1, id);
    RepeatOnce(c, s, Advance(id), 3);
  }

  /** A check without interruption is accepted, and goes on to refresh the online record, if and only
      if no kick mark is live and the jti is the active one. */
  lemma {:induction false} CheckAlone(c: Config, s: State, id: nat)
    requires id in s.jobs && s.jobs[id].Validate? && s.jobs[id].checking.ReadKicked?
    ensures var job, s1 := s.jobs[id], Apply(c, s, Advance(id));
            && s1.db == s.db && (id in s1.jobs <==> !Live(s.db, s.now, Kicked(job.user)))
            && (id in s1.jobs ==>
                  var s2 := Apply(c, s1, Advance(id));
                  s2.db == s.db && (id in s2.jobs <==> ActiveJtiOf(s.db, s.now, job.user) == Some(job.jti)))
  {
  }

  /** A revocation without interruption leaves what the service method leaves. */
  lemma {:induction false} RevokeAlone(c: Config, s: State, id: nat)
    requires id in s.jobs && s.jobs[id].Revoke? && s.jobs[id].deleting.Probe?
    ensures var job, acts := s.jobs[id], Repeat(Advance(id), 5);
            && ValidRun(c, s, acts)
            && Run(c, s, acts).db == Revoked(s.db, s.now, job.user, job.kicked)
            && id !in Run(c, s, acts).jobs
  {
    var s1 := Apply(c, s, Advance(id));
    var s2 := Apply(c, s1, Advance(id));
    var s3 := Apply(c, s2, Advance(id));
    var s4 := Apply(c, s3, Advance(id));
    var s5 := Apply(c, s4, Advance(id));
    assert ValidRun(c, s5, Repeat(Advance(id), 0)) && Run(c, s5, Repeat(Advance(id), 0)) == s5;
    RepeatOnce(c, s4, Advance(id), 0);
    RepeatOnce(c, s3, Advance(id), 1);
    RepeatOnce(c, s2, Advance(id), 2);
    RepeatOnce(c, s1, Advance(id), 3);
    RepeatOnce(c, s, Advance(id), 4);
  }

  // ---------------------------------------------------------------- the invariant

  predicate AboutToStore(job: Job, t: RefreshToken) {
    job.Establish? && (job.doing.DropKick? || job.doing.StoreRefresh?) && job.token == t
  }

  predicate AboutToActivate(job: Job, j: Jti) {
    job.Establish? && !job.doing.StoreOnline? && job.jti == j
  }

  ghost predicate JobsFresh(s: State) {
    && (forall i :: i in s.jobs && s.jobs[i].Establish? ==>
          && s.jobs[i].token in s.tokens
          && s.jobs[i].jti in s.jtis
          && s.jobs[i].token.user == s.jobs[i].user
          && (s.jobs[i].previous.Some? ==> s.jobs[i].previous.value.user == s.jobs[i].user)
          && (s.jobs[i].doing.StoreOnline? ==> s.jobs[i].user in s.sessionEnd))
    && (forall i, k :: i in s.jobs && k in s.jobs && i != k && s.jobs[i].Establish? && s.jobs[k].Establish? ==>
          s.jobs[i].token != s.jobs[k].token && s.jobs[i].jti != s.jobs[k].jti)
  }

  ghost predicate StoredRefreshSent(s: State) {
    forall u :: Refresh(u) in s.db ==>
      var v := s.db[Refresh(u)].value;
      && v.RefreshHash?
      && v.digest.token.user == u
      && v.digest.token in s.tokens
      && (forall i :: i in s.jobs ==> !AboutToStore(s.jobs[i], v.digest.token))
  }

  ghost predicate StoredActiveSent(s: State) {
    forall u :: Active(u) in s.db ==>
      && s.db[Active(u)].value.ActiveText?
      && ParseJti(s.db[Active(u)].value.text).Some?
      && ParseJti(s.db[Active(u)].value.text).value in s.jtis
      && u in s.sessionEnd
      && s.db[Active(u)].expiry == At(s.sessionEnd[u])
      && (forall i :: i in s.jobs ==> !AboutToActivate(s.jobs[i], ParseJti(s.db[Active(u)].value.text).value))
  }

  ghost predicate Inv(s: State) {
    JobsFresh(s) && StoredRefreshSent(s) && StoredActiveSent(s)
  }

  lemma {:induction false} StartKeepsInv(s: State, id: nat, job: Job)
    requires Inv(s) && id !in s.jobs && !job.Establish?
    ensures Inv(Started(s, id, job))
  {
  }

  lemma {:induction false} BeginKeepsInv(s: State, id: nat, user: UserId, jti: Jti, secret: nat, job: Job)
    requires Inv(s) && id !in s.jobs && jti !in s.jtis && RefreshToken(user, secret) !in s.tokens
    requires job.Establish? && job.user == user && job.jti == jti && job.token == RefreshToken(user, secret)
    requires !job.doing.StoreOnline? && (job.previous.Some? ==> job.previous.value.user == user)
    ensures Inv(Started(s.(tokens := s.tokens + {job.token}, jtis := s.jtis + {jti}, issued := s.issued[jti := job.token]), id, job))
  {
  }

  lemma {:induction false} FinishKeepsInv(s: State, id: nat)
    requires Inv(s)
    ensures Inv(Finished(s, id))
  {
  }

  /** Kicked and online records do not matter to the invariant, nor do deletions. */
  lemma {:induction false} OtherKeysKeepInv(s: State, db: SessionDb)
    requires Inv(s)
    requires forall k :: k in db && !k.Kicked? && !k.Online? ==> k in s.db && db[k] == s.db[k]
    ensures Inv(s.(db := db))
  {
  }

  lemma {:induction false} RestageKeepsInv(s: State, id: nat, job: Job)
    requires Inv(s) && id in s.jobs
    requires job.Establish? ==> s.jobs[id].Establish? && job == s.jobs[id].(doing := StoreRefresh) && s.jobs[id].doing.DropKick?
    ensures Inv(Started(s, id, job))
  {
  }

  lemma {:induction false} StoreRefreshKeepsInv(c: Config, s: State, id: nat)
    requires Inv(s) && id in s.jobs && s.jobs[id].Establish? && s.jobs[id].doing.StoreRefresh?
    requires !Refused(s, s.jobs[id])
    ensures Inv(AdvanceEstablish(c, s, id))
  {
  }

  lemma {:induction false} StoreActiveKeepsJobs(c: Config, s: State, id: nat)
    requires JobsFresh(s) && StoredRefreshSent(s) && id in s.jobs && s.jobs[id].Establish? && s.jobs[id].doing.StoreActive?
    ensures JobsFresh(AdvanceEstablish(c, s, id)) && StoredRefreshSent(AdvanceEstablish(c, s, id))
  {
  }

  lemma {:induction false} StoreActiveKeepsInv(c: Config, s: State, id: nat)
    requires Inv(s) && id in s.jobs && s.jobs[id].Establish? && s.jobs[id].doing.StoreActive?
    ensures Inv(AdvanceEstablish(c, s, id))
  {
    StoreActiveKeepsJobs(c, s, id);
  }

  lemma {:induction false} EstablishKeepsInv(c: Config, s: State, id: nat)
    requires Inv(s) && id in s.jobs && s.jobs[id].Establish?
    ensures Inv(AdvanceEstablish(c, s, id))
  {
    var job := s.jobs[id];
    match job.doing {
      case DropKick =>
        var s1 := s.(db := Remove(s.db, Kicked(job.user)));
        OtherKeysKeepInv(s, s1.db);
        RestageKeepsInv(s1, id, job.(doing := StoreRefresh));
      case StoreRefresh =>
        if Refused(s, job) {
          FinishKeepsInv(s, id);
        } else {
          StoreRefreshKeepsInv(c, s, id);
        }
      case StoreActive =>
        StoreActiveKeepsInv(c, s, id);
      case StoreOnline =>
        var s1 := s.(db := SetOnline(s.db, s.now, job.user, c.tokenTtl));
        OtherKeysKeepInv(s, s1.db);
        FinishKeepsInv(s1, id);
    }
  }

  lemma {:induction false} RevokeKeepsInv(s: State, id: nat)
    requires Inv(s) && id in s.jobs && s.jobs[id].Revoke?
    ensures Inv(AdvanceRevoke(s, id))
  {
    var db := AdvanceRevoke(s, id).db;
    OtherKeysKeepInv(s, db);
    if s.jobs[id].deleting.LeaveMark? {
      FinishKeepsInv(s.(db := db), id);
    } else {
      RestageKeepsInv(s.(db := db), id, AdvanceRevoke(s, id).jobs[id]);
    }
  }

  lemma {:induction false} ValidateKeepsInv(c: Config, s: State, id: nat)
    requires Inv(s) && id in s.jobs && s.jobs[id].Validate?
    ensures Inv(AdvanceValidate(c, s, id))
  {
    var s' := AdvanceValidate(c, s, id);
    OtherKeysKeepInv(s, s'.db);
    if id in s'.jobs {
      RestageKeepsInv(s, id, s'.jobs[id]);
    } else {
      FinishKeepsInv(s.(db := s'.db), id);
    }
  }

  lemma {:induction false} StepKeepsInv(c: Config, s: State, a: Action)
    requires Inv(s) && Enabled(s, a)
    ensures Inv(Apply(c, s, a))
  {
    match a
    case Tick(_) =>
    case Login(id, user, jti, secret, clears) =>
      BeginKeepsInv(s, id, user, jti, secret, Apply(c, s, a).jobs[id]);
    case UseRefresh(id, presented, jti, secret) =>
      BeginKeepsInv(s, id, presented.user, jti, secret, Apply(c, s, a).jobs[id]);
    case StartRevoke(id, user, kicked) => StartKeepsInv(s, id, Revoke(user, kicked, Probe));
    case StartValidate(id, user, jti) => StartKeepsInv(s, id, Validate(user, jti, ReadKicked));
    case Advance(id) =>
      if s.jobs[id].Establish? {
        EstablishKeepsInv(c, s, id);
      } else if s.jobs[id].Revoke? {
        RevokeKeepsInv(s, id);
      } else {
        ValidateKeepsInv(c, s, id);
      }
    case Abandon(id) => FinishKeepsInv(s, id);
  }

  lemma {:induction false} RunKeepsInv(c: Config, s: State, acts: seq<Action>)
    requires Inv(s) && ValidRun(c, s, acts)
    ensures Inv(Run(c, s, acts))
    decreases |acts|
  {
    if acts != [] {
      StepKeepsInv(c, s, acts[0]);
      RunKeepsInv(c, Apply(c, s, acts[0]), acts[1..]);
    }
  }

  predicate IsActive(s: State, u: UserId, j: Jti) {
    ActiveJtiOf(s.db, s.now, u) == Some(j)
  }
}
