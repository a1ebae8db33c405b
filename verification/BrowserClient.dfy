/** One browser context against the session protocol: requests that may be answered 401, refused
    for another reason or lost at any time, one shared refresh call, and one retry per request. */
module BrowserClient {
  import opened Wrappers
  import opened Redis
  import opened SessionStore
  import P = SessionProtocol
  import T = SessionTokens

  /** Rejected is any failure but a 401: another status, or no answer at all. */
  datatype Answer = Fine | Unauthorized | Rejected

  datatype Phase = InFlight(jti: Jti) | Answered(answer: Answer) | Waiting | Settled(answer: Answer)

  /** What becomes of a request: the endpoint handles it, if its session is the active one or none
      is needed; it is answered 401, be it for an expired token or for a wrong password; or it is
      lost. */
  datatype Fate = Handled(ok: bool) | Refused | Lost

  /** retried is the _retry flag carried by the request; entry marks login, register and refresh. */
  datatype Request = Request(phase: Phase, retried: bool, entry: bool)

  datatype Reply = Granted(token: RefreshToken, jti: Jti) | Denied

  /** refreshPromise: unset, waiting for the server job, or about to settle. */
  datatype Refreshing = Idle | Calling(job: nat) | Replied(reply: Reply)

  datatype State = State(
    server: P.State, me: UserId, refreshCookie: RefreshToken, accessCookie: Jti,
    refreshing: Refreshing, requests: map<nat, Request>, refreshCalls: nat, authenticated: bool)

  /** Receive names the job and the secrets a refresh call would use, should it start one. */
  datatype Action =
    | Send(r: nat, entry: bool)
    | Evaluate(r: nat, fate: Fate)
    | Receive(r: nat, id: nat, jti: Jti, secret: nat)
    | Server(a: P.Action)
    | RefreshArrives
    | RefreshLost

  /** Nobody else logs in as, refreshes or revokes this user, the stored refresh token does not
      expire, and the refresh call is not lost. Anything may happen to other users. */
  predicate Undisturbed(st: State, a: P.Action) {
    match a
    case Tick(elapsed) => Live(st.server.db, st.server.now + elapsed, Refresh(st.me))
    case Login(_, user, _, _, _) => user != st.me
    case UseRefresh(_, presented, _, _) => presented.user != st.me
    case StartRevoke(_, user, _) => user != st.me
    case StartValidate(_, _, _) => true
    case Advance(_) => true
    case Abandon(id) => st.refreshing != Calling(id)
  }

  /** A 401 that the interceptor answers with a refresh. */
  predicate WillRefresh(st: State, r: nat)
    requires r in st.requests
  {
    st.requests[r].phase == Answered(Unauthorized) && st.authenticated && !st.requests[r].retried && !st.requests[r].entry
  }

  predicate Enabled(st: State, a: Action) {
    match a
    case Send(r, _) => r !in st.requests
    case Evaluate(r, _) => r in st.requests && st.requests[r].phase.InFlight?
    case Receive(r, id, jti, secret) =>
      && r in st.requests && st.requests[r].phase.Answered?
      && (WillRefresh(st, r) && st.refreshing.Idle? ==>
            P.Enabled(st.server, P.UseRefresh(id, st.refreshCookie, jti, secret)))
    case Server(b) => P.Enabled(st.server, b)
    case RefreshArrives => st.refreshing.Replied?
    case RefreshLost => st.refreshing.Calling?
  }

  predicate Calm(st: State, a: Action) {
    (a.Server? ==> Undisturbed(st, a.a)) && !a.RefreshLost?
  }

  /** The requests that awaited the refresh are sent again with the new cookies, or rejected. */
  function Resumed(requests: map<nat, Request>, phase: Phase): map<nat, Request> {
    map r | r in requests :: if requests[r].phase.Waiting? then requests[r].(phase := phase) else requests[r]
  }

  function AnswerTo(st: State, request: Request, fate: Fate): Answer
    requires request.phase.InFlight?
  {
    match fate
    case Lost => Rejected
    case Refused => Unauthorized
    case Handled(ok) =>
      if !request.entry && !P.IsActive(st.server, st.me, request.phase.jti) then Unauthorized else if ok then Fine else Rejected
  }

  /** A retry runs inside the error handling of the refresh: whatever it is rejected for, the
      session counts as expired. So it does on any other 401, which is one of an entry page. */
  predicate EndsSession(request: Request, answer: Answer) {
    answer != Fine && (request.retried || (request.entry && answer == Unauthorized))
  }

  function ReceiveAnswer(c: Config, st: State, r: nat, id: nat, jti: Jti, secret: nat): State
    requires Enabled(st, Receive(r, id, jti, secret))
  {
    var request := st.requests[r];
    if WillRefresh(st, r) then
      var waiting := st.(requests := st.requests[r := request.(phase := Waiting, retried := true)]);
      if st.refreshing.Idle? then
        waiting.(server := P.Apply(c, st.server, P.UseRefresh(id, st.refreshCookie, jti, secret)),
                 refreshing := Calling(id), refreshCalls := st.refreshCalls + 1)
      else waiting
    else
      st.(requests := st.requests[r := request.(phase := Settled(request.phase.answer))],
          authenticated := st.authenticated && !EndsSession(request, request.phase.answer))
  }

  /** What the refresh endpoint answers, once its job has left the server. */
  function Outcome(before: P.State, id: nat): Reply
    requires id in before.jobs && before.jobs[id].Establish?
  {
    if before.jobs[id].doing.StoreOnline? then Granted(before.jobs[id].token, before.jobs[id].jti) else Denied
  }

  function ServerStep(c: Config, st: State, a: P.Action): State
    requires P.Enabled(st.server, a)
  {
    var after := P.Apply(c, st.server, a);
    if a.Advance? && st.refreshing == Calling(a.id) && st.server.jobs[a.id].Establish? && a.id !in after.jobs
    then st.(server := after, refreshing := Replied(Outcome(st.server, a.id)))
    else st.(server := after)
  }

  function Apply(c: Config, st: State, a: Action): State
    requires Enabled(st, a)
  {
    match a
    case Send(r, entry) => st.(requests := st.requests[r := Request(InFlight(st.accessCookie), false, entry)])
    case Evaluate(r, fate) =>
      st.(requests := st.requests[r := st.requests[r].(phase := Answered(AnswerTo(st, st.requests[r], fate)))])
    case Receive(r, id, jti, secret) => ReceiveAnswer(c, st, r, id, jti, secret)
    case Server(b) => ServerStep(c, st, b)
    case RefreshArrives =>
      (match st.refreshing.reply
       case Granted(token, jti) =>
         st.(refreshCookie := token, accessCookie := jti, refreshing := Idle,
             requests := Resumed(st.requests, InFlight(jti)))
       case Denied =>
         st.(refreshing := Idle, authenticated := false, requests := Resumed(st.requests, Settled(Unauthorized))))
    case RefreshLost => st.(refreshing := Replied(Denied))
  }

  /** A run; with calm set, an undisturbed one. */
  ghost predicate ValidRun(c: Config, st: State, acts: seq<Action>, calm: bool)
    decreases |acts|
  {
    acts != [] ==>
      Enabled(st, acts[0]) && (calm ==> Calm(st, acts[0])) && ValidRun(c, Apply(c, st, acts[0]), acts[1..], calm)
  }

  ghost function Run(c: Config, st: State, acts: seq<Action>, calm: bool): State
    requires ValidRun(c, st, acts, calm)
    decreases |acts|
  {
    if acts == [] then st else Run(c, Apply(c, st, acts[0]), acts[1..], calm)
  }

  // ---------------------------------------------------------------- the invariant

  predicate Holds(st: State, token: RefreshToken) {
    HoldsRefresh(st.server.db, st.server.now, st.me, token)
  }

  /** Only the shared refresh call touches this user's session. */
  ghost predicate SoleCaller(st: State) {
    forall i :: i in st.server.jobs && st.server.jobs[i].user == st.me ==>
      && !st.server.jobs[i].Revoke?
      && (st.server.jobs[i].Establish? ==> st.refreshing == Calling(i))
  }

  /** The token the browser holds, or is about to receive, is the one the server stores. */
  ghost predicate InStep(st: State) {
    && st.refreshCookie.user == st.me
    && match st.refreshing
       case Idle => Holds(st, st.refreshCookie)
       case Calling(id) =>
         && id in st.server.jobs
         && var job := st.server.jobs[id];
         && job.Establish? && job.user == st.me && job.token.user == st.me && job.previous == Some(st.refreshCookie)
         && !job.doing.DropKick?
         && (job.doing.StoreRefresh? ==> Holds(st, st.refreshCookie))
         && (!job.doing.StoreRefresh? ==> Holds(st, job.token))
       case Replied(Granted(token, _)) => token.user == st.me && Holds(st, token)
       case Replied(Denied) => false
  }

  ghost function RetriedRequests(requests: map<nat, Request>): set<nat> {
    set r | r in requests && requests[r].retried
  }

  ghost predicate Inv(st: State) {
    && P.Inv(st.server)
    && SoleCaller(st)
    && InStep(st)
    && st.refreshCalls <= |RetriedRequests(st.requests)|
  }

  /** A browser whose login has just completed. */
  ghost predicate JustLoggedIn(st: State) {
    && P.Inv(st.server)
    && (forall i :: i in st.server.jobs && st.server.jobs[i].user == st.me ==> st.server.jobs[i].Validate?)
    && st.refreshCookie.user == st.me && Holds(st, st.refreshCookie)
    && st.refreshing.Idle? && st.requests == map[] && st.refreshCalls == 0 && st.authenticated
  }

  lemma {:induction false} RevokeLeavesRefresh(s: P.State, id: nat, u: UserId, token: RefreshToken)
    requires id in s.jobs && s.jobs[id].Revoke? && s.jobs[id].user != u && HoldsRefresh(s.db, s.now, u, token)
    ensures HoldsRefresh(P.AdvanceRevoke(s, id).db, s.now, u, token)
  {
  }

  lemma {:induction false} EstablishLeavesRefresh(c: Config, s: P.State, id: nat, u: UserId, token: RefreshToken)
    requires id in s.jobs && s.jobs[id].Establish? && s.jobs[id].token.user == s.jobs[id].user
    requires s.jobs[id].user != u || !s.jobs[id].doing.StoreRefresh?
    requires HoldsRefresh(s.db, s.now, u, token)
    ensures HoldsRefresh(P.AdvanceEstablish(c, s, id).db, s.now, u, token)
  {
  }

  lemma {:induction false} ValidateLeavesRefresh(c: Config, s: P.State, id: nat, u: UserId, token: RefreshToken)
    requires id in s.jobs && s.jobs[id].Validate? && HoldsRefresh(s.db, s.now, u, token)
    ensures HoldsRefresh(P.AdvanceValidate(c, s, id).db, s.now, u, token)
  {
  }

  lemma {:induction false} OtherJobsLeaveRefreshAlone(c: Config, s: P.State, a: P.Action, u: UserId, token: RefreshToken)
    requires P.Inv(s) && P.Enabled(s, a) && HoldsRefresh(s.db, s.now, u, token)
    requires a.Tick? ==> Live(s.db, s.now + a.elapsed, Refresh(u))
    requires a.Advance? ==> s.jobs[a.id].user != u || s.jobs[a.id].Validate? ||
                            (s.jobs[a.id].Establish? && !s.jobs[a.id].doing.StoreRefresh?)
    ensures HoldsRefresh(P.Apply(c, s, a).db, P.Apply(c, s, a).now, u, token)
  {
    if a.Advance? {
      P.AdvanceGoesOn(c, s, a.id);
      if s.jobs[a.id].Establish? {
        EstablishLeavesRefresh(c, s, a.id, u, token);
      } else if s.jobs[a.id].Revoke? {
        RevokeLeavesRefresh(s, a.id, u, token);
      } else {
        ValidateLeavesRefresh(c, s, a.id, u, token);
      }
    }
  }

  lemma {:induction false} OwnJobKeepsInStep(c: Config, st: State, id: nat)
    requires c.refreshTtl > 0 && Inv(st) && st.refreshing == Calling(id)
    ensures InStep(ServerStep(c, st, P.Advance(id)))
  {
    var s := st.server;
    if !s.jobs[id].doing.StoreRefresh? {
      OtherJobsLeaveRefreshAlone(c, s, P.Advance(id), st.me, s.jobs[id].token);
    }
  }

  lemma {:induction false} OtherJobsKeepToken(c: Config, st: State, a: P.Action, token: RefreshToken)
    requires P.Inv(st.server) && SoleCaller(st) && Enabled(st, Server(a)) && Calm(st, Server(a)) && Holds(st, token)
    requires a.Advance? ==> st.refreshing != Calling(a.id)
    ensures Holds(ServerStep(c, st, a), token)
  {
    OtherJobsLeaveRefreshAlone(c, st.server, a, st.me, token);
  }

  lemma {:induction false} OtherJobsKeepInStep(c: Config, st: State, a: P.Action)
    requires Inv(st) && Enabled(st, Server(a)) && Calm(st, Server(a)) && !(a.Advance? && st.refreshing == Calling(a.id))
    ensures InStep(ServerStep(c, st, a))
  {
    match st.refreshing
    case Idle => OtherJobsKeepToken(c, st, a, st.refreshCookie);
    case Replied(reply) => OtherJobsKeepToken(c, st, a, reply.token);
    case Calling(id) =>
      P.JobKept(c, st.server, a, id);
      var job := st.server.jobs[id];
      OtherJobsKeepToken(c, st, a, if job.doing.StoreRefresh? then st.refreshCookie else job.token);
  }

  lemma {:induction false} ServerKeepsInStep(c: Config, st: State, a: P.Action)
    requires c.refreshTtl > 0 && Inv(st) && Enabled(st, Server(a)) && Calm(st, Server(a))
    ensures InStep(Apply(c, st, Server(a)))
  {
    if a.Advance? && st.refreshing == Calling(a.id) {
      OwnJobKeepsInStep(c, st, a.id);
    } else {
      OtherJobsKeepInStep(c, st, a);
    }
  }

  lemma {:induction false} ServerKeepsSoleCaller(c: Config, st: State, a: P.Action)
    requires Inv(st) && Enabled(st, Server(a)) && Calm(st, Server(a))
    ensures SoleCaller(Apply(c, st, Server(a)))
  {
    var st' := Apply(c, st, Server(a));
    forall i | i in st'.server.jobs && st'.server.jobs[i].user == st.me
      ensures !st'.server.jobs[i].Revoke? && (st'.server.jobs[i].Establish? ==> st'.refreshing == Calling(i))
    {
      P.JobsAfterStep(c, st.server, a, i);
    }
  }

  lemma {:induction false} CallKeepsInv(c: Config, st: State, r: nat, id: nat, jti: Jti, secret: nat)
    requires Inv(st) && Enabled(st, Receive(r, id, jti, secret)) && WillRefresh(st, r) && st.refreshing.Idle?
    ensures var st' := ReceiveAnswer(c, st, r, id, jti, secret); P.Inv(st'.server) && SoleCaller(st') && InStep(st')
  {
    var a := P.UseRefresh(id, st.refreshCookie, jti, secret);
    P.StepKeepsInv(c, st.server, a);
    OtherJobsLeaveRefreshAlone(c, st.server, a, st.me, st.refreshCookie);
  }

  lemma {:induction false} ReceiveKeepsInv(c: Config, st: State, r: nat, id: nat, jti: Jti, secret: nat)
    requires Inv(st) && Enabled(st, Receive(r, id, jti, secret))
    ensures Inv(ReceiveAnswer(c, st, r, id, jti, secret))
  {
    var st' := ReceiveAnswer(c, st, r, id, jti, secret);
    if WillRefresh(st, r) {
      assert RetriedRequests(st'.requests) == RetriedRequests(st.requests) + {r};
      if st.refreshing.Idle? {
        CallKeepsInv(c, st, r, id, jti, secret);
      }
    } else {
      assert RetriedRequests(st'.requests) == RetriedRequests(st.requests);
    }
  }

  lemma {:induction false} StepKeepsInv(c: Config, st: State, a: Action)
    requires c.refreshTtl > 0 && Inv(st) && Enabled(st, a) && Calm(st, a)
    ensures Inv(Apply(c, st, a))
  {
    var st' := Apply(c, st, a);
    match a
    case Send(r, _) => assert RetriedRequests(st'.requests) == RetriedRequests(st.requests);
    case Evaluate(r, _) => assert RetriedRequests(st'.requests) == RetriedRequests(st.requests);
    case Receive(r, id, jti, secret) => ReceiveKeepsInv(c, st, r, id, jti, secret);
    case Server(b) =>
      P.StepKeepsInv(c, st.server, b);
      ServerKeepsSoleCaller(c, st, b);
      ServerKeepsInStep(c, st, b);
    case RefreshArrives => assert RetriedRequests(st'.requests) == RetriedRequests(st.requests);
  }

  lemma {:induction false} RunKeepsInv(c: Config, st: State, acts: seq<Action>)
    requires c.refreshTtl > 0 && Inv(st) && ValidRun(c, st, acts, true)
    ensures Inv(Run(c, st, acts, true))
    decreases |acts|
  {
    if acts != [] {
      StepKeepsInv(c, st, acts[0]);
      RunKeepsInv(c, Apply(c, st, acts[0]), acts[1..]);
    }
  }

  /** The refresh call that is out will not be, and was not, denied. */
  ghost predicate RefreshAccepted(st: State) {
    match st.refreshing
    case Idle => true
    case Calling(id) =>
      id in st.server.jobs && st.server.jobs[id].Establish? &&
      (st.server.jobs[id].doing.StoreRefresh? ==> !P.Refused(st.server, st.server.jobs[id]))
    case Replied(reply) => reply.Granted?
  }

  ghost predicate RefreshJob(st: State, i: nat) {
    i in st.server.jobs && st.server.jobs[i].Establish? && st.server.jobs[i].user == st.me
  }

  /** However requests, 401s, rotations and other users interleave: the shared call is never
      denied, at most one refresh of this user is on the server, and refresh calls never
      outnumber requests. */
  lemma {:induction false} SharedRefreshAlwaysAccepted(c: Config, st: State, acts: seq<Action>)
    requires c.refreshTtl > 0 && JustLoggedIn(st) && ValidRun(c, st, acts, true)
    ensures RefreshAccepted(Run(c, st, acts, true))
    ensures forall i, k :: RefreshJob(Run(c, st, acts, true), i) && RefreshJob(Run(c, st, acts, true), k) ==> i == k
    ensures Run(c, st, acts, true).refreshCalls <= |Run(c, st, acts, true).requests|
  {
    assert RetriedRequests(st.requests) == {};
    RunKeepsInv(c, st, acts);
    var end := Run(c, st, acts, true);
    assert RetriedRequests(end.requests) <= end.requests.Keys;
    SubsetSize(RetriedRequests(end.requests), end.requests.Keys);
  }

  lemma {:induction false} SubsetSize(a: set<nat>, b: set<nat>)
    requires a <= b
    ensures |a| <= |b|
    decreases |a|
  {
    if a != {} {
      var x :| x in a;
      SubsetSize(a - {x}, b - {x});
    }
  }

  // ---------------------------------------------------------------- the access cookie

  /** The access token the browser holds, or will hold when the refresh that is out has arrived. */
  function NextCookie(st: State): Jti {
    match st.refreshing
    case Idle => st.accessCookie
    case Calling(id) =>
      if id in st.server.jobs && st.server.jobs[id].Establish? && st.server.jobs[id].doing.StoreOnline?
      then st.server.jobs[id].jti
      else st.accessCookie
    case Replied(Granted(_, jti)) => jti
    case Replied(Denied) => st.accessCookie
  }

  /** While the active key is live it holds that token. */
  ghost predicate CookieActive(st: State) {
    forall j :: P.IsActive(st.server, st.me, j) ==> j == NextCookie(st)
  }

  /** A step that does not write the active key leaves its jti, or none. */
  lemma {:induction false} ActiveUnwritten(c: Config, st: State, a: P.Action, j: Jti)
    requires P.Inv(st.server) && P.Enabled(st.server, a) && !P.Writes(st.server, a, Active(st.me))
    requires P.IsActive(P.Apply(c, st.server, a), st.me, j)
    ensures P.IsActive(st.server, st.me, j)
  {
    P.OnlyWritten(c, st.server, a, Active(st.me));
  }

  lemma {:induction false} OwnJobKeepsCookie(c: Config, st: State, id: nat)
    requires Inv(st) && st.refreshing == Calling(id) && CookieActive(st)
    ensures CookieActive(ServerStep(c, st, P.Advance(id)))
  {
    var st' := ServerStep(c, st, P.Advance(id));
    OwnJobNextCookie(c, st, id);
    if !st.server.jobs[id].doing.StoreActive? {
      forall j | P.IsActive(st'.server, st'.me, j)
        ensures j == NextCookie(st')
      {
        ActiveUnwritten(c, st, P.Advance(id), j);
      }
    }
  }

  /** Storing the active jti is what changes the token the browser will hold. */
  lemma {:induction false} OwnJobNextCookie(c: Config, st: State, id: nat)
    requires st.refreshing == Calling(id) && id in st.server.jobs
    requires st.server.jobs[id].Establish? && !st.server.jobs[id].doing.DropKick?
    ensures var job, st' := st.server.jobs[id], ServerStep(c, st, P.Advance(id));
            && st'.me == st.me && st'.server == P.Apply(c, st.server, P.Advance(id))
            && NextCookie(st') == if job.doing.StoreActive? then job.jti else NextCookie(st)
  {
  }

  /** No other job of this user writes the active key. */
  lemma {:induction false} OthersKeepCookie(c: Config, st: State, a: P.Action)
    requires Inv(st) && Enabled(st, Server(a)) && Calm(st, Server(a)) && CookieActive(st)
    requires !(a.Advance? && st.refreshing == Calling(a.id))
    ensures CookieActive(ServerStep(c, st, a))
  {
    var st' := ServerStep(c, st, a);
    if st.refreshing.Calling? {
      P.JobKept(c, st.server, a, st.refreshing.job);
    }
    forall j | P.IsActive(st'.server, st'.me, j)
      ensures j == NextCookie(st')
    {
      ActiveUnwritten(c, st, a, j);
    }
  }

  lemma {:induction false} StepKeepsCookie(c: Config, st: State, a: Action)
    requires Inv(st) && Enabled(st, a) && Calm(st, a) && CookieActive(st)
    ensures CookieActive(Apply(c, st, a))
  {
    if a.Server? {
      if a.a.Advance? && st.refreshing == Calling(a.a.id) {
        OwnJobKeepsCookie(c, st, a.a.id);
      } else {
        OthersKeepCookie(c, st, a.a);
      }
    } else if a.Receive? && WillRefresh(st, a.r) && st.refreshing.Idle? {
      var call := P.UseRefresh(a.id, st.refreshCookie, a.jti, a.secret);
      forall j | P.IsActive(P.Apply(c, st.server, call), st.me, j)
        ensures j == st.accessCookie
      {
        ActiveUnwritten(c, st, call, j);
      }
    }
  }

  lemma {:induction false} RunKeepsCookie(c: Config, st: State, acts: seq<Action>)
    requires c.refreshTtl > 0 && Inv(st) && CookieActive(st) && ValidRun(c, st, acts, true)
    ensures CookieActive(Run(c, st, acts, true))
    decreases |acts|
  {
    if acts != [] {
      StepKeepsInv(c, st, acts[0]);
      StepKeepsCookie(c, st, acts[0]);
      RunKeepsCookie(c, Apply(c, st, acts[0]), acts[1..]);
    }
  }

  /** In a calm run from a login whose access cookie is the active jti: whenever no refresh is in
      flight and the active key is live, the access cookie is the active jti. */
  lemma {:induction false} AccessCookieIsActive(c: Config, st: State, acts: seq<Action>, j: Jti)
    requires c.refreshTtl > 0 && JustLoggedIn(st) && P.IsActive(st.server, st.me, st.accessCookie) && ValidRun(c, st, acts, true)
    requires var end := Run(c, st, acts, true); end.refreshing.Idle? && P.IsActive(end.server, end.me, j)
    ensures Run(c, st, acts, true).accessCookie == j
  {
    assert RetriedRequests(st.requests) == {};
    RunKeepsCookie(c, st, acts);
  }

  /** No step of the run writes the active key of this user: no rotation in between. */
  ghost predicate NoActivation(c: Config, st: State, acts: seq<Action>)
    requires ValidRun(c, st, acts, true)
    decreases |acts|
  {
    acts != [] ==>
      && !(acts[0].Server? && P.Writes(st.server, acts[0].a, Active(st.me)))
      && NoActivation(c, Apply(c, st, acts[0]), acts[1..])
  }

  lemma {:induction false} StepKeepsActive(c: Config, st: State, a: Action, j: Jti)
    requires Inv(st) && Enabled(st, a) && !(a.Server? && P.Writes(st.server, a.a, Active(st.me)))
    requires P.IsActive(Apply(c, st, a).server, st.me, j)
    ensures P.IsActive(st.server, st.me, j) && Apply(c, st, a).me == st.me
  {
    if a.Server? {
      ActiveUnwritten(c, st, a.a, j);
    } else if a.Receive? && WillRefresh(st, a.r) && st.refreshing.Idle? {
      ActiveUnwritten(c, st, P.UseRefresh(a.id, st.refreshCookie, a.jti, a.secret), j);
    }
  }

  lemma {:induction false} SameSessionThroughout(c: Config, st: State, acts: seq<Action>, j: Jti)
    requires c.refreshTtl > 0 && Inv(st) && ValidRun(c, st, acts, true) && NoActivation(c, st, acts)
    requires P.IsActive(Run(c, st, acts, true).server, st.me, j)
    ensures P.IsActive(st.server, st.me, j)
    decreases |acts|
  {
    if acts != [] {
      StepKeepsInv(c, st, acts[0]);
      var st1 := Apply(c, st, acts[0]);
      assert st1.me == st.me;
      SameSessionThroughout(c, st1, acts[1..], j);
      StepKeepsActive(c, st, acts[0], j);
    }
  }

  /** A request that carries the access cookie while no refresh is in flight, evaluated before the next
      rotation while the session lives, is not answered 401 by an endpoint that handles it. */
  lemma {:induction false} CurrentRequestIsHandled(c: Config, st: State, r: nat, after: seq<Action>, ok: bool)
    requires c.refreshTtl > 0 && Inv(st) && CookieActive(st) && st.refreshing.Idle?
    requires r in st.requests && st.requests[r].phase == InFlight(st.accessCookie)
    requires ValidRun(c, st, after, true) && NoActivation(c, st, after)
    requires var end := Run(c, st, after, true);
             r in end.requests && end.requests[r] == st.requests[r] && exists j :: P.IsActive(end.server, st.me, j)
    ensures var end := Run(c, st, after, true); AnswerTo(end, end.requests[r], Handled(ok)) == if ok then Fine else Rejected
  {
    var end := Run(c, st, after, true);
    var j :| P.IsActive(end.server, st.me, j);
    SameSessionThroughout(c, st, after, j);
    SameUser(c, st, after);
  }

  /** In a calm run from a login, that is so for a request sent when no refresh is in flight. */
  lemma {:induction false} FreshRequestIsHandled(c: Config, st: State, before: seq<Action>, r: nat, after: seq<Action>, ok: bool)
    requires c.refreshTtl > 0 && JustLoggedIn(st) && P.IsActive(st.server, st.me, st.accessCookie) && ValidRun(c, st, before, true)
    requires var sent := Run(c, st, before, true);
             && sent.refreshing.Idle? && Enabled(sent, Send(r, false))
             && ValidRun(c, Apply(c, sent, Send(r, false)), after, true) && NoActivation(c, Apply(c, sent, Send(r, false)), after)
    requires var sent := Run(c, st, before, true);
             var end := Run(c, Apply(c, sent, Send(r, false)), after, true);
             && r in end.requests && end.requests[r] == Apply(c, sent, Send(r, false)).requests[r]
             && exists j :: P.IsActive(end.server, sent.me, j)
    ensures var sent := Run(c, st, before, true);
            var end := Run(c, Apply(c, sent, Send(r, false)), after, true);
            AnswerTo(end, end.requests[r], Handled(ok)) == if ok then Fine else Rejected
  {
    assert RetriedRequests(st.requests) == {};
    RunKeepsInv(c, st, before);
    RunKeepsCookie(c, st, before);
    var sent := Run(c, st, before, true);
    StepKeepsInv(c, sent, Send(r, false));
    StepKeepsCookie(c, sent, Send(r, false));
    CurrentRequestIsHandled(c, Apply(c, sent, Send(r, false)), r, after, ok);
  }

  /** And it is so for a request that waited for a refresh and is sent again. */
  lemma {:induction false} ResentRequestIsHandled(c: Config, st: State, before: seq<Action>, r: nat, after: seq<Action>, ok: bool)
    requires c.refreshTtl > 0 && JustLoggedIn(st) && P.IsActive(st.server, st.me, st.accessCookie) && ValidRun(c, st, before, true)
    requires var waited := Run(c, st, before, true);
             && waited.refreshing.Replied? && r in waited.requests && waited.requests[r].phase.Waiting?
             && ValidRun(c, Apply(c, waited, RefreshArrives), after, true) && NoActivation(c, Apply(c, waited, RefreshArrives), after)
    requires var waited := Run(c, st, before, true);
             var end := Run(c, Apply(c, waited, RefreshArrives), after, true);
             && r in end.requests && end.requests[r] == Apply(c, waited, RefreshArrives).requests[r]
             && exists j :: P.IsActive(end.server, waited.me, j)
    ensures var waited := Run(c, st, before, true);
            var end := Run(c, Apply(c, waited, RefreshArrives), after, true);
            end.requests[r].phase.InFlight? && AnswerTo(end, end.requests[r], Handled(ok)) == if ok then Fine else Rejected
  {
    assert RetriedRequests(st.requests) == {};
    RunKeepsInv(c, st, before);
    RunKeepsCookie(c, st, before);
    var waited := Run(c, st, before, true);
    StepKeepsInv(c, waited, RefreshArrives);
    StepKeepsCookie(c, waited, RefreshArrives);
    CurrentRequestIsHandled(c, Apply(c, waited, RefreshArrives), r, after, ok);
  }

  lemma {:induction false} ServerKeepsRetired(c: Config, s: P.State, a: P.Action, u: UserId, j: Jti)
    requires P.Inv(s) && P.Enabled(s, a) && T.Activated(s, j)
    ensures var s' := P.Apply(c, s, a); P.Inv(s') && T.Activated(s', j) && (T.Retired(s, u, j) ==> T.Retired(s', u, j))
  {
    P.StepKeepsInv(c, s, a);
    T.StepKeepsActivated(c, s, a, j);
    if T.Retired(s, u, j) {
      T.StepKeepsRetired(c, s, a, u, j);
    }
  }

  /** What a step of the browser does to the servers. */
  lemma {:induction false} ServerMoves(c: Config, st: State, a: Action)
    requires Enabled(st, a)
    ensures var st' := Apply(c, st, a);
            && st'.me == st.me
            && (a.Server? ==> st'.server == P.Apply(c, st.server, a.a))
            && (!a.Server? ==> st'.server == st.server || (a.Receive? && WillRefresh(st, a.r) && st.refreshing.Idle? &&
                                 st'.server == P.Apply(c, st.server, P.UseRefresh(a.id, st.refreshCookie, a.jti, a.secret))))
  {
  }

  lemma {:induction false} StepKeepsRetired(c: Config, st: State, a: Action, j: Jti)
    requires P.Inv(st.server) && Enabled(st, a) && T.Activated(st.server, j)
    ensures var st' := Apply(c, st, a);
            P.Inv(st'.server) && st'.me == st.me && T.Activated(st'.server, j) &&
            (T.Retired(st.server, st.me, j) ==> T.Retired(st'.server, st.me, j))
  {
    ServerMoves(c, st, a);
    if a.Server? {
      ServerKeepsRetired(c, st.server, a.a, st.me, j);
    } else if Apply(c, st, a).server != st.server {
      ServerKeepsRetired(c, st.server, P.UseRefresh(a.id, st.refreshCookie, a.jti, a.secret), st.me, j);
    }
  }

  lemma {:induction false} RunKeepsRetired(c: Config, st: State, acts: seq<Action>, calm: bool, j: Jti)
    requires P.Inv(st.server) && ValidRun(c, st, acts, calm) && T.Activated(st.server, j)
    ensures var end := Run(c, st, acts, calm);
            P.Inv(end.server) && end.me == st.me && T.Activated(end.server, j) &&
            (T.Retired(st.server, st.me, j) ==> T.Retired(end.server, st.me, j))
    decreases |acts|
  {
    if acts != [] {
      StepKeepsRetired(c, st, acts[0], j);
      RunKeepsRetired(c, Apply(c, st, acts[0]), acts[1..], calm, j);
    }
  }

  /** In every run, disturbed or not: once the session a request was sent with is no longer the active
      one, the request is answered 401 by whatever endpoint behind the session handles it. */
  lemma {:induction false} OldRequestIsRefused(c: Config, st: State, until: seq<Action>, afterwards: seq<Action>, calm: bool, r: nat, j: Jti, ok: bool)
    requires P.Inv(st.server) && P.IsActive(st.server, st.me, j) && ValidRun(c, st, until, calm)
    requires var lost := Run(c, st, until, calm); !P.IsActive(lost.server, lost.me, j) && ValidRun(c, lost, afterwards, calm)
    requires var end := Run(c, Run(c, st, until, calm), afterwards, calm);
             r in end.requests && end.requests[r].phase == InFlight(j) && !end.requests[r].entry
    ensures var end := Run(c, Run(c, st, until, calm), afterwards, calm);
            AnswerTo(end, end.requests[r], Handled(ok)) == Unauthorized
  {
    assert T.Activated(st.server, j);
    RunKeepsRetired(c, st, until, calm, j);
    RunKeepsRetired(c, Run(c, st, until, calm), afterwards, calm, j);
  }

  lemma {:induction false} SameUser(c: Config, st: State, acts: seq<Action>)
    requires ValidRun(c, st, acts, true)
    ensures Run(c, st, acts, true).me == st.me
    decreases |acts|
  {
    if acts != [] {
      assert Apply(c, st, acts[0]).me == st.me;
      SameUser(c, Apply(c, st, acts[0]), acts[1..]);
    }
  }

  // ---------------------------------------------------------------- what the client does not guarantee

  ghost predicate RetryRejected(st: State) {
    exists r :: r in st.requests && st.requests[r].retried && st.requests[r].phase.Settled? && st.requests[r].phase.answer != Fine
  }

  /** A request of an entry page was answered 401. */
  ghost predicate EntryRefused(st: State) {
    exists r :: r in st.requests && st.requests[r].entry && st.requests[r].phase == Settled(Unauthorized)
  }

  ghost predicate SignedInExactly(st: State) {
    st.authenticated <==> !RetryRejected(st) && !EntryRefused(st)
  }

  /** Whoever waits for a refresh is to be retried, and while one is out somebody waits. */
  ghost predicate Awaited(st: State) {
    && (forall r :: r in st.requests && st.requests[r].phase.Waiting? ==> st.requests[r].retried)
    && (!st.refreshing.Idle? ==> exists r :: r in st.requests && st.requests[r].phase.Waiting?)
  }

  ghost predicate SettledKept(st: State, st': State) {
    && (forall r :: r in st.requests && st.requests[r].phase.Settled? ==> r in st'.requests && st'.requests[r] == st.requests[r])
    && (forall r :: r in st'.requests && st'.requests[r].phase.Settled? ==> r in st.requests && st'.requests[r] == st.requests[r])
  }

  lemma {:induction false} SameVerdict(st: State, st': State)
    requires SignedInExactly(st) && SettledKept(st, st') && st'.authenticated == st.authenticated
    ensures SignedInExactly(st')
  {
    assert RetryRejected(st') <==> RetryRejected(st);
    assert EntryRefused(st') <==> EntryRefused(st);
  }

  lemma {:induction false} ReceiveKeepsVerdict(c: Config, st: State, r: nat, id: nat, jti: Jti, secret: nat)
    requires Enabled(st, Receive(r, id, jti, secret)) && SignedInExactly(st) && Awaited(st)
    ensures var st' := ReceiveAnswer(c, st, r, id, jti, secret); SignedInExactly(st') && Awaited(st')
  {
    var st' := ReceiveAnswer(c, st, r, id, jti, secret);
    assert r in st'.requests;
    assert forall k :: k in st.requests && k != r ==> k in st'.requests && st'.requests[k] == st.requests[k];
    if WillRefresh(st, r) || !EndsSession(st.requests[r], st.requests[r].phase.answer) {
      assert RetryRejected(st') <==> RetryRejected(st);
      assert EntryRefused(st') <==> EntryRefused(st);
    }
  }

  /** A refresh that is denied or lost rejects those who wait for it, as retries. */
  lemma {:induction false} ArrivalKeepsVerdict(c: Config, st: State)
    requires Enabled(st, RefreshArrives) && SignedInExactly(st) && Awaited(st)
    ensures SignedInExactly(Apply(c, st, RefreshArrives)) && Awaited(Apply(c, st, RefreshArrives))
  {
    var st' := Apply(c, st, RefreshArrives);
    if st.refreshing.reply.Granted? {
      SameVerdict(st, st');
    } else {
      var r :| r in st.requests && st.requests[r].phase.Waiting?;
      assert st'.requests[r] == st.requests[r].(phase := Settled(Unauthorized));
    }
  }

  lemma {:induction false} StepKeepsVerdict(c: Config, st: State, a: Action)
    requires Enabled(st, a) && SignedInExactly(st) && Awaited(st)
    ensures SignedInExactly(Apply(c, st, a)) && Awaited(Apply(c, st, a))
  {
    if a.Receive? {
      ReceiveKeepsVerdict(c, st, a.r, a.id, a.jti, a.secret);
    } else if a.RefreshArrives? {
      ArrivalKeepsVerdict(c, st);
    } else {
      var st' := Apply(c, st, a);
      SameVerdict(st, st');
      assert forall r :: r in st.requests && st.requests[r].phase.Waiting? ==> r in st'.requests && st'.requests[r] == st.requests[r];
    }
  }

  lemma {:induction false} RunKeepsVerdict(c: Config, st: State, acts: seq<Action>, calm: bool)
    requires ValidRun(c, st, acts, calm) && SignedInExactly(st) && Awaited(st)
    ensures SignedInExactly(Run(c, st, acts, calm))
    decreases |acts|
  {
    if acts != [] {
      StepKeepsVerdict(c, st, acts[0]);
      RunKeepsVerdict(c, Apply(c, st, acts[0]), acts[1..], calm);
    }
  }

  /** In every run of a signed-in browser, whatever other logins, revocations, expiries and lost
      replies do: the user is signed in if and only if no retried request of the run was rejected,
      for whatever reason, and no request of an entry page was answered 401. */
  lemma {:induction false} RetryEndsSessionExactly(c: Config, st: State, acts: seq<Action>, calm: bool)
    requires st.authenticated && st.refreshing.Idle? && st.requests == map[] && ValidRun(c, st, acts, calm)
    ensures var end := Run(c, st, acts, calm); end.authenticated <==> !RetryRejected(end) && !EntryRefused(end)
  {
    RunKeepsVerdict(c, st, acts, calm);
  }

  /** Nobody waits without a refresh that is out, and whoever waits is to be retried. */
  ghost predicate Queued(st: State) {
    forall r :: r in st.requests && st.requests[r].phase.Waiting? ==> st.requests[r].retried && !st.refreshing.Idle?
  }

  lemma {:induction false} StepKeepsQueued(c: Config, st: State, a: Action)
    requires Enabled(st, a) && Queued(st)
    ensures Queued(Apply(c, st, a))
  {
  }

  lemma {:induction false} RunKeepsQueued(c: Config, st: State, acts: seq<Action>, calm: bool)
    requires SignedInExactly(st) && Awaited(st) && Queued(st) && ValidRun(c, st, acts, calm)
    ensures Awaited(Run(c, st, acts, calm)) && Queued(Run(c, st, acts, calm))
    decreases |acts|
  {
    if acts != [] {
      StepKeepsVerdict(c, st, acts[0]);
      StepKeepsQueued(c, st, acts[0]);
      RunKeepsQueued(c, Apply(c, st, acts[0]), acts[1..], calm);
    }
  }

  /** In every run, disturbed or not: a refresh is out if and only if some request waits for it, so none
      is left waiting when the refresh has settled. */
  lemma {:induction false} WaitersExactly(c: Config, st: State, acts: seq<Action>, calm: bool)
    requires st.authenticated && st.refreshing.Idle? && st.requests == map[] && ValidRun(c, st, acts, calm)
    ensures var end := Run(c, st, acts, calm);
            !end.refreshing.Idle? <==> exists r :: r in end.requests && end.requests[r].phase.Waiting?
  {
    RunKeepsQueued(c, st, acts, calm);
  }

  lemma {:induction false} Extend(c: Config, st: State, acts: seq<Action>, a: Action)
    requires ValidRun(c, st, acts, true) && Enabled(Run(c, st, acts, true), a) && Calm(Run(c, st, acts, true), a)
    ensures ValidRun(c, st, acts + [a], true) && Run(c, st, acts + [a], true) == Apply(c, Run(c, st, acts, true), a)
    decreases |acts|
  {
    if acts == [] {
      assert ([] + [a])[1..] == [];
      assert ValidRun(c, Apply(c, st, a), [], true) && Run(c, Apply(c, st, a), [], true) == Apply(c, st, a);
    } else {
      assert (acts + [a])[1..] == acts[1..] + [a];
      Extend(c, Apply(c, st, acts[0]), acts[1..], a);
    }
  }

  lemma {:induction false} Join(c: Config, st: State, first: seq<Action>, second: seq<Action>)
    requires ValidRun(c, st, first, true) && ValidRun(c, Run(c, st, first, true), second, true)
    ensures ValidRun(c, st, first + second, true) && Run(c, st, first + second, true) == Run(c, Run(c, st, first, true), second, true)
    decreases |first|
  {
    if first == [] {
      assert first + second == second;
    } else {
      assert (first + second)[1..] == first[1..] + second;
      Join(c, Apply(c, st, first[0]), first[1..], second);
    }
  }

  lemma {:induction false} FreshNat(used: set<nat>) returns (n: nat)
    ensures n !in used
  {
    if used == {} {
      return 0;
    }
    var most: nat :| most in used;
    var rest := used - {most};
    while rest != {}
      invariant forall k :: k in used && k !in rest ==> k <= most
      decreases rest
    {
      var k: nat :| k in rest;
      rest := rest - {k};
      most := if k > most then k else most;
    }
    n := most + 1;
  }

  lemma {:induction false} FreshJti(used: set<Jti>) returns (jti: Jti)
    ensures jti !in used
  {
    var lengths := set j | j in used :: |j|;
    var n := FreshNat(lengths + {0});
    jti := seq(n, i => 'a');
    assert forall j :: j in used ==> |j| in lengths;
  }

  lemma {:induction false} FreshCall(st: State) returns (id: nat, jti: Jti, secret: nat)
    ensures P.Enabled(st.server, P.UseRefresh(id, st.refreshCookie, jti, secret))
  {
    id := FreshNat(st.server.jobs.Keys);
    jti := FreshJti(st.server.jtis);
    secret := FreshNat(set t | t in st.server.tokens :: t.secret);
    assert forall t :: t in st.server.tokens ==> t.secret in (set t | t in st.server.tokens :: t.secret);
  }

  /** Two requests answered 401, the first answer received: its refresh is out. */
  lemma {:induction false} TwoUnauthorized(c: Config, st: State) returns (acts: seq<Action>, id: nat)
    requires JustLoggedIn(st)
    ensures ValidRun(c, st, acts, true)
    ensures var end := Run(c, st, acts, true);
            && end.authenticated && end.refreshing == Calling(id)
            && id in end.server.jobs && end.server.jobs[id].Establish? && end.server.jobs[id].doing.StoreRefresh?
            && end.requests == map[0 := Request(Waiting, true, false), 1 := Request(Answered(Unauthorized), false, false)]
  {
    var jti, secret;
    id, jti, secret := FreshCall(st);
    acts := [];
    assert ValidRun(c, st, acts, true) && Run(c, st, acts, true) == st;
    Extend(c, st, acts, Send(0, false));
    acts := acts + [Send(0, false)];
    Extend(c, st, acts, Send(1, false));
    acts := acts + [Send(1, false)];
    Extend(c, st, acts, Evaluate(0, Refused));
    acts := acts + [Evaluate(0, Refused)];
    Extend(c, st, acts, Evaluate(1, Refused));
    acts := acts + [Evaluate(1, Refused)];
    Extend(c, st, acts, Receive(0, id, jti, secret));
    acts := acts + [Receive(0, id, jti, secret)];
  }

  /** One server step of the shared refresh call. */
  lemma {:induction false} OwnJobStep(c: Config, st: State, id: nat)
    requires st.refreshing == Calling(id) && id in st.server.jobs && st.server.jobs[id].Establish?
    requires !st.server.jobs[id].doing.DropKick? && !(st.server.jobs[id].doing.StoreRefresh? && P.Refused(st.server, st.server.jobs[id]))
    ensures Enabled(st, Server(P.Advance(id))) && Calm(st, Server(P.Advance(id)))
    ensures var job, st' := st.server.jobs[id], Apply(c, st, Server(P.Advance(id)));
            && st'.requests == st.requests && st'.authenticated == st.authenticated && st'.me == st.me
            && (job.doing.StoreActive? && c.tokenTtl > 0 ==> P.IsActive(st'.server, job.user, job.jti))
            && (job.doing.StoreOnline? && P.IsActive(st.server, job.user, job.jti) ==> P.IsActive(st'.server, job.user, job.jti))
            && (job.doing.StoreOnline? ==> st'.refreshing == Replied(Granted(job.token, job.jti)))
            && (!job.doing.StoreOnline? ==>
                  && st'.refreshing == Calling(id) && id in st'.server.jobs
                  && st'.server.jobs[id] == job.(doing := if job.doing.StoreRefresh? then P.StoreActive else P.StoreOnline))
  {
  }

  /** The refresh call runs to its end and its reply resumes the waiting request. */
  lemma {:induction false} RefreshCompletes(c: Config, st: State, id: nat) returns (acts: seq<Action>)
    requires c.refreshTtl > 0 && Inv(st) && st.refreshing == Calling(id) && st.server.jobs[id].doing.StoreRefresh?
    ensures ValidRun(c, st, acts, true)
    ensures var end := Run(c, st, acts, true);
            && end.refreshing.Idle? && end.authenticated == st.authenticated
            && end.requests == Resumed(st.requests, InFlight(st.server.jobs[id].jti))
            && (c.tokenTtl > 0 ==> P.IsActive(end.server, end.me, st.server.jobs[id].jti))
  {
    var step := Server(P.Advance(id));
    OwnJobStep(c, st, id);
    var st1 := Apply(c, st, step);
    OwnJobStep(c, st1, id);
    var st2 := Apply(c, st1, step);
    OwnJobStep(c, st2, id);
    var st3 := Apply(c, st2, step);
    var st4 := Apply(c, st3, RefreshArrives);
    assert ValidRun(c, st4, [], true) && Run(c, st4, [], true) == st4;
    RunFirst(c, st3, RefreshArrives, []);
    RunFirst(c, st2, step, [RefreshArrives] + []);
    RunFirst(c, st1, step, [step] + ([RefreshArrives] + []));
    RunFirst(c, st, step, [step] + ([step] + ([RefreshArrives] + [])));
    acts := [step] + ([step] + ([step] + ([RefreshArrives] + [])));
  }

  lemma {:induction false} RunFirst(c: Config, st: State, a: Action, rest: seq<Action>)
    requires Enabled(st, a) && Calm(st, a) && ValidRun(c, Apply(c, st, a), rest, true)
    ensures ValidRun(c, st, [a] + rest, true) && Run(c, st, [a] + rest, true) == Run(c, Apply(c, st, a), rest, true)
  {
  }

  /** Two steps of a refresh call make its jti the active one. */
  lemma {:induction false} CallActivates(c: Config, st: State, id: nat) returns (acts: seq<Action>)
    requires c.tokenTtl > 0 && Inv(st) && st.refreshing == Calling(id) && st.server.jobs[id].doing.StoreRefresh?
    ensures ValidRun(c, st, acts, true)
    ensures var end := Run(c, st, acts, true);
            && end.authenticated == st.authenticated && end.requests == st.requests
            && P.IsActive(end.server, end.me, st.server.jobs[id].jti)
  {
    var step := Server(P.Advance(id));
    OwnJobStep(c, st, id);
    var st1 := Apply(c, st, step);
    OwnJobStep(c, st1, id);
    var st2 := Apply(c, st1, step);
    assert ValidRun(c, st2, [], true) && Run(c, st2, [], true) == st2;
    RunFirst(c, st1, step, []);
    RunFirst(c, st, step, [step] + []);
    acts := [step] + ([step] + []);
  }

  /** The late 401 starts a second refresh, which makes a newer jti active. */
  lemma {:induction false} SecondRefresh(c: Config, st: State, j: Jti) returns (acts: seq<Action>)
    requires c.tokenTtl > 0 && c.refreshTtl > 0 && Inv(st) && st.refreshing.Idle? && st.authenticated
    requires st.requests == map[0 := Request(InFlight(j), true, false), 1 := Request(Answered(Unauthorized), false, false)]
    requires j in st.server.jtis
    ensures ValidRun(c, st, acts, true)
    ensures var end := Run(c, st, acts, true);
            && end.authenticated && 0 in end.requests && end.requests[0] == Request(InFlight(j), true, false)
            && !P.IsActive(end.server, end.me, j)
  {
    var id, jti, secret := FreshCall(st);
    var call := Receive(1, id, jti, secret);
    StepKeepsInv(c, st, call);
    var rest := CallActivates(c, Apply(c, st, call), id);
    RunFirst(c, st, call, rest);
    acts := [call] + rest;
  }

  /** The server then sees the retry of the first request. */
  lemma {:induction false} RetryOvertaken(c: Config, st: State, j: Jti) returns (acts: seq<Action>)
    requires 0 in st.requests && st.requests[0] == Request(InFlight(j), true, false)
    requires st.authenticated && !P.IsActive(st.server, st.me, j)
    ensures ValidRun(c, st, acts, true) && !Run(c, st, acts, true).authenticated
  {
    acts := [];
    assert ValidRun(c, st, acts, true) && Run(c, st, acts, true) == st;
    Extend(c, st, acts, Evaluate(0, Handled(true)));
    acts := acts + [Evaluate(0, Handled(true))];
    Extend(c, st, acts, Receive(0, 0, "0", 0));
    acts := acts + [Receive(0, 0, "0", 0)];
  }

  lemma {:induction false} FirstRefresh(c: Config, st: State, id: nat) returns (acts: seq<Action>, j: Jti)
    requires c.refreshTtl > 0 && Inv(st) && st.authenticated
    requires st.refreshing == Calling(id) && st.server.jobs[id].doing.StoreRefresh?
    requires st.requests == map[0 := Request(Waiting, true, false), 1 := Request(Answered(Unauthorized), false, false)]
    ensures ValidRun(c, st, acts, true)
    ensures var end := Run(c, st, acts, true);
            && Inv(end) && end.refreshing.Idle? && end.authenticated && j in end.server.jtis
            && end.requests == map[0 := Request(InFlight(j), true, false), 1 := Request(Answered(Unauthorized), false, false)]
  {
    acts := RefreshCompletes(c, st, id);
    j := st.server.jobs[id].jti;
    assert Resumed(st.requests, InFlight(j)) == map[0 := Request(InFlight(j), true, false), 1 := Request(Answered(Unauthorized), false, false)];
    RunKeepsInv(c, st, acts);
    RunKeepsJtis(c, st, acts);
  }

  /** It does happen after every login: two requests are answered 401, the answer to the second
      arrives after the refresh for the first, the second refresh overtakes the retry of the
      first request, and the browser signs out although no refresh was denied. */
  lemma {:induction false} LateUnauthorizedEndsSession(c: Config, st: State) returns (acts: seq<Action>)
    requires JustLoggedIn(st) && c.refreshTtl > 0 && c.tokenTtl > 0
    ensures ValidRun(c, st, acts, true) && !Run(c, st, acts, true).authenticated && RefreshAccepted(Run(c, st, acts, true))
  {
    assert RetriedRequests(st.requests) == {};
    var id;
    acts, id := TwoUnauthorized(c, st);
    RunKeepsInv(c, st, acts);
    var more, j := FirstRefresh(c, Run(c, st, acts, true), id);
    Join(c, st, acts, more);
    acts := acts + more;
    more := SecondRefresh(c, Run(c, st, acts, true), j);
    Join(c, st, acts, more);
    acts := acts + more;
    more := RetryOvertaken(c, Run(c, st, acts, true), j);
    Join(c, st, acts, more);
    acts := acts + more;
    SharedRefreshAlwaysAccepted(c, st, acts);
  }

  /** One request is answered 401. */
  lemma {:induction false} FirstRefused(c: Config, st: State) returns (acts: seq<Action>)
    requires JustLoggedIn(st)
    ensures ValidRun(c, st, acts, true)
    ensures Run(c, st, acts, true) == st.(requests := map[0 := Request(Answered(Unauthorized), false, false)])
  {
    acts := [];
    assert ValidRun(c, st, acts, true) && Run(c, st, acts, true) == st;
    Extend(c, st, acts, Send(0, false));
    acts := acts + [Send(0, false)];
    Extend(c, st, acts, Evaluate(0, Refused));
    acts := acts + [Evaluate(0, Refused)];
  }

  /** And its refresh is out. */
  lemma {:induction false} OneUnauthorized(c: Config, st: State) returns (acts: seq<Action>, id: nat)
    requires JustLoggedIn(st)
    ensures ValidRun(c, st, acts, true)
    ensures var end := Run(c, st, acts, true);
            && end.authenticated && end.refreshing == Calling(id) && end.requests == map[0 := Request(Waiting, true, false)]
            && id in end.server.jobs && end.server.jobs[id].Establish? && end.server.jobs[id].doing.StoreRefresh?
  {
    var jti, secret;
    id, jti, secret := FreshCall(st);
    acts := FirstRefused(c, st);
    Extend(c, st, acts, Receive(0, id, jti, secret));
    acts := acts + [Receive(0, id, jti, secret)];
  }

  /** A request whose endpoint fails is answered so, and as a retry it signs the user out. */
  lemma {:induction false} FailedRetry(c: Config, st: State, j: Jti) returns (acts: seq<Action>)
    requires 0 in st.requests && st.requests[0] == Request(InFlight(j), true, false) && P.IsActive(st.server, st.me, j)
    ensures acts == [Evaluate(0, Handled(false)), Receive(0, 0, "0", 0)]
    ensures ValidRun(c, st, acts, true)
    ensures var end := Run(c, st, acts, true); !end.authenticated && P.IsActive(end.server, end.me, j)
  {
    acts := [];
    assert ValidRun(c, st, acts, true) && Run(c, st, acts, true) == st;
    Extend(c, st, acts, Evaluate(0, Handled(false)));
    acts := acts + [Evaluate(0, Handled(false))];
    Extend(c, st, acts, Receive(0, 0, "0", 0));
    acts := acts + [Receive(0, 0, "0", 0)];
  }

  /** The refresh is accepted and the request is sent again. */
  lemma {:induction false} RetryResumed(c: Config, st: State, id: nat) returns (acts: seq<Action>, j: Jti)
    requires c.refreshTtl > 0 && c.tokenTtl > 0 && Inv(st) && st.refreshing == Calling(id)
    requires st.server.jobs[id].doing.StoreRefresh? && st.requests == map[0 := Request(Waiting, true, false)]
    ensures ValidRun(c, st, acts, true)
    ensures var end := Run(c, st, acts, true);
            end.requests == map[0 := Request(InFlight(j), true, false)] && P.IsActive(end.server, end.me, j)
  {
    j := st.server.jobs[id].jti;
    acts := RefreshCompletes(c, st, id);
    assert Resumed(st.requests, InFlight(j)) == map[0 := Request(InFlight(j), true, false)];
  }

  lemma {:induction false} RetrySent(c: Config, st: State) returns (acts: seq<Action>, j: Jti)
    requires JustLoggedIn(st) && c.refreshTtl > 0 && c.tokenTtl > 0
    ensures ValidRun(c, st, acts, true)
    ensures var end := Run(c, st, acts, true);
            end.requests == map[0 := Request(InFlight(j), true, false)] && P.IsActive(end.server, end.me, j)
  {
    assert RetriedRequests(st.requests) == {};
    var id;
    acts, id := OneUnauthorized(c, st);
    RunKeepsInv(c, st, acts);
    var more;
    more, j := RetryResumed(c, Run(c, st, acts, true), id);
    Join(c, st, acts, more);
    acts := acts + more;
  }

  /** After every login: a request is answered 401, the refresh is accepted, the retry is answered
      with another error, and the user is signed out with an active session. */
  lemma {:induction false} FailedRetryEndsSession(c: Config, st: State) returns (acts: seq<Action>, j: Jti)
    requires JustLoggedIn(st) && c.refreshTtl > 0 && c.tokenTtl > 0
    ensures ValidRun(c, st, acts, true) && RefreshAccepted(Run(c, st, acts, true))
    ensures !Run(c, st, acts, true).authenticated && P.IsActive(Run(c, st, acts, true).server, Run(c, st, acts, true).me, j)
  {
    acts, j := RetrySent(c, st);
    var more := FailedRetry(c, Run(c, st, acts, true), j);
    Join(c, st, acts, more);
    acts := acts + more;
    SharedRefreshAlwaysAccepted(c, st, acts);
  }

  /** After every login: the user opens the login page, mistypes the password, and is signed out.
      No request is retried and no refresh is called. */
  lemma {:induction false} MistypedPasswordEndsSession(c: Config, st: State) returns (acts: seq<Action>)
    requires JustLoggedIn(st)
    ensures ValidRun(c, st, acts, true)
    ensures var end := Run(c, st, acts, true);
            !end.authenticated && !RetryRejected(end) && end.refreshCalls == 0 && end.server == st.server
  {
    acts := [];
    assert ValidRun(c, st, acts, true) && Run(c, st, acts, true) == st;
    Extend(c, st, acts, Send(0, true));
    acts := acts + [Send(0, true)];
    Extend(c, st, acts, Evaluate(0, Refused));
    acts := acts + [Evaluate(0, Refused)];
    Extend(c, st, acts, Receive(0, 0, "0", 0));
    acts := acts + [Receive(0, 0, "0", 0)];
  }

  lemma {:induction false} StepKeepsJtis(c: Config, st: State, a: Action)
    requires Enabled(st, a)
    ensures st.server.jtis <= Apply(c, st, a).server.jtis
  {
    if a.Server? && a.a.Advance? {
      P.AdvanceGoesOn(c, st.server, a.a.id);
    }
  }

  lemma {:induction false} RunKeepsJtis(c: Config, st: State, acts: seq<Action>)
    requires ValidRun(c, st, acts, true)
    ensures st.server.jtis <= Run(c, st, acts, true).server.jtis
    decreases |acts|
  {
    if acts != [] {
      StepKeepsJtis(c, st, acts[0]);
      RunKeepsJtis(c, Apply(c, st, acts[0]), acts[1..]);
    }
  }
}
