/** What the end of a session holds against, over all interleavings of the session protocol, and how
    long a user is shown as online. */
module Revocation {
  import opened Wrappers
  import opened Redis
  import opened SessionStore
  import opened SessionProtocol

  // ---------------------------------------------------------------- revocation

  /** A job that will write the active key, whatever is stored: a login, or a refresh past its
      rotation. A refresh before its rotation needs the refresh key. */
  predicate WillActivate(job: Job) {
    job.Establish? && (job.doing.StoreActive? || (job.previous.None? && !job.doing.StoreOnline?))
  }

  /** The same of the online record. */
  predicate WillShow(job: Job) {
    job.Establish? && (WillActivate(job) || job.doing.StoreOnline?)
  }

  ghost predicate NoneActivates(s: State, u: UserId) {
    forall i :: i in s.jobs && s.jobs[i].user == u ==> !WillActivate(s.jobs[i])
  }

  ghost predicate NoneShows(s: State, u: UserId) {
    forall i :: i in s.jobs && s.jobs[i].user == u ==> !WillShow(s.jobs[i])
  }

  ghost predicate NoLogin(acts: seq<Action>, u: UserId) {
    forall k :: 0 <= k < |acts| && acts[k].Login? ==> acts[k].user != u
  }

  /** Neither key from which a session could go on is live. */
  ghost predicate NoSession(s: State, u: UserId) {
    !Live(s.db, s.now, Active(u)) && !Live(s.db, s.now, Refresh(u))
  }

  ghost predicate SignedOut(s: State, u: UserId) {
    NoSession(s, u) && !Live(s.db, s.now, Online(u))
  }

  ghost predicate LogsIn(a: Action, u: UserId) {
    a.Login? && a.user == u
  }

  lemma {:induction false} ActiveStaysGone(c: Config, s: State, a: Action, u: UserId)
    requires Enabled(s, a) && NoneActivates(s, u) && !Live(s.db, s.now, Active(u))
    ensures !Live(Apply(c, s, a).db, Apply(c, s, a).now, Active(u))
  {
    if a.Advance? && s.jobs[a.id].user == u {
      assert !WillActivate(s.jobs[a.id]);
    }
    OnlyWritten(c, s, a, Active(u));
  }

  lemma {:induction false} RefreshStaysGone(c: Config, s: State, a: Action, u: UserId)
    requires Inv(s) && Enabled(s, a) && NoneActivates(s, u) && !Live(s.db, s.now, Refresh(u))
    ensures !Live(Apply(c, s, a).db, Apply(c, s, a).now, Refresh(u))
  {
    if Writes(s, a, Refresh(u)) {
      assert !WillActivate(s.jobs[a.id]);
    } else {
      OnlyWritten(c, s, a, Refresh(u));
    }
  }

  /** With the refresh key gone a refresh call is refused, so no job gets past its rotation. */
  lemma {:induction false} NoJobGetsFurther(c: Config, s: State, a: Action, u: UserId, i: nat)
    requires Enabled(s, a) && !LogsIn(a, u) && NoneActivates(s, u) && !Live(s.db, s.now, Refresh(u))
    requires i in Apply(c, s, a).jobs && Apply(c, s, a).jobs[i].user == u
    ensures !WillActivate(Apply(c, s, a).jobs[i])
    ensures WillShow(Apply(c, s, a).jobs[i]) ==> i in s.jobs && s.jobs[i].user == u && WillShow(s.jobs[i])
  {
    JobsAfterStep(c, s, a, i);
    if i in s.jobs {
      assert !WillActivate(s.jobs[i]);
      if a != Advance(i) && a != Abandon(i) {
        JobKept(c, s, a, i);
      }
    }
  }

  lemma {:induction false} StepKeepsNoSession(c: Config, s: State, a: Action, u: UserId)
    requires Inv(s) && Enabled(s, a) && !LogsIn(a, u) && NoSession(s, u) && NoneActivates(s, u)
    ensures NoSession(Apply(c, s, a), u) && NoneActivates(Apply(c, s, a), u)
    ensures NoneShows(s, u) ==> NoneShows(Apply(c, s, a), u)
  {
    ActiveStaysGone(c, s, a, u);
    RefreshStaysGone(c, s, a, u);
    forall i | i in Apply(c, s, a).jobs && Apply(c, s, a).jobs[i].user == u
      ensures !WillActivate(Apply(c, s, a).jobs[i])
      ensures NoneShows(s, u) ==> !WillShow(Apply(c, s, a).jobs[i])
    {
      NoJobGetsFurther(c, s, a, u, i);
    }
  }

  /** The script creates an online record only under a live active key. */
  lemma {:induction false} OnlineStaysGone(c: Config, s: State, a: Action, u: UserId)
    requires Inv(s) && Enabled(s, a) && NoneShows(s, u) && !Live(s.db, s.now, Active(u)) && !Live(s.db, s.now, Online(u))
    ensures !Live(Apply(c, s, a).db, Apply(c, s, a).now, Online(u))
  {
    if a.Advance? && s.jobs[a.id].Establish? && s.jobs[a.id].user == u {
      assert !WillShow(s.jobs[a.id]);
    }
    if !Writes(s, a, Online(u)) {
      OnlyWritten(c, s, a, Online(u));
    }
  }

  lemma {:induction false} RunKeepsNoSession(c: Config, s: State, acts: seq<Action>, u: UserId)
    requires Inv(s) && ValidRun(c, s, acts) && NoLogin(acts, u) && NoSession(s, u) && NoneActivates(s, u)
    ensures NoSession(Run(c, s, acts), u)
    ensures NoneShows(s, u) && SignedOut(s, u) ==> SignedOut(Run(c, s, acts), u)
    decreases |acts|
  {
    if acts != [] {
      StepKeepsInv(c, s, acts[0]);
      StepKeepsNoSession(c, s, acts[0], u);
      if NoneShows(s, u) && SignedOut(s, u) {
        OnlineStaysGone(c, s, acts[0], u);
      }
      RunKeepsNoSession(c, Apply(c, s, acts[0]), acts[1..], u);
    }
  }

  /** A run without a new login of the user in which they become active. */
  ghost predicate Revives(c: Config, s: State, acts: seq<Action>, u: UserId) {
    ValidRun(c, s, acts) && NoLogin(acts, u) && Live(Run(c, s, acts).db, Run(c, s, acts).now, Active(u))
  }

  /** One in which they are shown as online. */
  ghost predicate Shows(c: Config, s: State, acts: seq<Action>, u: UserId) {
    ValidRun(c, s, acts) && NoLogin(acts, u) && Live(Run(c, s, acts).db, Run(c, s, acts).now, Online(u))
  }

  /** What is left of a login, or of a refresh past its rotation, makes its jti active and
      records it online, whatever was deleted before. */
  lemma {:induction false} EstablishOutlivesRevocation(c: Config, s: State, id: nat) returns (acts: seq<Action>)
    requires c.tokenTtl > 0 && id in s.jobs && WillActivate(s.jobs[id])
    ensures ValidRun(c, s, acts) && forall k :: 0 <= k < |acts| ==> acts[k] == Advance(id)
    ensures IsActive(Run(c, s, acts), s.jobs[id].user, s.jobs[id].jti)
    ensures Live(Run(c, s, acts).db, Run(c, s, acts).now, Online(s.jobs[id].user))
    decreases if s.jobs[id].doing.DropKick? then 2 else if s.jobs[id].doing.StoreRefresh? then 1 else 0
  {
    var s1 := Apply(c, s, Advance(id));
    if s.jobs[id].doing.StoreActive? {
      var s2 := Apply(c, s1, Advance(id));
      assert ValidRun(c, s2, Repeat(Advance(id), 0)) && Run(c, s2, Repeat(Advance(id), 0)) == s2;
      RepeatOnce(c, s1, Advance(id), 0);
      RepeatOnce(c, s, Advance(id), 1);
      acts := Repeat(Advance(id), 2);
    } else {
      var rest := EstablishOutlivesRevocation(c, s1, id);
      acts := [Advance(id)] + rest;
      assert acts[1..] == rest;
    }
  }

  /** After the deletes of a revocation, and without a new login of the user, they can become
      active again if and only if a login of theirs or a refresh past its rotation is in flight. */
  lemma {:induction false} RevivedExactly(c: Config, s: State, u: UserId)
    requires c.tokenTtl > 0 && Inv(s) && NoSession(s, u)
    ensures (exists acts :: Revives(c, s, acts, u)) <==> !NoneActivates(s, u)
  {
    if !NoneActivates(s, u) {
      var id :| id in s.jobs && s.jobs[id].user == u && WillActivate(s.jobs[id]);
      var acts := EstablishOutlivesRevocation(c, s, id);
      assert Revives(c, s, acts, u);
    } else {
      forall acts | ValidRun(c, s, acts) && NoLogin(acts, u)
        ensures !Revives(c, s, acts, u)
      {
        RunKeepsNoSession(c, s, acts, u);
      }
    }
  }

  /** They can be shown as online again if and only if such a job, or one about to write the
      online record, is in flight. */
  lemma {:induction false} ShownAgainExactly(c: Config, s: State, u: UserId)
    requires c.tokenTtl > 0 && Inv(s) && SignedOut(s, u)
    ensures (exists acts :: Shows(c, s, acts, u)) <==> !NoneShows(s, u)
  {
    if !NoneShows(s, u) {
      var id :| id in s.jobs && s.jobs[id].user == u && WillShow(s.jobs[id]);
      if WillActivate(s.jobs[id]) {
        var acts := EstablishOutlivesRevocation(c, s, id);
        assert Shows(c, s, acts, u);
      } else {
        var s1 := Apply(c, s, Advance(id));
        assert ValidRun(c, s1, Repeat(Advance(id), 0)) && Run(c, s1, Repeat(Advance(id), 0)) == s1;
        RepeatOnce(c, s, Advance(id), 0);
        assert Shows(c, s, Repeat(Advance(id), 1), u);
      }
    } else {
      forall acts | ValidRun(c, s, acts) && NoLogin(acts, u)
        ensures !Shows(c, s, acts, u)
      {
        RunKeepsNoSession(c, s, acts, u);
      }
    }
  }

  /** What the deletes of a revocation have achieved at each stage. */
  ghost predicate Progress(s: State, id: nat, u: UserId) {
    && id in s.jobs && s.jobs[id].Revoke? && s.jobs[id].user == u
    && var d := s.jobs[id].deleting;
    && (!d.Probe? && !d.DropActive? ==> !Live(s.db, s.now, Active(u)))
    && (d.DropOnline? || d.LeaveMark? ==> !Live(s.db, s.now, Refresh(u)))
    && (d.LeaveMark? ==> !Live(s.db, s.now, Online(u)))
  }

  /** No job of the user could bring the session back, in any state of the run. */
  ghost predicate QuietRun(c: Config, s: State, acts: seq<Action>, u: UserId)
    requires ValidRun(c, s, acts)
    decreases |acts|
  {
    NoneShows(s, u) && (acts != [] ==> QuietRun(c, Apply(c, s, acts[0]), acts[1..], u))
  }

  lemma {:induction false} DeleteStep(c: Config, s: State, id: nat, u: UserId)
    requires Inv(s) && NoneShows(s, u) && Progress(s, id, u)
    ensures SignedOut(Apply(c, s, Advance(id)), u) || Progress(Apply(c, s, Advance(id)), id, u)
  {
  }

  lemma {:induction false} StaysSignedOut(c: Config, s: State, a: Action, u: UserId)
    requires Inv(s) && Enabled(s, a) && NoneShows(s, u) && SignedOut(s, u)
    ensures SignedOut(Apply(c, s, a), u)
  {
    ActiveStaysGone(c, s, a, u);
    RefreshStaysGone(c, s, a, u);
    OnlineStaysGone(c, s, a, u);
  }

  lemma {:induction false} ProgressStays(c: Config, s: State, a: Action, id: nat, u: UserId)
    requires Inv(s) && Enabled(s, a) && a != Abandon(id) && a != Advance(id) && NoneShows(s, u) && Progress(s, id, u)
    ensures Progress(Apply(c, s, a), id, u)
  {
    var d := s.jobs[id].deleting;
    JobKept(c, s, a, id);
    if !d.Probe? && !d.DropActive? {
      ActiveStaysGone(c, s, a, u);
      if !d.DropRefresh? {
        RefreshStaysGone(c, s, a, u);
        if !d.DropOnline? {
          OnlineStaysGone(c, s, a, u);
        }
      }
    }
  }

  lemma {:induction false} QuietStep(c: Config, s: State, a: Action, id: nat, u: UserId)
    requires Inv(s) && Enabled(s, a) && a != Abandon(id)
    requires NoneShows(s, u) && (SignedOut(s, u) || Progress(s, id, u))
    ensures SignedOut(Apply(c, s, a), u) || Progress(Apply(c, s, a), id, u)
  {
    if SignedOut(s, u) {
      StaysSignedOut(c, s, a, u);
    } else if a == Advance(id) {
      DeleteStep(c, s, id, u);
    } else {
      ProgressStays(c, s, a, id, u);
    }
  }

  /** While no login of the user and no refresh past its rotation is in flight, the deletes of a
      revocation add up: at their end the user is signed out. Refresh calls may arrive and be
      refused, and no check in flight can recreate the online record. */
  lemma {:induction false} RevocationHolds(c: Config, s: State, acts: seq<Action>, id: nat, u: UserId)
    requires Inv(s) && ValidRun(c, s, acts) && QuietRun(c, s, acts, u) && Abandon(id) !in acts
    requires SignedOut(s, u) || Progress(s, id, u)
    ensures var end := Run(c, s, acts);
            || SignedOut(end, u)
            || (Progress(end, id, u) && !end.jobs[id].deleting.LeaveMark?)
    decreases |acts|
  {
    if acts != [] {
      StepKeepsInv(c, s, acts[0]);
      QuietStep(c, s, acts[0], id, u);
      RevocationHolds(c, Apply(c, s, acts[0]), acts[1..], id, u);
    }
  }

  /** The order of the deletes would matter to a script that is handed the JSON text: with the
      online record deleted first, a check running before the active key goes would put it back
      for good. With the argument the code passes, neither order lets it. */
  lemma {:induction false} OnlineFirstWouldLeak(db: SessionDb, now: int, u: UserId, j: Jti)
    requires ActiveJtiOf(db, now, u) == Some(j)
    ensures Live(Remove(TouchOnline(Remove(db, Online(u)), now, u, Stringify(j)), Active(u)), now, Online(u))
    ensures !Live(Remove(TouchOnline(Remove(db, Active(u)), now, u, Stringify(j)), Online(u)), now, Online(u))
    ensures !Live(Remove(TouchOnline(Remove(db, Online(u)), now, u, j), Active(u)), now, Online(u))
  {
    QuotedArgumentMatchesExactly(Remove(db, Online(u)), now, u, j);
    RawArgumentNeverTouches(Remove(db, Online(u)), now, u, j);
  }

  // ---------------------------------------------------------------- the online record

  /** The online record expires less than half an hour after the session it shows. */
  ghost predicate OnlineBounded(s: State) {
    forall u :: Online(u) in s.db ==>
      && u in s.sessionEnd
      && s.db[Online(u)].expiry.At?
      && s.db[Online(u)].expiry.time < s.sessionEnd[u] + 1000 * ONLINE_USER_TTL
  }

  /** When the active key of the user was last written. */
  function ActivatedAt(c: Config, s: State, u: UserId): int
    requires u in s.sessionEnd
  {
    s.sessionEnd[u] - 1000 * c.tokenTtl
  }

  /** A step that writes the online record comes, after the last write of the active key, within
      the lifetime of a token or of an online record, whichever is longer. */
  predicate OnTime(c: Config, s: State, a: Action) {
    a.Advance? && a.id in s.jobs && s.jobs[a.id].Establish? && s.jobs[a.id].doing.StoreOnline? &&
    s.jobs[a.id].user in s.sessionEnd ==>
      s.now - ActivatedAt(c, s, s.jobs[a.id].user) < 1000 * Max(c.tokenTtl, ONLINE_USER_TTL)
  }

  ghost predicate AllOnTime(c: Config, s: State, acts: seq<Action>)
    requires ValidRun(c, s, acts)
    decreases |acts|
  {
    acts != [] ==> OnTime(c, s, acts[0]) && AllOnTime(c, Apply(c, s, acts[0]), acts[1..])
  }

  ghost predicate BoundedThroughout(c: Config, s: State, acts: seq<Action>)
    requires ValidRun(c, s, acts)
    decreases |acts|
  {
    OnlineBounded(s) && (acts != [] ==> BoundedThroughout(c, Apply(c, s, acts[0]), acts[1..]))
  }

  lemma {:induction false} WithinLifetimeIsOnTime(c: Config, s: State, id: nat)
    requires id in s.jobs && s.jobs[id].Establish? && s.jobs[id].user in s.sessionEnd
    requires s.now < s.sessionEnd[s.jobs[id].user]
    ensures OnTime(c, s, Advance(id))
  {
  }

  /** No session was given an end later than a session activated now would get. */
  ghost predicate EndsAhead(c: Config, s: State) {
    forall u :: u in s.sessionEnd ==> s.sessionEnd[u] <= s.now + 1000 * c.tokenTtl
  }

  lemma {:induction false} UntouchedOnlineStaysBounded(s: State, s': State)
    requires OnlineBounded(s)
    requires forall u :: Online(u) in s'.db ==> Online(u) in s.db && s'.db[Online(u)] == s.db[Online(u)]
    requires forall u :: u in s.sessionEnd ==> u in s'.sessionEnd && s.sessionEnd[u] <= s'.sessionEnd[u]
    ensures OnlineBounded(s')
  {
  }

  lemma {:induction false} OnlineAfterEstablish(c: Config, s: State, id: nat)
    requires Inv(s) && OnlineBounded(s) && EndsAhead(c, s) && id in s.jobs && s.jobs[id].Establish?
    ensures OnlineBounded(AdvanceEstablish(c, s, id)) <==> OnTime(c, s, Advance(id))
  {
  }

  /** A touch happens under a live active key, so before the end of that session. */
  lemma {:induction false} OnlineAfterValidate(c: Config, s: State, id: nat)
    requires Inv(s) && OnlineBounded(s) && id in s.jobs && s.jobs[id].Validate?
    ensures OnlineBounded(AdvanceValidate(c, s, id))
  {
  }

  lemma {:induction false} OnTimeAdvance(c: Config, s: State, id: nat)
    requires Inv(s) && id in s.jobs && OnlineBounded(s) && EndsAhead(c, s)
    ensures OnlineBounded(Apply(c, s, Advance(id))) <==> OnTime(c, s, Advance(id))
  {
    if s.jobs[id].Establish? {
      OnlineAfterEstablish(c, s, id);
    } else if s.jobs[id].Validate? {
      OnlineAfterValidate(c, s, id);
    } else {
      UntouchedOnlineStaysBounded(s, AdvanceRevoke(s, id));
    }
  }

  lemma {:induction false} StepKeepsEndsAhead(c: Config, s: State, a: Action)
    requires Enabled(s, a) && EndsAhead(c, s)
    ensures EndsAhead(c, Apply(c, s, a))
  {
  }

  lemma {:induction false} OnTimeStep(c: Config, s: State, a: Action)
    requires Inv(s) && Enabled(s, a) && OnlineBounded(s) && EndsAhead(c, s)
    ensures OnlineBounded(Apply(c, s, a)) <==> OnTime(c, s, a)
  {
    if a.Advance? {
      OnTimeAdvance(c, s, a.id);
    } else {
      UntouchedOnlineStaysBounded(s, Apply(c, s, a));
    }
  }

  /** The bound holds in every state of a run exactly when every session was recorded online
      in time; finishing activate within the session lifetime is enough. */
  lemma {:induction false} OnlineBoundExactly(c: Config, s: State, acts: seq<Action>)
    requires Inv(s) && ValidRun(c, s, acts) && OnlineBounded(s) && EndsAhead(c, s)
    ensures BoundedThroughout(c, s, acts) <==> AllOnTime(c, s, acts)
    decreases |acts|
  {
    if acts != [] {
      StepKeepsInv(c, s, acts[0]);
      OnTimeStep(c, s, acts[0]);
      StepKeepsEndsAhead(c, s, acts[0]);
      if OnTime(c, s, acts[0]) {
        OnlineBoundExactly(c, Apply(c, s, acts[0]), acts[1..]);
      }
    }
  }

  // ---------------------------------------------------------------- the script as it is called

  /** With the jti as argument no check ever touches an online record, in any reachable state. */
  lemma {:induction false} ChecksChangeNothing(c: Config, s: State, id: nat)
    requires !c.quotesArgument && Inv(s) && id in s.jobs && s.jobs[id].Validate?
    ensures Apply(c, s, Advance(id)).db == s.db
  {
    var job := s.jobs[id];
    if job.checking.Touch? && Live(s.db, s.now, Active(job.user)) {
      RawArgumentNeverTouches(s.db, s.now, job.user, job.jti);
    }
  }

  lemma {:induction false} OnlineStepUnrenewed(c: Config, s: State, a: Action, u: UserId)
    requires !c.quotesArgument && Inv(s) && Enabled(s, a) && NoneShows(s, u)
    ensures var db := Apply(c, s, a).db; Online(u) in db ==> Online(u) in s.db && db[Online(u)] == s.db[Online(u)]
  {
    if a.Advance? && s.jobs[a.id].Validate? {
      ChecksChangeNothing(c, s, a.id);
    } else {
      if a.Advance? && s.jobs[a.id].user == u {
        assert !WillShow(s.jobs[a.id]);
      }
      OnlyWritten(c, s, a, Online(u));
    }
  }

  /** However many checks are accepted meanwhile, only a new session renews the online record: it
      runs out half an hour after it was written, with the session going on. */
  lemma {:induction false} OnlyNewSessionsRenewOnline(c: Config, s: State, acts: seq<Action>, u: UserId)
    requires !c.quotesArgument && Inv(s) && ValidRun(c, s, acts) && QuietRun(c, s, acts, u)
    ensures var db := Run(c, s, acts).db; Online(u) in db ==> Online(u) in s.db && db[Online(u)] == s.db[Online(u)]
    decreases |acts|
  {
    if acts != [] {
      StepKeepsInv(c, s, acts[0]);
      OnlineStepUnrenewed(c, s, acts[0], u);
      OnlyNewSessionsRenewOnline(c, Apply(c, s, acts[0]), acts[1..], u);
    }
  }
}
