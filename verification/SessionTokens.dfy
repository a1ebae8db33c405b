/** Refresh tokens and access tokens over all interleavings of the session protocol: each is used
    up once, and sessions established in turn keep theirs together. */
module SessionTokens {
  import opened Wrappers
  import opened Redis
  import opened SessionStore
  import opened SessionProtocol

  // ---------------------------------------------------------------- refresh tokens are spent once

  /** This step stores the digest of t under the refresh key of its user. */
  predicate Stores(s: State, a: Action, t: RefreshToken) {
    a.Advance? && a.id in s.jobs && s.jobs[a.id].Establish? && s.jobs[a.id].doing.StoreRefresh?
    && s.jobs[a.id].token == t && !Refused(s, s.jobs[a.id])
  }

  /** This step is a rotateRefresh that accepts the presented token t. */
  predicate Rotates(s: State, a: Action, t: RefreshToken) {
    a.Advance? && a.id in s.jobs && s.jobs[a.id].Establish? && s.jobs[a.id].doing.StoreRefresh?
    && s.jobs[a.id].previous == Some(t) && !Refused(s, s.jobs[a.id])
  }

  /** t was generated and no job will store it any more. */
  ghost predicate Sent(s: State, t: RefreshToken) {
    t in s.tokens && forall i :: i in s.jobs ==> !AboutToStore(s.jobs[i], t)
  }

  /** t was generated and is neither stored nor going to be. */
  ghost predicate Spent(s: State, t: RefreshToken) {
    Sent(s, t) && forall u :: Refresh(u) in s.db ==> s.db[Refresh(u)].value != RefreshHash(Sha256(t))
  }

  lemma {:induction false} StepKeepsSent(c: Config, s: State, a: Action, t: RefreshToken)
    requires Inv(s) && Enabled(s, a) && Sent(s, t)
    ensures Sent(Apply(c, s, a), t)
  {
    if a.Advance? {
      AdvanceGoesOn(c, s, a.id);
    }
    var s' := Apply(c, s, a);
    forall i | i in s'.jobs
      ensures !AboutToStore(s'.jobs[i], t)
    {
      assert i in s.jobs ==> !AboutToStore(s.jobs[i], t);
    }
  }

  lemma {:induction false} StepKeepsSpent(c: Config, s: State, a: Action, t: RefreshToken)
    requires Inv(s) && Enabled(s, a) && Spent(s, t)
    ensures Spent(Apply(c, s, a), t)
  {
    StepKeepsSent(c, s, a, t);
    forall u | Refresh(u) in Apply(c, s, a).db
      ensures Apply(c, s, a).db[Refresh(u)].value != RefreshHash(Sha256(t))
    {
      if Writes(s, a, Refresh(u)) {
        assert !AboutToStore(s.jobs[a.id], t);
      } else {
        OnlyWritten(c, s, a, Refresh(u));
      }
    }
  }

  lemma {:induction false} RunKeepsSent(c: Config, s: State, acts: seq<Action>, t: RefreshToken)
    requires Inv(s) && Sent(s, t) && ValidRun(c, s, acts)
    ensures Sent(Run(c, s, acts), t)
    ensures Spent(s, t) ==> Spent(Run(c, s, acts), t)
    decreases |acts|
  {
    if acts != [] {
      StepKeepsInv(c, s, acts[0]);
      StepKeepsSent(c, s, acts[0], t);
      if Spent(s, t) {
        StepKeepsSpent(c, s, acts[0], t);
      }
      RunKeepsSent(c, Apply(c, s, acts[0]), acts[1..], t);
    }
  }

  /** One step a of a run from INIT, and a later step b of the same run. */
  ghost predicate TwoSteps(c: Config, before: seq<Action>, a: Action, between: seq<Action>, b: Action) {
    && ValidRun(c, INIT, before)
    && var s := Run(c, INIT, before);
    && Enabled(s, a)
    && ValidRun(c, Apply(c, s, a), between)
    && Enabled(Run(c, Apply(c, s, a), between), b)
  }

  /** The digests ever stored under refresh keys never repeat. */
  lemma {:induction false} RefreshValuesNeverRepeat(c: Config, before: seq<Action>, a: Action, between: seq<Action>, b: Action,
                                 t: RefreshToken, u: RefreshToken)
    requires TwoSteps(c, before, a, between, b)
    requires Stores(Run(c, INIT, before), a, t)
    requires Stores(Run(c, Apply(c, Run(c, INIT, before), a), between), b, u)
    ensures Sha256(t) != Sha256(u)
  {
    var s := Run(c, INIT, before);
    RunKeepsInv(c, INIT, before);
    StepKeepsInv(c, s, a);
    RunKeepsSent(c, Apply(c, s, a), between, t);
  }

  /** In every interleaving a refresh token is accepted at most once. */
  lemma {:induction false} RefreshTokenUsedOnce(c: Config, before: seq<Action>, a: Action, between: seq<Action>, b: Action,
                             t: RefreshToken, u: RefreshToken)
    requires TwoSteps(c, before, a, between, b)
    requires Rotates(Run(c, INIT, before), a, t)
    requires Rotates(Run(c, Apply(c, Run(c, INIT, before), a), between), b, u)
    ensures t != u
  {
    var s := Run(c, INIT, before);
    RunKeepsInv(c, INIT, before);
    StepKeepsInv(c, s, a);
    var s' := Apply(c, s, a);
    assert Spent(s', t);
    RunKeepsSent(c, s', between, t);
  }

  /** t was stored once and is not any more. */
  ghost predicate Replaced(s: State, t: RefreshToken) {
    Sent(s, t) && !HoldsRefresh(s.db, s.now, t.user, t)
  }

  lemma {:induction false} StepKeepsReplaced(c: Config, s: State, a: Action, t: RefreshToken)
    requires Inv(s) && Enabled(s, a) && Replaced(s, t)
    ensures Replaced(Apply(c, s, a), t)
  {
    StepKeepsSent(c, s, a, t);
    if Writes(s, a, Refresh(t.user)) {
      assert !AboutToStore(s.jobs[a.id], t);
    } else {
      OnlyWritten(c, s, a, Refresh(t.user));
    }
  }

  lemma {:induction false} RunKeepsReplaced(c: Config, s: State, acts: seq<Action>, t: RefreshToken)
    requires Inv(s) && Sent(s, t) && ValidRun(c, s, acts)
    ensures Sent(Run(c, s, acts), t)
    ensures Replaced(s, t) ==> Replaced(Run(c, s, acts), t)
    decreases |acts|
  {
    if acts != [] {
      StepKeepsInv(c, s, acts[0]);
      StepKeepsSent(c, s, acts[0], t);
      if Replaced(s, t) {
        StepKeepsReplaced(c, s, acts[0], t);
      }
      RunKeepsReplaced(c, Apply(c, s, acts[0]), acts[1..], t);
    }
  }

  /** Once a refresh token that was stored no longer is (overwritten by another login or a rotation,
      revoked or expired), no later rotation accepts it. */
  lemma {:induction false} ReplacedTokenNeverRotates(c: Config, before: seq<Action>, until: seq<Action>, afterwards: seq<Action>, b: Action,
                                                     t: RefreshToken)
    requires ValidRun(c, INIT, before)
    requires ValidRun(c, Run(c, INIT, before), until)
    requires ValidRun(c, Run(c, Run(c, INIT, before), until), afterwards)
    requires HoldsRefresh(Run(c, INIT, before).db, Run(c, INIT, before).now, t.user, t)
    requires var s := Run(c, Run(c, INIT, before), until); !HoldsRefresh(s.db, s.now, t.user, t)
    ensures !Rotates(Run(c, Run(c, Run(c, INIT, before), until), afterwards), b, t)
  {
    var s0 := Run(c, INIT, before);
    RunKeepsInv(c, INIT, before);
    assert Sent(s0, t);
    RunKeepsReplaced(c, s0, until, t);
    RunKeepsInv(c, s0, until);
    var s1 := Run(c, s0, until);
    RunKeepsReplaced(c, s1, afterwards, t);
    RunKeepsInv(c, s1, afterwards);
  }

  // ---------------------------------------------------------------- how long a refresh token lives

  /** The step writes or deletes the refresh key of the user. */
  predicate TouchesRefresh(s: State, a: Action, u: UserId) {
    a.Advance? && a.id in s.jobs && s.jobs[a.id].user == u &&
    match s.jobs[a.id]
    case Establish(_, _, _, _, doing) => doing.StoreRefresh? && !Refused(s, s.jobs[a.id])
    case Revoke(_, _, deleting) => deleting.DropRefresh?
    case Validate(_, _, _) => false
  }

  ghost predicate RefreshLeftAlone(c: Config, s: State, acts: seq<Action>, u: UserId)
    requires ValidRun(c, s, acts)
    decreases |acts|
  {
    acts != [] ==> !TouchesRefresh(s, acts[0], u) && RefreshLeftAlone(c, Apply(c, s, acts[0]), acts[1..], u)
  }

  lemma {:induction false} EstablishLeavesKey(c: Config, s: State, id: nat, u: UserId)
    requires JobsFresh(s) && id in s.jobs && s.jobs[id].Establish? && !TouchesRefresh(s, Advance(id), u) && Refresh(u) in s.db
    ensures var db := AdvanceEstablish(c, s, id).db; Refresh(u) in db && db[Refresh(u)] == s.db[Refresh(u)]
  {
  }

  lemma {:induction false} RevokeLeavesKey(s: State, id: nat, u: UserId)
    requires id in s.jobs && s.jobs[id].Revoke? && !TouchesRefresh(s, Advance(id), u) && Refresh(u) in s.db
    ensures var db := AdvanceRevoke(s, id).db; Refresh(u) in db && db[Refresh(u)] == s.db[Refresh(u)]
  {
  }

  lemma {:induction false} ValidateLeavesKey(c: Config, s: State, id: nat, u: UserId)
    requires id in s.jobs && s.jobs[id].Validate? && Refresh(u) in s.db
    ensures var db := AdvanceValidate(c, s, id).db; Refresh(u) in db && db[Refresh(u)] == s.db[Refresh(u)]
  {
  }

  lemma {:induction false} StepLeavesKey(c: Config, s: State, a: Action, u: UserId)
    requires Inv(s) && Enabled(s, a) && !TouchesRefresh(s, a, u) && Refresh(u) in s.db
    ensures Refresh(u) in Apply(c, s, a).db && Apply(c, s, a).db[Refresh(u)] == s.db[Refresh(u)]
  {
    if a.Advance? {
      if s.jobs[a.id].Establish? {
        EstablishLeavesKey(c, s, a.id, u);
      } else if s.jobs[a.id].Revoke? {
        RevokeLeavesKey(s, a.id, u);
      } else {
        ValidateLeavesKey(c, s, a.id, u);
      }
    }
  }

  lemma {:induction false} RunLeavesKey(c: Config, s: State, acts: seq<Action>, u: UserId)
    requires Inv(s) && ValidRun(c, s, acts) && RefreshLeftAlone(c, s, acts, u) && Refresh(u) in s.db
    ensures Inv(Run(c, s, acts))
    ensures Refresh(u) in Run(c, s, acts).db && Run(c, s, acts).db[Refresh(u)] == s.db[Refresh(u)]
    decreases |acts|
  {
    if acts != [] {
      StepKeepsInv(c, s, acts[0]);
      StepLeavesKey(c, s, acts[0], u);
      RunLeavesKey(c, Apply(c, s, acts[0]), acts[1..], u);
    }
  }

  /** The step presents t to rotateRefresh. */
  predicate Presents(s: State, a: Action, t: RefreshToken) {
    a.Advance? && a.id in s.jobs && s.jobs[a.id].Establish? && s.jobs[a.id].doing.StoreRefresh?
    && s.jobs[a.id].user == t.user && s.jobs[a.id].previous == Some(t)
  }

  /** A refresh token stored by a login or by a rotation, and then left alone, is accepted by a
      rotation that presents it if and only if less than its lifetime has passed, however checks,
      refused calls and other users interleave. */
  lemma {:induction false} RefreshTokenLivesExactly(c: Config, s: State, a: Action, t: RefreshToken, acts: seq<Action>, b: Action)
    requires Inv(s) && Enabled(s, a) && Stores(s, a, t)
    requires ValidRun(c, Apply(c, s, a), acts) && RefreshLeftAlone(c, Apply(c, s, a), acts, t.user)
    requires Presents(Run(c, Apply(c, s, a), acts), b, t)
    ensures Rotates(Run(c, Apply(c, s, a), acts), b, t) <==> Run(c, Apply(c, s, a), acts).now < s.now + 1000 * c.refreshTtl
  {
    var s' := Apply(c, s, a);
    StepKeepsInv(c, s, a);
    assert t.user == s.jobs[a.id].user;
    assert s'.db[Refresh(t.user)] == Entry(RefreshHash(Sha256(t)), At(s.now + 1000 * c.refreshTtl));
    RunLeavesKey(c, s', acts, t.user);
  }

  // ---------------------------------------------------------------- an access token ends once

  /** This step is an active check of validate that accepts jti j for user u. */
  predicate Accepts(s: State, a: Action, u: UserId, j: Jti) {
    a.Advance? && a.id in s.jobs && s.jobs[a.id].Validate? && s.jobs[a.id].checking.ReadActive?
    && s.jobs[a.id].user == u && s.jobs[a.id].jti == j && IsActive(s, u, j)
  }

  ghost predicate Activated(s: State, j: Jti) {
    j in s.jtis && forall i :: i in s.jobs ==> !AboutToActivate(s.jobs[i], j)
  }

  ghost predicate Retired(s: State, u: UserId, j: Jti) {
    Activated(s, j) && !IsActive(s, u, j)
  }

  lemma {:induction false} StepKeepsActivated(c: Config, s: State, a: Action, j: Jti)
    requires Inv(s) && Enabled(s, a) && Activated(s, j)
    ensures Activated(Apply(c, s, a), j)
  {
    if a.Advance? {
      AdvanceGoesOn(c, s, a.id);
    }
    var s' := Apply(c, s, a);
    forall i | i in s'.jobs
      ensures !AboutToActivate(s'.jobs[i], j)
    {
      assert i in s.jobs ==> !AboutToActivate(s.jobs[i], j);
    }
  }

  lemma {:induction false} StepKeepsRetired(c: Config, s: State, a: Action, u: UserId, j: Jti)
    requires Inv(s) && Enabled(s, a) && Retired(s, u, j)
    ensures Retired(Apply(c, s, a), u, j)
  {
    StepKeepsActivated(c, s, a, j);
    if Writes(s, a, Active(u)) {
      assert !AboutToActivate(s.jobs[a.id], j);
    } else {
      OnlyWritten(c, s, a, Active(u));
    }
  }

  lemma {:induction false} RunKeepsRetired(c: Config, s: State, acts: seq<Action>, u: UserId, j: Jti)
    requires Inv(s) && Activated(s, j) && ValidRun(c, s, acts)
    ensures Activated(Run(c, s, acts), j)
    ensures Retired(s, u, j) ==> Retired(Run(c, s, acts), u, j)
    decreases |acts|
  {
    if acts != [] {
      StepKeepsInv(c, s, acts[0]);
      StepKeepsActivated(c, s, acts[0], j);
      if Retired(s, u, j) {
        StepKeepsRetired(c, s, acts[0], u, j);
      }
      RunKeepsRetired(c, Apply(c, s, acts[0]), acts[1..], u, j);
    }
  }

  /** Once a jti that was active no longer is (overwritten, revoked or expired),
      no later check accepts it. */
  lemma {:induction false} InactiveJtiNeverAccepted(c: Config, before: seq<Action>, until: seq<Action>, afterwards: seq<Action>, b: Action,
                                 u: UserId, j: Jti)
    requires ValidRun(c, INIT, before)
    requires ValidRun(c, Run(c, INIT, before), until)
    requires ValidRun(c, Run(c, Run(c, INIT, before), until), afterwards)
    requires IsActive(Run(c, INIT, before), u, j)
    requires !IsActive(Run(c, Run(c, INIT, before), until), u, j)
    ensures !Accepts(Run(c, Run(c, Run(c, INIT, before), until), afterwards), b, u, j)
  {
    var s0 := Run(c, INIT, before);
    RunKeepsInv(c, INIT, before);
    assert Activated(s0, j);
    RunKeepsRetired(c, s0, until, u, j);
    var s1 := Run(c, s0, until);
    RunKeepsInv(c, s0, until);
    RunKeepsRetired(c, s1, afterwards, u, j);
  }

  lemma {:induction false} OvertakenIsRetired(c: Config, s: State, a: Action, u: UserId, older: Jti)
    requires Inv(s) && Enabled(s, a)
    requires IsActive(s, u, older) && !IsActive(Apply(c, s, a), u, older)
    ensures Retired(Apply(c, s, a), u, older)
  {
    assert Activated(s, older);
    StepKeepsActivated(c, s, a, older);
  }

  /** Single device: when a newer session of the user becomes active, the older jti is
      refused from then on. */
  lemma {:induction false} NewerSessionEndsOlder(c: Config, before: seq<Action>, a: Action, between: seq<Action>, b: Action,
                              u: UserId, older: Jti, newer: Jti)
    requires TwoSteps(c, before, a, between, b)
    requires IsActive(Run(c, INIT, before), u, older)
    requires IsActive(Apply(c, Run(c, INIT, before), a), u, newer) && newer != older
    ensures !Accepts(Run(c, Apply(c, Run(c, INIT, before), a), between), b, u, older)
  {
    var s := Run(c, INIT, before);
    RunKeepsInv(c, INIT, before);
    OvertakenIsRetired(c, s, a, u, older);
    StepKeepsInv(c, s, a);
    RunKeepsRetired(c, Apply(c, s, a), between, u, older);
  }

  // ---------------------------------------------------------------- one session in both keys

  /** A job that has written the refresh key and not yet the active one. */
  predicate Halfway(s: State, i: nat, u: UserId) {
    i in s.jobs && s.jobs[i].Establish? && s.jobs[i].user == u && s.jobs[i].doing.StoreActive?
  }

  ghost predicate NoneHalfway(s: State, u: UserId) {
    forall i :: !Halfway(s, i, u)
  }

  ghost predicate StoredIs(s: State, u: UserId, t: RefreshToken) {
    Live(s.db, s.now, Refresh(u)) ==> HoldsRefresh(s.db, s.now, u, t)
  }

  /** The stored refresh token was issued with the active jti. */
  ghost predicate SameSession(s: State, u: UserId) {
    forall j :: IsActive(s, u, j) ==> j in s.issued && StoredIs(s, u, s.issued[j])
  }

  /** What is halfway is alone and has the refresh key; with nothing halfway the keys agree. */
  ghost predicate InStep(s: State, u: UserId) {
    && (forall i, k :: Halfway(s, i, u) && Halfway(s, k, u) ==> i == k)
    && (forall i :: Halfway(s, i, u) ==> StoredIs(s, u, s.jobs[i].token))
    && (NoneHalfway(s, u) ==> SameSession(s, u))
  }

  ghost predicate IssuedTogether(s: State) {
    && s.issued.Keys <= s.jtis
    && forall i :: i in s.jobs && s.jobs[i].Establish? ==> s.jobs[i].jti in s.issued && s.issued[s.jobs[i].jti] == s.jobs[i].token
  }

  /** This step neither writes the refresh key while a job of the user is halfway, nor abandons one
      that is. */
  ghost predicate InTurn(s: State, a: Action, u: UserId) {
    && (Writes(s, a, Refresh(u)) && !Refused(s, s.jobs[a.id]) ==> NoneHalfway(s, u))
    && (a.Abandon? ==> !Halfway(s, a.id, u))
  }

  ghost predicate InTurnRun(c: Config, s: State, acts: seq<Action>, u: UserId)
    requires ValidRun(c, s, acts)
    decreases |acts|
  {
    acts != [] ==> InTurn(s, acts[0], u) && InTurnRun(c, Apply(c, s, acts[0]), acts[1..], u)
  }

  lemma {:induction false} StepKeepsIssued(c: Config, s: State, a: Action)
    requires Inv(s) && Enabled(s, a) && IssuedTogether(s)
    ensures IssuedTogether(Apply(c, s, a))
  {
    if a.Advance? {
      AdvanceGoesOn(c, s, a.id);
    }
  }

  /** The step moves a job of the user into or out of halfway. */
  predicate Crosses(s: State, a: Action, u: UserId) {
    a.Advance? && a.id in s.jobs && s.jobs[a.id].Establish? && s.jobs[a.id].user == u
    && (s.jobs[a.id].doing.StoreActive? || (s.jobs[a.id].doing.StoreRefresh? && !Refused(s, s.jobs[a.id])))
  }

  lemma {:induction false} SameHalfway(c: Config, s: State, a: Action, u: UserId, i: nat)
    requires Enabled(s, a) && !Crosses(s, a, u) && (a.Abandon? ==> !Halfway(s, a.id, u))
    ensures Halfway(Apply(c, s, a), i, u) <==> Halfway(s, i, u)
    ensures Halfway(s, i, u) ==> Apply(c, s, a).jobs[i] == s.jobs[i]
  {
    if a.Advance? {
      AdvanceGoesOn(c, s, a.id);
    }
  }

  /** A step that writes neither key leaves what they hold, or less. */
  lemma {:induction false} UnwrittenStored(c: Config, s: State, a: Action, u: UserId, t: RefreshToken)
    requires Inv(s) && Enabled(s, a) && (Writes(s, a, Refresh(u)) ==> Refused(s, s.jobs[a.id])) && StoredIs(s, u, t)
    ensures StoredIs(Apply(c, s, a), u, t)
  {
    if !Writes(s, a, Refresh(u)) {
      OnlyWritten(c, s, a, Refresh(u));
    }
  }

  lemma {:induction false} UnwrittenActive(c: Config, s: State, a: Action, u: UserId, j: Jti)
    requires Inv(s) && Enabled(s, a) && !Writes(s, a, Active(u)) && IsActive(Apply(c, s, a), u, j)
    ensures IsActive(s, u, j)
  {
    OnlyWritten(c, s, a, Active(u));
  }

  lemma {:induction false} IssuedKept(c: Config, s: State, a: Action, j: Jti)
    requires Enabled(s, a) && IssuedTogether(s) && j in s.issued
    ensures j in Apply(c, s, a).issued && Apply(c, s, a).issued[j] == s.issued[j]
  {
  }

  lemma {:induction false} OthersKeepInStep(c: Config, s: State, a: Action, u: UserId)
    requires Inv(s) && IssuedTogether(s) && Enabled(s, a) && InStep(s, u) && InTurn(s, a, u) && !Crosses(s, a, u)
    ensures InStep(Apply(c, s, a), u)
  {
    var s' := Apply(c, s, a);
    forall i
      ensures Halfway(s', i, u) <==> Halfway(s, i, u)
      ensures Halfway(s, i, u) ==> s'.jobs[i] == s.jobs[i] && StoredIs(s', u, s'.jobs[i].token)
    {
      SameHalfway(c, s, a, u, i);
      if Halfway(s, i, u) {
        UnwrittenStored(c, s, a, u, s.jobs[i].token);
      }
    }
    if NoneHalfway(s, u) {
      forall j | IsActive(s', u, j)
        ensures j in s'.issued && StoredIs(s', u, s'.issued[j])
      {
        UnwrittenActive(c, s, a, u, j);
        IssuedKept(c, s, a, j);
        UnwrittenStored(c, s, a, u, s.issued[j]);
      }
    }
  }

  /** The refresh key is written with nothing halfway: the job is now alone halfway. */
  lemma {:induction false} RefreshWrittenInStep(c: Config, s: State, id: nat, u: UserId)
    requires Inv(s) && NoneHalfway(s, u) && id in s.jobs && s.jobs[id].Establish? && s.jobs[id].user == u
    requires s.jobs[id].doing.StoreRefresh? && !Refused(s, s.jobs[id])
    ensures InStep(Apply(c, s, Advance(id)), u) && Halfway(Apply(c, s, Advance(id)), id, u)
  {
    var s' := Apply(c, s, Advance(id));
    assert forall i :: Halfway(s', i, u) && i != id ==> Halfway(s, i, u);
    assert Halfway(s', id, u);
  }

  /** The active key is written by the job that is alone halfway. */
  lemma {:induction false} ActiveWrittenInStep(c: Config, s: State, id: nat, u: UserId)
    requires Inv(s) && IssuedTogether(s) && InStep(s, u) && Halfway(s, id, u)
    ensures InStep(Apply(c, s, Advance(id)), u) && NoneHalfway(Apply(c, s, Advance(id)), u)
  {
    var s' := Apply(c, s, Advance(id));
    assert forall i :: Halfway(s', i, u) ==> Halfway(s, i, u) && i != id;
    UnwrittenStored(c, s, Advance(id), u, s.jobs[id].token);
  }

  lemma {:induction false} StepKeepsInStep(c: Config, s: State, a: Action, u: UserId)
    requires Inv(s) && IssuedTogether(s) && Enabled(s, a) && InStep(s, u) && InTurn(s, a, u)
    ensures InStep(Apply(c, s, a), u)
  {
    if !Crosses(s, a, u) {
      OthersKeepInStep(c, s, a, u);
    } else if s.jobs[a.id].doing.StoreRefresh? {
      RefreshWrittenInStep(c, s, a.id, u);
    } else {
      ActiveWrittenInStep(c, s, a.id, u);
    }
  }

  lemma {:induction false} RunKeepsInStep(c: Config, s: State, acts: seq<Action>, u: UserId)
    requires Inv(s) && IssuedTogether(s) && ValidRun(c, s, acts) && InStep(s, u) && InTurnRun(c, s, acts, u)
    ensures InStep(Run(c, s, acts), u)
    decreases |acts|
  {
    if acts != [] {
      StepKeepsInv(c, s, acts[0]);
      StepKeepsIssued(c, s, acts[0]);
      StepKeepsInStep(c, s, acts[0], u);
      RunKeepsInStep(c, Apply(c, s, acts[0]), acts[1..], u);
    }
  }

  /** However users, refreshes, revocations and expiries interleave: while the sessions of a user are
      established in turn and none is cut off halfway, whenever none is halfway the stored refresh
      token was issued with the active jti. */
  lemma {:induction false} SessionsInTurnAgree(c: Config, acts: seq<Action>, u: UserId)
    requires ValidRun(c, INIT, acts) && InTurnRun(c, INIT, acts, u)
    ensures NoneHalfway(Run(c, INIT, acts), u) ==> SameSession(Run(c, INIT, acts), u)
  {
    RunKeepsInStep(c, INIT, acts, u);
  }

  /** The last job halfway is not the one whose token is stored. */
  lemma {:induction false} StrangerActivates(c: Config, s: State, k: nat, u: UserId, t: RefreshToken) returns (acts: seq<Action>)
    requires c.tokenTtl > 0 && IssuedTogether(s) && Halfway(s, k, u) && HoldsRefresh(s.db, s.now, u, t) && t != s.jobs[k].token
    requires forall j :: Halfway(s, j, u) ==> j == k
    ensures ValidRun(c, s, acts) && InTurnRun(c, s, acts, u)
    ensures NoneHalfway(Run(c, s, acts), u) && !SameSession(Run(c, s, acts), u)
  {
    var s' := Apply(c, s, Advance(k));
    acts := [Advance(k)];
    assert ValidRun(c, s', acts[1..]) && Run(c, s', acts[1..]) == s' && InTurnRun(c, s', acts[1..], u);
    assert IsActive(s', u, s.jobs[k].jti);
    assert forall j :: Halfway(s', j, u) ==> Halfway(s, j, u) && j != k;
  }

  lemma {:induction false} FirstActivates(c: Config, s: State, i: nat, u: UserId, t: RefreshToken)
    requires Inv(s) && IssuedTogether(s) && Halfway(s, i, u) && HoldsRefresh(s.db, s.now, u, t)
    ensures var s' := Apply(c, s, Advance(i));
            && IssuedTogether(s') && HoldsRefresh(s'.db, s'.now, u, t)
            && (forall j :: Halfway(s', j, u) <==> Halfway(s, j, u) && j != i)
            && (forall j :: Halfway(s', j, u) ==> s'.jobs[j] == s.jobs[j])
  {
    AdvanceGoesOn(c, s, i);
    StepKeepsIssued(c, s, Advance(i));
  }

  /** Two jobs halfway: the one that wrote the refresh key writes the active one first. */
  lemma {:induction false} MixedSessions(c: Config, s: State, i: nat, k: nat, u: UserId) returns (acts: seq<Action>)
    requires c.tokenTtl > 0 && Inv(s) && IssuedTogether(s) && i != k && Halfway(s, i, u) && Halfway(s, k, u)
    requires HoldsRefresh(s.db, s.now, u, s.jobs[i].token)
    requires forall j :: Halfway(s, j, u) ==> j == i || j == k
    ensures ValidRun(c, s, acts) && InTurnRun(c, s, acts, u)
    ensures NoneHalfway(Run(c, s, acts), u) && !SameSession(Run(c, s, acts), u)
  {
    var s' := Apply(c, s, Advance(i));
    FirstActivates(c, s, i, u, s.jobs[i].token);
    var rest := StrangerActivates(c, s', k, u, s.jobs[i].token);
    acts := [Advance(i)] + rest;
    assert acts[1..] == rest;
  }

  /** From a state in step, writing the refresh key is safe, in the sense that every further run in
      turn leaves the keys to one session whenever none is halfway, if and only if no other job of
      the user is halfway. */
  lemma {:induction false} RotationIsSafeExactly(c: Config, s: State, id: nat, u: UserId)
    requires c.tokenTtl > 0 && c.refreshTtl > 0 && Inv(s) && IssuedTogether(s) && InStep(s, u)
    requires id in s.jobs && s.jobs[id].Establish? && s.jobs[id].user == u
    requires s.jobs[id].doing.StoreRefresh? && !Refused(s, s.jobs[id])
    ensures var s' := Apply(c, s, Advance(id));
            (forall acts :: ValidRun(c, s', acts) && InTurnRun(c, s', acts, u) && NoneHalfway(Run(c, s', acts), u)
                            ==> SameSession(Run(c, s', acts), u))
            <==> NoneHalfway(s, u)
  {
    var s' := Apply(c, s, Advance(id));
    StepKeepsInv(c, s, Advance(id));
    StepKeepsIssued(c, s, Advance(id));
    if NoneHalfway(s, u) {
      RefreshWrittenInStep(c, s, id, u);
      forall acts | ValidRun(c, s', acts) && InTurnRun(c, s', acts, u) && NoneHalfway(Run(c, s', acts), u)
        ensures SameSession(Run(c, s', acts), u)
      {
        RunKeepsInStep(c, s', acts, u);
      }
    } else {
      var k :| Halfway(s, k, u);
      assert s'.jobs[k] == s.jobs[k] && Halfway(s', id, u) && Halfway(s', k, u);
      assert forall j :: Halfway(s', j, u) ==> j == id || Halfway(s, j, u);
      var acts := MixedSessions(c, s', id, k, u);
      assert ValidRun(c, s', acts);
    }
  }
}
