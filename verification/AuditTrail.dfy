/** The audit log as a record: append-only, one entry per change of the live sessions, each naming its sessions. */
module AuditTrail {
  import opened AuditReplay
  import opened Changes
  import opened EmailCodes
  import opened Grants
  import Scopes
  import opened Service
  import opened Sessions
  import opened SessionTheorems
  import opened Tables
  import opened Text

  /** Session `sid` exists, is the actor's, and is bound to the client the entry carries. */
  predicate Carries(e: AuditEntry, sessions: seq<Session>, sid: nat) {
    sid < |sessions| && sessions[sid].user == e.actor && sessions[sid].client == e.client
  }

  /** The action under which a call that opens sessions is logged. */
  function RouteOf(call: Call): Option<string> {
    match call
    case Register(_, _) => Some("login.register")
    case PasswordLogin(_, _, _) => Some("login.password")
    case CodeExchange(_, _, _, _, _, _) => Some("login.oauth.code")
    case DeviceExchange(_, _, _) => Some("login.oauth.device")
    case EmailVerify(_, _, _) => Some("login.email_code")
    case _ => None
  }

  /** The entry `e` answers to the call that wrote it. A sign-in names its route; it or a sign-out names one session and
      carries its client.
      A revocation names some sessions of the caller and carries the client of the one requested. A consent revocation
      names the stripped client id of the request. */
  predicate Names(e: AuditEntry, call: Call, sessions: seq<Session>) {
    match (e.action, e.target)
    case (Login(how), SessionIds(ids)) => RouteOf(call) == Some(how) && |ids| == 1 && Carries(e, sessions, ids[0])
    case (Logout, SessionIds(ids)) => call.LogoutCall? && |ids| == 1 && Carries(e, sessions, ids[0])
    case (SessionRevoke, SessionIds(ids)) =>
      && call.RevokeSession? && call.user == e.actor && Carries(e, sessions, call.session)
      && ids != [] && forall sid :: sid in ids ==> sid < |sessions| && sessions[sid].user == e.actor
    case (ConsentRevoke, ClientId(client)) =>
      call.RevokeApplication? && call.user == e.actor && client == Strip(call.client) && e.client == None
    case _ => false
  }

  predicate Recorded(a: AuthTables, b: AuthTables, call: Call) {
    || b.audit == a.audit
    || (|b.audit| == |a.audit| + 1 && b.audit[..|a.audit|] == a.audit && Names(b.audit[|a.audit|], call, b.sessions))
  }

  lemma SignInRecorded(a: AuthTables, b: AuthTables, call: Call, now: int, life: nat, user: nat, client: Option<string>,
                       meta: Option<Meta>, how: string)
    requires b == SignIn(a, now, life, user, client, meta, how).0 && how != "" && RouteOf(call) == Some(how)
    ensures Recorded(a, b, call)
  {
    SignInRows(a, b, now, life, user, client, meta, how);
  }

  lemma GrantRecorded(a: AuthTables, call: Call, now: int, life: nat, user: nat, client: string, scopes: string,
                      meta: Option<Meta>, how: string)
    requires how != "" && RouteOf(call) == Some(how)
    ensures Recorded(a, Grant(a, now, life, user, client, scopes, meta, how).0, call)
  {
    match UpsertConsent(a, now, user, client, scopes)
    case None =>
    case Some(m) =>
      SignInRecorded(m, SignIn(m, now, life, user, Some(client), meta, how).0, call, now, life, user, Some(client),
                     meta, how);
  }

  lemma RefreshRecorded(a: AuthTables, users: seq<User>, now: int, life: nat, presented: Presented, meta: Option<Meta>)
    ensures RefreshTokens(a, users, now, life, presented, meta).0.audit == a.audit
  {
  }

  lemma LogoutRecorded(a: AuthTables, now: int, presented: Presented)
    ensures Recorded(a, LogoutUser(a, now, presented).0, LogoutCall(presented))
  {
  }

  lemma RevokeSessionRecorded(a: AuthTables, now: int, user: nat, sid: nat, current: Option<nat>)
    ensures Recorded(a, RevokeSecuritySession(a, now, user, sid, current).0, RevokeSession(user, sid, current))
  {
    hide DisplayName, LoadActiveSessions, SameName;
    var (b, reply) := RevokeSecuritySession(a, now, user, sid, current);
    if reply.Ok? {
      var e := b.audit[|a.audit|];
      forall x | x in e.target.ids ensures x < |b.sessions| && b.sessions[x].user == user {
        assert IsActive(a.sessions[x], user, now);
      }
    }
  }

  lemma RevokeConsentRecorded(a: AuthTables, now: int, user: nat, client: string)
    ensures Recorded(a, RevokeConsent(a, now, user, client).0, RevokeApplication(user, client))
  {
  }

  lemma RegisterRecorded(db: Db, email: string, meta: Option<Meta>)
    ensures Recorded(db.auth, RegisterUser(db, email, meta).0.auth, Register(email, meta))
  {
  }

  lemma LoginRecorded(db: Db, email: string, matches: bool, meta: Option<Meta>)
    ensures Recorded(db.auth, LoginUser(db, email, matches, meta).0.auth, PasswordLogin(email, matches, meta))
  {
  }

  lemma EmailRecorded(db: Db, email: string, submitted: string, meta: Option<Meta>)
    ensures Recorded(db.auth, VerifyEmail(db, email, submitted, meta).0.auth, EmailVerify(email, submitted, meta))
  {
  }

  lemma CodeRecorded(db: Db, code: Option<AuthCode>, client: string, redirectUri: string, verifier: string,
                     verifierHash: string, meta: Option<Meta>)
    ensures Recorded(db.auth, ExchangeCode(db, code, client, redirectUri, verifier, verifierHash, meta).0.auth,
                     CodeExchange(code, client, redirectUri, verifier, verifierHash, meta))
  {
    if code.Some? {
      GrantRecorded(db.auth, CodeExchange(code, client, redirectUri, verifier, verifierHash, meta), db.now,
                    db.settings.refreshLifetime, code.value.user, client,
                    Join(Scopes.NormalizeScopes(code.value.scope)), meta, "login.oauth.code");
    }
  }

  lemma DeviceRecorded(db: Db, client: string, deviceCode: string, meta: Option<Meta>)
    ensures Recorded(db.auth, ExchangeDevice(db, client, deviceCode, meta).0.auth,
                     DeviceExchange(client, deviceCode, meta))
  {
    var db', reply := ExchangeDevice(db, client, deviceCode, meta).0, ExchangeDevice(db, client, deviceCode, meta).1;
    ExchangeDeviceAuth(db, db', reply, client, deviceCode, meta);
    if reply.Issued? {
      var d := db.devices[FindDeviceCode(db.devices, client, deviceCode).value];
      GrantRecorded(db.auth, DeviceExchange(client, deviceCode, meta), db.now, db.settings.refreshLifetime,
                    d.approvedUser.value, client, Join(Scopes.NormalizeScopes(d.scope)), Some(DeviceMeta(d, meta)),
                    "login.oauth.device");
    }
  }

  lemma StepRecorded(db: Db, call: Call)
    ensures Recorded(db.auth, Step(db, call).0.auth, call)
  {
    var a, now, life := db.auth, db.now, db.settings.refreshLifetime;
    assert Recorded(a, a, call);
    match call
    case Tick(_) =>
    case Register(email, meta) => RegisterRecorded(db, email, meta);
    case PasswordLogin(email, matches, meta) => LoginRecorded(db, email, matches, meta);
    case RefreshCall(presented, meta) =>
      RefreshRecorded(a, db.users, now, life, presented, meta);
      assert Recorded(a, RefreshTokens(a, db.users, now, life, presented, meta).0, call);
    case LogoutCall(presented) => LogoutRecorded(a, now, presented);
    case RevokeSession(user, session, current) => RevokeSessionRecorded(a, now, user, session, current);
    case RevokeApplication(user, client) => RevokeConsentRecorded(a, now, user, client);
    case CodeExchange(code, client, redirectUri, verifier, verifierHash, meta) =>
      CodeRecorded(db, code, client, redirectUri, verifier, verifierHash, meta);
    case DeviceStart(_, _, _, _, _) =>
    case DeviceConfirm(_, _, _) =>
    case DeviceExchange(client, deviceCode, meta) => DeviceRecorded(db, client, deviceCode, meta);
    case EmailStart(_, _, _, _) =>
    case EmailVerify(email, submitted, meta) => EmailRecorded(db, email, submitted, meta);
  }

  lemma CallRecorded(r: Run, i: nat)
    requires IsRun(r) && i < |r.calls|
    ensures Recorded(r.states[i].auth, r.states[i + 1].auth, r.calls[i])
  {
    assert Happens(r, i);
    hide Step, Recorded;
    StepRecorded(r.states[i], r.calls[i]);
  }

  lemma NamesStays(e: AuditEntry, call: Call, a: AuthTables, b: AuthTables)
    requires Names(e, call, a.sessions) && Evolves(a, b)
    ensures Names(e, call, b.sessions)
  {
    forall sid: nat | sid < |a.sessions| ensures SessionEvolves(a.sessions[sid], b.sessions[sid]) {
    }
  }

  /** In every reachable state, each entry of the audit log was appended by an earlier call of the run, and names what
      that call should have recorded. */
  lemma {:induction false} EntriesNameTheirSessions(r: Run, i: nat, k: nat) returns (j: nat)
    requires IsRun(r) && i < |r.states| && k < |r.states[i].auth.audit|
    ensures j < i && |r.states[j].auth.audit| == k
    ensures Names(r.states[i].auth.audit[k], r.calls[j], r.states[i].auth.sessions)
    decreases i
  {
    assert i > 0;
    var a, b := r.states[i - 1].auth, r.states[i].auth;
    CallRecorded(r, i - 1);
    hide IsRun, Names;
    if k < |a.audit| {
      j := EntriesNameTheirSessions(r, i - 1, k);
      RunEvolves(r, i - 1, i);
      assert b.audit[..|a.audit|][k] == a.audit[k];
      NamesStays(a.audit[k], r.calls[j], a, b);
    } else {
      j := i - 1;
    }
  }

  /** The log is append-only. */
  lemma {:induction false} LogOnlyGrows(r: Run, i: nat, j: nat)
    requires IsRun(r) && i <= j < |r.states|
    ensures r.states[i].auth.audit <= r.states[j].auth.audit
  {
    if i == j {
    } else {
      LogOnlyGrows(r, i, j - 1);
      CallRecorded(r, j - 1);
    }
  }

  /** A call that ends a session stamps the session and its live tokens with the instant of the call, and adds exactly
      one entry to the log. */
  lemma ClosureIsStamped(r: Run, i: nat, sid: nat)
    requires IsRun(r) && i < |r.calls| && sid < |r.states[i].auth.sessions| && r.states[i].auth.sessions[sid].Live()
    requires sid < |r.states[i + 1].auth.sessions| && !r.states[i + 1].auth.sessions[sid].Live()
    ensures var a, b, now := r.states[i].auth, r.states[i + 1].auth, r.states[i].now;
            && b.sessions[sid] == a.sessions[sid].(revokedAt := Some(now), lastSeenAt := Some(now))
            && |b.tokens| == |a.tokens| && |b.audit| == |a.audit| + 1
            && forall k :: 0 <= k < |a.tokens| && a.tokens[k].session == sid
                 ==> b.tokens[k] == if a.tokens[k].Live() then a.tokens[k].(revokedAt := Some(now)) else a.tokens[k]
  {
    var a, b := r.states[i].auth, r.states[i + 1].auth;
    var ch := CallChange(r, i);
    CallRecorded(r, i);
    AuditLogRebuildsSessions(r, i);
    AuditLogRebuildsSessions(r, i + 1);
    assert sid in LiveSessions(a.sessions) && sid !in LiveSessions(b.sessions);
  }
}
