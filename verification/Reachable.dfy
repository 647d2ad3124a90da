/** What every step keeps: the rotation chains, the replayable log and the consent agreement, together. */
module Reachable {
  import opened AuditReplay
  import opened ConsentAgreement
  import opened EmailCodes
  import opened Grants
  import opened Ordered
  import opened RotationChain
  import Scopes
  import opened Service
  import opened Sessions
  import opened Tables
  import opened Text

  ghost predicate Sound(a: AuthTables, now: int, life: nat) {
    Chains(a, now, life) && Replayable(a) && Agreement(a, now)
  }

  lemma SignInSound(a: AuthTables, now: int, life: nat, user: nat, client: Option<string>, meta: Option<Meta>,
                    how: string)
    requires Sound(a, now, life) && how != ""
    requires client.Some? && Trimmed(client.value) ==> Authorized(a.consents, user, client.value)
    ensures Sound(SignIn(a, now, life, user, client, meta, how).0, now, life)
  {
    var b := SignIn(a, now, life, user, client, meta, how).0;
    SignInChains(a, b, now, life, user, client, meta, how);
    SignInReplay(a, b, now, life, user, client, meta, how);
    SignInAgreement(a, b, now, life, user, client, meta, how);
  }

  lemma GrantSound(a: AuthTables, now: int, life: nat, user: nat, client: string, scopes: string, meta: Option<Meta>,
                   how: string)
    requires Sound(a, now, life) && how != ""
    ensures Sound(Grant(a, now, life, user, client, scopes, meta, how).0, now, life)
  {
    match UpsertConsent(a, now, user, client, scopes)
    case None =>
    case Some(b) =>
      UpsertAgreement(a, b, now, user, client, scopes);
      StripFixpoint(client);
      SameRowsChains(a, b, now, life);
      SignInSound(b, now, life, user, Some(client), meta, how);
  }

  lemma SameRowsChains(a: AuthTables, b: AuthTables, now: int, life: nat)
    requires Chains(a, now, life) && a.sessions == b.sessions && a.tokens == b.tokens
    ensures Chains(b, now, life)
  {
  }

  lemma RefreshSound(a: AuthTables, users: seq<User>, now: int, life: nat, presented: Presented, meta: Option<Meta>)
    requires Sound(a, now, life)
    ensures Sound(RefreshTokens(a, users, now, life, presented, meta).0, now, life)
  {
    var (b, reply) := RefreshTokens(a, users, now, life, presented, meta);
    if reply.Issued? {
      var k := LoadRefreshBundle(a, now, presented.jwt).value;
      RotateChains(a, b, now, life, k, meta);
      RotateReplay(a, b, now, life, k, meta);
      RotateAgreement(a, b, now, life, k, meta);
    }
  }

  lemma CloseSound(a: AuthTables, ids: set<nat>, now: int, life: nat, entry: AuditEntry)
    requires Sound(a, now, life)
    requires ApplyEntry(LiveSessions(a.sessions), entry) == LiveSessions(a.sessions) - ids
    ensures Sound(CloseSessions(a, ids, now, entry), now, life)
  {
    var b := CloseSessions(a, ids, now, entry);
    CloseChains(a, b, ids, now, life, entry);
    CloseReplay(a, b, ids, now, entry);
    CloseAgreement(a, b, ids, now, entry);
  }

  lemma LogoutSound(a: AuthTables, now: int, life: nat, presented: Presented)
    requires Sound(a, now, life)
    ensures Sound(LogoutUser(a, now, presented).0, now, life)
  {
    hide Sound;
    if DecodesAsRefresh(presented, now) {
      match LoadRefreshBundle(a, now, presented.jwt)
      case None =>
      case Some(k) =>
        var sid := a.tokens[k].session;
        var s := a.sessions[sid];
        assert Elements([sid]) == {sid};
        CloseSound(a, {sid}, now, life, AuditEntry(s.user, Logout, SessionIds([sid]), s.client));
    }
  }

  lemma RevokeSessionSound(a: AuthTables, now: int, life: nat, user: nat, sid: nat, current: Option<nat>)
    requires Sound(a, now, life)
    ensures Sound(RevokeSecuritySession(a, now, user, sid, current).0, now, life)
  {
    hide Sound;
    if RevokeSecuritySession(a, now, user, sid, current).1.Ok? {
      var seed := a.sessions[sid];
      var targets := SameName(a.sessions, LoadActiveSessions(a.sessions, user, now), DisplayName(seed), current);
      CloseSound(a, Elements(targets), now, life, AuditEntry(user, SessionRevoke, SessionIds(targets), seed.client));
    }
  }

  lemma RevokeConsentSound(a: AuthTables, now: int, life: nat, user: nat, client: string)
    requires Sound(a, now, life)
    ensures Sound(RevokeConsent(a, now, user, client).0, now, life)
  {
    var (b, reply) := RevokeConsent(a, now, user, client);
    if reply.Ok? {
      var name := Strip(client);
      var marked := a.(consents := b.consents);
      var ids, entry := ClientSessions(a.sessions, user, name), AuditEntry(user, ConsentRevoke, ClientId(name), None);
      assert b == CloseSessions(marked, ids, now, entry);
      SameRowsChains(a, marked, now, life);
      CloseChains(marked, b, ids, now, life, entry);
      ConsentEntry(a.sessions, user, name);
      CloseReplay(marked, b, ids, now, entry);
      RevokeAgreement(a, b, now, user, client);
    }
  }

  lemma LaterSound(a: AuthTables, now: int, later: int, life: nat)
    requires Sound(a, now, life) && now <= later
    ensures Sound(a, later, life)
  {
  }

  ghost predicate SoundDb(db: Db) {
    Sound(db.auth, db.now, db.settings.refreshLifetime)
  }

  /** Every call, on any input, accepted or refused, keeps the invariant. */
  lemma StepSound(db: Db, call: Call)
    requires SoundDb(db)
    ensures SoundDb(Step(db, call).0)
  {
    hide Sound;
    var a, now, life := db.auth, db.now, db.settings.refreshLifetime;
    match call
    case Tick(elapsed) => LaterSound(a, now, now + elapsed, life);
    case Register(email, meta) => RegisterSound(db, email, meta);
    case PasswordLogin(email, matches, meta) => LoginSound(db, email, matches, meta);
    case RefreshCall(presented, meta) => RefreshSound(a, db.users, now, life, presented, meta);
    case LogoutCall(presented) => LogoutSound(a, now, life, presented);
    case RevokeSession(user, session, current) => RevokeSessionSound(a, now, life, user, session, current);
    case RevokeApplication(user, client) => RevokeConsentSound(a, now, life, user, client);
    case CodeExchange(code, client, redirectUri, verifier, verifierHash, meta) =>
      CodeExchangeSound(db, code, client, redirectUri, verifier, verifierHash, meta);
    case DeviceStart(_, _, _, _, _) =>
    case DeviceConfirm(_, _, _) =>
    case DeviceExchange(client, deviceCode, meta) => DeviceExchangeSound(db, client, deviceCode, meta);
    case EmailStart(_, _, _, _) =>
    case EmailVerify(email, submitted, meta) => EmailVerifySound(db, email, submitted, meta);
  }

  lemma RegisterSound(db: Db, email: string, meta: Option<Meta>)
    requires SoundDb(db)
    ensures SoundDb(RegisterUser(db, email, meta).0)
  {
    SignInSound(db.auth, db.now, db.settings.refreshLifetime, |db.users|, None, meta, "login.register");
  }

  lemma LoginSound(db: Db, email: string, matches: bool, meta: Option<Meta>)
    requires SoundDb(db)
    ensures SoundDb(LoginUser(db, email, matches, meta).0)
  {
    match UserByEmail(db.users, Lower(email))
    case None =>
    case Some(user) => SignInSound(db.auth, db.now, db.settings.refreshLifetime, user, None, meta, "login.password");
  }

  lemma CodeExchangeSound(db: Db, code: Option<AuthCode>, client: string, redirectUri: string, verifier: string,
                          verifierHash: string, meta: Option<Meta>)
    requires SoundDb(db)
    ensures SoundDb(ExchangeCode(db, code, client, redirectUri, verifier, verifierHash, meta).0)
  {
    if code.Some? {
      GrantSound(db.auth, db.now, db.settings.refreshLifetime, code.value.user, client,
                 Join(Scopes.NormalizeScopes(code.value.scope)), meta, "login.oauth.code");
    }
  }

  lemma DeviceExchangeSound(db: Db, client: string, deviceCode: string, meta: Option<Meta>)
    requires SoundDb(db)
    ensures SoundDb(ExchangeDevice(db, client, deviceCode, meta).0)
  {
    var db', reply := ExchangeDevice(db, client, deviceCode, meta).0, ExchangeDevice(db, client, deviceCode, meta).1;
    ExchangeDeviceAuth(db, db', reply, client, deviceCode, meta);
    if reply.Issued? {
      var d := db.devices[FindDeviceCode(db.devices, client, deviceCode).value];
      GrantSound(db.auth, db.now, db.settings.refreshLifetime, d.approvedUser.value, client,
                 Join(Scopes.NormalizeScopes(d.scope)), Some(DeviceMeta(d, meta)), "login.oauth.device");
    }
  }

  lemma EmailVerifySound(db: Db, email: string, submitted: string, meta: Option<Meta>)
    requires SoundDb(db)
    ensures SoundDb(VerifyEmail(db, email, submitted, meta).0)
  {
    var db', reply := VerifyEmail(db, email, submitted, meta).0, VerifyEmail(db, email, submitted, meta).1;
    VerifyEmailAuth(db, db', reply, email, submitted, meta);
    if reply.Issued? {
      SignInSound(db.auth, db.now, db.settings.refreshLifetime, reply.user, None, meta, "login.email_code");
    }
  }

  lemma InitialSound(db: Db)
    requires Initial(db)
    ensures SoundDb(db)
  {
  }

  /** The invariant holds before and after every call of every run. */
  lemma {:induction false} RunSound(r: Run, i: nat)
    requires IsRun(r) && i < |r.states|
    ensures SoundDb(r.states[i])
  {
    hide Step, Sound;
    if i == 0 {
      InitialSound(r.states[0]);
    } else {
      RunSound(r, i - 1);
      assert Happens(r, i - 1);
      StepSound(r.states[i - 1], r.calls[i - 1]);
    }
  }
}
