/** The four things a call can do to the session and token tables. */
module Changes {
  import opened EmailCodes
  import opened Grants
  import opened Ordered
  import Scopes
  import opened Service
  import opened Sessions
  import opened Tables
  import opened Text

  datatype Change =
    | Untouched
    | Opened(session: Session)
    | Rotated(spent: nat)
    | Closed(ids: set<nat>)

  ghost predicate Changed(a: AuthTables, b: AuthTables, now: int, life: nat, ch: Change) {
    match ch
    case Untouched => b.sessions == a.sessions && b.tokens == a.tokens
    case Opened(s) =>
      && s.Live() && s.createdAt == now && s.expiresAt == now + life
      && b.sessions == a.sessions + [s]
      && b.tokens == a.tokens + [FreshToken(a, now, life, s.user, |a.sessions|, None)]
    case Rotated(k) =>
      && k < |a.tokens| && UsableToken(a, now, a.tokens[k])
      && b.tokens == RotatedTokens(a, now, life, k)
      && |b.sessions| == |a.sessions|
      && (forall i :: 0 <= i < |a.sessions| && i != a.tokens[k].session ==> b.sessions[i] == a.sessions[i])
      && var sid := a.tokens[k].session;
         b.sessions[sid] == a.sessions[sid].(lastSeenAt := Some(now), expiresAt := now + life, meta :=
             b.sessions[sid].meta)
    case Closed(ids) =>
      && (forall sid :: sid in ids ==> sid < |a.sessions| && a.sessions[sid].Live())
      && b.sessions == RevokeSessions(a.sessions, ids, now)
      && b.tokens == RevokeTokens(a.tokens, ids, now)
  }

  lemma SignInChange(a: AuthTables, b: AuthTables, now: int, life: nat, user: nat, client: Option<string>,
                     meta: Option<Meta>, how: string)
    returns (ch: Change)
    requires b == SignIn(a, now, life, user, client, meta, how).0
    ensures ch.Opened? && Changed(a, b, now, life, ch)
  {
    SignInRows(a, b, now, life, user, client, meta, how);
    ch := Opened(b.sessions[|a.sessions|]);
  }

  lemma GrantChange(a: AuthTables, b: AuthTables, reply: Reply, now: int, life: nat, user: nat, client: string,
                    scopes: string, meta: Option<Meta>, how: string) returns (ch: Change)
    requires (b, reply) == Grant(a, now, life, user, client, scopes, meta, how)
    ensures Changed(a, b, now, life, ch) && !ch.Rotated?
    ensures reply.Issued? ==> ch.Opened? && reply.session == |a.sessions|
  {
    match UpsertConsent(a, now, user, client, scopes)
    case None => ch := Untouched;
    case Some(m) => ch := SignInChange(m, b, now, life, user, Some(client), meta, how);
  }

  /** The change a call makes; only an accepted refresh rotates, and what it spends is the presented token. */
  lemma StepChange(db: Db, call: Call, db': Db, reply: Reply) returns (ch: Change)
    requires Step(db, call) == (db', reply)
    ensures Changed(db.auth, db'.auth, db.now, db.settings.refreshLifetime, ch)
    ensures ch.Rotated? <==> call.RefreshCall? && reply.Issued?
    ensures ch.Rotated? ==> call.presented.Signed? && db.auth.tokens[ch.spent].hash == call.presented.jwt
                            && reply.session == db.auth.tokens[ch.spent].session
  {
    var a, b, now, life := db.auth, db'.auth, db.now, db.settings.refreshLifetime;
    ch := Untouched;
    assert Changed(a, a, now, life, Untouched);
    hide Changed;
    match call
    case Tick(_) =>
    case Register(_, meta) =>
      if reply.Issued? { ch := SignInChange(a, b, now, life, |db.users|, None, meta, "login.register"); }
    case PasswordLogin(_, _, meta) =>
      if reply.Issued? { ch := SignInChange(a, b, now, life, reply.user, None, meta, "login.password"); }
    case RefreshCall(presented, meta) => ch := RefreshChange(a, b, reply, db.users, now, life, presented, meta);
    case LogoutCall(presented) => ch := LogoutChange(a, b, reply, now, life, presented);
    case RevokeSession(user, session, current) => ch :=
        RevokeSessionChange(a, b, reply, now, life, user, session, current);
    case RevokeApplication(user, client) =>
      ch := RevokeConsentChange(a, b, reply, now, life, user, client);
    case CodeExchange(code, client, redirectUri, verifier, verifierHash, meta) =>
      ch := CodeExchangeChange(db, db', reply, code, client, redirectUri, verifier, verifierHash, meta);
    case DeviceStart(_, _, _, _, _) =>
    case DeviceConfirm(_, _, _) =>
    case DeviceExchange(client, deviceCode, meta) => ch :=
        DeviceExchangeChange(db, db', reply, client, deviceCode, meta);
    case EmailStart(_, _, _, _) =>
    case EmailVerify(email, submitted, meta) =>
      VerifyEmailAuth(db, db', reply, email, submitted, meta);
      if reply.Issued? { ch := SignInChange(a, b, now, life, reply.user, None, meta, "login.email_code"); }
  }

  /** The change call `i` of a run makes. */
  lemma CallChange(r: Run, i: nat) returns (ch: Change)
    requires IsRun(r) && i < |r.calls|
    ensures Changed(r.states[i].auth, r.states[i + 1].auth, r.states[i].now, r.states[i].settings.refreshLifetime, ch)
    ensures ch.Rotated? <==> r.calls[i].RefreshCall? && r.replies[i].Issued?
    ensures ch.Rotated? ==>
              r.calls[i].presented.Signed?
              && r.states[i].auth.tokens[ch.spent].hash == r.calls[i].presented.jwt
                              && r.replies[i].session == r.states[i].auth.tokens[ch.spent].session
  {
    assert Happens(r, i);
    ch := StepChange(r.states[i], r.calls[i], r.states[i + 1], r.replies[i]);
  }

  lemma RefreshChange(a: AuthTables, b: AuthTables, reply: Reply, users: seq<User>, now: int, life: nat,
                      presented: Presented, meta: Option<Meta>) returns (ch: Change)
    requires (b, reply) == RefreshTokens(a, users, now, life, presented, meta)
    ensures Changed(a, b, now, life, ch)
    ensures if reply.Issued?
            then ch.Rotated? && presented.Signed? && a.tokens[ch.spent].hash == presented.jwt
                && reply.session == a.tokens[ch.spent].session
            else ch.Untouched?
  {
    ch := Untouched;
    if reply.Issued? {
      var k := LoadRefreshBundle(a, now, presented.jwt).value;
      RotateRows(a, b, now, life, k, meta);
      ch := Rotated(k);
    }
  }

  lemma CodeExchangeChange(db: Db, db': Db, reply: Reply, code: Option<AuthCode>, client: string, redirectUri: string,
                           verifier: string, verifierHash: string, meta: Option<Meta>) returns (ch: Change)
    requires (db', reply) == ExchangeCode(db, code, client, redirectUri, verifier, verifierHash, meta)
    ensures Changed(db.auth, db'.auth, db.now, db.settings.refreshLifetime, ch) && !ch.Rotated?
  {
    ch := Untouched;
    if reply.Issued? {
      ch := GrantChange(db.auth, db'.auth, reply, db.now, db.settings.refreshLifetime, code.value.user, client,
                        Join(Scopes.NormalizeScopes(code.value.scope)), meta, "login.oauth.code");
    }
  }

  lemma LogoutChange(a: AuthTables, b: AuthTables, reply: Reply, now: int, life: nat, presented: Presented)
      returns (ch: Change)
    requires (b, reply) == LogoutUser(a, now, presented)
    ensures Changed(a, b, now, life, ch) && (ch.Untouched? || ch.Closed?)
  {
    ch := Untouched;
    if DecodesAsRefresh(presented, now) && LoadRefreshBundle(a, now, presented.jwt).Some? {
      ch := Closed({a.tokens[LoadRefreshBundle(a, now, presented.jwt).value].session});
    }
  }

  lemma RevokeSessionChange(a: AuthTables, b: AuthTables, reply: Reply, now: int, life: nat, user: nat, sid: nat,
                            current: Option<nat>)
    returns (ch: Change)
    requires (b, reply) == RevokeSecuritySession(a, now, user, sid, current)
    ensures Changed(a, b, now, life, ch) && (ch.Untouched? || ch.Closed?)
  {
    ch := Untouched;
    if reply.Ok? {
      ch := Closed(Elements(SameName(a.sessions, LoadActiveSessions(a.sessions, user, now),
                                     DisplayName(a.sessions[sid]), current)));
    }
  }

  lemma RevokeConsentChange(a: AuthTables, b: AuthTables, reply: Reply, now: int, life: nat, user: nat, client: string)
    returns (ch: Change)
    requires (b, reply) == RevokeConsent(a, now, user, client)
    ensures Changed(a, b, now, life, ch) && (ch.Untouched? || ch.Closed?)
  {
    ch := if reply.Ok? then Closed(ClientSessions(a.sessions, user, Strip(client))) else Untouched;
  }

  lemma DeviceExchangeChange(db: Db, db': Db, reply: Reply, client: string, deviceCode: string, meta: Option<Meta>)
      returns (ch: Change)
    requires ExchangeDevice(db, client, deviceCode, meta) == (db', reply)
    ensures Changed(db.auth, db'.auth, db.now, db.settings.refreshLifetime, ch) && !ch.Rotated?
  {
    ExchangeDeviceAuth(db, db', reply, client, deviceCode, meta);
    ch := Untouched;
    if reply.Issued? {
      var d := db.devices[FindDeviceCode(db.devices, client, deviceCode).value];
      ch := GrantChange(db.auth, db'.auth, Grant(db.auth, db.now, db.settings.refreshLifetime, d.approvedUser.value,
                                                 client, Join(Scopes.NormalizeScopes(d.scope)),
                                                 Some(DeviceMeta(d, meta)), "login.oauth.device").1, db.now,
                                                 db.settings.refreshLifetime, d.approvedUser.value, client,
                                                 Join(Scopes.NormalizeScopes(d.scope)), Some(DeviceMeta(d, meta)),
                                                 "login.oauth.device");
    }
  }
}
