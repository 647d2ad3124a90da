/** What a session is opened with, and what a refresh makes of it, column by column and in terms of the calls. */
module Openings {
  import opened AuditTrail
  import opened ConsentAgreement
  import opened ConsentTheorems
  import opened DeviceSafety
  import opened EmailCodes
  import opened Grants
  import opened Outcomes
  import opened Reachable
  import opened Scopes
  import opened Service
  import opened Sessions
  import opened Tables
  import opened Text

  /** `result` is the first text when it is given and not empty, else the second. */
  predicate Prefers(result: Option<string>, first: Option<string>, second: Option<string>) {
    && (first.Some? && first.value != "" ==> result == first)
    && (first.None? || first.value == "" ==> result == second)
  }

  predicate PrefersEach(result: Meta, first: Meta, second: Meta) {
    && Prefers(result.userAgent, first.userAgent, second.userAgent)
    && Prefers(result.ip, first.ip, second.ip)
    && Prefers(result.deviceLabel, first.deviceLabel, second.deviceLabel)
    && Prefers(result.location, first.location, second.location)
  }

  /** The request metadata of a call, as it came; nothing when it brought none. */
  function Brought(call: Call): Meta {
    var none: Option<string> := None;
    var meta: Option<Meta> :=
      match call
      case Register(_, meta) => meta
      case PasswordLogin(_, _, meta) => meta
      case RefreshCall(_, meta) => meta
      case CodeExchange(_, _, _, _, _, meta) => meta
      case DeviceExchange(_, _, meta) => meta
      case EmailVerify(_, _, meta) => meta
      case _ => None;
    if meta.Some? then meta.value else Meta(none, none, none, none)
  }

  /** The client a call binds its session to. */
  function BoundClient(call: Call): Option<string> {
    match call
    case CodeExchange(_, client, _, _, _, _) => Some(client)
    case DeviceExchange(client, _, _) => Some(client)
    case _ => None
  }

  /** One session and one log entry were added: the session of `user`, with these columns. */
  predicate Opened(db: Db, after: Db, reply: Reply, client: Option<string>, meta: Meta, how: string) {
    && reply.Issued? && reply.session == |db.auth.sessions|
    && after.auth.sessions == db.auth.sessions
       + [Session(reply.user, client, meta, db.now, db.now + db.settings.refreshLifetime, None, Some(db.now))]
    && after.auth.audit == db.auth.audit + [AuditEntry(reply.user, Login(how), SessionIds([reply.session]), client)]
  }

  lemma GrantOpens(db: Db, after: Db, user: nat, client: string, scopes: string, meta: Option<Meta>, how: string)
    requires how != ""
    requires (after.auth, after.now) ==
             (Grant(db.auth, db.now, db.settings.refreshLifetime, user, client, scopes, meta, how).0, db.now)
    ensures var reply := Grant(db.auth, db.now, db.settings.refreshLifetime, user, client, scopes, meta, how).1;
            reply.Issued? ==> reply.user == user && Opened(db, after, reply, Some(client), MetaOf(meta), how)
  {
    match UpsertConsent(db.auth, db.now, user, client, scopes)
    case None =>
    case Some(m) =>
      SignInRows(m, after.auth, db.now, db.settings.refreshLifetime, user, Some(client), meta, how);
  }

  lemma RegisterOpens(db: Db, email: string, meta: Option<Meta>)
    ensures var (after, reply) := RegisterUser(db, email, meta);
            reply.Issued? ==> Opened(db, after, reply, None, MetaOf(meta), "login.register")
  {
  }

  lemma LoginOpens(db: Db, email: string, matches: bool, meta: Option<Meta>)
    ensures var (after, reply) := LoginUser(db, email, matches, meta);
            reply.Issued? ==> Opened(db, after, reply, None, MetaOf(meta), "login.password")
  {
  }

  lemma EmailOpens(db: Db, email: string, submitted: string, meta: Option<Meta>)
    ensures var (after, reply) := VerifyEmail(db, email, submitted, meta);
            reply.Issued? ==> Opened(db, after, reply, None, MetaOf(meta), "login.email_code")
  {
    var (after, reply) := VerifyEmail(db, email, submitted, meta);
    VerifyEmailAuth(db, after, reply, email, submitted, meta);
    if reply.Issued? {
      var auth := SignIn(db.auth, db.now, db.settings.refreshLifetime, reply.user, None, meta, "login.email_code").0;
      SignInRows(db.auth, auth, db.now, db.settings.refreshLifetime, reply.user, None, meta, "login.email_code");
    }
  }

  lemma CodeOpens(db: Db, code: Option<AuthCode>, client: string, redirectUri: string, verifier: string,
                  verifierHash: string, meta: Option<Meta>)
    ensures var (after, reply) := ExchangeCode(db, code, client, redirectUri, verifier, verifierHash, meta);
            reply.Issued? ==>
              && code.Some? && reply.user == code.value.user
              && Opened(db, after, reply, Some(client), MetaOf(meta), "login.oauth.code")
  {
    var (after, reply) := ExchangeCode(db, code, client, redirectUri, verifier, verifierHash, meta);
    if reply.Issued? {
      GrantOpens(db, after, code.value.user, client, Join(NormalizeScopes(code.value.scope)), meta, "login.oauth.code");
    }
  }

  lemma DeviceOpens(db: Db, client: string, deviceCode: string, meta: Option<Meta>)
    ensures var (after, reply) := ExchangeDevice(db, client, deviceCode, meta);
            var k := FindDeviceCode(db.devices, client, deviceCode);
            reply.Issued? ==>
              && k.Some?
              && Opened(db, after, reply, Some(client), DeviceMeta(db.devices[k.value], meta), "login.oauth.device")
  {
    var after, reply := ExchangeDevice(db, client, deviceCode, meta).0, ExchangeDevice(db, client, deviceCode, meta).1;
    ExchangeDeviceAuth(db, after, reply, client, deviceCode, meta);
    if reply.Issued? {
      var d := db.devices[FindDeviceCode(db.devices, client, deviceCode).value];
      GrantOpens(db, after, d.approvedUser.value, client, Join(NormalizeScopes(d.scope)), Some(DeviceMeta(d, meta)),
                 "login.oauth.device");
    }
  }

  /** Every route that opens a session stores the metadata its call brought, binds it to the client of the call and logs
      it under the route's own action; a code exchange opens it for the user of the code. */
  lemma SessionOpenedAsAsked(r: Run, i: nat)
    requires IsRun(r) && i < |r.calls| && r.replies[i].Issued?
    requires !r.calls[i].RefreshCall? && !r.calls[i].DeviceExchange?
    ensures RouteOf(r.calls[i]).Some?
    ensures Opened(r.states[i], r.states[i + 1], r.replies[i], BoundClient(r.calls[i]), Brought(r.calls[i]),
                   RouteOf(r.calls[i]).value)
    ensures r.calls[i].CodeExchange? ==> r.calls[i].code.Some? && r.replies[i].user == r.calls[i].code.value.user
  {
    var db := r.states[i];
    assert Happens(r, i);
    NoTokens(db, r.calls[i]);
    hide Opened, RegisterUser, LoginUser, VerifyEmail, ExchangeCode, ExchangeDevice;
    match r.calls[i]
    case Register(email, meta) => RegisterOpens(db, email, meta);
    case PasswordLogin(email, matches, meta) => LoginOpens(db, email, matches, meta);
    case EmailVerify(email, submitted, meta) => EmailOpens(db, email, submitted, meta);
    case CodeExchange(code, client, redirectUri, verifier, verifierHash, meta) =>
      CodeOpens(db, code, client, redirectUri, verifier, verifierHash, meta);
    case _ =>
  }

  lemma NoTokens(db: Db, call: Call)
    ensures RouteOf(call).None? && !call.RefreshCall? ==> !Step(db, call).1.Issued?
  {
  }

  /** A session opened by a device code is the approver's, is bound to the client, and takes each column the device gave
      at the start of its request, the poll filling in the others; `j` is the call that started the request. */
  lemma DeviceSessionOpened(r: Run, i: nat) returns (j: nat)
    requires IsRun(r) && i < |r.calls| && r.calls[i].DeviceExchange? && r.replies[i].Issued?
    ensures j < i && r.replies[j].Ok? && r.calls[j].DeviceStart?
            && r.calls[j].deviceCode == Strip(r.calls[i].deviceCode)
    ensures r.calls[j].client == r.calls[i].client && r.states[i].now < r.states[j].now + 900
    ensures r.replies[i].session < |r.states[i + 1].auth.sessions|
    ensures var meta := r.states[i + 1].auth.sessions[r.replies[i].session].meta;
            && PrefersEach(meta, r.calls[j].deviceMeta, Brought(r.calls[i]))
            && Opened(r.states[i], r.states[i + 1], r.replies[i], Some(r.calls[j].client), meta, "login.oauth.device")
  {
    var db, call := r.states[i], r.calls[i];
    assert Happens(r, i);
    DeviceOpens(db, call.client, call.deviceCode, call.meta);
    var k := FindDeviceCode(db.devices, call.client, call.deviceCode).value;
    j := RequestWasStarted(r, i, k);
    DeviceMetaPrefers(db.devices[k], call.meta);
  }

  lemma DeviceMetaPrefers(d: DeviceRequest, meta: Option<Meta>)
    ensures PrefersEach(DeviceMeta(d, meta), d.meta, if meta.Some? then meta.value else Meta(None, None, None, None))
  {
  }

  /** An accepted refresh renews the session, takes each column it brings and keeps the others, and changes nothing else
      of it. */
  lemma RefreshUpdates(r: Run, i: nat)
    requires IsRun(r) && i < |r.calls| && r.calls[i].RefreshCall? && r.replies[i].Issued?
    ensures var a, b, sid, now := r.states[i].auth, r.states[i + 1].auth, r.replies[i].session, r.states[i].now;
            && sid < |a.sessions| == |b.sessions|
            && PrefersEach(b.sessions[sid].meta, Brought(r.calls[i]), a.sessions[sid].meta)
            && b.sessions[sid] == a.sessions[sid].(lastSeenAt := Some(now), meta := b.sessions[sid].meta,
                                                   expiresAt := now + r.states[i].settings.refreshLifetime)
            && r.replies[i].user == a.sessions[sid].user
  {
    var db, call := r.states[i], r.calls[i];
    RunSound(r, i);
    assert Happens(r, i);
    RefreshMeta(db.auth, db.users, db.now, db.settings.refreshLifetime, call.presented, call.meta);
  }

  lemma RefreshMeta(a: AuthTables, users: seq<User>, now: int, life: nat, presented: Presented, meta: Option<Meta>)
    requires Sound(a, now, life) && RefreshTokens(a, users, now, life, presented, meta).1.Issued?
    ensures var (b, reply) := RefreshTokens(a, users, now, life, presented, meta);
            var sid := reply.session;
            && sid < |a.sessions| == |b.sessions| && reply.user == a.sessions[sid].user
            && PrefersEach(b.sessions[sid].meta, if meta.Some? then meta.value else Meta(None, None, None, None),
                           a.sessions[sid].meta)
            && b.sessions[sid] == a.sessions[sid].(lastSeenAt := Some(now), meta := b.sessions[sid].meta,
                                                   expiresAt := now + life)
  {
    var k := LoadRefreshBundle(a, now, presented.jwt).value;
    LoadedOwner(a, now, life, k);
    hide Sound;
  }

  /** The consent a device code records lists the scopes its device asked for at the start. */
  lemma DeviceConsentRecorded(r: Run, i: nat) returns (j: nat)
    requires IsRun(r) && i < |r.calls| && r.calls[i].DeviceExchange? && r.replies[i].Issued?
    ensures j < i && r.replies[j].Ok? && r.calls[j].DeviceStart?
            && r.calls[j].deviceCode == Strip(r.calls[i].deviceCode)
    ensures var cs, client := r.states[i + 1].auth.consents, Strip(r.calls[j].client);
            && Authorized(cs, r.replies[i].user, client)
            && (NormalizeScopes(r.calls[j].scope) != [] ==>
                  forall c :: 0 <= c < |cs| && cs[c].user == r.replies[i].user && cs[c].client == client ==>
                    NormalizeScopes(cs[c].scopes) == NormalizeScopes(r.calls[j].scope))
  {
    var db, call := r.states[i], r.calls[i];
    assert Happens(r, i);
    RunSound(r, i);
    var k := FindDeviceCode(db.devices, call.client, call.deviceCode).value;
    j := RequestWasStarted(r, i, k);
    ExchangeDeviceAuth(db, r.states[i + 1], r.replies[i], call.client, call.deviceCode, call.meta);
    DeviceConsent(db, r.states[i + 1].auth, db.devices[k], call.client, call.meta);
  }

  lemma DeviceConsent(db: Db, b: AuthTables, d: DeviceRequest, client: string, meta: Option<Meta>)
    requires UniqueConsents(db.auth.consents) && d.approvedUser.Some?
    requires var (after, reply) := Grant(db.auth, db.now, db.settings.refreshLifetime, d.approvedUser.value, client,
                                         Join(NormalizeScopes(d.scope)), Some(DeviceMeta(d, meta)),
                                             "login.oauth.device");
             reply.Issued? && b == after
    ensures Authorized(b.consents, d.approvedUser.value, Strip(client))
    ensures NormalizeScopes(d.scope) != [] ==>
              forall c :: 0 <= c < |b.consents| && b.consents[c].user == d.approvedUser.value
                          && b.consents[c].client == Strip(client) ==>
                NormalizeScopes(b.consents[c].scopes) == NormalizeScopes(d.scope)
  {
    var ws := NormalizeScopes(d.scope);
    ScopeRoundTrip(d.scope);
    if ws != [] {
      assert ws[0] <= Join(ws);
    }
    GrantRecords(db.auth, db.now, db.settings.refreshLifetime, d.approvedUser.value, client, Join(ws),
                 Some(DeviceMeta(d, meta)), "login.oauth.device");
  }
}
