/** Exactly when calls succeed in reachable states, and exactly what they then change. */
module Outcomes {
  import opened Changes
  import opened Columns
  import opened ConsentAgreement
  import opened DeviceSafety
  import opened EmailCodes
  import opened EmailLimits
  import opened Grants
  import opened Ordered
  import opened Reachable
  import opened RotationChain
  import opened Scopes
  import opened Service
  import opened Sessions
  import opened Tables
  import opened Text

  // ---------------------------------------------------------------- tokens and sessions

  /** Whether `presented` is a token issued by this server that is still good for session `sid`. */
  ghost predicate GoodFor(a: AuthTables, now: int, presented: Presented, sid: nat) {
    exists k :: 0 <= k < |a.tokens| && presented == Signed(a.tokens[k].hash) && a.tokens[k].session == sid
        && UsableToken(a, now, a.tokens[k])
  }

  /** The bundle a good token loads. */
  lemma GoodBundle(a: AuthTables, now: int, life: nat, presented: Presented, sid: nat)
    requires Sound(a, now, life) && GoodFor(a, now, presented, sid)
    ensures DecodesAsRefresh(presented, now) && LoadRefreshBundle(a, now, presented.jwt).Some?
    ensures var t := a.tokens[LoadRefreshBundle(a, now, presented.jwt).value];
            t.session == sid && t.user == presented.jwt.sub == a.sessions[sid].user
  {
  }

  lemma LoadedIsGood(a: AuthTables, now: int, presented: Presented)
    requires presented.Signed? && LoadRefreshBundle(a, now, presented.jwt).Some?
    ensures GoodFor(a, now, presented, a.tokens[LoadRefreshBundle(a, now, presented.jwt).value].session)
  {
  }

  lemma LoadedOwner(a: AuthTables, now: int, life: nat, k: nat)
    requires Sound(a, now, life) && k < |a.tokens|
    ensures var t := a.tokens[k];
            t.session < |a.sessions| && t.user == a.sessions[t.session].user == t.hash.sub && t.session == t.hash.sid
  {
    assert TokenRow(a.sessions, a.tokens[k], k);
  }

  /** A refresh succeeds for a session exactly when the presented token is good for it and its user is not deleted. */
  lemma RefreshSucceedsExactly(r: Run, i: nat, presented: Presented, meta: Option<Meta>, sid: nat)
    requires IsRun(r) && i < |r.states|
    ensures var db := r.states[i];
            var reply := RefreshTokens(db.auth, db.users, db.now, db.settings.refreshLifetime, presented, meta).1;
            reply.Issued? && reply.session == sid <==>
            GoodFor(db.auth, db.now, presented, sid) && ActiveUser(db.users, db.auth.sessions[sid].user)
  {
    hide Sound, IsRun;
    var db := r.states[i];
    RunSound(r, i);
    if GoodFor(db.auth, db.now, presented, sid) {
      GoodBundle(db.auth, db.now, db.settings.refreshLifetime, presented, sid);
    }
    if presented.Signed? && LoadRefreshBundle(db.auth, db.now, presented.jwt).Some? {
      LoadedIsGood(db.auth, db.now, presented);
      LoadedOwner(db.auth, db.now, db.settings.refreshLifetime,
                  LoadRefreshBundle(db.auth, db.now, presented.jwt).value);
    }
  }

  /** Signing out closes exactly the sessions the presented token is good for. */
  lemma LogoutClosesExactly(r: Run, i: nat, presented: Presented, sid: nat)
    requires IsRun(r) && i < |r.states| && sid < |r.states[i].auth.sessions|
    ensures var db := r.states[i];
            var b := LogoutUser(db.auth, db.now, presented).0;
            && |b.sessions| == |db.auth.sessions|
            && (b.sessions[sid].Live() <==> db.auth.sessions[sid].Live() && !GoodFor(db.auth, db.now, presented, sid))
  {
    hide Sound, IsRun;
    var db := r.states[i];
    RunSound(r, i);
    if GoodFor(db.auth, db.now, presented, sid) {
      GoodBundle(db.auth, db.now, db.settings.refreshLifetime, presented, sid);
    }
    if presented.Signed? && LoadRefreshBundle(db.auth, db.now, presented.jwt).Some? {
      LoadedIsGood(db.auth, db.now, presented);
    }
  }

  /** Revoking a session from the security center closes exactly the caller's active sessions listed under the same
      title, the caller's own one excepted; it succeeds exactly when the named session is live, is the caller's,
      is not the current one, and some session is closed. */
  lemma RevokeSessionClosesExactly(a: AuthTables, now: int, user: nat, sid: nat, current: Option<nat>, x: nat)
    requires x < |a.sessions|
    ensures var (b, reply) := RevokeSecuritySession(a, now, user, sid, current);
            && |b.sessions| == |a.sessions|
            && (reply == Ok <==>
                  && current != Some(sid) && sid < |a.sessions| && a.sessions[sid].user == user
                      && a.sessions[sid].Live()
                  && exists y: nat :: SharesTitle(a, now, user, sid, current, y))
            && (b.sessions[x].Live() <==>
                  a.sessions[x].Live()
                  && !(reply == Ok && SharesTitle(a, now, user, sid, current, x)))
  {
    if current != Some(sid) && sid < |a.sessions| && a.sessions[sid].user == user && a.sessions[sid].Live() {
      var targets := SameName(a.sessions, LoadActiveSessions(a.sessions, user, now), DisplayName(a.sessions[sid]),
                              current);
      if targets != [] {
        assert targets[0] in targets;
        assert SharesTitle(a, now, user, sid, current, targets[0]);
      }
    }
  }

  predicate SharesTitle(a: AuthTables, now: int, user: nat, sid: nat, current: Option<nat>, x: nat) {
    && x < |a.sessions| && sid < |a.sessions| && IsActive(a.sessions[x], user, now)
    && DisplayName(a.sessions[x]) == DisplayName(a.sessions[sid]) && current != Some(x)
  }

  /** Revoking an application succeeds exactly when a consent is live; it then closes exactly the user's live sessions
      bound to the stripped client id, ends that consent at the instant of the call, and touches no other consent. */
  lemma RevokeApplicationClosesExactly(r: Run, i: nat, user: nat, client: string, x: nat)
    requires IsRun(r) && i < |r.states| && x < |r.states[i].auth.sessions|
    ensures var db := r.states[i];
            var (b, reply) := RevokeConsent(db.auth, db.now, user, client);
            && |b.sessions| == |db.auth.sessions| && |b.consents| == |db.auth.consents|
            && (reply == Ok <==> Authorized(db.auth.consents, user, Strip(client)))
            && (reply == Ok ==> !Authorized(b.consents, user, Strip(client)))
            && (b.sessions[x].Live() <==>
                  db.auth.sessions[x].Live()
                  && !(reply == Ok && BoundTo(db.auth.sessions[x], user, Strip(client))))
            && (forall j :: 0 <= j < |b.consents| ==>
                  b.consents[j] ==
                  if OfClient(db.auth.consents[j], user, Strip(client)) && db.auth.consents[j].revokedAt.None?
                  then db.auth.consents[j].(revokedAt := Some(db.now)) else db.auth.consents[j])
  {
    RunSound(r, i);
    FoundIfAuthorized(r.states[i].auth.consents, user, Strip(client));
  }

  predicate OfClient(c: Consent, user: nat, client: string) {
    c.user == user && c.client == client
  }

  lemma FoundIfAuthorized(consents: seq<Consent>, user: nat, client: string)
    ensures FindLiveConsent(consents, user, client).Some? <==> Authorized(consents, user, client)
  {
  }

  // ---------------------------------------------------------------- titles

  /** A session keeps its title through a refresh that brings no label and no user agent, and takes a new label. */
  lemma RefreshRetitles(a: AuthTables, now: int, life: nat, k: nat, meta: Meta)
    requires k < |a.tokens| && a.tokens[k].session < |a.sessions|
    ensures var sid := a.tokens[k].session;
            var b := Rotate(a, now, life, k, Some(meta));
            && |b.sessions| == |a.sessions|
            && (meta.deviceLabel.None? && meta.userAgent.None?
                ==> DisplayName(b.sessions[sid]) == DisplayName(a.sessions[sid]))
            && (meta.deviceLabel.Some? && Strip(meta.deviceLabel.value) != ""
                ==> DisplayName(b.sessions[sid]) == Strip(meta.deviceLabel.value))
  {
  }

  /** Call `i` of the run is an accepted refresh of session `sid` that brings a label or a user agent. */
  predicate Retitles(r: Run, i: nat, sid: nat)
    requires i < |r.calls| && |r.replies| == |r.calls|
  {
    && r.calls[i].RefreshCall? && r.replies[i].Issued? && r.replies[i].session == sid && r.calls[i].meta.Some?
    && (r.calls[i].meta.value.deviceLabel.Some? || r.calls[i].meta.value.userAgent.Some?)
  }

  lemma RefreshTitle(a: AuthTables, users: seq<User>, now: int, life: nat, presented: Presented, meta: Option<Meta>)
    requires RefreshTokens(a, users, now, life, presented, meta).1.Issued?
    requires meta.Some? ==> meta.value.deviceLabel.None? && meta.value.userAgent.None?
    ensures var (b, reply) := RefreshTokens(a, users, now, life, presented, meta);
            && reply.session < |a.sessions| == |b.sessions|
            && DisplayName(b.sessions[reply.session]) == DisplayName(a.sessions[reply.session])
  {
    var k := LoadRefreshBundle(a, now, presented.jwt).value;
    if meta.Some? {
      RefreshRetitles(a, now, life, k, meta.value);
    }
  }

  lemma StepTitle(r: Run, i: nat, sid: nat)
    requires IsRun(r) && i < |r.calls| && sid < |r.states[i].auth.sessions| && !Retitles(r, i, sid)
    ensures sid < |r.states[i + 1].auth.sessions|
    ensures DisplayName(r.states[i + 1].auth.sessions[sid]) == DisplayName(r.states[i].auth.sessions[sid])
  {
    var db := r.states[i];
    var ch := CallChange(r, i);
    if ch.Rotated? && r.replies[i].session == sid {
      assert Happens(r, i);
      RefreshTitle(db.auth, db.users, db.now, db.settings.refreshLifetime, r.calls[i].presented, r.calls[i].meta);
    }
  }

  /** A session keeps its title over any stretch of a run in which no accepted refresh of it brings a label or a user
      agent. */
  lemma {:induction false} TitleLasts(r: Run, i: nat, j: nat, sid: nat)
    requires IsRun(r) && i <= j < |r.states| && sid < |r.states[i].auth.sessions|
    requires forall m :: i <= m < j ==> !Retitles(r, m, sid)
    ensures sid < |r.states[j].auth.sessions|
    ensures DisplayName(r.states[j].auth.sessions[sid]) == DisplayName(r.states[i].auth.sessions[sid])
  {
    if i == j {
    } else {
      TitleLasts(r, i, j - 1, sid);
      StepTitle(r, j - 1, sid);
    }
  }

  /** A session opened by a device code is listed under the label the device gave when it started. */
  lemma DeviceSessionTitle(db: Db, client: string, deviceCode: string, meta: Option<Meta>)
    requires ExchangeDevice(db, client, deviceCode, meta).1.Issued?
    ensures var k := FindDeviceCode(db.devices, client, deviceCode);
            var (after, reply) := ExchangeDevice(db, client, deviceCode, meta);
            && k.Some? && reply.session == |db.auth.sessions| < |after.auth.sessions|
            && var given := db.devices[k.value].meta.deviceLabel;
               given.Some? && Strip(given.value) != "" ==>
                 DisplayName(after.auth.sessions[reply.session]) == Strip(given.value)
  {
  }

  /** A session opened by a device code is listed under the label the device gave in the call `s` that started its
      request, until a refresh brings another label or user agent. */
  lemma DeviceTitleLasts(r: Run, i: nat, j: nat) returns (s: nat)
    requires IsRun(r) && i < j < |r.states| && r.calls[i].DeviceExchange? && r.replies[i].Issued?
    requires forall m :: i < m < j ==> !Retitles(r, m, r.replies[i].session)
    ensures s < i && r.replies[s].Ok? && r.calls[s].DeviceStart?
    ensures r.calls[s].deviceCode == Strip(r.calls[i].deviceCode) && r.calls[s].client == r.calls[i].client
    ensures r.replies[i].session < |r.states[j].auth.sessions|
    ensures var given := r.calls[s].deviceMeta.deviceLabel;
            given.Some? && Strip(given.value) != "" ==>
              DisplayName(r.states[j].auth.sessions[r.replies[i].session]) == Strip(given.value)
  {
    var call := r.calls[i];
    assert Happens(r, i);
    DeviceSessionTitle(r.states[i], call.client, call.deviceCode, call.meta);
    s := RequestWasStarted(r, i, FindDeviceCode(r.states[i].devices, call.client, call.deviceCode).value);
    hide Step, IsRun, DisplayName;
    TitleLasts(r, i + 1, j, r.replies[i].session);
  }

  // ---------------------------------------------------------------- device codes

  /** What a polling device is told in a reachable state, by what has happened to its request: expired, undecided,
      denied, already used, or tokens; the third pending branch of the code is never taken. */
  lemma PollingReplies(r: Run, i: nat, client: string, deviceCode: string, meta: Option<Meta>)
    requires IsRun(r) && i < |r.states|
    ensures var db := r.states[i];
            var f := FindDeviceCode(db.devices, client, deviceCode);
            var reply := ExchangeDevice(db, client, deviceCode, meta).1;
            && (f.None? <==> reply == Failed(InvalidDeviceCode))
            && (f.Some? ==>
                  var d := db.devices[f.value];
                  && (reply == Failed(ExpiredToken) <==> d.expiresAt <= db.now)
                  && (reply == Failed(AuthorizationPending)
                      <==> db.now < d.expiresAt && d.approvedAt.None? && d.deniedAt.None?)
                  && (reply == Failed(AccessDenied) <==> db.now < d.expiresAt && d.deniedAt.Some?)
                  && (reply == Failed(DeviceCodeUsed) <==> db.now < d.expiresAt && d.consumedAt.Some?)
                  && (reply.Issued? <==> db.now < d.expiresAt && d.approvedAt.Some? && d.consumedAt.None?
                                         && d.approvedUser.Some? && ActiveUser(db.users, d.approvedUser.value)
                                             && Strip(d.client) != ""))
  {
    var db := r.states[i];
    RunDevicesSound(r, i);
    var f := FindDeviceCode(db.devices, client, deviceCode);
    if f.Some? {
      var d := db.devices[f.value];
      assert DeviceRow(d, db.now);
      if d.approvedUser.Some? {
        GrantSucceeds(db.auth, db.now, db.settings.refreshLifetime, d.approvedUser.value, client,
                      Join(NormalizeScopes(d.scope)), Some(DeviceMeta(d, meta)), "login.oauth.device");
      }
    }
  }

  lemma GrantSucceeds(a: AuthTables, now: int, life: nat, user: nat, client: string, scopes: string, meta: Option<Meta>,
                      how: string)
    ensures var reply := Grant(a, now, life, user, client, scopes, meta, how).1;
            if Strip(client) != "" then reply.Issued? && reply.user == user else reply == Failed(ClientRequired)
  {
  }

  /** A decision on a user code takes effect exactly when some request carries the code, has not expired, and has not
      been decided; an approval also needs a signed-in user. */
  lemma DecisionTakesEffect(r: Run, i: nat, userCode: string, user: Option<nat>, approve: bool)
    requires IsRun(r) && i < |r.states|
    ensures var db := r.states[i];
            ConfirmDevice(db, userCode, user, approve).1 == Ok <==>
            exists k :: 0 <= k < |db.devices| && Undecided(db.devices[k], Strip(Upper(userCode)), db.now)
                && (approve ==> user.Some?)
  {
    var db := r.states[i];
    RunDevicesSound(r, i);
    var f := FindUserCode(db.devices, userCode);
    if f.Some? {
      assert DeviceRow(db.devices[f.value], db.now);
    }
    forall k | 0 <= k < |db.devices| && Undecided(db.devices[k], Strip(Upper(userCode)), db.now)
      ensures f == Some(k) && db.devices[k].status == Pending
    {
      assert DeviceRow(db.devices[k], db.now);
    }
  }

  predicate Undecided(d: DeviceRequest, code: string, now: int) {
    d.userCode == code && now < d.expiresAt && d.approvedAt.None? && d.deniedAt.None?
  }

  // ---------------------------------------------------------------- authorization codes

  lemma {:induction false} ClientsStay(r: Run, i: nat, j: nat)
    requires IsRun(r) && i <= j < |r.states|
    ensures r.states[i].clients == r.states[j].clients
  {
    if i == j {
    } else {
      ClientsStay(r, i, j - 1);
      assert Happens(r, j - 1);
      StepClients(r.states[j - 1], r.calls[j - 1]);
    }
  }

  lemma StepClients(db: Db, call: Call)
    ensures Step(db, call).0.clients == db.clients
  {
  }

  predicate ServesRedirect(db: Db, client: string, redirectUri: string) {
    client in db.clients && db.clients[client].active && Lists(db.clients[client].redirectUris, redirectUri)
  }

  /** A code is granted exactly for a request with a challenge, the openid scope and only allowed scopes, to an active
      client at one of its registered URIs. The code carries the request. */
  lemma AuthorizesExactly(db: Db, user: nat, client: string, redirectUri: string, scope: string, challenge: string,
                          pkceMethod: string)
    ensures var answer := Authorize(db, user, client, redirectUri, scope, challenge, pkceMethod);
            var asked := NormalizeScopes(scope);
            && (answer.Granted? <==>
                  && ServesRedirect(db, client, redirectUri) && challenge != "" && "openid" in asked
                  && forall w :: w in asked ==> ListsVerbatim(db.clients[client].allowedScopes, w))
            && (answer.Granted? ==>
                  answer.code == AuthCode(user, client, redirectUri, challenge, pkceMethod, Join(asked),
                                          db.now + 300))
  {
    var asked := NormalizeScopes(scope);
    if client in db.clients {
      ColumnReads(db.clients[client].redirectUris, redirectUri);
    }
    if ServesRedirect(db, client, redirectUri) {
      var allowed := LoadListVerbatim(db.clients[client].allowedScopes);
      assert (forall w :: w in asked ==> w in allowed) <==> Elements(asked) <= Elements(allowed) by {
        forall w | w in asked ensures w in Elements(asked) {
        }
      }
      forall w: string ensures w in allowed <==> ListsVerbatim(db.clients[client].allowedScopes, w) {
        VerbatimReads(db.clients[client].allowedScopes, w);
      }
    }
  }

  /** A code is exchanged exactly when it is genuine, unexpired, and presented by its client with its redirect URI and a
      matching verifier, the client still serves the URI, and the user is active. */
  lemma ExchangesExactly(db: Db, code: AuthCode, client: string, redirectUri: string, verifier: string,
                         verifierHash: string, meta: Option<Meta>)
    ensures var reply := ExchangeCode(db, Some(code), client, redirectUri, verifier, verifierHash, meta).1;
            reply.Issued? <==>
              && code.client == client && code.redirectUri == redirectUri && db.now <= code.exp
              && ServesRedirect(db, client, redirectUri) && Strip(client) != ""
              && code.challenge != ""
              && (if code.pkceMethod == "plain" then verifier == code.challenge
                  else (code.pkceMethod == "" || code.pkceMethod == "S256") && verifierHash == code.challenge)
              && ActiveUser(db.users, code.user)
  {
    if client in db.clients {
      ColumnReads(db.clients[client].redirectUris, redirectUri);
    }
  }

  /** A code granted at one point of a run is exchanged at a later one exactly when the same redirect URI and a
      matching verifier are presented within the code's lifetime, the user is still active and the id is not blank. */
  lemma GrantedCodeExchanges(r: Run, i: nat, n: nat, user: nat, client: string, redirectUri: string, scope: string,
                             challenge: string, pkceMethod: string, code: AuthCode, redirectUri': string,
                             verifier: string, verifierHash: string, meta: Option<Meta>)
    requires IsRun(r) && i <= n < |r.states|
    ensures var db := r.states[n];
            var reply := ExchangeCode(db, Some(code), client, redirectUri', verifier, verifierHash, meta).1;
            Authorize(r.states[i], user, client, redirectUri, scope, challenge, pkceMethod) == Granted(code) ==>
            (reply.Issued? <==>
              && db.now <= r.states[i].now + 300
              && redirectUri' == redirectUri
              && (if pkceMethod == "plain" then verifier == challenge
                  else (pkceMethod == "" || pkceMethod == "S256") && verifierHash == challenge)
              && ActiveUser(db.users, user) && Strip(client) != "")
  {
    ClientsStay(r, i, n);
    var db := r.states[n];
    ExchangesExactly(db, code, client, redirectUri', verifier, verifierHash, meta);
  }

  // ---------------------------------------------------------------- email codes

  lemma {:induction false} SentByNow(codes: seq<EmailCode>, key: Key, start: int, now: int)
    requires forall i :: 0 <= i < |codes| ==> codes[i].sentAt <= now
    ensures CountSince(codes, key, start) == CountIn(codes, key, start, now)
  {
    if codes == [] {
    } else {
      SentByNow(codes[..|codes| - 1], key, start, now);
    }
  }

  /** A code that is sent counts from then on against its address and, when there is one, against its source. */
  lemma SendingCounts(db: Db, email: string, ip: Option<string>, code: string, delivered: bool, key: Key, start: int)
    requires start <= db.now
    ensures var (after, reply) := StartEmail(db, email, ip, code, delivered);
            CountIn(after.codes, key, start, db.now) - CountIn(db.codes, key, start, db.now)
            == if reply == Ok && (key == ByEmail(NormalizeEmail(email)) || (ip.Some? && key == ByIp(ip.value))) then 1
                else 0
  {
  }

  /** A code is sent exactly when the window ending now holds fewer codes than each limit, every pending code of the
      address is at least the resend interval old, and the mail goes out; it then counts against both limits. */
  lemma SendsExactly(r: Run, i: nat, email: string, ip: Option<string>, code: string, delivered: bool)
    requires IsRun(r) && i < |r.states|
    ensures var db := r.states[i];
            var start, address := db.now - db.settings.window, NormalizeEmail(email);
            StartEmail(db, email, ip, code, delivered).1 == Ok <==>
              && CountIn(db.codes, ByEmail(address), start, db.now) < db.settings.perEmail
              && (ip.Some? && ip.value != "" ==> CountIn(db.codes, ByIp(ip.value), start, db.now) < db.settings.perIp)
              && (forall k ::
                    0 <= k < |db.codes| && IsPending(db.codes[k], address)
                    ==> db.now - db.codes[k].sentAt >= db.settings.resendGap)
              && delivered
    ensures var (after, reply) := StartEmail(r.states[i], email, ip, code, delivered);
            var start, now := r.states[i].now - r.states[i].settings.window, r.states[i].now;
            forall key :: CountIn(after.codes, key, start, now) - CountIn(r.states[i].codes, key, start, now)
                          == if reply == Ok && (key == ByEmail(NormalizeEmail(email))
                              || (ip.Some? && key == ByIp(ip.value)))
                             then 1 else 0
  {
    var db := r.states[i];
    RunCodesSound(r, i);
    forall k | 0 <= k < |db.codes| ensures db.codes[k].sentAt <= db.now {
      assert CodeRow(db.codes[k], db.now, db.settings);
    }
    SentByNow(db.codes, ByEmail(NormalizeEmail(email)), db.now - db.settings.window, db.now);
    if ip.Some? {
      SentByNow(db.codes, ByIp(ip.value), db.now - db.settings.window, db.now);
    }
    var (after, reply) := StartEmail(db, email, ip, code, delivered);
    var start := db.now - db.settings.window;
    forall key: Key
      ensures CountIn(after.codes, key, start, db.now) - CountIn(db.codes, key, start, db.now)
              == if reply == Ok && (key == ByEmail(NormalizeEmail(email)) || (ip.Some? && key == ByIp(ip.value))) then 1
                  else 0
    {
      SendingCounts(db, email, ip, code, delivered, key, start);
    }
  }

  /** A code signs its address in exactly when it is the latest pending one, has not expired and matches, and the
      address does not belong to a deleted user only. */
  lemma VerifiesExactly(r: Run, i: nat, email: string, submitted: string, meta: Option<Meta>)
    requires IsRun(r) && i < |r.states|
    ensures var db := r.states[i];
            var address := NormalizeEmail(email);
            VerifyEmail(db, email, submitted, meta).1.Issued? <==>
            var k := LatestPending(db.codes, address);
            && k.Some? && db.now < db.codes[k.value].expiresAt && Strip(submitted) == db.codes[k.value].code
            && (EmailStored(db.users, address) ==> UserByEmail(db.users, address).Some?)
  {
    var db := r.states[i];
    RunCodesSound(r, i);
    var k := LatestPending(db.codes, NormalizeEmail(email));
    if k.Some? {
      assert CodeRow(db.codes[k.value], db.now, db.settings);
    }
  }
}
