/** Which error a refused call reports, in reachable states. */
module Refusals {
  import opened Columns
  import opened ConsentAgreement
  import opened DeviceSafety
  import opened EmailCodes
  import opened EmailLimits
  import opened Grants
  import opened Outcomes
  import opened Reachable
  import opened Scopes
  import opened Service
  import opened Sessions
  import opened Tables
  import opened Text

  /** A text the server signed as a refresh token and that has not run out. */
  predicate Readable(presented: Presented, now: int) {
    presented.Signed? && presented.jwt.use == Refresh && now <= presented.jwt.exp
  }

  /** A registration is refused as taken when an active account has the email, and fails when a deleted one has it. */
  lemma RegisterRefused(db: Db, email: string, meta: Option<Meta>)
    ensures var reply := RegisterUser(db, email, meta).1;
            var active := exists u: nat :: ActiveUser(db.users, u) && db.users[u].email == Lower(email);
            && (reply == Failed(EmailTaken) <==> active)
            && (reply == Failed(IntegrityFailure) <==> !active && EmailStored(db.users, Lower(email)))
            && (reply.Issued? <==> !EmailStored(db.users, Lower(email)))
  {
    AccountFound(db.users, Lower(email));
    hide Lower, UserByEmail;
  }

  lemma AccountFound(users: seq<User>, email: string)
    ensures UserByEmail(users, email).Some? <==> exists u: nat :: ActiveUser(users, u) && users[u].email == email
    ensures UserByEmail(users, email).Some? ==> EmailStored(users, email)
  {
    if u: nat :| ActiveUser(users, u) && users[u].email == email {
      assert users[u].email == email && !users[u].deleted;
    }
  }

  /** A password sign-in is refused with one error, whatever the reason. */
  lemma LoginRefused(db: Db, email: string, matches: bool, meta: Option<Meta>)
    ensures var reply := LoginUser(db, email, matches, meta).1;
            reply.Issued? || reply == Failed(InvalidCredentials)
  {
    hide Lower;
  }

  /** A refresh is refused as invalid when the text is not an unexpired refresh token of this server; as rejected when
      it is good for no session; and for a missing user when the session's user is deleted. */
  lemma RefreshRefused(r: Run, i: nat, presented: Presented, meta: Option<Meta>)
    requires IsRun(r) && i < |r.states|
    ensures var db := r.states[i];
            var reply := RefreshTokens(db.auth, db.users, db.now, db.settings.refreshLifetime, presented, meta).1;
            && (reply == Failed(InvalidToken) <==> !Readable(presented, db.now))
            && (reply == Failed(RefreshRejected) <==>
                  Readable(presented, db.now) && forall sid: nat :: !GoodFor(db.auth, db.now, presented, sid))
            && (reply == Failed(UserNotFound) <==>
                  exists sid: nat ::
                    GoodFor(db.auth, db.now, presented, sid) && !ActiveUser(db.users, db.auth.sessions[sid].user))
            && (reply.Issued? || reply in {Failed(InvalidToken), Failed(RefreshRejected), Failed(UserNotFound)})
  {
    hide Sound, IsRun;
    var db := r.states[i];
    RunSound(r, i);
    forall sid: nat | GoodFor(db.auth, db.now, presented, sid)
      ensures DecodesAsRefresh(presented, db.now) && LoadRefreshBundle(db.auth, db.now, presented.jwt).Some?
      ensures var t := db.auth.tokens[LoadRefreshBundle(db.auth, db.now, presented.jwt).value];
              t.session == sid && t.user == presented.jwt.sub == db.auth.sessions[sid].user
    {
      GoodBundle(db.auth, db.now, db.settings.refreshLifetime, presented, sid);
    }
    if presented.Signed? && LoadRefreshBundle(db.auth, db.now, presented.jwt).Some? {
      var k := LoadRefreshBundle(db.auth, db.now, presented.jwt).value;
      LoadedIsGood(db.auth, db.now, presented);
      LoadedOwner(db.auth, db.now, db.settings.refreshLifetime, k);
    }
    hide GoodFor, LoadRefreshBundle;
  }

  /** Signing out is refused only for a text that is not an unexpired refresh token of this server. */
  lemma LogoutRefused(a: AuthTables, now: int, presented: Presented)
    ensures LogoutUser(a, now, presented).1 == if Readable(presented, now) then Ok else Failed(InvalidToken)
  {
  }

  /** Revoking the session one is using is refused as such; anything else that closes nothing is not found. */
  lemma RevokeSessionRefused(a: AuthTables, now: int, user: nat, sid: nat, current: Option<nat>)
    ensures var reply := RevokeSecuritySession(a, now, user, sid, current).1;
            && (reply == Failed(CurrentSession) <==> current == Some(sid))
            && (reply == Ok || reply == Failed(CurrentSession) || reply == Failed(SessionNotFound))
  {
    hide LoadActiveSessions, SameName, DisplayName;
  }

  lemma RevokeApplicationRefused(a: AuthTables, now: int, user: nat, client: string)
    ensures RevokeConsent(a, now, user, client).1
            == if Authorized(a.consents, user, Strip(client)) then Ok else Failed(ConsentNotFound)
  {
    FoundIfAuthorized(a.consents, user, Strip(client));
  }

  /** The redirect checks both ends of the code grant make. */
  predicate RedirectRefusal(db: Db, client: string, redirectUri: string, error: Error) {
    && (error == UnknownClient ==> client !in db.clients)
    && (error == InvalidRedirectUri ==> client in db.clients && !Lists(db.clients[client].redirectUris, redirectUri))
    && (error == ClientDisabled ==>
          client in db.clients && Lists(db.clients[client].redirectUris, redirectUri) && !db.clients[client].active)
  }

  lemma RedirectRefused(db: Db, client: string, redirectUri: string)
    ensures match ValidateRedirectUri(db, client, redirectUri)
            case None => ServesRedirect(db, client, redirectUri)
            case Some(e) => e in {UnknownClient, InvalidRedirectUri, ClientDisabled}
                            && RedirectRefusal(db, client, redirectUri, e)
  {
    if client in db.clients {
      ColumnReads(db.clients[client].redirectUris, redirectUri);
    }
  }

  /** Why no code is granted: the first of these checks that fails. */
  lemma AuthorizeRefused(db: Db, user: nat, client: string, redirectUri: string, scope: string, challenge: string,
                         pkceMethod: string)
    requires Authorize(db, user, client, redirectUri, scope, challenge, pkceMethod).Refused?
    ensures var error, asked := Authorize(db, user, client, redirectUri, scope, challenge, pkceMethod).error,
                                NormalizeScopes(scope);
            && (error == ScopeRequired <==> "openid" !in asked)
            && (error != ScopeRequired ==> RedirectRefusal(db, client, redirectUri, error))
            && (error == ScopeNotAllowed ==>
                  ServesRedirect(db, client, redirectUri)
                  && exists w :: w in asked && !ListsVerbatim(db.clients[client].allowedScopes, w))
            && (error == MissingChallenge ==> ServesRedirect(db, client, redirectUri) && challenge == "")
            && error in {ScopeRequired, UnknownClient, InvalidRedirectUri, ClientDisabled, ScopeNotAllowed,
                         MissingChallenge}
  {
    var asked := NormalizeScopes(scope);
    RedirectRefused(db, client, redirectUri);
    if client in db.clients && ValidateScopes(db, client, asked).Some? {
      var allowed := db.clients[client].allowedScopes;
      var w :| w in asked && w !in LoadListVerbatim(allowed);
      VerbatimReads(allowed, w);
    }
    hide RedirectRefusal, ServesRedirect, ListsVerbatim;
  }

  /** Why a code is not exchanged: it is not this server's, this client's or has run out; then the redirect URI; then
      the verifier; then the user; then a blank client id. */
  lemma ExchangeRefused(db: Db, code: Option<AuthCode>, client: string, redirectUri: string, verifier: string,
                        verifierHash: string, meta: Option<Meta>)
    requires ExchangeCode(db, code, client, redirectUri, verifier, verifierHash, meta).1.Failed?
    ensures var error := ExchangeCode(db, code, client, redirectUri, verifier, verifierHash, meta).1.error;
            && (error == InvalidAuthorizationCode <==>
                  code.None? || code.value.client != client || code.value.exp < db.now)
            && (error == UnknownClient || error == ClientDisabled ==> RedirectRefusal(db, client, redirectUri, error))
            && (error == InvalidRedirectUri ==>
                  code.Some? && (code.value.redirectUri != redirectUri
                      || RedirectRefusal(db, client, redirectUri, error)))
            && (error == MissingChallenge ==> code.Some? && code.value.challenge == "")
            && (error == UnsupportedChallenge ==>
                  code.Some? && code.value.pkceMethod !in {"", "S256", "plain"})
            && (error == InvalidVerifier ==>
                  code.Some?
                  && (if code.value.pkceMethod == "plain" then verifier else verifierHash) != code.value.challenge)
            && (error == UserNotFound ==> code.Some? && !ActiveUser(db.users, code.value.user))
            && (error == ClientRequired ==> Strip(client) == "")
            && error in {InvalidAuthorizationCode, UnknownClient, ClientDisabled, InvalidRedirectUri, MissingChallenge,
                         UnsupportedChallenge, InvalidVerifier, UserNotFound, ClientRequired}
  {
    RedirectRefused(db, client, redirectUri);
    if code.Some? {
      GrantSucceeds(db.auth, db.now, db.settings.refreshLifetime, code.value.user, client,
                    Join(NormalizeScopes(code.value.scope)), meta, "login.oauth.code");
    }
    hide Grant, RedirectRefusal, ServesRedirect, ValidateRedirectUri, NormalizeScopes, Join;
  }

  /** Why a decision is refused, by the request that carries the user code. */
  lemma DecisionRefused(r: Run, i: nat, userCode: string, user: Option<nat>, approve: bool)
    requires IsRun(r) && i < |r.states|
    ensures var db, reply := r.states[i], ConfirmDevice(r.states[i], userCode, user, approve).1;
            var code := Strip(Upper(userCode));
            && (reply == Failed(InvalidUserCode) <==>
                  forall k :: 0 <= k < |db.devices| ==> db.devices[k].userCode != code)
            && (forall k :: 0 <= k < |db.devices| && db.devices[k].userCode == code ==>
                  var d := db.devices[k];
                  && (reply == Failed(ExpiredDeviceCode) <==> d.expiresAt <= db.now)
                  && (reply == Failed(DeviceCodeUsed) <==>
                        db.now < d.expiresAt && (d.approvedAt.Some? || d.deniedAt.Some?))
                  && (reply == Failed(LoginRequired) <==> Undecided(d, code, db.now) && approve && user.None?))
  {
    var db := r.states[i];
    RunDevicesSound(r, i);
    var f := FindUserCode(db.devices, userCode);
    forall k | 0 <= k < |db.devices| && db.devices[k].userCode == Strip(Upper(userCode))
      ensures f == Some(k) && DeviceRow(db.devices[k], db.now)
    {
    }
    hide IsRun, Strip, Upper, FindUserCode;
  }

  /** Why a code is not sent: the address limit, then the limit of the source, then the resend interval, then the
      mail. */
  lemma SendingRefused(r: Run, i: nat, email: string, ip: Option<string>, code: string, delivered: bool)
    requires IsRun(r) && i < |r.states|
    ensures var db, reply := r.states[i], StartEmail(r.states[i], email, ip, code, delivered).1;
            var start, address := db.now - db.settings.window, NormalizeEmail(email);
            var tooMany := CountIn(db.codes, ByEmail(address), start, db.now) >= db.settings.perEmail;
            var source := ip.Some? && ip.value != ""
                          && CountIn(db.codes, ByIp(ip.value), start, db.now) >= db.settings.perIp;
            var recent := exists k :: 0 <= k < |db.codes| && IsPending(db.codes[k], address)
                                      && db.now - db.codes[k].sentAt < db.settings.resendGap;
            && (reply == Failed(EmailRateLimited) <==> tooMany)
            && (reply == Failed(IpRateLimited) <==> !tooMany && source)
            && (reply == Failed(SentTooRecently) <==> !tooMany && !source && recent)
            && (reply == Failed(DeliveryFailed) <==> !tooMany && !source && !recent && !delivered)
  {
    var db := r.states[i];
    RunCodesSound(r, i);
    forall k | 0 <= k < |db.codes| ensures db.codes[k].sentAt <= db.now {
      assert CodeRow(db.codes[k], db.now, db.settings);
    }
    SentByNow(db.codes, ByEmail(NormalizeEmail(email)), db.now - db.settings.window, db.now);
    if ip.Some? {
      SentByNow(db.codes, ByIp(ip.value), db.now - db.settings.window, db.now);
    }
    hide IsRun, CountIn, CountSince, NormalizeEmail;
  }

  /** Why a code does not sign in: nothing is pending or it has run out; the text is wrong, for the last time or not; or
      the address belongs to a deleted account only. */
  lemma VerificationRefused(r: Run, i: nat, email: string, submitted: string, meta: Option<Meta>)
    requires IsRun(r) && i < |r.states|
    ensures var db, reply := r.states[i], VerifyEmail(r.states[i], email, submitted, meta).1;
            var k := LatestPending(db.codes, NormalizeEmail(email));
            var gone := k.None? || db.codes[k.value].expiresAt <= db.now;
            && (reply == Failed(CodeNotFound) <==> gone)
            && (!gone ==>
                  var c := db.codes[k.value];
                  && (reply == Failed(TooManyAttempts) <==>
                        Strip(submitted) != c.code && c.attempts + 1 == db.settings.maxAttempts)
                  && (reply == Failed(InvalidCode) <==>
                        Strip(submitted) != c.code && c.attempts + 1 < db.settings.maxAttempts)
                  && (reply == Failed(IntegrityFailure) ==>
                        Strip(submitted) == c.code && EmailStored(db.users, NormalizeEmail(email))))
  {
    var db := r.states[i];
    RunCodesSound(r, i);
    var k := LatestPending(db.codes, NormalizeEmail(email));
    if k.Some? {
      assert CodeRow(db.codes[k.value], db.now, db.settings);
    }
    hide IsRun, LatestPending, NormalizeEmail, Strip;
  }
}
