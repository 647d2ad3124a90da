/** Consents and the sessions they authorize, over whole runs. */
module ConsentTheorems {
  import opened Columns
  import opened ConsentAgreement
  import opened Grants
  import Ordered
  import opened Reachable
  import opened Scopes
  import opened Service
  import opened Sessions
  import opened Tables
  import opened Text

  /** In every reachable state each live session bound to a client id without surrounding space has a live consent
      of its user for that client. */
  lemma SessionsAreConsented(r: Run, i: nat, sid: nat)
    requires IsRun(r) && i < |r.states| && sid < |r.states[i].auth.sessions|
    requires var s := r.states[i].auth.sessions[sid]; s.Live() && s.client.Some? && Trimmed(s.client.value)
    ensures var s := r.states[i].auth.sessions[sid]; Authorized(r.states[i].auth.consents, s.user, s.client.value)
  {
    RunSound(r, i);
    assert Backed(r.states[i].auth.consents, r.states[i].auth.sessions[sid]);
  }

  /** Consent rows stay unique per user and client, and are never used before they are authorized. */
  lemma ConsentRowsStayUnique(r: Run, i: nat, j: nat, k: nat)
    requires IsRun(r) && i < |r.states| && j < |r.states[i].auth.consents| && k < |r.states[i].auth.consents|
    ensures var cs := r.states[i].auth.consents;
            && (cs[j].user == cs[k].user && cs[j].client == cs[k].client ==> j == k)
            && cs[j].authorizedAt <= cs[j].lastUsedAt <= r.states[i].now
  {
    RunSound(r, i);
    assert ConsentRow(r.states[i].auth.consents[j], r.states[i].now);
  }

  // ---------------------------------------------------------------- padded client ids

  /** In every run, every live session bound to exactly `client` has a live consent for the stripped id. */
  ghost predicate AlwaysConsented(client: string) {
    forall r: Run, i: nat, sid: nat ::
      IsRun(r) && i < |r.states| && sid < |r.states[i].auth.sessions|
      && r.states[i].auth.sessions[sid].Live() && r.states[i].auth.sessions[sid].client == Some(client)
      ==> Authorized(r.states[i].auth.consents, r.states[i].auth.sessions[sid].user, Strip(client))
  }

  /** The agreement holds for a client id exactly when the id carries no surrounding space: sessions keep the id as
      presented, consents and their revocation use the stripped one. */
  lemma AgreementNeedsTrimmedIds(client: string)
    requires Strip(client) != ""
    ensures AlwaysConsented(client) <==> Trimmed(client)
  {
    StripFixpoint(client);
    if Trimmed(client) {
      forall r: Run, i: nat, sid: nat |
        IsRun(r) && i < |r.states| && sid < |r.states[i].auth.sessions|
        && r.states[i].auth.sessions[sid].Live() && r.states[i].auth.sessions[sid].client == Some(client)
        ensures Authorized(r.states[i].auth.consents, r.states[i].auth.sessions[sid].user, Strip(client))
      {
        SessionsAreConsented(r, i, sid);
      }
    } else {
      var r := OrphanRun(client);
      assert !Authorized(r.states[4].auth.consents, r.states[4].auth.sessions[0].user, Strip(client));
    }
  }

  function OrphanStart(): Db {
    Db(Settings(1, 1, 1, 1, 1, 1, 1), 0, [User("u", false)], map[], AuthTables([], [], [], []), [], [])
  }

  /** A device sign-in for a padded client id whose application is then revoked: the session survives. */
  lemma OrphanRun(client: string) returns (r: Run)
    requires Strip(client) != "" && Strip(client) != client
    ensures IsRun(r) && |r.states| == 5 && |r.states[4].auth.sessions| == 1
    ensures r.states[4].auth.sessions[0].Live() && r.states[4].auth.sessions[0].client == Some(client)
    ensures !Authorized(r.states[4].auth.consents, r.states[4].auth.sessions[0].user, Strip(client))
  {
    r := OrphanSignedIn(client, "");
    var before := r.states[3];
    r := Continue(r, RevokeApplication(0, client));
    OrphanSurvives(client, before, r.states[4]);
  }

  lemma OrphanApproved(client: string, scope: string) returns (r: Run)
    ensures IsRun(r) && |r.states| == 3 && ApprovedDevice(client, scope, r.states[2])
  {
    r := Run([OrphanStart()], [], []);
    r := Continue(r, DeviceStart(client, scope, NoMeta, "D", "U"));
    var started := r.states[1];
    r := Continue(r, DeviceConfirm("U", Some(0), true));
    OrphanDevice(client, scope, started, r.states[2]);
  }

  lemma OrphanSignedIn(client: string, scope: string) returns (r: Run)
    requires Strip(client) != ""
    ensures IsRun(r) && |r.states| == 4 && SignedIn(client, r.states[3].auth)
  {
    r := OrphanApproved(client, scope);
    OrphanSession(client, scope, r.states[2]);
    r := Continue(r, DeviceExchange(client, "D", None));
  }

  predicate ApprovedDevice(client: string, scope: string, db: Db) {
    && db.auth == AuthTables([], [], [], []) && db.now == 0 && db.users == [User("u", false)]
        && db.settings.refreshLifetime == 1
    && db.devices == [DeviceRequest("D", "U", client, scope, NoMeta, 0, DEVICE_LIFETIME, Approved, Some(0), Some(0),
                                    None, None)]
  }

  predicate SignedIn(client: string, a: AuthTables) {
    && |a.sessions| == 1 && a.sessions[0].Live() && a.sessions[0].client == Some(client) && a.sessions[0].user == 0
    && |a.consents| == 1 && a.consents[0].user == 0 && a.consents[0].client == Strip(client)
        && a.consents[0].revokedAt == None
  }

  lemma OrphanSurvives(client: string, db3: Db, db4: Db)
    requires Strip(client) != client && SignedIn(client, db3.auth)
    requires db4.auth == RevokeConsent(db3.auth, db3.now, 0, client).0
    ensures |db4.auth.sessions| == 1 && db4.auth.sessions[0] == db3.auth.sessions[0]
    ensures !Authorized(db4.auth.consents, 0, Strip(client))
  {
  }

  lemma OrphanDevice(client: string, scope: string, db1: Db, db2: Db)
    requires db1 == StartDevice(OrphanStart(), client, scope, NoMeta, "D", "U").0
    requires db2 == ConfirmDevice(db1, "U", Some(0), true).0
    ensures ApprovedDevice(client, scope, db2)
  {
  }

  lemma OrphanSession(client: string, scope: string, db2: Db)
    requires Strip(client) != "" && ApprovedDevice(client, scope, db2)
    ensures SignedIn(client, Step(db2, DeviceExchange(client, "D", None)).0.auth)
  {
    StripFixpoint("D");
    var d := db2.devices[0];
    assert FindDeviceCode(db2.devices, client, "D") == Some(0);
    OrphanGrant(client, Join(NormalizeScopes(scope)), Some(DeviceMeta(d, None)), db2.auth);
  }

  lemma OrphanGrant(client: string, scopes: string, meta: Option<Meta>, a: AuthTables)
    requires Strip(client) != "" && a == AuthTables([], [], [], [])
    ensures var (b, reply) := Grant(a, 0, 1, 0, client, scopes, meta, "login.oauth.device");
            reply.Issued?
            && SignedIn(client, b)
  {
  }

  // ---------------------------------------------------------------- scopes

  /** A grant leaves exactly one consent for its user and client: live, used now, listing the granted scopes (an empty
      grant keeps those of the row), and authorized when it last became live. No other consent changes. */
  lemma GrantRecords(a: AuthTables, now: int, life: nat, user: nat, client: string, scopes: string, meta: Option<Meta>,
                     how: string)
    requires UniqueConsents(a.consents)
    requires Grant(a, now, life, user, client, scopes, meta, how).1.Issued?
    ensures var cs := Grant(a, now, life, user, client, scopes, meta, how).0.consents;
            && Authorized(cs, user, Strip(client))
            && |a.consents| <= |cs|
            && forall i :: 0 <= i < |cs| ==>
                 if cs[i].user == user && cs[i].client == Strip(client)
                 then && cs[i].revokedAt.None? && cs[i].lastUsedAt == now
                      && (scopes != "" ==> cs[i].scopes == scopes)
                      && (if i < |a.consents| then scopes == "" ==> cs[i].scopes == a.consents[i].scopes
                          else scopes == "" ==> cs[i].scopes == "openid profile email")
                      && cs[i].authorizedAt == (if i < |a.consents| && a.consents[i].revokedAt.None?
                          then a.consents[i].authorizedAt else now)
                 else i < |a.consents| && cs[i] == a.consents[i]
  {
    FindConsentFinds(a.consents, user, Strip(client));
    var b := UpsertConsent(a, now, user, client, scopes).value;
    SignInRows(b, SignIn(b, now, life, user, Some(client), meta, how).0, now, life, user, Some(client), meta, how);
    var f := FindConsent(a.consents, user, Strip(client));
    var k := if f.Some? then f.value else |a.consents|;
    assert b.consents[k].user == user && b.consents[k].client == Strip(client);
  }

  /** What an authorization code carries: the scopes that were checked, all of them allowed to the client. */
  lemma AuthorizedScopes(db: Db, user: nat, client: string, redirectUri: string, scope: string, challenge: string,
                         pkceMethod: string, code: AuthCode)
    requires Authorize(db, user, client, redirectUri, scope, challenge, pkceMethod) == Granted(code)
    ensures code.user == user && code.client == client
    ensures NormalizeScopes(code.scope) == NormalizeScopes(scope) && NormalizeScopes(scope) != []
    ensures client in db.clients
    ensures forall w :: w in NormalizeScopes(scope) ==> ListsVerbatim(db.clients[client].allowedScopes, w)
  {
    var items := NormalizeScopes(scope);
    ScopeRoundTrip(scope);
    forall w | w in items ensures ListsVerbatim(db.clients[client].allowedScopes, w) {
      assert w in Ordered.Elements(items);
      VerbatimReads(db.clients[client].allowedScopes, w);
    }
  }

  /** The consent a code exchange records parses to the scopes of the code. */
  lemma ExchangeRecords(db: Db, code: AuthCode, client: string, redirectUri: string, verifier: string,
                        verifierHash: string, meta: Option<Meta>)
    requires UniqueConsents(db.auth.consents) && NormalizeScopes(code.scope) != []
    requires ExchangeCode(db, Some(code), client, redirectUri, verifier, verifierHash, meta).1.Issued?
    ensures var cs := ExchangeCode(db, Some(code), client, redirectUri, verifier, verifierHash, meta).0.auth.consents;
            && Authorized(cs, code.user, Strip(client))
            && forall i :: 0 <= i < |cs| && cs[i].user == code.user && cs[i].client == Strip(client) ==>
                 NormalizeScopes(cs[i].scopes) == NormalizeScopes(code.scope)
  {
    ScopeRoundTrip(code.scope);
    assert NormalizeScopes(code.scope)[0] <= Join(NormalizeScopes(code.scope));
    GrantRecords(db.auth, db.now, db.settings.refreshLifetime, code.user, client,
                 Join(NormalizeScopes(code.scope)), meta, "login.oauth.code");
  }

  /** The consent a code exchange records, however much later, lists exactly the scopes the authorization endpoint
      checked, all of them allowed to the client then. */
  lemma ExchangedScopesWereAllowed(before: Db, r: Run, n: nat, user: nat, client: string, redirectUri: string,
                                   scope: string, challenge: string, pkceMethod: string, code: AuthCode,
                                   redirectUri': string, verifier: string, verifierHash: string, meta: Option<Meta>)
    requires IsRun(r) && n < |r.states|
    ensures var (after, reply) := ExchangeCode(r.states[n], Some(code), client, redirectUri', verifier, verifierHash,
                                               meta);
            var cs := after.auth.consents;
            Authorize(before, user, client, redirectUri, scope, challenge, pkceMethod) == Granted(code)
                && reply.Issued? ==>
              && client in before.clients && Authorized(cs, user, Strip(client))
              && forall i :: 0 <= i < |cs| && cs[i].user == user && cs[i].client == Strip(client) ==>
                   && NormalizeScopes(cs[i].scopes) == NormalizeScopes(scope)
                   && forall w :: w in NormalizeScopes(cs[i].scopes) ==>
                        ListsVerbatim(before.clients[client].allowedScopes, w)
  {
    var reply := ExchangeCode(r.states[n], Some(code), client, redirectUri', verifier, verifierHash, meta).1;
    if Authorize(before, user, client, redirectUri, scope, challenge, pkceMethod) == Granted(code) && reply.Issued? {
      RunSound(r, n);
      AuthorizedScopes(before, user, client, redirectUri, scope, challenge, pkceMethod, code);
      ExchangeRecords(r.states[n], code, client, redirectUri', verifier, verifierHash, meta);
    }
  }
}
