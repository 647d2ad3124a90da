/** The service layer as one mutable store: a field per table, a method per service call. Every method is proved to
    do exactly what `Service.Step` says, so all theorems about runs are theorems about sequences of these calls. */
module AuthStore {
  import opened DeviceSafety
  import opened DeviceView
  import opened EmailCodes
  import opened EmailLimits
  import opened Grants
  import opened OptimisticRefinement
  import opened Ordered
  import opened Reachable
  import opened Service
  import opened Sessions
  import opened Tables
  import opened Text
  import Scopes

  /** Everything the calls keep between them. */
  ghost predicate Invariant(db: Db) {
    SoundDb(db) && CodesSound(db) && DevicesSound(db.devices, db.now)
  }

  /** Every call keeps the invariant. */
  lemma StepInvariant(db: Db, call: Call)
    requires Invariant(db)
    ensures Invariant(Step(db, call).0)
  {
    StepSound(db, call);
    StepTables(db, call);
  }

  lemma StepTables(db: Db, call: Call)
    requires CodesSound(db) && DevicesSound(db.devices, db.now)
    ensures CodesSound(Step(db, call).0) && DevicesSound(Step(db, call).0.devices, Step(db, call).0.now)
  {
    var db', reply := Step(db, call).0, Step(db, call).1;
    StepClock(db, call);
    var codes := StepCodes(db, call, db', reply);
    ChangeSound(db, db', codes);
    var devices := StepDevices(db, call, db', reply);
    ChangeDevicesSound(db.devices, db'.devices, db.now, db'.now, devices);
  }

  class Store {
    const settings: Settings
    var now: int
    var users: seq<User>
    var clients: map<string, Client>
    var sessions: seq<Session>
    var tokens: seq<Token>
    var consents: seq<Consent>
    var audit: seq<AuditEntry>
    var devices: seq<DeviceRequest>
    var codes: seq<EmailCode>

    function Auth(): AuthTables
      reads this
    {
      AuthTables(sessions, tokens, consents, audit)
    }

    function Contents(): Db
      reads this
    {
      Db(settings, now, users, clients, Auth(), devices, codes)
    }

    ghost predicate Valid()
      reads this
    {
      Invariant(Contents())
    }

    constructor (settings: Settings, now: int, users: seq<User>, clients: map<string, Client>)
      requires settings.maxAttempts >= 1 && settings.window >= 1
      ensures Valid() && Initial(Contents()) && this.settings == settings && this.now == now && this.users == users
              && this.clients == clients
    {
      this.settings, this.now, this.users, this.clients := settings, now, users, clients;
      sessions, tokens, consents, audit, devices, codes := [], [], [], [], [], [];
    }

    /** Time passes between calls. */
    method Wait(elapsed: nat)
      modifies this`now
      ensures (Contents(), Ok) == Step(old(Contents()), Tick(elapsed))
    {
      now := now + elapsed;
    }

    // -------------------------------------------------------------- sign-in

    method CreateSession(user: nat, client: Option<string>, meta: Option<Meta>) returns (sid: nat)
      modifies this`sessions
      ensures sid == |old(sessions)|
      ensures sessions == old(sessions) + [Session(user, client, MetaOf(meta), now, now + settings.refreshLifetime,
                                                   None, None)]
    {
      sid := |sessions|;
      sessions := sessions + [Session(user, client, MetaOf(meta), now, now + settings.refreshLifetime, None, None)];
    }

    method IssueTokensWithRotation(user: nat, session: Option<nat>, client: Option<string>, rotatedFrom: Option<nat>,
                                   meta: Option<Meta>, action: Option<string>) returns (r: Reply)
      requires session.Some? ==> session.value < |sessions|
      modifies this`sessions, this`tokens, this`audit
      ensures Auth() == IssueTokens(old(Auth()), now, settings.refreshLifetime, user, session, client, rotatedFrom,
                                    meta, action)
      ensures r == Issued(user, if session.Some? then session.value else |old(sessions)|, |old(tokens)|)
    {
      var createdNewSession := session.None?;
      var sid: nat;
      if session.None? {
        sid := CreateSession(user, client, meta);
      } else {
        sid := session.value;
        if client.Some? {
          sessions := sessions[sid := sessions[sid].(client := client)];
        }
      }
      var expiresAt := now + settings.refreshLifetime;
      var jti := |tokens|;
      sessions := sessions[sid := sessions[sid].(expiresAt := expiresAt)];
      sessions := sessions[sid := sessions[sid].(lastSeenAt := Some(now))];
      tokens := tokens + [Token(sid, user, jti, Jwt(Refresh, user, sid, jti, expiresAt), rotatedFrom, now, expiresAt,
                                None)];
      if createdNewSession && action.Some? && action.value != "" {
        audit := audit + [AuditEntry(user, Login(action.value), SessionIds([sid]),
                                     OrElse(client, sessions[sid].client))];
      }
      r := Issued(user, sid, jti);
    }

    method IssueTokensFor(user: nat, client: Option<string>, meta: Option<Meta>, action: string) returns (r: Reply)
      modifies this`sessions, this`tokens, this`audit
      ensures (Auth(), r) == SignIn(old(Auth()), now, settings.refreshLifetime, user, client, meta, action)
    {
      r := IssueTokensWithRotation(user, None, client, None, meta, Some(action));
    }

    method RegisterUser(email: string, meta: Option<Meta>) returns (r: Reply)
      modifies this`users, this`sessions, this`tokens, this`audit
      ensures (Contents(), r) == Service.RegisterUser(old(Contents()), email, meta)
    {
      var address := Lower(email);
      if UserByEmail(users, address).Some? {
        return Failed(EmailTaken);
      }
      if EmailStored(users, address) {
        return Failed(IntegrityFailure);
      }
      users := users + [User(address, false)];
      r := IssueTokensFor(|users| - 1, None, meta, "login.register");
    }

    method LoginUser(email: string, passwordMatches: bool, meta: Option<Meta>) returns (r: Reply)
      modifies this`sessions, this`tokens, this`audit
      ensures (Contents(), r) == Service.LoginUser(old(Contents()), email, passwordMatches, meta)
    {
      var user := UserByEmail(users, Lower(email));
      if user.None? || !passwordMatches {
        return Failed(InvalidCredentials);
      }
      r := IssueTokensFor(user.value, None, meta, "login.password");
    }

    // -------------------------------------------------------------- refresh and sign-out

    method RefreshTokens(presented: Presented, meta: Option<Meta>) returns (r: Reply)
      modifies this`sessions, this`tokens, this`audit
      ensures (Auth(), r) == Sessions.RefreshTokens(old(Auth()), users, now, settings.refreshLifetime, presented, meta)
    {
      if !DecodesAsRefresh(presented, now) {
        return Failed(InvalidToken);
      }
      var bundle := LoadRefreshBundle(Auth(), now, presented.jwt);
      if bundle.None? || tokens[bundle.value].user != presented.jwt.sub {
        return Failed(RefreshRejected);
      }
      var k := bundle.value;
      var user, sid := tokens[k].user, tokens[k].session;
      if !ActiveUser(users, user) {
        return Failed(UserNotFound);
      }
      tokens := tokens[k := tokens[k].(revokedAt := Some(now))];
      sessions := sessions[sid := sessions[sid].(lastSeenAt := Some(now), expiresAt := now + settings.refreshLifetime)];
      if meta.Some? {
        sessions := sessions[sid := sessions[sid].(meta := Merge(sessions[sid].meta, meta.value))];
      }
      assert sessions == old(sessions)[sid := sessions[sid]];
      r := IssueTokensWithRotation(user, Some(sid), None, Some(k), None, None);
      assert Auth() == Rotate(old(Auth()), now, settings.refreshLifetime, k, meta);
    }

    /** The loop over a session's live tokens that both revocation routes run. */
    method RevokeTokensOf(sid: nat)
      modifies this`tokens
      ensures tokens == RevokeTokens(old(tokens), {sid}, now)
    {
      ghost var before := tokens;
      for k := 0 to |tokens|
        invariant |tokens| == |before|
        invariant forall j :: k <= j < |tokens| ==> tokens[j] == before[j]
        invariant forall j :: 0 <= j < k ==> tokens[j] == RevokeTokens(before, {sid}, now)[j]
      {
        if tokens[k].session == sid && tokens[k].revokedAt.None? {
          tokens := tokens[k := tokens[k].(revokedAt := Some(now))];
        }
      }
    }

    method LogoutUser(presented: Presented) returns (r: Reply)
      modifies this`sessions, this`tokens, this`audit
      ensures (Auth(), r) == Sessions.LogoutUser(old(Auth()), now, presented)
    {
      if !DecodesAsRefresh(presented, now) {
        return Failed(InvalidToken);
      }
      var bundle := LoadRefreshBundle(Auth(), now, presented.jwt);
      if bundle.None? {
        return Ok;
      }
      var k := bundle.value;
      var sid := tokens[k].session;
      sessions := sessions[sid := sessions[sid].(revokedAt := Some(now), lastSeenAt := Some(now))];
      tokens := tokens[k := tokens[k].(revokedAt := Some(now))];
      RevokeTokensOf(sid);
      audit := audit + [AuditEntry(sessions[sid].user, Logout, SessionIds([sid]), sessions[sid].client)];
      assert tokens == RevokeTokens(old(tokens), {sid}, now);
      assert sessions == RevokeSessions(old(sessions), {sid}, now);
      r := Ok;
    }

    // -------------------------------------------------------------- security center

    method BuildSecuritySnapshot(user: nat, current: Option<nat>) returns (shown: seq<Device>)
      ensures shown == Snapshot(sessions, user, current, now)
    {
      shown := DedupeDevicesByName(DeviceRows(sessions, LoadActiveSessions(sessions, user, now), current));
    }

    /** The active sessions under one title, the caller's own excepted: the list comprehension of the revocation. */
    method TargetsNamed(ids: seq<nat>, name: string, current: Option<nat>) returns (targets: seq<nat>)
      requires Rows(sessions, ids)
      ensures targets == SameName(sessions, ids, name, current)
    {
      targets := [];
      for i := |ids| downto 0
        invariant Rows(sessions, ids[i..])
        invariant targets == SameName(sessions, ids[i..], name, current)
      {
        assert ids[i..][1..] == ids[i + 1..];
        if DisplayName(sessions[ids[i]]) == name && (current.None? || current.value != ids[i]) {
          targets := [ids[i]] + targets;
        }
      }
    }

    method RevokeSecuritySession(user: nat, sid: nat, current: Option<nat>) returns (r: Reply)
      modifies this`sessions, this`tokens, this`audit
      ensures (Auth(), r) == Sessions.RevokeSecuritySession(old(Auth()), now, user, sid, current)
    {
      if current == Some(sid) {
        return Failed(CurrentSession);
      }
      if !(sid < |sessions| && sessions[sid].user == user && sessions[sid].revokedAt.None?) {
        return Failed(SessionNotFound);
      }
      var seed := sessions[sid];
      var targets := TargetsNamed(LoadActiveSessions(sessions, user, now), DisplayName(seed), current);
      if targets == [] {
        return Failed(SessionNotFound);
      }
      RevokeAll(targets);
      audit := audit + [AuditEntry(user, SessionRevoke, SessionIds(targets), seed.client)];
      r := Ok;
    }

    /** The nested loops: each target session, and each of its live tokens. */
    method RevokeAll(targets: seq<nat>)
      requires Rows(sessions, targets)
      modifies this`sessions, this`tokens
      ensures sessions == RevokeSessions(old(sessions), Elements(targets), now)
      ensures tokens == RevokeTokens(old(tokens), Elements(targets), now)
    {
      ghost var sessions0, tokens0 := sessions, tokens;
      for i := 0 to |targets|
        invariant sessions == RevokeSessions(sessions0, Elements(targets[..i]), now)
        invariant tokens == RevokeTokens(tokens0, Elements(targets[..i]), now)
      {
        var sid := targets[i];
        assert Elements(targets[..i + 1]) == Elements(targets[..i]) + {sid} by {
          assert targets[..i + 1] == targets[..i] + [sid];
        }
        sessions := sessions[sid := sessions[sid].(revokedAt := Some(now), lastSeenAt := Some(now))];
        RevokeTokensOf(sid);
      }
      assert targets[..|targets|] == targets;
    }

    // -------------------------------------------------------------- consents

    method UpsertOAuthConsent(user: nat, client: string, scopes: string) returns (accepted: bool)
      modifies this`consents
      ensures accepted <==> UpsertConsent(old(Auth()), now, user, client, scopes).Some?
      ensures Auth() == if accepted then UpsertConsent(old(Auth()), now, user, client, scopes).value else old(Auth())
    {
      var name := Strip(client);
      if name == "" {
        return false;
      }
      var found := FindConsent(consents, user, name);
      if found.None? {
        consents := consents + [Consent(user, name, if scopes != "" then scopes else "openid profile email", now, None,
                                        now)];
      } else {
        var i := found.value;
        consents := consents[i := consents[i].(scopes := if scopes != "" then scopes else consents[i].scopes)];
        consents := consents[i := consents[i].(lastUsedAt := now)];
        if consents[i].revokedAt.Some? {
          consents := consents[i := consents[i].(revokedAt := None, authorizedAt := now)];
        }
      }
      accepted := true;
    }

    method RevokeOAuthConsent(user: nat, client: string) returns (r: Reply)
      modifies this`sessions, this`tokens, this`consents, this`audit
      ensures (Auth(), r) == RevokeConsent(old(Auth()), now, user, client)
    {
      var name := Strip(client);
      var found := FindLiveConsent(consents, user, name);
      if found.None? {
        return Failed(ConsentNotFound);
      }
      consents := consents[found.value := consents[found.value].(revokedAt := Some(now))];
      var ids := CloseClientSessions(user, name);
      tokens := RevokeTokens(tokens, ids, now);
      audit := audit + [AuditEntry(user, ConsentRevoke, ClientId(name), None)];
      r := Ok;
    }

    /** The loop over the user's live sessions for one client. */
    method CloseClientSessions(user: nat, client: string) returns (ids: set<nat>)
      modifies this`sessions
      ensures ids == ClientSessions(old(sessions), user, client)
      ensures sessions == RevokeSessions(old(sessions), ids, now)
    {
      ghost var before := sessions;
      ids := {};
      for i := 0 to |sessions|
        invariant |sessions| == |before|
        invariant forall j :: j in ids <==> 0 <= j < i && BoundTo(before[j], user, client)
        invariant forall j :: i <= j < |before| ==> sessions[j] == before[j]
        invariant forall j :: 0 <= j < i ==> sessions[j] == RevokeSessions(before, ids, now)[j]
      {
        if sessions[i].user == user && sessions[i].client == Some(client) && sessions[i].revokedAt.None? {
          sessions := sessions[i := sessions[i].(revokedAt := Some(now), lastSeenAt := Some(now))];
          ids := ids + {i};
        }
      }
    }

    // -------------------------------------------------------------- OAuth grants

    method GrantTokens(user: nat, client: string, scopes: string, meta: Option<Meta>, action: string) returns (r: Reply)
      modifies this`sessions, this`tokens, this`consents, this`audit
      ensures (Auth(), r) == Grant(old(Auth()), now, settings.refreshLifetime, user, client, scopes, meta, action)
    {
      var accepted := UpsertOAuthConsent(user, client, scopes);
      if !accepted {
        return Failed(ClientRequired);
      }
      r := IssueTokensFor(user, Some(client), meta, action);
    }

    method ExchangeAuthorizationCode(code: Option<AuthCode>, client: string, redirectUri: string, verifier: string,
                                     verifierHash: string, meta: Option<Meta>) returns (r: Reply)
      modifies this`sessions, this`tokens, this`consents, this`audit
      ensures (Contents(), r) == ExchangeCode(old(Contents()), code, client, redirectUri, verifier, verifierHash, meta)
    {
      if code.None? || code.value.client != client || code.value.exp < now {
        return Failed(InvalidAuthorizationCode);
      }
      if code.value.redirectUri != redirectUri {
        return Failed(InvalidRedirectUri);
      }
      var invalid := ValidateRedirectUri(Contents(), client, redirectUri);
      if invalid.Some? {
        return Failed(invalid.value);
      }
      var mismatch := VerifyPkce(code.value, verifier, verifierHash);
      if mismatch.Some? {
        return Failed(mismatch.value);
      }
      if !ActiveUser(users, code.value.user) {
        return Failed(UserNotFound);
      }
      r := GrantTokens(code.value.user, client, Join(Scopes.NormalizeScopes(code.value.scope)), meta,
                       "login.oauth.code");
    }

    method StartDeviceAuthorization(client: string, scope: string, meta: Meta, deviceCode: string, userCode: string)
        returns (r: Reply)
      modifies this`devices
      ensures (Contents(), r) == StartDevice(old(Contents()), client, scope, meta, deviceCode, userCode)
    {
      for i := 0 to |devices|
        invariant forall j :: 0 <= j < i ==> devices[j].deviceCode != deviceCode && devices[j].userCode != userCode
      {
        if devices[i].deviceCode == deviceCode || devices[i].userCode == userCode {
          return Failed(IntegrityFailure);
        }
      }
      devices := devices + [DeviceRequest(deviceCode, userCode, client, scope, meta, now, now + DEVICE_LIFETIME,
                                          Pending, None, None, None, None)];
      r := Ok;
    }

    method ConfirmDeviceAuthorization(userCode: string, user: Option<nat>, approve: bool) returns (r: Reply)
      modifies this`devices
      ensures (Contents(), r) == ConfirmDevice(old(Contents()), userCode, user, approve)
    {
      var found := FindUserCode(devices, userCode);
      if found.None? {
        return Failed(InvalidUserCode);
      }
      var k := found.value;
      if devices[k].expiresAt <= now {
        devices := devices[k := devices[k].(status := Expired)];
        return Failed(ExpiredDeviceCode);
      }
      if devices[k].status != Pending {
        return Failed(DeviceCodeUsed);
      }
      if approve {
        if user.None? {
          return Failed(LoginRequired);
        }
        devices := devices[k := devices[k].(status := Approved, approvedUser := user, approvedAt := Some(now))];
      } else {
        devices := devices[k := devices[k].(status := Denied, deniedAt := Some(now))];
      }
      r := Ok;
    }

    method ExchangeDeviceCode(client: string, deviceCode: string, meta: Option<Meta>) returns (r: Reply)
      modifies this`devices, this`sessions, this`tokens, this`consents, this`audit
      ensures (Contents(), r) == ExchangeDevice(old(Contents()), client, deviceCode, meta)
    {
      var found := FindDeviceCode(devices, client, deviceCode);
      if found.None? {
        return Failed(InvalidDeviceCode);
      }
      var k := found.value;
      var record := devices[k];
      if record.expiresAt <= now {
        devices := devices[k := record.(status := Expired)];
        return Failed(ExpiredToken);
      }
      if record.status == Pending {
        return Failed(AuthorizationPending);
      }
      if record.status == Denied {
        return Failed(AccessDenied);
      }
      if record.status != Approved || record.approvedUser.None? {
        return Failed(AuthorizationPending);
      }
      if record.consumedAt.Some? {
        return Failed(DeviceCodeUsed);
      }
      if !ActiveUser(users, record.approvedUser.value) {
        return Failed(UserNotFound);
      }
      var beforeConsumption := devices;
      devices := devices[k := record.(consumedAt := Some(now))];
      r := GrantTokens(record.approvedUser.value, client, Join(Scopes.NormalizeScopes(record.scope)),
                       Some(DeviceMeta(record, meta)), "login.oauth.device");
      if r.Failed? {
        devices := beforeConsumption;  // rolled back
      }
    }

    // -------------------------------------------------------------- email codes

    method StartEmailLogin(email: string, ip: Option<string>, code: string, delivered: bool) returns (r: Reply)
      modifies this`codes
      ensures (Contents(), r) == StartEmail(old(Contents()), email, ip, code, delivered)
    {
      var address := NormalizeEmail(email);
      var emailCount, ipCount := CountRecentCodes(address, ip);
      CountsTheRows(codes, ByEmail(address), now - settings.window);
      if ip.Some? {
        CountsTheRows(codes, ByIp(ip.value), now - settings.window);
      }
      if emailCount >= settings.perEmail {
        return Failed(EmailRateLimited);
      }
      if ip.Some? && ip.value != "" && ipCount >= settings.perIp {
        return Failed(IpRateLimited);
      }
      var latest := LatestPending(codes, address);
      if latest.Some? && now - codes[latest.value].sentAt < settings.resendGap {
        return Failed(SentTooRecently);
      }
      if !delivered {
        return Failed(DeliveryFailed);
      }
      codes := codes + [EmailCode(address, code, now, now + settings.codeTtl, None, 0, ip)];
      r := Ok;
    }

    /** The numbers of codes sent within the window ending now: to the address, and from the source if there is one. */
    method CountRecentCodes(email: string, ip: Option<string>) returns (emailCount: nat, ipCount: nat)
      ensures emailCount == |SentSince(codes, ByEmail(email), now - settings.window)|
      ensures ipCount == if ip.Some? && ip.value != "" then |SentSince(codes, ByIp(ip.value), now - settings.window)|
              else 0
    {
      var windowStart := now - settings.window;
      emailCount, ipCount := CountSince(codes, ByEmail(email), windowStart), 0;
      CountsTheRows(codes, ByEmail(email), windowStart);
      if ip.Some? && ip.value != "" {
        CountsTheRows(codes, ByIp(ip.value), windowStart);
        ipCount := CountSince(codes, ByIp(ip.value), windowStart);
      }
    }

    method VerifyEmailLogin(email: string, submitted: string, meta: Option<Meta>) returns (r: Reply)
      modifies this`codes, this`users, this`sessions, this`tokens, this`audit
      ensures (Contents(), r) == VerifyEmail(old(Contents()), email, submitted, meta)
    {
      var address := NormalizeEmail(email);
      var pending := LatestPending(codes, address);
      if pending.None? {
        return Failed(CodeNotFound);
      }
      var k := pending.value;
      if codes[k].expiresAt <= now {
        codes := codes[k := codes[k].(consumedAt := Some(now))];
        return Failed(CodeNotFound);
      }
      if codes[k].attempts >= settings.maxAttempts {
        return Failed(TooManyAttempts);
      }
      if Strip(submitted) != codes[k].code {
        codes := codes[k := codes[k].(attempts := codes[k].attempts + 1)];
        if codes[k].attempts >= settings.maxAttempts {
          codes := codes[k := codes[k].(consumedAt := Some(now))];
          assert codes == old(codes)[k := codes[k]];
          return Failed(TooManyAttempts);
        }
        return Failed(InvalidCode);
      }
      r := SpendCode(k, address, meta);
    }

    /** A matching code: it is consumed, and its address signed in, unless creating the user fails. */
    method SpendCode(k: nat, address: string, meta: Option<Meta>) returns (r: Reply)
      requires k < |codes|
      modifies this`codes, this`users, this`sessions, this`tokens, this`audit
      ensures var db := old(Contents());
              var known := UserByEmail(db.users, address);
              var user := if known.Some? then known.value else |db.users|;
              if known.None? && EmailStored(db.users, address) then (Contents(), r) == (db, Failed(IntegrityFailure))
              else
                && codes == db.codes[k := db.codes[k].(consumedAt := Some(now))]
                && users == (if known.Some? then db.users else db.users + [User(address, false)])
                && (Auth(), r) == SignIn(db.auth, now, settings.refreshLifetime, user, None, meta, "login.email_code")
    {
      var beforeConsumption := codes;
      codes := codes[k := codes[k].(consumedAt := Some(now))];
      var known := UserByEmail(users, address);
      if known.None? {
        if EmailStored(users, address) {
          codes := beforeConsumption;  // the insert violates the unique email; rolled back
          return Failed(IntegrityFailure);
        }
        users := users + [User(address, false)];
        r := IssueTokensFor(|users| - 1, None, meta, "login.email_code");
      } else {
        r := IssueTokensFor(known.value, None, meta, "login.email_code");
      }
    }

    // -------------------------------------------------------------- any call, any calls

    /** Serves one call: the reply and the new contents are those of `Service.Step`, and the invariant is kept. */
    method Serve(call: Call) returns (r: Reply)
      requires Valid()
      modifies this
      ensures Valid()
      ensures (Contents(), r) == Step(old(Contents()), call)
    {
      ghost var before := Contents();
      r := Dispatch(call);
      StepInvariant(before, call);
    }

    method Dispatch(call: Call) returns (r: Reply)
      modifies this
      ensures (Contents(), r) == Step(old(Contents()), call)
    {
      hide ExchangeCode, StartDevice, ConfirmDevice, ExchangeDevice, StartEmail, VerifyEmail;
      match call
      case Tick(elapsed) => Wait(elapsed); r := Ok;
      case Register(email, meta) => r := RegisterUser(email, meta);
      case PasswordLogin(email, matches, meta) => r := LoginUser(email, matches, meta);
      case RefreshCall(presented, meta) => r := RefreshTokens(presented, meta);
      case LogoutCall(presented) => r := LogoutUser(presented);
      case RevokeSession(user, session, current) => r := RevokeSecuritySession(user, session, current);
      case RevokeApplication(user, client) => r := RevokeOAuthConsent(user, client);
      case CodeExchange(code, client, redirectUri, verifier, verifierHash, meta) =>
        r := ExchangeAuthorizationCode(code, client, redirectUri, verifier, verifierHash, meta);
      case DeviceStart(client, scope, meta, deviceCode, userCode) =>
        r := StartDeviceAuthorization(client, scope, meta, deviceCode, userCode);
      case DeviceConfirm(userCode, approver, approve) => r := ConfirmDeviceAuthorization(userCode, approver, approve);
      case DeviceExchange(client, deviceCode, meta) => r := ExchangeDeviceCode(client, deviceCode, meta);
      case EmailStart(email, ip, secret, delivered) => r := StartEmailLogin(email, ip, secret, delivered);
      case EmailVerify(email, submitted, meta) => r := VerifyEmailLogin(email, submitted, meta);
    }

    /** Serving any calls on a store just opened is a run, so every theorem about runs holds of it. */
    method ServeAll(calls: seq<Call>) returns (replies: seq<Reply>, ghost run: Run)
      requires Valid() && Initial(Contents())
      modifies this
      ensures Valid()
      ensures IsRun(run) && run.calls == calls && run.replies == replies
      ensures run.states[0] == old(Contents()) && run.states[|calls|] == Contents()
    {
      replies := [];
      run := Run([Contents()], [], []);
      hide Invariant, Step;
      for i := 0 to |calls|
        invariant Valid() && IsRun(run) && run.calls == calls[..i] && run.replies == replies
        invariant run.states[0] == old(Contents()) && run.states[i] == Contents()
      {
        ghost var before := run;
        var reply := Serve(calls[i]);
        run := Continue(before, calls[i]);
        replies := replies + [reply];
        assert run.calls == calls[..i + 1];
      }
    }
  }
}
