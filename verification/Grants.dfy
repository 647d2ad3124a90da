/** The two OAuth grants: authorization codes, and device codes (RFC 8628). */
module Grants {
  import opened Ordered
  import opened Scopes
  import opened Sessions
  import opened Tables
  import opened Text

  // ---------------------------------------------------------------- authorization codes

  /** The signed claims of an authorization code. */
  datatype AuthCode = AuthCode(
    user: nat, client: string, redirectUri: string, challenge: string, pkceMethod: string, scope: string, exp: int)

  datatype Authorization = Granted(code: AuthCode) | Refused(error: Error)

  const CODE_LIFETIME := 300

  function ValidateRedirectUri(db: Db, client: string, redirectUri: string): Option<Error> {
    if client !in db.clients then Some(UnknownClient)
    else if redirectUri !in LoadList(db.clients[client].redirectUris) then Some(InvalidRedirectUri)
    else if !db.clients[client].active then Some(ClientDisabled)
    else None
  }

  function ValidateScopes(db: Db, client: string, requested: seq<string>): Option<Error> {
    if client !in db.clients then Some(UnknownClient)
    else if Elements(requested) <= Elements(LoadListVerbatim(db.clients[client].allowedScopes)) then None
    else Some(ScopeNotAllowed)
  }

  /** The authorization endpoint, for a signed-in user who has confirmed the account. */
  function Authorize(db: Db, user: nat, client: string, redirectUri: string, scope: string, challenge: string,
                     pkceMethod: string)
    : Authorization
  {
    var items := NormalizeScopes(scope);
    if "openid" !in items then Refused(ScopeRequired)
    else match ValidateRedirectUri(db, client, redirectUri)
      case Some(e) => Refused(e)
      case None => match ValidateScopes(db, client, items)
        case Some(e) => Refused(e)
        case None =>
          if challenge == "" then Refused(MissingChallenge)
          else Granted(AuthCode(user, client, redirectUri, challenge, pkceMethod, Join(items), db.now + CODE_LIFETIME))
  }

  /** `verifierHash` is the base64url SHA-256 of the presented verifier. */
  function VerifyPkce(code: AuthCode, verifier: string, verifierHash: string): Option<Error> {
    var how := if code.pkceMethod == "" then "S256" else code.pkceMethod;
    if code.challenge == "" then Some(MissingChallenge)
    else if how != "S256" && how != "plain" then Some(UnsupportedChallenge)
    else if (if how == "S256" then verifierHash else verifier) != code.challenge then Some(InvalidVerifier)
    else None
  }

  /** `code` is absent when the presented string was not signed by this server. */
  function ExchangeCode(db: Db, code: Option<AuthCode>, client: string, redirectUri: string, verifier: string,
                        verifierHash: string, meta: Option<Meta>): (Db, Reply)
  {
    if code.None? || code.value.client != client || code.value.exp < db.now then (db, Failed(InvalidAuthorizationCode))
    else if code.value.redirectUri != redirectUri then (db, Failed(InvalidRedirectUri))
    else match ValidateRedirectUri(db, client, redirectUri)
      case Some(e) => (db, Failed(e))
      case None => match VerifyPkce(code.value, verifier, verifierHash)
        case Some(e) => (db, Failed(e))
        case None =>
          if !ActiveUser(db.users, code.value.user) then (db, Failed(UserNotFound))
          else
            var (auth, reply) := Grant(db.auth, db.now, db.settings.refreshLifetime, code.value.user, client,
                                       Join(NormalizeScopes(code.value.scope)), meta, "login.oauth.code");
            (db.(auth := auth), reply)
  }

  // ---------------------------------------------------------------- device codes

  const DEVICE_LIFETIME := 900

  function FindUserCode(devices: seq<DeviceRequest>, userCode: string): (r: Option<nat>)
    ensures r.Some? ==> r.value < |devices| && devices[r.value].userCode == Strip(Upper(userCode))
    ensures r.None? ==> forall i :: 0 <= i < |devices| ==> devices[i].userCode != Strip(Upper(userCode))
  {
    FindRow(devices, (d: DeviceRequest) => d.userCode == Strip(Upper(userCode)))
  }

  /** Both codes are drawn at random by the caller of this function and are unique columns. */
  function StartDevice(db: Db, client: string, scope: string, meta: Meta, deviceCode: string, userCode: string)
    : (Db, Reply)
  {
    if exists i :: 0 <= i < |db.devices| && (db.devices[i].deviceCode == deviceCode
        || db.devices[i].userCode == userCode)
    then (db, Failed(IntegrityFailure))
    else
      var row := DeviceRequest(deviceCode, userCode, client, scope, meta, db.now, db.now + DEVICE_LIFETIME,
                               Pending, None, None, None, None);
      (db.(devices := db.devices + [row]), Ok)
  }

  function ConfirmDevice(db: Db, userCode: string, user: Option<nat>, approve: bool): (Db, Reply) {
    match FindUserCode(db.devices, userCode)
    case None => (db, Failed(InvalidUserCode))
    case Some(k) =>
      var d := db.devices[k];
      if d.expiresAt <= db.now then
        (db.(devices := db.devices[k := d.(status := Expired)]), Failed(ExpiredDeviceCode))
      else if d.status != Pending then (db, Failed(DeviceCodeUsed))
      else if approve && user.None? then (db, Failed(LoginRequired))
      else if approve then
        (db.(devices := db.devices[k := d.(status := Approved, approvedUser := user, approvedAt := Some(db.now))]), Ok)
      else
        (db.(devices := db.devices[k := d.(status := Denied, deniedAt := Some(db.now))]), Ok)
  }

  function FindDeviceCode(devices: seq<DeviceRequest>, client: string, deviceCode: string): (r: Option<nat>)
    ensures r.Some? ==>
              r.value < |devices| && devices[r.value].deviceCode == Strip(deviceCode)
              && devices[r.value].client == client
    ensures r.None? ==>
              forall i :: 0 <= i < |devices| ==>
                !(devices[i].deviceCode == Strip(deviceCode) && devices[i].client == client)
  {
    FindRow(devices, (d: DeviceRequest) => d.deviceCode == Strip(deviceCode) && d.client == client)
  }

  function DeviceMeta(d: DeviceRequest, meta: Option<Meta>): Meta {
    Merge(MetaOf(meta), d.meta)
  }

  function ExchangeDevice(db: Db, client: string, deviceCode: string, meta: Option<Meta>): (Db, Reply) {
    match FindDeviceCode(db.devices, client, deviceCode)
    case None => (db, Failed(InvalidDeviceCode))
    case Some(k) =>
      var d := db.devices[k];
      if d.expiresAt <= db.now then
        (db.(devices := db.devices[k := d.(status := Expired)]), Failed(ExpiredToken))
      else if d.status == Pending then (db, Failed(AuthorizationPending))
      else if d.status == Denied then (db, Failed(AccessDenied))
      else if d.status != Approved || d.approvedUser.None? then (db, Failed(AuthorizationPending))
      else if d.consumedAt.Some? then (db, Failed(DeviceCodeUsed))
      else if !ActiveUser(db.users, d.approvedUser.value) then (db, Failed(UserNotFound))
      else
        var (auth, reply) := Grant(db.auth, db.now, db.settings.refreshLifetime, d.approvedUser.value, client,
                                   Join(NormalizeScopes(d.scope)), Some(DeviceMeta(d, meta)), "login.oauth.device");
        if reply.Failed? then (db, reply)  // the transaction is rolled back, consumption included
        else (db.(auth := auth, devices := db.devices[k := d.(consumedAt := Some(db.now))]), reply)
  }

  /** Only an approved, unspent request opens a session, bound to its approver. */
  lemma ExchangeDeviceAuth(db: Db, db': Db, reply: Reply, client: string, deviceCode: string, meta: Option<Meta>)
    requires ExchangeDevice(db, client, deviceCode, meta) == (db', reply)
    ensures db'.now == db.now && db'.settings == db.settings
    ensures !reply.Issued? ==> db'.auth == db.auth
    ensures reply.Issued? ==>
              var f := FindDeviceCode(db.devices, client, deviceCode);
              && f.Some? && db.devices[f.value].approvedUser.Some?
              && var d := db.devices[f.value];
              && db'.auth == Grant(db.auth, db.now, db.settings.refreshLifetime, d.approvedUser.value, client,
                                   Join(NormalizeScopes(d.scope)), Some(DeviceMeta(d, meta)), "login.oauth.device").0
  {
  }
}
