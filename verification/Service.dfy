/** Every service call as one step of the database, and runs of any calls in any order.
    A call is one transaction at one clock instant; the clock only moves forward, between calls. */
module Service {
  import opened EmailCodes
  import opened Grants
  import opened Sessions
  import opened Tables
  import opened Text

  datatype Call =
    | Tick(elapsed: nat)
    | Register(email: string, meta: Option<Meta>)
    | PasswordLogin(email: string, passwordMatches: bool, meta: Option<Meta>)
    | RefreshCall(presented: Presented, meta: Option<Meta>)
    | LogoutCall(presented: Presented)
    | RevokeSession(user: nat, session: nat, current: Option<nat>)
    | RevokeApplication(user: nat, client: string)
    | CodeExchange(code: Option<AuthCode>, client: string, redirectUri: string, verifier: string, verifierHash: string,
                   meta: Option<Meta>)
    | DeviceStart(client: string, scope: string, deviceMeta: Meta, deviceCode: string, userCode: string)
    | DeviceConfirm(userCode: string, approver: Option<nat>, approve: bool)
    | DeviceExchange(client: string, deviceCode: string, meta: Option<Meta>)
    | EmailStart(email: string, ip: Option<string>, secret: string, delivered: bool)
    | EmailVerify(email: string, submitted: string, meta: Option<Meta>)

  function RegisterUser(db: Db, email: string, meta: Option<Meta>): (Db, Reply) {
    var address := Lower(email);
    if UserByEmail(db.users, address).Some? then (db, Failed(EmailTaken))
    else if EmailStored(db.users, address) then (db, Failed(IntegrityFailure))
    else
      var (auth, reply) := SignIn(db.auth, db.now, db.settings.refreshLifetime, |db.users|, None, meta,
                                  "login.register");
      (db.(users := db.users + [User(address, false)], auth := auth), reply)
  }

  function LoginUser(db: Db, email: string, passwordMatches: bool, meta: Option<Meta>): (Db, Reply) {
    match UserByEmail(db.users, Lower(email))
    case None => (db, Failed(InvalidCredentials))
    case Some(user) =>
      if !passwordMatches then (db, Failed(InvalidCredentials))
      else
        var (auth, reply) := SignIn(db.auth, db.now, db.settings.refreshLifetime, user, None, meta, "login.password");
        (db.(auth := auth), reply)
  }

  function WithAuth(db: Db, r: (AuthTables, Reply)): (Db, Reply) {
    (db.(auth := r.0), r.1)
  }

  function Step(db: Db, call: Call): (Db, Reply) {
    match call
    case Tick(elapsed) => (db.(now := db.now + elapsed), Ok)
    case Register(email, meta) => RegisterUser(db, email, meta)
    case PasswordLogin(email, matches, meta) => LoginUser(db, email, matches, meta)
    case RefreshCall(presented, meta) =>
      WithAuth(db, RefreshTokens(db.auth, db.users, db.now, db.settings.refreshLifetime, presented, meta))
    case LogoutCall(presented) => WithAuth(db, LogoutUser(db.auth, db.now, presented))
    case RevokeSession(user, session, current) => WithAuth(db,
                                                           RevokeSecuritySession(db.auth, db.now, user, session,
                                                           current))
    case RevokeApplication(user, client) => WithAuth(db, RevokeConsent(db.auth, db.now, user, client))
    case CodeExchange(code, client, redirectUri, verifier, verifierHash, meta) =>
      ExchangeCode(db, code, client, redirectUri, verifier, verifierHash, meta)
    case DeviceStart(client, scope, meta, deviceCode, userCode) =>
        StartDevice(db, client, scope, meta, deviceCode, userCode)
    case DeviceConfirm(userCode, approver, approve) => ConfirmDevice(db, userCode, approver, approve)
    case DeviceExchange(client, deviceCode, meta) => ExchangeDevice(db, client, deviceCode, meta)
    case EmailStart(email, ip, code, delivered) => StartEmail(db, email, ip, code, delivered)
    case EmailVerify(email, code, meta) => VerifyEmail(db, email, code, meta)
  }

  /** Before the first call: any settings, users and clients, and otherwise empty tables. */
  predicate Initial(db: Db) {
    && db.auth == AuthTables([], [], [], [])
    && db.devices == [] && db.codes == []
    && db.settings.maxAttempts >= 1 && db.settings.window >= 1
  }

  /** `states[i]` is the database before call `i`. */
  datatype Run = Run(states: seq<Db>, calls: seq<Call>, replies: seq<Reply>)

  /** Call `i` of the run takes its database from one state to the next. */
  ghost predicate Happens(r: Run, i: nat)
    requires i < |r.calls| && |r.states| == |r.calls| + 1 && |r.replies| == |r.calls|
  {
    Step(r.states[i], r.calls[i]) == (r.states[i + 1], r.replies[i])
  }

  ghost predicate IsRun(r: Run) {
    && |r.states| == |r.calls| + 1 && |r.replies| == |r.calls|
    && Initial(r.states[0])
    && forall i :: 0 <= i < |r.calls| ==> Happens(r, i)
  }

  /** Any run can go on with any call. */
  lemma Continue(r: Run, call: Call) returns (longer: Run)
    requires IsRun(r)
    ensures IsRun(longer) && |longer.states| == |r.states| + 1
    ensures forall i :: 0 <= i < |r.states| ==> longer.states[i] == r.states[i]
    ensures longer.calls == r.calls + [call]
    ensures longer.states[|r.states|] == Step(r.states[|r.states| - 1], call).0
    ensures longer.replies == r.replies + [Step(r.states[|r.states| - 1], call).1]
  {
    hide Step;
    var (db, reply) := Step(r.states[|r.states| - 1], call);
    longer := Run(r.states + [db], r.calls + [call], r.replies + [reply]);
    forall i | 0 <= i < |longer.calls| ensures Happens(longer, i) {
      assert i < |r.calls| ==> Happens(r, i);
    }
  }

  lemma StepClock(db: Db, call: Call)
    ensures Step(db, call).0.now >= db.now
    ensures Step(db, call).0.settings == db.settings
  {
  }

  /** Time passes only forward along a run, and the settings stay. */
  lemma {:induction false} ClockForward(r: Run, i: nat, j: nat)
    requires IsRun(r) && i <= j < |r.states|
    ensures r.states[i].now <= r.states[j].now
    ensures r.states[i].settings == r.states[j].settings
  {
    hide Step;
    if i == j {
    } else {
      ClockForward(r, i, j - 1);
      assert Happens(r, j - 1);
      StepClock(r.states[j - 1], r.calls[j - 1]);
    }
  }
}
