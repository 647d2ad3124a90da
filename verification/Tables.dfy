/** The database: one sequence of rows per table. A row's id is its position, so a new id is fresh by
    construction and rows are never removed. */
module Tables {

  datatype Option<+T> = None | Some(value: T)

  /** Python's `a or b` on optional strings. */
  function OrElse(a: Option<string>, b: Option<string>): Option<string> {
    if a.Some? && a.value != "" then a else b
  }

  /** First row satisfying `p`. */
  function FindRow<T>(rows: seq<T>, p: T -> bool): (found: Option<nat>)
    ensures found.Some? ==> found.value < |rows| && p(rows[found.value])
    ensures found.Some? ==> forall j :: 0 <= j < found.value ==> !p(rows[j])
    ensures found.None? ==> forall j :: 0 <= j < |rows| ==> !p(rows[j])
  {
    if rows == [] then None
    else if p(rows[0]) then Some(0)
    else match FindRow(rows[1..], p)
      case Some(i) => Some(i + 1)
      case None => None
  }

  /** Deployment constants, in seconds where they are durations. */
  datatype Settings = Settings(
    refreshLifetime: nat,
    codeTtl: nat,
    resendGap: nat,
    maxAttempts: nat,
    perEmail: nat,
    perIp: nat,
    window: nat
  )

  datatype User = User(email: string, deleted: bool)

  /** Request metadata copied into sessions and device requests. */
  datatype Meta = Meta(userAgent: Option<string>, ip: Option<string>, deviceLabel: Option<string>,
                       location: Option<string>)

  const NoMeta := Meta(None, None, None, None)

  datatype Session = Session(
    user: nat,
    client: Option<string>,
    meta: Meta,
    createdAt: int,
    expiresAt: int,
    revokedAt: Option<int>,
    lastSeenAt: Option<int>
  ) {
    predicate Live() {
      revokedAt.None?
    }
  }

  datatype TokenUse = Access | Refresh | IdToken | AuthorizationCode

  /** The claims of a signed token. */
  datatype Jwt = Jwt(use: TokenUse, sub: nat, sid: nat, jti: nat, exp: int)

  /** What a caller presents: either something this server signed, or anything else. */
  datatype Presented = Forged | Signed(jwt: Jwt)

  /** `hash` stands for SHA-256 of the encoded token; the hash being injective, it is the token itself. */
  datatype Token = Token(
    session: nat,
    user: nat,
    jti: nat,
    hash: Jwt,
    rotatedFrom: Option<nat>,
    createdAt: int,
    expiresAt: int,
    revokedAt: Option<int>
  ) {
    predicate Live() {
      revokedAt.None?
    }
  }

  datatype Consent = Consent(
    user: nat,
    client: string,
    scopes: string,
    authorizedAt: int,
    revokedAt: Option<int>,
    lastUsedAt: int
  )

  datatype Action = Login(how: string) | Logout | SessionRevoke | ConsentRevoke

  datatype Target = SessionIds(ids: seq<nat>) | ClientId(client: string)

  datatype AuditEntry = AuditEntry(actor: nat, action: Action, target: Target, client: Option<string>)

  /** The tables written by sign-in, refresh, sign-out and revocation. */
  datatype AuthTables = AuthTables(
    sessions: seq<Session>,
    tokens: seq<Token>,
    consents: seq<Consent>,
    audit: seq<AuditEntry>
  )

  datatype DeviceStatus = Pending | Approved | Denied | Expired

  datatype DeviceRequest = DeviceRequest(
    deviceCode: string,
    userCode: string,
    client: string,
    scope: string,
    meta: Meta,
    createdAt: int,
    expiresAt: int,
    status: DeviceStatus,
    approvedUser: Option<nat>,
    approvedAt: Option<int>,
    deniedAt: Option<int>,
    consumedAt: Option<int>
  )

  /** `code` stands for the stored hash of (email, code), taken to be injective. */
  datatype EmailCode = EmailCode(
    email: string,
    code: string,
    sentAt: int,
    expiresAt: int,
    consumedAt: Option<int>,
    attempts: nat,
    ip: Option<string>
  )

  /** A stored list column: text that `json.loads` reads as a list, or any other text. */
  datatype StoredList = JsonList(items: seq<string>) | PlainText(text: string)

  datatype Client = Client(name: string, redirectUris: StoredList, allowedScopes: StoredList, pkceRequired: bool,
                           active: bool)

  datatype Db = Db(
    settings: Settings,
    now: int,
    users: seq<User>,
    clients: map<string, Client>,
    auth: AuthTables,
    devices: seq<DeviceRequest>,
    codes: seq<EmailCode>
  )

  datatype Error =
    | InvalidToken | RefreshRejected | UserNotFound | EmailTaken | InvalidCredentials
    | CurrentSession | SessionNotFound | ConsentNotFound | ClientRequired
    | UnknownClient | InvalidRedirectUri | ClientDisabled | ScopeNotAllowed | ScopeRequired
    | InvalidAuthorizationCode | MissingChallenge | UnsupportedChallenge | InvalidVerifier
    | InvalidUserCode | ExpiredDeviceCode | DeviceCodeUsed | LoginRequired
    | InvalidDeviceCode | ExpiredToken | AuthorizationPending | AccessDenied
    | EmailRateLimited | IpRateLimited | SentTooRecently | DeliveryFailed
    | CodeNotFound | InvalidCode | TooManyAttempts
    | IntegrityFailure  // a unique constraint violation, rolled back and reported as a server error

  datatype Reply =
    | Ok
    | Issued(user: nat, session: nat, token: nat)
    | Failed(error: Error)

  predicate ActiveUser(users: seq<User>, id: nat) {
    id < |users| && !users[id].deleted
  }

  /** `get_user_by_email` on an already lower-cased address. */
  function UserByEmail(users: seq<User>, email: string): (id: Option<nat>)
    ensures id.Some? ==> ActiveUser(users, id.value) && users[id.value].email == email
  {
    FindRow(users, (u: User) => u.email == email && !u.deleted)
  }

  /** `users.email` is unique over all rows, soft-deleted ones included. */
  predicate EmailStored(users: seq<User>, email: string) {
    exists i :: 0 <= i < |users| && users[i].email == email
  }
}
