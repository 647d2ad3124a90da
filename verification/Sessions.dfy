/** What sign-in, refresh, sign-out and the two revocations do to the authentication tables. */
module Sessions {
  import opened Ordered
  import opened Text
  import opened Tables

  function MetaOf(meta: Option<Meta>): Meta {
    if meta.Some? then meta.value else NoMeta
  }

  /** Opens a session (or continues `session`), appends its next refresh token and audits a sign-in. */
  function IssueTokens(a: AuthTables, now: int, life: nat, user: nat, session: Option<nat>, client: Option<string>,
                       rotatedFrom: Option<nat>, meta: Option<Meta>, action: Option<string>): AuthTables
    requires session.Some? ==> session.value < |a.sessions|
  {
    var sid := if session.Some? then session.value else |a.sessions|;
    var rows :=
      if session.None? then a.sessions + [Session(user, client, MetaOf(meta), now, now + life, None, None)]
      else if client.Some? then a.sessions[sid := a.sessions[sid].(client := client)]
      else a.sessions;
    var row := rows[sid].(expiresAt := now + life, lastSeenAt := Some(now));
    var token := FreshToken(a, now, life, user, sid, rotatedFrom);
    var entries :=
      if session.None? && action.Some? && action.value != ""
      then [AuditEntry(user, Login(action.value), SessionIds([sid]), OrElse(client, row.client))]
      else [];
    a.(sessions := rows[sid := row], tokens := a.tokens + [token], audit := a.audit + entries)
  }

  /** A new session for `user`: every sign-in route ends here. */
  function SignIn(a: AuthTables, now: int, life: nat, user: nat, client: Option<string>, meta: Option<Meta>,
                  how: string)
    : (r: (AuthTables, Reply))
  {
    (IssueTokens(a, now, life, user, None, client, None, meta, Some(how)), Issued(user, |a.sessions|, |a.tokens|))
  }

  /** The rows a sign-in writes. */
  lemma SignInRows(a: AuthTables, b: AuthTables, now: int, life: nat, user: nat, client: Option<string>,
                   meta: Option<Meta>, how: string)
    requires b == SignIn(a, now, life, user, client, meta, how).0
    ensures b.sessions == a.sessions + [Session(user, client, MetaOf(meta), now, now + life, None, Some(now))]
    ensures b.tokens == a.tokens + [FreshToken(a, now, life, user, |a.sessions|, None)]
    ensures b.consents == a.consents
    ensures how != "" ==> b.audit == a.audit + [AuditEntry(user, Login(how), SessionIds([|a.sessions|]), client)]
  {
  }

  function FreshToken(a: AuthTables, now: int, life: nat, user: nat, session: nat, rotatedFrom: Option<nat>): Token {
    Token(session, user, |a.tokens|, Jwt(Refresh, user, session, |a.tokens|, now + life), rotatedFrom, now, now + life,
          None)
  }

  predicate UsableToken(a: AuthTables, now: int, t: Token) {
    && t.expiresAt > now && t.Live()
    && t.session < |a.sessions| && a.sessions[t.session].Live() && a.sessions[t.session].expiresAt > now
  }

  function LoadRefreshBundle(a: AuthTables, now: int, jwt: Jwt): (k: Option<nat>)
    ensures k.Some? ==> k.value < |a.tokens| && UsableToken(a, now, a.tokens[k.value]) && a.tokens[k.value].hash == jwt
  {
    FindRow(a.tokens, (t: Token) => t.hash == jwt && t.jti == jwt.jti && UsableToken(a, now, t))
  }

  /** `decode_token` and the `token_use` check; the signing library rejects `exp` before the present. */
  predicate DecodesAsRefresh(presented: Presented, now: int) {
    presented.Signed? && presented.jwt.exp >= now && presented.jwt.use == Refresh
  }

  function Merge(old_: Meta, new_: Meta): Meta {
    Meta(OrElse(new_.userAgent, old_.userAgent), OrElse(new_.ip, old_.ip),
         OrElse(new_.deviceLabel, old_.deviceLabel), OrElse(new_.location, old_.location))
  }

  /** Spends token `k` and issues the next one of its session. */
  function Rotate(a: AuthTables, now: int, life: nat, k: nat, meta: Option<Meta>): AuthTables
    requires k < |a.tokens| && a.tokens[k].session < |a.sessions|
  {
    var t := a.tokens[k];
    var s := a.sessions[t.session];
    var touched := s.(lastSeenAt := Some(now), expiresAt := now + life,
                      meta := if meta.Some? then Merge(s.meta, meta.value) else s.meta);
    var spent := a.(tokens := a.tokens[k := t.(revokedAt := Some(now))], sessions := a.sessions[t.session := touched]);
    IssueTokens(spent, now, life, t.user, Some(t.session), None, Some(k), None, None)
  }

  function RotatedTokens(a: AuthTables, now: int, life: nat, k: nat): seq<Token>
    requires k < |a.tokens|
  {
    var t := a.tokens[k];
    a.tokens[k := t.(revokedAt := Some(now))] + [FreshToken(a, now, life, t.user, t.session, Some(k))]
  }

  /** The rows a rotation writes. */
  lemma RotateRows(a: AuthTables, b: AuthTables, now: int, life: nat, k: nat, meta: Option<Meta>)
    requires k < |a.tokens| && a.tokens[k].session < |a.sessions|
    requires b == Rotate(a, now, life, k, meta)
    ensures var t := a.tokens[k];
            && b.tokens == RotatedTokens(a, now, life, k)
            && |b.sessions| == |a.sessions|
            && (forall i :: 0 <= i < |a.sessions| && i != t.session ==> b.sessions[i] == a.sessions[i])
            && b.sessions[t.session] == a.sessions[t.session].(lastSeenAt := Some(now), expiresAt := now + life,
                                                               meta := b.sessions[t.session].meta)
    ensures b.consents == a.consents && b.audit == a.audit
  {
  }

  function RefreshTokens(a: AuthTables, users: seq<User>, now: int, life: nat, presented: Presented, meta: Option<Meta>)
    : (r: (AuthTables, Reply))
  {
    if !DecodesAsRefresh(presented, now) then (a, Failed(InvalidToken))
    else match LoadRefreshBundle(a, now, presented.jwt)
      case None => (a, Failed(RefreshRejected))
      case Some(k) =>
        var t := a.tokens[k];
        if t.user != presented.jwt.sub then (a, Failed(RefreshRejected))
        else if !ActiveUser(users, t.user) then (a, Failed(UserNotFound))
        else (Rotate(a, now, life, k, meta), Issued(t.user, t.session, |a.tokens|))
  }

  /** Revokes the sessions in `ids` and every live token of theirs. */
  function RevokeSessions(sessions: seq<Session>, ids: set<nat>, now: int): (r: seq<Session>)
    ensures |r| == |sessions|
  {
    seq(|sessions|, i requires 0 <= i < |sessions| =>
      if i in ids then sessions[i].(revokedAt := Some(now), lastSeenAt := Some(now)) else sessions[i])
  }

  function RevokeTokens(tokens: seq<Token>, ids: set<nat>, now: int): (r: seq<Token>)
    ensures |r| == |tokens|
  {
    seq(|tokens|, i requires 0 <= i < |tokens| =>
      if tokens[i].session in ids && tokens[i].Live() then tokens[i].(revokedAt := Some(now)) else tokens[i])
  }

  function CloseSessions(a: AuthTables, ids: set<nat>, now: int, entry: AuditEntry): AuthTables {
    a.(sessions := RevokeSessions(a.sessions, ids, now), tokens := RevokeTokens(a.tokens, ids, now), audit :=
        a.audit + [entry])
  }

  function LogoutUser(a: AuthTables, now: int, presented: Presented): (r: (AuthTables, Reply)) {
    if !DecodesAsRefresh(presented, now) then (a, Failed(InvalidToken))
    else match LoadRefreshBundle(a, now, presented.jwt)
      case None => (a, Ok)
      case Some(k) =>
        var sid := a.tokens[k].session;
        var s := a.sessions[sid];
        (CloseSessions(a, {sid}, now, AuditEntry(s.user, Logout, SessionIds([sid]), s.client)), Ok)
  }

  // ---------------------------------------------------------------- the active-session listing

  predicate IsActive(s: Session, user: nat, now: int) {
    s.user == user && s.Live() && s.expiresAt > now
  }

  /** `ORDER BY last_seen_at DESC NULLS LAST, created_at DESC`. */
  predicate Before(s: Session, t: Session) {
    match (s.lastSeenAt, t.lastSeenAt)
    case (Some(x), Some(y)) => x > y || (x == y && s.createdAt > t.createdAt)
    case (Some(_), None) => true
    case (None, Some(_)) => false
    case (None, None) => s.createdAt > t.createdAt
  }

  /** Positions of the rows from `i` on that are active, in table order. */
  function ActiveIds(sessions: seq<Session>, user: nat, now: int, i: nat := 0): (ids: seq<nat>)
    requires i <= |sessions|
    ensures Rows(sessions, ids)
    ensures forall id: nat :: id in ids <==> i <= id < |sessions| && IsActive(sessions[id], user, now)
    decreases |sessions| - i
  {
    if i == |sessions| then []
    else
      var rest := ActiveIds(sessions, user, now, i + 1);
      if IsActive(sessions[i], user, now) then [i] + rest else rest
  }

  predicate Rows(sessions: seq<Session>, ids: seq<nat>) {
    forall k :: 0 <= k < |ids| ==> ids[k] < |sessions|
  }

  function InsertRow(sessions: seq<Session>, id: nat, ids: seq<nat>): (r: seq<nat>)
    requires id < |sessions| && Rows(sessions, ids)
    ensures Rows(sessions, r)
    ensures forall x: nat :: x in r <==> x == id || x in ids
  {
    if ids == [] || !Before(sessions[ids[0]], sessions[id]) then [id] + ids
    else [ids[0]] + InsertRow(sessions, id, ids[1..])
  }

  function OrderRows(sessions: seq<Session>, ids: seq<nat>): (r: seq<nat>)
    requires Rows(sessions, ids)
    ensures Rows(sessions, r)
    ensures forall x: nat :: x in r <==> x in ids
  {
    if ids == [] then [] else InsertRow(sessions, ids[0], OrderRows(sessions, ids[1..]))
  }

  /** The active sessions of `user`, most recently seen first; rows the query ranks equal stay in table order. */
  function LoadActiveSessions(sessions: seq<Session>, user: nat, now: int): (ids: seq<nat>)
    ensures Rows(sessions, ids)
    ensures forall id: nat :: id in ids <==> id < |sessions| && IsActive(sessions[id], user, now)
  {
    OrderRows(sessions, ActiveIds(sessions, user, now))
  }

  // ---------------------------------------------------------------- display names

  datatype Agent = Agent(browser: string, system: string, kind: string)

  function ParseUserAgent(userAgent: Option<string>): Agent {
    var lower := Lower(Strip(if userAgent.Some? then userAgent.value else ""));
    if lower == "" then Agent("未知设备", "未知系统", "browser")
    else
      var kind :=
        if Contains(lower, "iphone") || Contains(lower, "android") || Contains(lower, "mobile")
            || Contains(lower, "ipad")
        then "mobile"
        else if Contains(lower, "electron") || Contains(lower, "minibot-cli") || Contains(lower, "curl/")
             || Contains(lower, "python-requests") || Contains(lower, "go-http")
        then "desktop" else "browser";
      var system :=
        if Contains(lower, "mac os") || Contains(lower, "macintosh") then "macOS"
        else if Contains(lower, "windows") then "Windows"
        else if Contains(lower, "android") then "Android"
        else if Contains(lower, "iphone") || Contains(lower, "ipad") || Contains(lower, "ios") then "iOS"
        else if Contains(lower, "linux") then "Linux"
        else if Contains(lower, "darwin") then "macOS"
        else "未知系统";
      var browser :=
        if Contains(lower, "edg/") then "Edge"
        else if Contains(lower, "chrome/") then "Chrome"
        else if Contains(lower, "safari/") then "Safari"
        else if Contains(lower, "firefox/") then "Firefox"
        else if Contains(lower, "minibot-cli") || Contains(lower, "vercel") then "CLI"
        else if kind == "desktop" then "桌面客户端"
        else "浏览器";
      Agent(browser, system, kind)
  }

  /** The title under which a session is listed and grouped. */
  function DisplayName(s: Session): string {
    var agent := ParseUserAgent(s.meta.userAgent);
    var title := Strip(if s.meta.deviceLabel.Some? then s.meta.deviceLabel.value else "");
    if title != "" then title
    else if agent.system != "" && agent.system != "未知系统" then agent.browser + " · " + agent.system
    else agent.browser
  }

  // ---------------------------------------------------------------- revocation from the security center

  /** The active sessions listed under `name`, the caller's own one excepted, in listing order. */
  function SameName(sessions: seq<Session>, ids: seq<nat>, name: string, current: Option<nat>): (r: seq<nat>)
    requires Rows(sessions, ids)
    ensures Rows(sessions, r)
    ensures forall x: nat :: x in r <==> x in ids && DisplayName(sessions[x]) == name && current != Some(x)
  {
    if ids == [] then []
    else
      var rest := SameName(sessions, ids[1..], name, current);
      if DisplayName(sessions[ids[0]]) == name && current != Some(ids[0]) then [ids[0]] + rest else rest
  }

  function RevokeSecuritySession(a: AuthTables, now: int, user: nat, sid: nat,
                                 current: Option<nat>): (r: (AuthTables, Reply)) {
    if current == Some(sid) then (a, Failed(CurrentSession))
    else if !(sid < |a.sessions| && a.sessions[sid].user == user && a.sessions[sid].Live())
        then (a, Failed(SessionNotFound))
    else
      var seed := a.sessions[sid];
      var targets := SameName(a.sessions, LoadActiveSessions(a.sessions, user, now), DisplayName(seed), current);
      if targets == [] then (a, Failed(SessionNotFound))
      else (CloseSessions(a, Elements(targets), now, AuditEntry(user, SessionRevoke, SessionIds(targets), seed.client)),
            Ok)
  }

  // ---------------------------------------------------------------- consents

  function FindConsent(consents: seq<Consent>, user: nat, client: string): Option<nat> {
    FindRow(consents, (c: Consent) => c.user == user && c.client == client)
  }

  /** Records that `user` authorized `client`; a blank client id is refused. */
  function UpsertConsent(a: AuthTables, now: int, user: nat, client: string, scopes: string): (r: Option<AuthTables>) {
    var name := Strip(client);
    if name == "" then None
    else match FindConsent(a.consents, user, name)
      case None =>
        var stored := if scopes != "" then scopes else "openid profile email";
        Some(a.(consents := a.consents + [Consent(user, name, stored, now, None, now)]))
      case Some(i) =>
        var c := a.consents[i];
        var used := c.(scopes := if scopes != "" then scopes else c.scopes, lastUsedAt := now);
        Some(a.(consents := a.consents[i := if c.revokedAt.Some? then used.(revokedAt := None, authorizedAt := now)
            else used]))
  }

  /** Consent for the client, then a session bound to it: the end of both OAuth grants. */
  function Grant(a: AuthTables, now: int, life: nat, user: nat, client: string, scopes: string, meta: Option<Meta>,
                 how: string)
    : (r: (AuthTables, Reply))
  {
    match UpsertConsent(a, now, user, client, scopes)
    case None => (a, Failed(ClientRequired))
    case Some(b) => SignIn(b, now, life, user, Some(client), meta, how)
  }

  function FindLiveConsent(consents: seq<Consent>, user: nat, client: string): (i: Option<nat>)
    ensures i.Some? ==> i.value < |consents|
    ensures i.Some? ==>
              consents[i.value].user == user && consents[i.value].client == client
              && consents[i.value].revokedAt.None?
  {
    FindRow(consents, (c: Consent) => c.user == user && c.client == client && c.revokedAt.None?)
  }

  predicate BoundTo(s: Session, user: nat, client: string) {
    s.user == user && s.client == Some(client) && s.Live()
  }

  function ClientSessions(sessions: seq<Session>, user: nat, client: string): set<nat> {
    set i: nat | i < |sessions| && BoundTo(sessions[i], user, client)
  }

  function RevokeConsent(a: AuthTables, now: int, user: nat, client: string): (r: (AuthTables, Reply)) {
    var name := Strip(client);
    match FindLiveConsent(a.consents, user, name)
    case None => (a, Failed(ConsentNotFound))
    case Some(i) =>
      var b := a.(consents := a.consents[i := a.consents[i].(revokedAt := Some(now))]);
      (CloseSessions(b, ClientSessions(a.sessions, user, name), now,
                     AuditEntry(user, ConsentRevoke, ClientId(name), None)), Ok)
  }
}
