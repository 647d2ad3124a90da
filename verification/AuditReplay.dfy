/** The audit log alone determines which sessions are live, and whose they are. */
module AuditReplay {
  import opened Ordered
  import opened Sessions
  import opened Tables

  datatype Owner = Owner(user: nat, client: Option<string>)

  /** What one entry does to the set of live sessions. */
  function ApplyEntry(live: map<nat, Owner>, e: AuditEntry): map<nat, Owner> {
    match (e.action, e.target)
    case (Login(_), SessionIds(ids)) => map sid | sid in live.Keys + Elements(ids) :: if sid in ids
        then Owner(e.actor, e.client) else live[sid]
    case (Logout, SessionIds(ids)) => live - Elements(ids)
    case (SessionRevoke, SessionIds(ids)) => live - Elements(ids)
    case (ConsentRevoke, ClientId(client)) => map sid | sid in live && live[sid] != Owner(e.actor, Some(client)) ::
        live[sid]
    case _ => live
  }

  function Replay(log: seq<AuditEntry>): map<nat, Owner> {
    if log == [] then map[] else ApplyEntry(Replay(log[..|log| - 1]), log[|log| - 1])
  }

  function LiveSessions(sessions: seq<Session>): map<nat, Owner> {
    map sid: nat | sid < |sessions| && sessions[sid].Live() :: Owner(sessions[sid].user, sessions[sid].client)
  }

  predicate Replayable(a: AuthTables) {
    Replay(a.audit) == LiveSessions(a.sessions)
  }

  lemma ReplayAppend(log: seq<AuditEntry>, e: AuditEntry)
    ensures Replay(log + [e]) == ApplyEntry(Replay(log), e)
  {
  }

  lemma SignInReplay(a: AuthTables, b: AuthTables, now: int, life: nat, user: nat, client: Option<string>,
                     meta: Option<Meta>, how: string)
    requires Replayable(a) && how != ""
    requires b == SignIn(a, now, life, user, client, meta, how).0
    ensures Replayable(b)
  {
    SignInRows(a, b, now, life, user, client, meta, how);
    ReplayAppend(a.audit, b.audit[|a.audit|]);
  }

  lemma RotateReplay(a: AuthTables, b: AuthTables, now: int, life: nat, k: nat, meta: Option<Meta>)
    requires Replayable(a) && k < |a.tokens| && a.tokens[k].session < |a.sessions|
    requires b == Rotate(a, now, life, k, meta)
    ensures Replayable(b)
  {
    RotateRows(a, b, now, life, k, meta);
    assert LiveSessions(b.sessions) == LiveSessions(a.sessions);
  }

  /** A revocation keeps the log replayable when its entry removes exactly the closed sessions. */
  lemma CloseReplay(a: AuthTables, b: AuthTables, ids: set<nat>, now: int, entry: AuditEntry)
    requires Replayable(a)
    requires b == CloseSessions(a, ids, now, entry)
    requires ApplyEntry(LiveSessions(a.sessions), entry) == LiveSessions(a.sessions) - ids
    ensures Replayable(b)
  {
  }

  /** A consent revocation names only the client, yet removes exactly the sessions closed with it. */
  lemma ConsentEntry(sessions: seq<Session>, user: nat, client: string)
    ensures ApplyEntry(LiveSessions(sessions), AuditEntry(user, ConsentRevoke, ClientId(client), None))
            == LiveSessions(sessions) - ClientSessions(sessions, user, client)
  {
  }
}
