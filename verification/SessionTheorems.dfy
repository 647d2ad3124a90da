/** What the session and token tables guarantee over whole runs. */
module SessionTheorems {
  import opened AuditReplay
  import opened Changes
  import opened Reachable
  import opened RotationChain
  import opened Service
  import opened Sessions
  import opened Tables

  // ---------------------------------------------------------------- one state

  /** In every reachable state, replaying the audit log gives exactly the live sessions with their owners. */
  lemma AuditLogRebuildsSessions(r: Run, i: nat)
    requires IsRun(r) && i < |r.states|
    ensures Replay(r.states[i].auth.audit) == LiveSessions(r.states[i].auth.sessions)
  {
    RunSound(r, i);
  }

  /** In every reachable state, the tokens of a session are one chain: a root, then each token exchanged for its
      predecessor. A live session has exactly one live token, the last, expiring with it; a revoked one has none. */
  lemma TokensFormOneChain(r: Run, i: nat, sid: nat)
    requires IsRun(r) && i < |r.states| && sid < |r.states[i].auth.sessions|
    ensures var a := r.states[i].auth;
            var c := TokensOf(a.tokens, sid);
            && |c| > 0 && a.tokens[c[0]].rotatedFrom == None
            && (forall j :: 0 < j < |c| ==> a.tokens[c[j]].rotatedFrom == Some(c[j - 1]))
            && (forall k ::
                  0 <= k < |a.tokens| && a.tokens[k].session == sid
                  ==> k in c && a.tokens[k].user == a.sessions[sid].user)
            && (forall k :: 0 <= k < |a.tokens| && a.tokens[k].session == sid
                  ==> (a.tokens[k].Live() <==> a.sessions[sid].Live() && k == c[|c| - 1]))
            && (a.sessions[sid].Live() ==> a.tokens[c[|c| - 1]].expiresAt == a.sessions[sid].expiresAt)
  {
    RunSound(r, i);
    ChainLinks(r.states[i].auth, r.states[i].now, r.states[i].settings.refreshLifetime, sid);
    ChainRows(r.states[i].auth, r.states[i].now, r.states[i].settings.refreshLifetime, sid);
  }

  lemma ChainLinks(a: AuthTables, now: int, life: nat, sid: nat)
    requires Chains(a, now, life) && sid < |a.sessions|
    ensures var c := TokensOf(a.tokens, sid);
            && |c| > 0 && a.tokens[c[0]].rotatedFrom == None
            && (forall j :: 0 < j < |c| ==> a.tokens[c[j]].rotatedFrom == Some(c[j - 1]))
            && (forall j :: 0 <= j < |c| - 1 ==> !a.tokens[c[j]].Live())
            && (a.tokens[c[|c| - 1]].Live() <==> a.sessions[sid].Live())
            && (a.sessions[sid].Live() ==> a.tokens[c[|c| - 1]].expiresAt == a.sessions[sid].expiresAt)
  {
    var c := TokensOf(a.tokens, sid);
    assert ChainOf(a.tokens, c, a.sessions[sid], now, life);
    forall j | 0 < j < |c| ensures a.tokens[c[j]].rotatedFrom == Some(c[j - 1]) {
      assert ExchangedFor(a.tokens[c[j - 1]], c[j - 1], a.tokens[c[j]]);
    }
    forall j | 0 <= j < |c| - 1 ensures !a.tokens[c[j]].Live() {
      assert ExchangedFor(a.tokens[c[j]], c[j], a.tokens[c[j + 1]]);
    }
  }

  lemma ChainRows(a: AuthTables, now: int, life: nat, sid: nat)
    requires Chains(a, now, life) && sid < |a.sessions|
    ensures var c := TokensOf(a.tokens, sid);
            && |c| > 0
            && (forall k ::
                  0 <= k < |a.tokens| && a.tokens[k].session == sid
                  ==> k in c && a.tokens[k].user == a.sessions[sid].user)
            && (forall k :: 0 <= k < |a.tokens| && a.tokens[k].session == sid
                  ==> (a.tokens[k].Live() <==> a.sessions[sid].Live() && k == c[|c| - 1]))
  {
    ChainLinks(a, now, life, sid);
    var c := TokensOf(a.tokens, sid);
    forall k | 0 <= k < |a.tokens| && a.tokens[k].session == sid
      ensures k in c && a.tokens[k].user == a.sessions[sid].user
      ensures a.tokens[k].Live() <==> a.sessions[sid].Live() && k == c[|c| - 1]
    {
      TokensOfComplete(a.tokens, k);
      assert TokenRow(a.sessions, a.tokens[k], k);
    }
  }

  /** `k` is the token a signed refresh token refers to. */
  lemma BundleIsRow(a: AuthTables, now: int, life: nat, k: nat)
    requires Sound(a, now, life) && k < |a.tokens| && UsableToken(a, now, a.tokens[k])
    ensures LoadRefreshBundle(a, now, a.tokens[k].hash) == Some(k)
  {
  }

  predicate Accepts(a: AuthTables, users: seq<User>, now: int, life: nat, presented: Presented, sid: nat) {
    var reply := RefreshTokens(a, users, now, life, presented, None).1;
    reply.Issued? && reply.session == sid
  }

  /** The device list is exact: for a user who is not deleted it shows, at any later time without further calls,
      precisely the sessions some issued refresh token would still be accepted for. */
  lemma DeviceListExact(r: Run, i: nat, later: int, user: nat, sid: nat)
    requires IsRun(r) && i < |r.states| && r.states[i].now <= later && ActiveUser(r.states[i].users, user)
    ensures var db := r.states[i];
            var a, life := db.auth, db.settings.refreshLifetime;
            sid in LoadActiveSessions(a.sessions, user, later)
            <==> sid < |a.sessions| && a.sessions[sid].user == user
                 && exists k :: 0 <= k < |a.tokens| && Accepts(a, db.users, later, life, Signed(a.tokens[k].hash), sid)
  {
    var db := r.states[i];
    var a, life := db.auth, db.settings.refreshLifetime;
    RunSound(r, i);
    LaterSound(a, db.now, later, life);
    hide LoadActiveSessions, IsRun;
    if sid in LoadActiveSessions(a.sessions, user, later) {
      var c := TokensOf(a.tokens, sid);
      var k := c[|c| - 1];
      assert ChainOf(a.tokens, c, a.sessions[sid], later, life);
      BundleIsRow(a, later, life, k);
      assert TokenRow(a.sessions, a.tokens[k], k);
      assert Accepts(a, db.users, later, life, Signed(a.tokens[k].hash), sid);
    }
  }

  /** The token at position `j` of a chain is the first issued after `t`. */
  lemma {:induction false} Crossing(tokens: seq<Token>, c: seq<nat>, t: int, n: nat) returns (j: nat)
    requires Positions(tokens, c) && n < |c|
    requires tokens[c[0]].createdAt <= t < tokens[c[n]].createdAt
    ensures 0 < j <= n && tokens[c[j - 1]].createdAt <= t < tokens[c[j]].createdAt
  {
    if tokens[c[n - 1]].createdAt <= t {
      j := n;
    } else {
      j := Crossing(tokens, c, t, n - 1);
    }
  }

  /** Sliding expiry: a session still unexpired at `t` was refreshed within every stretch of the refresh lifetime
      between its creation and `t`. */
  lemma SlidingExpiry(r: Run, i: nat, sid: nat, from: int, t: int)
    requires IsRun(r) && i < |r.states| && sid < |r.states[i].auth.sessions|
    requires var s := r.states[i].auth.sessions[sid]; s.Live() && s.expiresAt > t && s.createdAt <= from
    requires from + r.states[i].settings.refreshLifetime <= t
    ensures var a := r.states[i].auth;
            exists k :: 0 <= k < |a.tokens| && a.tokens[k].session == sid
                        && from < a.tokens[k].createdAt < from + r.states[i].settings.refreshLifetime
  {
    RunSound(r, i);
    var a, life := r.states[i].auth, r.states[i].settings.refreshLifetime;
    var c := TokensOf(a.tokens, sid);
    assert ChainOf(a.tokens, c, a.sessions[sid], r.states[i].now, life);
    assert Timed(a.tokens[c[|c| - 1]], r.states[i].now, life);
    var j := Crossing(a.tokens, c, from, |c| - 1);
    assert ExchangedFor(a.tokens[c[j - 1]], c[j - 1], a.tokens[c[j]]);
    assert Timed(a.tokens[c[j - 1]], r.states[i].now, life);
    assert a.tokens[c[j]].session == sid;
  }

  // ---------------------------------------------------------------- across calls

  predicate SessionEvolves(s: Session, t: Session) {
    && t.user == s.user && t.client == s.client && t.createdAt == s.createdAt
    && (!s.Live() ==> t == s)
  }

  predicate TokenEvolves(s: Token, t: Token) {
    t == s.(revokedAt := t.revokedAt) && (!s.Live() ==> t == s)
  }

  /** Rows stay; revoked rows never change again, and revoked sessions get no new tokens. */
  ghost predicate Evolves(a: AuthTables, b: AuthTables) {
    && |a.sessions| <= |b.sessions| && |a.tokens| <= |b.tokens|
    && (forall i :: 0 <= i < |a.sessions| ==> SessionEvolves(a.sessions[i], b.sessions[i]))
    && (forall k :: 0 <= k < |a.tokens| ==> TokenEvolves(a.tokens[k], b.tokens[k]))
    && (forall k ::
          |a.tokens| <= k < |b.tokens| && b.tokens[k].session < |a.sessions|
          ==> a.sessions[b.tokens[k].session].Live())
  }

  lemma ChangeEvolves(a: AuthTables, b: AuthTables, now: int, life: nat, ch: Change)
    requires Changed(a, b, now, life, ch)
    ensures Evolves(a, b)
  {
  }

  /** Every call, and so every stretch of a run, only evolves the tables. */
  lemma {:induction false} RunEvolves(r: Run, i: nat, j: nat)
    requires IsRun(r) && i <= j < |r.states|
    ensures Evolves(r.states[i].auth, r.states[j].auth)
  {
    if i == j {
    } else {
      RunEvolves(r, i, j - 1);
      var ch := CallChange(r, j - 1);
      ChangeEvolves(r.states[j - 1].auth, r.states[j].auth, r.states[j - 1].now,
                    r.states[j - 1].settings.refreshLifetime, ch);
      EvolvesTwice(r.states[i].auth, r.states[j - 1].auth, r.states[j].auth);
    }
  }

  lemma EvolvesTwice(a: AuthTables, b: AuthTables, c: AuthTables)
    requires Evolves(a, b) && Evolves(b, c)
    ensures Evolves(a, c)
  {
  }

  predicate AcceptedAt(r: Run, i: nat, presented: Presented)
    requires |r.replies| == |r.calls|
  {
    i < |r.calls| && r.calls[i].RefreshCall? && r.calls[i].presented == presented && r.replies[i].Issued?
  }

  /** The row an accepted refresh spends: live before, revoked after, and named by the token itself. */
  lemma AcceptedRow(r: Run, i: nat, presented: Presented) returns (k: nat)
    requires IsRun(r) && AcceptedAt(r, i, presented)
    ensures presented.Signed? && k == presented.jwt.jti
    ensures k < |r.states[i].auth.tokens| && r.states[i].auth.tokens[k].Live()
    ensures var sid := r.states[i].auth.tokens[k].session;
            r.replies[i].session == sid && sid < |r.states[i].auth.sessions| && r.states[i].auth.sessions[sid].Live()
    ensures k < |r.states[i + 1].auth.tokens| && !r.states[i + 1].auth.tokens[k].Live()
  {
    var ch := CallChange(r, i);
    k := ch.spent;
    RunSound(r, i);
    assert TokenRow(r.states[i].auth.sessions, r.states[i].auth.tokens[k], k);
  }

  lemma SpentIsRefused(r: Run, i: nat, j: nat, presented: Presented)
    requires IsRun(r) && AcceptedAt(r, i, presented) && i < j
    ensures !AcceptedAt(r, j, presented)
  {
    if AcceptedAt(r, j, presented) {
      var k := AcceptedRow(r, i, presented);
      RunEvolves(r, i + 1, j);
      assert TokenEvolves(r.states[i + 1].auth.tokens[k], r.states[j].auth.tokens[k]);
      var _ := AcceptedRow(r, j, presented);
    }
  }

  /** Over any run a refresh token is accepted at most once. */
  lemma AcceptedOnce(r: Run, i: nat, j: nat, presented: Presented)
    requires IsRun(r) && AcceptedAt(r, i, presented) && AcceptedAt(r, j, presented)
    ensures i == j
  {
    if i < j {
      SpentIsRefused(r, i, j, presented);
    } else if j < i {
      SpentIsRefused(r, j, i, presented);
    }
  }

  lemma {:induction false} SameTokens(a: seq<Token>, b: seq<Token>, sid: nat)
    requires |a| <= |b|
    requires forall k :: 0 <= k < |a| ==> a[k].session == b[k].session
    requires forall k :: |a| <= k < |b| ==> b[k].session != sid
    ensures TokensOf(b, sid) == TokensOf(a, sid)
  {
    if |a| < |b| {
      SameTokens(a, b[..|b| - 1], sid);
    } else {
      TokensOfSameSessions(a, b, sid);
    }
  }

  /** Once a session is revoked, by whichever route, nothing about it changes again: its row stays, it gains no
      token, none of its tokens is ever accepted. */
  lemma RevocationIsPermanent(r: Run, i: nat, j: nat, sid: nat)
    requires IsRun(r) && i <= j < |r.states|
    requires sid < |r.states[i].auth.sessions| && !r.states[i].auth.sessions[sid].Live()
    ensures sid < |r.states[j].auth.sessions| && r.states[j].auth.sessions[sid] == r.states[i].auth.sessions[sid]
    ensures TokensOf(r.states[j].auth.tokens, sid) == TokensOf(r.states[i].auth.tokens, sid)
    ensures j < |r.calls| && r.calls[j].RefreshCall? && r.replies[j].Issued? ==> r.replies[j].session != sid
  {
    var a, b := r.states[i].auth, r.states[j].auth;
    RunEvolves(r, i, j);
    assert SessionEvolves(a.sessions[sid], b.sessions[sid]);
    forall k | 0 <= k < |a.tokens| ensures a.tokens[k].session == b.tokens[k].session {
      assert TokenEvolves(a.tokens[k], b.tokens[k]);
    }
    SameTokens(a.tokens, b.tokens, sid);
    if j < |r.calls| && r.calls[j].RefreshCall? && r.replies[j].Issued? {
      var _ := AcceptedRow(r, j, r.calls[j].presented);
    }
  }

  /** Successful refreshes of `sid` among the first `n` calls. */
  function Refreshes(r: Run, n: nat, sid: nat): nat
    requires |r.replies| == |r.calls| && n <= |r.calls|
  {
    if n == 0 then 0
    else
      Refreshes(r, n - 1, sid)
      + if r.calls[n - 1].RefreshCall? && r.replies[n - 1].Issued? && r.replies[n - 1].session == sid then 1 else 0
  }

  lemma ChangeTokensOf(a: AuthTables, b: AuthTables, now: int, life: nat, ch: Change, sid: nat)
    requires Chains(a, now, life) && Changed(a, b, now, life, ch)
    ensures |TokensOf(b.tokens, sid)| ==
            |TokensOf(a.tokens, sid)| + if (ch.Opened? && sid == |a.sessions|)
                || (ch.Rotated? && a.tokens[ch.spent].session == sid) then 1 else 0
  {
    match ch
    case Untouched =>
    case Opened(s) => TokensOfAppend(a.tokens, FreshToken(a, now, life, s.user, |a.sessions|, None), sid);
    case Rotated(k) => RotateTokensOf(a, b.tokens, now, life, k, sid);
    case Closed(ids) => TokensOfSameSessions(a.tokens, b.tokens, sid);
  }

  lemma ChangeSessions(a: AuthTables, b: AuthTables, now: int, life: nat, ch: Change)
    requires Changed(a, b, now, life, ch)
    ensures |b.sessions| == |a.sessions| + if ch.Opened? then 1 else 0
  {
  }

  lemma StepTokensOf(r: Run, i: nat, sid: nat)
    requires IsRun(r) && i < |r.calls|
    ensures var a, b := r.states[i].auth, r.states[i + 1].auth;
            && |a.sessions| <= |b.sessions|
            && |TokensOf(b.tokens, sid)| - |TokensOf(a.tokens, sid)|
               == Refreshes(r, i + 1, sid) - Refreshes(r, i, sid) + (if |a.sessions| <= sid < |b.sessions| then 1
                   else 0)
  {
    RunSound(r, i);
    var a, b, now, life := r.states[i].auth, r.states[i + 1].auth, r.states[i].now,
        r.states[i].settings.refreshLifetime;
    var ch := CallChange(r, i);
    ChangeTokensOf(a, b, now, life, ch, sid);
    ChangeSessions(a, b, now, life, ch);
    hide Sound, Changed, TokensOf;
  }

  /** A session always has one token more than it had successful refreshes; before it exists it has neither. */
  lemma {:induction false} TokenCount(r: Run, n: nat, sid: nat)
    requires IsRun(r) && n < |r.states|
    ensures |TokensOf(r.states[n].auth.tokens, sid)|
            == Refreshes(r, n, sid) + if sid < |r.states[n].auth.sessions| then 1 else 0
  {
    if n == 0 {
    } else {
      TokenCount(r, n - 1, sid);
      StepTokensOf(r, n - 1, sid);
    }
  }
}
