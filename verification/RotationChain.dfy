/** Every session's refresh tokens form one unbranched chain, each issued in exchange for the one before. */
module RotationChain {
  import opened Sessions
  import opened Tables

  /** The tokens of session `sid`, in table order. */
  function TokensOf(tokens: seq<Token>, sid: nat): (c: seq<nat>)
    ensures forall k :: 0 <= k < |c| ==> c[k] < |tokens| && tokens[c[k]].session == sid
    ensures forall j, k :: 0 <= j < k < |c| ==> c[j] < c[k]
  {
    if tokens == [] then []
    else
      var n := |tokens| - 1;
      TokensOf(tokens[..n], sid) + if tokens[n].session == sid then [n] else []
  }

  lemma {:induction false} TokensOfComplete(tokens: seq<Token>, k: nat)
    requires k < |tokens|
    ensures k in TokensOf(tokens, tokens[k].session)
  {
    if k < |tokens| - 1 {
      TokensOfComplete(tokens[..|tokens| - 1], k);
    }
  }

  lemma {:induction false} TokensOfSameSessions(tokens: seq<Token>, other: seq<Token>, sid: nat)
    requires |tokens| == |other|
    requires forall k :: 0 <= k < |tokens| ==> tokens[k].session == other[k].session
    ensures TokensOf(tokens, sid) == TokensOf(other, sid)
  {
    if tokens == [] {
    } else {
      TokensOfSameSessions(tokens[..|tokens| - 1], other[..|other| - 1], sid);
    }
  }

  lemma TokensOfAppend(tokens: seq<Token>, t: Token, sid: nat)
    ensures TokensOf(tokens + [t], sid) == TokensOf(tokens, sid) + if t.session == sid then [|tokens|] else []
  {
  }

  predicate TokenRow(sessions: seq<Session>, t: Token, k: nat) {
    && t.session < |sessions| && t.user == sessions[t.session].user
    && t.jti == k && t.hash == Jwt(Refresh, t.user, t.session, k, t.expiresAt)
  }

  predicate Positions(tokens: seq<Token>, c: seq<nat>) {
    forall k :: 0 <= k < |c| ==> c[k] < |tokens|
  }

  predicate Timed(t: Token, now: int, life: nat) {
    t.expiresAt == t.createdAt + life && t.createdAt <= now
  }

  /** `t`, at position `j`, was exchanged for `u` before it expired. */
  predicate ExchangedFor(t: Token, j: nat, u: Token) {
    u.rotatedFrom == Some(j) && t.createdAt <= u.createdAt < t.expiresAt && !t.Live()
  }

  /** The tokens at positions `c` are linked oldest to newest. */
  ghost predicate Linked(tokens: seq<Token>, c: seq<nat>, now: int, life: nat)
    requires Positions(tokens, c)
  {
    && (forall k :: 0 <= k < |c| ==> Timed(tokens[c[k]], now, life))
    && (forall j, k :: 0 <= j < k < |c| && k == j + 1 ==> ExchangedFor(tokens[c[j]], c[j], tokens[c[k]]))
  }

  /** One root, one unbranched chain; a live session has exactly one live token, the last, sharing its expiry,
      and a revoked session has none. */
  ghost predicate ChainOf(tokens: seq<Token>, c: seq<nat>, s: Session, now: int, life: nat)
    requires Positions(tokens, c)
  {
    && |c| > 0
    && tokens[c[0]].rotatedFrom == None && tokens[c[0]].createdAt == s.createdAt
    && Linked(tokens, c, now, life)
    && (tokens[c[|c| - 1]].Live() <==> s.Live())
    && (s.Live() ==> tokens[c[|c| - 1]].expiresAt == s.expiresAt)
  }

  ghost predicate TokenRows(sessions: seq<Session>, tokens: seq<Token>) {
    forall k :: 0 <= k < |tokens| ==> TokenRow(sessions, tokens[k], k)
  }

  ghost predicate Chains(a: AuthTables, now: int, life: nat) {
    && TokenRows(a.sessions, a.tokens)
    && forall sid :: 0 <= sid < |a.sessions| ==> ChainOf(a.tokens, TokensOf(a.tokens, sid), a.sessions[sid], now, life)
  }

  /** A chain is unaffected by changes to other rows. */
  lemma ChainFrame(tokens: seq<Token>, other: seq<Token>, c: seq<nat>, s: Session, now: int, life: nat)
    requires Positions(tokens, c) && Positions(other, c)
    requires forall k :: 0 <= k < |c| ==> tokens[c[k]] == other[c[k]]
    requires ChainOf(tokens, c, s, now, life)
    ensures ChainOf(other, c, s, now, life)
  {
  }

  lemma ChainStarts(tokens: seq<Token>, k: nat, s: Session, now: int, life: nat)
    requires k < |tokens| && tokens[k].rotatedFrom == None && tokens[k].createdAt == s.createdAt
    requires Timed(tokens[k], now, life) && tokens[k].Live() && s.Live() && s.expiresAt == tokens[k].expiresAt
    ensures ChainOf(tokens, [k], s, now, life)
  {
  }

  lemma NoTokensBeyond(sessions: seq<Session>, tokens: seq<Token>)
    requires TokenRows(sessions, tokens)
    ensures TokensOf(tokens, |sessions|) == []
  {
  }

  /** Opening a session starts its chain with one token and leaves every other chain alone. */
  lemma SignInChains(a: AuthTables, b: AuthTables, now: int, life: nat, user: nat, client: Option<string>,
                     meta: Option<Meta>, how: string)
    requires Chains(a, now, life)
    requires b == SignIn(a, now, life, user, client, meta, how).0
    ensures Chains(b, now, life)
  {
    SignInRows(a, b, now, life, user, client, meta, how);
    forall sid | 0 <= sid < |b.sessions|
      ensures ChainOf(b.tokens, TokensOf(b.tokens, sid), b.sessions[sid], now, life)
    {
      ChainAfterAppend(a, b.tokens, b.sessions[|a.sessions|], now, life, sid);
    }
    forall k | 0 <= k < |b.tokens| ensures TokenRow(b.sessions, b.tokens[k], k) {
      assert k < |a.tokens| ==> TokenRow(a.sessions, a.tokens[k], k);
    }
  }

  lemma ChainAfterAppend(a: AuthTables, tokens: seq<Token>, s: Session, now: int, life: nat, sid: nat)
    requires Chains(a, now, life) && sid <= |a.sessions|
    requires tokens == a.tokens + [FreshToken(a, now, life, s.user, |a.sessions|, None)]
    requires s.Live() && s.createdAt == now && s.expiresAt == now + life
    ensures ChainOf(tokens, TokensOf(tokens, sid), if sid < |a.sessions| then a.sessions[sid] else s, now, life)
  {
    var c := TokensOf(a.tokens, sid);
    TokensOfAppend(a.tokens, FreshToken(a, now, life, s.user, |a.sessions|, None), sid);
    if sid < |a.sessions| {
      assert ChainOf(a.tokens, c, a.sessions[sid], now, life);
      ChainFrame(a.tokens, tokens, c, a.sessions[sid], now, life);
    } else {
      NoTokensBeyond(a.sessions, a.tokens);
      ChainStarts(tokens, |a.tokens|, s, now, life);
    }
  }

  /** A usable token is the last of its session's chain. */
  lemma UsableIsLast(a: AuthTables, now: int, life: nat, k: nat)
    requires Chains(a, now, life) && k < |a.tokens| && UsableToken(a, now, a.tokens[k])
    ensures var c := TokensOf(a.tokens, a.tokens[k].session); |c| > 0 && c[|c| - 1] == k
  {
    var c := TokensOf(a.tokens, a.tokens[k].session);
    TokensOfComplete(a.tokens, k);
    forall i | 0 <= i < |c| - 1 ensures !a.tokens[c[i]].Live() {
      assert ExchangedFor(a.tokens[c[i]], c[i], a.tokens[c[i + 1]]);
    }
  }

  /** Spending the last token of a live chain and appending its successor gives a live chain again. */
  lemma ChainExtends(a: AuthTables, c: seq<nat>, s: Session, u: Session, now: int, life: nat, k: nat)
    requires Positions(a.tokens, c) && ChainOf(a.tokens, c, s, now, life) && s.Live()
    requires c[|c| - 1] == k && forall i :: 0 <= i < |c| - 1 ==> c[i] != k
    requires now < a.tokens[k].expiresAt
    requires u.createdAt == s.createdAt && u.Live() && u.expiresAt == now + life
    ensures var d := c + [|a.tokens|];
            Positions(RotatedTokens(a, now, life, k), d) && ChainOf(RotatedTokens(a, now, life, k), d, u, now, life)
  {
  }

  /** A refresh extends the chain of its session by one token and leaves every other chain alone. */
  lemma RotateChains(a: AuthTables, b: AuthTables, now: int, life: nat, k: nat, meta: Option<Meta>)
    requires Chains(a, now, life) && k < |a.tokens| && UsableToken(a, now, a.tokens[k])
    requires b == Rotate(a, now, life, k, meta)
    ensures Chains(b, now, life)
  {
    RotateRows(a, b, now, life, k, meta);
    forall sid | 0 <= sid < |b.sessions|
      ensures ChainOf(b.tokens, TokensOf(b.tokens, sid), b.sessions[sid], now, life)
    {
      ChainAfterRotate(a, b.tokens, b.sessions[sid], now, life, k, sid);
    }
    forall j | 0 <= j < |b.tokens| ensures TokenRow(b.sessions, b.tokens[j], j) {
      assert j < |a.tokens| ==> TokenRow(a.sessions, a.tokens[j], j);
      assert TokenRow(a.sessions, a.tokens[k], k);
    }
  }

  /** The positions of each session's tokens after a refresh. */
  lemma RotateTokensOf(a: AuthTables, tokens: seq<Token>, now: int, life: nat, k: nat, sid: nat)
    requires k < |a.tokens| && tokens == RotatedTokens(a, now, life, k)
    ensures TokensOf(tokens, sid) == TokensOf(a.tokens, sid) + if sid == a.tokens[k].session then [|a.tokens|] else []
  {
    var spent := a.tokens[k := a.tokens[k].(revokedAt := Some(now))];
    TokensOfSameSessions(a.tokens, spent, sid);
    TokensOfAppend(spent, tokens[|a.tokens|], sid);
  }

  lemma ChainAfterRotate(a: AuthTables, tokens: seq<Token>, s: Session, now: int, life: nat, k: nat, sid: nat)
    requires Chains(a, now, life) && k < |a.tokens| && UsableToken(a, now, a.tokens[k]) && sid < |a.sessions|
    requires tokens == RotatedTokens(a, now, life, k)
    requires if sid == a.tokens[k].session then s.Live() && s.createdAt == a.sessions[sid].createdAt
             && s.expiresAt == now + life
             else s == a.sessions[sid]
    ensures ChainOf(tokens, TokensOf(tokens, sid), s, now, life)
  {
    var c := TokensOf(a.tokens, sid);
    RotateTokensOf(a, tokens, now, life, k, sid);
    assert ChainOf(a.tokens, c, a.sessions[sid], now, life);
    if sid == a.tokens[k].session {
      UsableIsLast(a, now, life, k);
      ChainExtends(a, c, a.sessions[sid], s, now, life, k);
    } else {
      ChainFrame(a.tokens, tokens, c, s, now, life);
    }
  }

  /** Closing sessions revokes every token of theirs and changes no chain. */
  lemma CloseChains(a: AuthTables, b: AuthTables, ids: set<nat>, now: int, life: nat, entry: AuditEntry)
    requires Chains(a, now, life)
    requires b == CloseSessions(a, ids, now, entry)
    ensures Chains(b, now, life)
  {
    forall sid | 0 <= sid < |b.sessions|
      ensures ChainOf(b.tokens, TokensOf(b.tokens, sid), b.sessions[sid], now, life)
    {
      TokensOfSameSessions(a.tokens, b.tokens, sid);
      RevokedChain(a.tokens, TokensOf(a.tokens, sid), a.sessions[sid], ids, sid, now, life);
    }
    forall j | 0 <= j < |b.tokens| ensures TokenRow(b.sessions, b.tokens[j], j) {
      assert TokenRow(a.sessions, a.tokens[j], j);
    }
  }

  lemma RevokedChain(tokens: seq<Token>, c: seq<nat>, s: Session, ids: set<nat>, sid: nat, now: int, life: nat)
    requires Positions(tokens, c) && ChainOf(tokens, c, s, now, life)
    requires forall k :: 0 <= k < |c| ==> tokens[c[k]].session == sid
    ensures ChainOf(RevokeTokens(tokens, ids, now), c,
                    if sid in ids then s.(revokedAt := Some(now), lastSeenAt := Some(now)) else s, now, life)
  {
  }

}
