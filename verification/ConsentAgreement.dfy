/** Live sessions opened for a client are backed by a live consent. */
module ConsentAgreement {
  import opened Sessions
  import opened Tables
  import opened Text

  predicate ConsentRow(c: Consent, now: int) {
    Trimmed(c.client) && c.client != "" && c.authorizedAt <= c.lastUsedAt <= now
  }

  /** At most one row per user and client. */
  ghost predicate UniqueConsents(consents: seq<Consent>) {
    forall i, j :: 0 <= i < j < |consents| ==>
          consents[i].user != consents[j].user
          || consents[i].client != consents[j].client
  }

  predicate Authorized(consents: seq<Consent>, user: nat, client: string) {
    exists i :: 0 <= i < |consents| && consents[i].user == user && consents[i].client == client
        && consents[i].revokedAt.None?
  }

  /** A live session whose client id has no surrounding space has a live consent. */
  predicate Backed(consents: seq<Consent>, s: Session) {
    s.Live() && s.client.Some? && Trimmed(s.client.value) ==> Authorized(consents, s.user, s.client.value)
  }

  ghost predicate Agreement(a: AuthTables, now: int) {
    && UniqueConsents(a.consents)
    && (forall i :: 0 <= i < |a.consents| ==> ConsentRow(a.consents[i], now))
    && (forall sid :: 0 <= sid < |a.sessions| ==> Backed(a.consents, a.sessions[sid]))
  }

  /** A lookup finds the row whenever there is one. */
  lemma FindConsentFinds(consents: seq<Consent>, user: nat, client: string)
    ensures var f := FindConsent(consents, user, client);
            && (f.Some? ==>
                  f.value < |consents| && consents[f.value].user == user
                  && consents[f.value].client == client)
            && (f.None? ==> forall i ::
                  0 <= i < |consents|
                  ==> consents[i].user != user || consents[i].client != client)
  {
  }

  /** Recording a consent makes it live and takes no other consent away. */
  lemma UpsertAgreement(a: AuthTables, b: AuthTables, now: int, user: nat, client: string, scopes: string)
    requires Agreement(a, now) && UpsertConsent(a, now, user, client, scopes) == Some(b)
    ensures Agreement(b, now) && Authorized(b.consents, user, Strip(client))
    ensures b.sessions == a.sessions && b.tokens == a.tokens && b.audit == a.audit
  {
    StripFixpoint(client);
    FindConsentFinds(a.consents, user, Strip(client));
    var f := FindConsent(a.consents, user, Strip(client));
    var k := if f.Some? then f.value else |a.consents|;
    assert k < |b.consents| && b.consents[k].user == user && b.consents[k].client == Strip(client)
        && b.consents[k].revokedAt.None?;
    assert forall i :: 0 <= i < |a.consents| && i != k ==> b.consents[i] == a.consents[i];
    forall sid | 0 <= sid < |b.sessions| ensures Backed(b.consents, b.sessions[sid]) {
      assert Backed(a.consents, a.sessions[sid]);
    }
  }

  lemma SignInAgreement(a: AuthTables, b: AuthTables, now: int, life: nat, user: nat, client: Option<string>,
                        meta: Option<Meta>, how: string)
    requires Agreement(a, now)
    requires client.Some? && Trimmed(client.value) ==> Authorized(a.consents, user, client.value)
    requires b == SignIn(a, now, life, user, client, meta, how).0
    ensures Agreement(b, now)
  {
  }

  lemma RotateAgreement(a: AuthTables, b: AuthTables, now: int, life: nat, k: nat, meta: Option<Meta>)
    requires Agreement(a, now) && k < |a.tokens| && a.tokens[k].session < |a.sessions|
    requires b == Rotate(a, now, life, k, meta)
    ensures Agreement(b, now)
  {
  }

  lemma CloseAgreement(a: AuthTables, b: AuthTables, ids: set<nat>, now: int, entry: AuditEntry)
    requires Agreement(a, now)
    requires b == CloseSessions(a, ids, now, entry)
    ensures Agreement(b, now)
  {
  }

  /** Revoking a consent closes every live session that needed it. */
  lemma RevokeAgreement(a: AuthTables, b: AuthTables, now: int, user: nat, client: string)
    requires Agreement(a, now) && RevokeConsent(a, now, user, client) == (b, Ok)
    ensures Agreement(b, now)
  {
    forall sid | 0 <= sid < |b.sessions| ensures Backed(b.consents, b.sessions[sid]) {
      assert Backed(a.consents, a.sessions[sid]);
      var s := b.sessions[sid];
      if s.Live() && s.client.Some? && Trimmed(s.client.value) {
        assert sid !in ClientSessions(a.sessions, user, Strip(client));
        var i :| 0 <= i < |a.consents| && a.consents[i].user == s.user && a.consents[i].client == s.client.value
            && a.consents[i].revokedAt.None?;
        assert b.consents[i] == a.consents[i];
      }
    }
  }

}
