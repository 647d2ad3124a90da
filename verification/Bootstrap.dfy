/** Startup registration of the two first-party clients: an ordered, de-duplicating, idempotent merge. */
module Bootstrap {
  import opened Columns
  import opened Ordered
  import opened Scopes
  import opened Tables
  import opened Text
  import opened TextLaws

  const CALLBACK_PATH := "/auth/mini-auth/callback"
  const LOGIN_PATH := "/login/callback"

  const MINIKB_CLIENT_ID := "minikb"
  const MINIKB_CLIENT_NAME := "minikb admin"
  const MINIKB_REDIRECT_URIS := [
    "https://kb.liuyidi.me" + LOGIN_PATH,
    "http://127.0.0.1:3000" + LOGIN_PATH,
    "http://localhost:3000" + LOGIN_PATH]

  const DEMO_CLIENT_ID := "minibot"
  const DEMO_CLIENT_NAME := "minibot demo client"
  const BOT_REDIRECT_URI := "https://bot.liuyidi.me" + CALLBACK_PATH
  const BOT_HTTP_REDIRECT_URI := "http://bot.liuyidi.me" + CALLBACK_PATH
  const BOT_HTTPS_REDIRECT_URI := "https://bot.liuyidi.me" + CALLBACK_PATH
  const MINIBOT_REDIRECT_URI := "http://127.0.0.1:8766" + CALLBACK_PATH
  const MINIBOT_LOCALHOST_REDIRECT_URI := "http://localhost:8766" + CALLBACK_PATH
  const MINIBOT_DESKTOP_REDIRECT_URI := "minibot://auth/callback"
  const LEGACY_DEMO_REDIRECT_URI := "http://127.0.0.1:8000" + "/oidc/demo/callback"
  const ALLOWED_SCOPES := ["openid", "profile", "email"]
  const DEMO_URIS := [BOT_REDIRECT_URI, BOT_HTTP_REDIRECT_URI, BOT_HTTPS_REDIRECT_URI, MINIBOT_REDIRECT_URI,
                      MINIBOT_LOCALHOST_REDIRECT_URI, MINIBOT_DESKTOP_REDIRECT_URI]

  /** What a client's registration should contain; `legacy` entries are dropped. */
  datatype Registration = Registration(name: string, redirectUris: seq<string>, scopes: seq<string>,
                                       legacy: set<string>)

  function DemoRegistration(): Registration {
    Registration(DEMO_CLIENT_NAME, Distinct(DEMO_URIS), ALLOWED_SCOPES, {LEGACY_DEMO_REDIRECT_URI})
  }

  function MinikbRegistration(): Registration {
    Registration(MINIKB_CLIENT_NAME, MINIKB_REDIRECT_URIS, ALLOWED_SCOPES, {})
  }

  predicate Entries(xs: seq<string>) {
    forall x :: x in xs ==> x != "" && Trimmed(x)
  }

  /** Entries a list column can store and give back, none of them dropped as legacy. */
  predicate WellFormed(reg: Registration) {
    Entries(reg.redirectUris) && Entries(reg.scopes) && forall x :: x in reg.redirectUris ==> x !in reg.legacy
  }

  function Merge(stored: seq<string>, legacy: set<string>, defaults: seq<string>): seq<string> {
    Distinct(Without(stored, legacy) + defaults)
  }

  /** The column is rewritten only when it would list something else. */
  function Rewrite(column: StoredList, merged: seq<string>): StoredList {
    if merged == LoadList(column) then column else JsonList(merged)
  }

  /** The client after a run. */
  function Ensured(client: Option<Client>, reg: Registration): Client {
    match client
    case None => Client(reg.name, JsonList(reg.redirectUris), JsonList(reg.scopes), true, true)
    case Some(c) =>
      Client(reg.name, Rewrite(c.redirectUris, Merge(LoadList(c.redirectUris), reg.legacy, reg.redirectUris)),
             Rewrite(c.allowedScopes, Merge(LoadList(c.allowedScopes), {}, reg.scopes)), true, true)
  }

  function Lookup(clients: map<string, Client>, id: string): Option<Client> {
    if id in clients then Some(clients[id]) else None
  }

  // ---------------------------------------------------------------- the two startup methods

  class ClientTable {
    var clients: map<string, Client>
    var commits: nat

    constructor ()
      ensures clients == map[] && commits == 0
    {
      clients := map[];
      commits := 0;
    }

    method EnsureDemoOAuthClient()
      modifies this
      ensures clients == old(clients)[DEMO_CLIENT_ID :=
              Ensured(Lookup(old(clients), DEMO_CLIENT_ID), DemoRegistration())]
      ensures commits == old(commits) + if clients == old(clients) then 0 else 1
    {
      DemoIsWellFormed();
      EnsureClient(DEMO_CLIENT_ID, DemoRegistration());
    }

    method EnsureMinikbOAuthClient()
      modifies this
      ensures clients == old(clients)[MINIKB_CLIENT_ID :=
              Ensured(Lookup(old(clients), MINIKB_CLIENT_ID), MinikbRegistration())]
      ensures commits == old(commits) + if clients == old(clients) then 0 else 1
    {
      MinikbIsWellFormed();
      EnsureClient(MINIKB_CLIENT_ID, MinikbRegistration());
    }

    /** The steps the two startup methods share: leaves the client as `Ensured` describes, and commits exactly when
        that changes anything. */
    method EnsureClient(id: string, reg: Registration)
      requires WellFormed(reg)
      modifies this
      ensures clients == old(clients)[id := Ensured(Lookup(old(clients), id), reg)]
      ensures commits == old(commits) + if clients == old(clients) then 0 else 1
    {
      if id !in clients {
        clients := clients[id := Client(reg.name, JsonList(reg.redirectUris), JsonList(reg.scopes), true, true)];
        commits := commits + 1;
        return;
      }
      var client := clients[id];
      var redirectUris, allowedScopes := LoadList(client.redirectUris), LoadList(client.allowedScopes);
      ghost var stored := redirectUris;
      var changed := false;
      var normalized := Without(redirectUris, reg.legacy);
      if normalized != redirectUris {
        redirectUris := normalized;
        changed := true;
      }
      var merged := Distinct(redirectUris + reg.redirectUris);
      if merged != redirectUris {
        redirectUris := merged;
        changed := true;
      }
      var scopes := Distinct(allowedScopes + reg.scopes);
      if scopes != allowedScopes {
        allowedScopes := scopes;
        changed := true;
      }
      LegacyRemoval(stored, reg);
      WithoutNothing(LoadList(client.allowedScopes));
      MergeIsEntries(client.redirectUris, reg.legacy, reg.redirectUris);
      MergeIsEntries(client.allowedScopes, {}, reg.scopes);
      changed := UpdateClient(id, reg.name, redirectUris, allowedScopes, changed);
      if changed {
        commits := commits + 1;
      }
    }

    /** The field-by-field comparison both methods end with. */
    method UpdateClient(id: string, name: string, redirectUris: seq<string>, allowedScopes: seq<string>,
                        alreadyChanged: bool)
      returns (changed: bool)
      requires id in clients && Entries(redirectUris) && Entries(allowedScopes)
      requires alreadyChanged ==>
                 redirectUris != LoadList(clients[id].redirectUris)
                     || allowedScopes != LoadList(clients[id].allowedScopes)
      modifies this`clients
      ensures var c := old(clients)[id];
              && clients == old(clients)[id := Client(name, Rewrite(c.redirectUris, redirectUris),
                                                      Rewrite(c.allowedScopes, allowedScopes), true, true)]
              && (changed <==> clients != old(clients))
    {
      changed := alreadyChanged;
      var client := clients[id];
      if client.name != name {
        client := client.(name := name);
        changed := true;
      }
      if !client.active {
        client := client.(active := true);
        changed := true;
      }
      if !client.pkceRequired {
        client := client.(pkceRequired := true);
        changed := true;
      }
      if redirectUris != LoadList(client.redirectUris) {
        client := client.(redirectUris := JsonList(redirectUris));
        changed := true;
      }
      if allowedScopes != LoadList(client.allowedScopes) {
        client := client.(allowedScopes := JsonList(allowedScopes));
        changed := true;
      }
      RewriteReads(clients[id].redirectUris, redirectUris);
      RewriteReads(clients[id].allowedScopes, allowedScopes);
      assert clients[id := client][id] == client;
      clients := clients[id := client];
    }
  }

  // ---------------------------------------------------------------- what a run leaves

  lemma {:induction false} WithoutNothing(xs: seq<string>)
    ensures Without(xs, {}) == xs
  {
    if xs == [] {
    } else {
      WithoutNothing(xs[..|xs| - 1]);
    }
  }

  /** A list that contains a legacy entry never merges to itself. */
  lemma LegacyRemoval(stored: seq<string>, reg: Registration)
    requires WellFormed(reg)
    ensures Without(stored, reg.legacy) != stored ==> Merge(stored, reg.legacy, reg.redirectUris) != stored
  {
    if forall x :: x in stored ==> x !in reg.legacy {
      WithoutDisjoint(stored, reg.legacy);
    } else {
      var x :| x in stored && x in reg.legacy;
      assert x !in Merge(stored, reg.legacy, reg.redirectUris);
    }
  }

  lemma {:induction false} WithoutDisjoint(xs: seq<string>, drop: set<string>)
    requires forall x :: x in xs ==> x !in drop
    ensures Without(xs, drop) == xs
  {
    if xs == [] {
    } else {
      WithoutDisjoint(xs[..|xs| - 1], drop);
    }
  }

  /** A column rewritten with well-formed entries reads back as those entries. */
  lemma RewriteReads(column: StoredList, merged: seq<string>)
    requires Entries(merged)
    ensures LoadList(Rewrite(column, merged)) == merged
  {
    NonBlankFixpoint(merged);
  }

  lemma MergeIsEntries(column: StoredList, legacy: set<string>, defaults: seq<string>)
    requires Entries(defaults)
    ensures Entries(Merge(LoadList(column), legacy, defaults))
  {
  }

  /** For every stored value, JSON list or comma/newline text: after a run the columns read as the stored entries
      without the legacy ones, each once, in order of first occurrence, followed by the missing defaults. */
  lemma RunMerges(c: Client, reg: Registration)
    requires WellFormed(reg)
    ensures var kept := Without(LoadList(c.redirectUris), reg.legacy);
            LoadList(Ensured(Some(c), reg).redirectUris)
                == Distinct(kept) + Without(Distinct(reg.redirectUris), Elements(kept))
    ensures var kept := LoadList(c.allowedScopes);
            LoadList(Ensured(Some(c), reg).allowedScopes)
                == Distinct(kept) + Without(Distinct(reg.scopes), Elements(kept))
    ensures NoDuplicates(LoadList(Ensured(Some(c), reg).redirectUris))
            && NoDuplicates(LoadList(Ensured(Some(c), reg).allowedScopes))
  {
    var uris, scopes := LoadList(c.redirectUris), LoadList(c.allowedScopes);
    MergeIsEntries(c.redirectUris, reg.legacy, reg.redirectUris);
    MergeIsEntries(c.allowedScopes, {}, reg.scopes);
    RewriteReads(c.redirectUris, Merge(uris, reg.legacy, reg.redirectUris));
    RewriteReads(c.allowedScopes, Merge(scopes, {}, reg.scopes));
    DistinctConcat(Without(uris, reg.legacy), reg.redirectUris);
    DistinctConcat(scopes, reg.scopes);
    WithoutNothing(scopes);
    DistinctNoDuplicates(Without(uris, reg.legacy) + reg.redirectUris);
    DistinctNoDuplicates(scopes + reg.scopes);
  }

  /** What a run leaves registered, whatever was stored: the name, PKCE and the active status; the redirect URIs listed
      before, the legacy ones excepted, and the defaults; the scopes listed before and the defaults; nothing else. */
  lemma RunRegisters(client: Option<Client>, reg: Registration, x: string)
    requires WellFormed(reg)
    ensures var after := Ensured(client, reg);
            && after.name == reg.name && after.active && after.pkceRequired
            && (Lists(after.redirectUris, x) <==>
                  || x in reg.redirectUris
                  || (client.Some? && Lists(client.value.redirectUris, x) && x !in reg.legacy))
            && (Lists(after.allowedScopes, x) <==>
                  x in reg.scopes || (client.Some? && Lists(client.value.allowedScopes, x)))
  {
    var after := Ensured(client, reg);
    ColumnReads(after.redirectUris, x);
    ColumnReads(after.allowedScopes, x);
    match client
    case None =>
      NonBlankFixpoint(reg.redirectUris);
      NonBlankFixpoint(reg.scopes);
    case Some(c) =>
      ColumnReads(c.redirectUris, x);
      ColumnReads(c.allowedScopes, x);
      MergeIsEntries(c.redirectUris, reg.legacy, reg.redirectUris);
      MergeIsEntries(c.allowedScopes, {}, reg.scopes);
      RewriteReads(c.redirectUris, Merge(LoadList(c.redirectUris), reg.legacy, reg.redirectUris));
      RewriteReads(c.allowedScopes, Merge(LoadList(c.allowedScopes), {}, reg.scopes));
  }

  /** Columns that hold given entries, as a JSON list or as comma- or newline-separated text, end up as those entries
      without the legacy ones, each once, in order of first occurrence, followed by the missing defaults. */
  lemma HeldEntriesMerge(c: Client, reg: Registration, uris: seq<string>, scopes: seq<string>)
    requires WellFormed(reg) && Holds(c.redirectUris, uris) && Holds(c.allowedScopes, scopes)
    requires forall x :: x in uris || x in scopes ==> x != "" && Trimmed(x) && Plain(x)
    ensures var after, kept := Ensured(Some(c), reg), Without(uris, reg.legacy);
            && LoadList(after.redirectUris) == Distinct(kept) + Without(Distinct(reg.redirectUris), Elements(kept))
            && LoadList(after.allowedScopes) == Distinct(scopes) + Without(Distinct(reg.scopes), Elements(scopes))
  {
    HeldEntriesRead(c.redirectUris, uris);
    HeldEntriesRead(c.allowedScopes, scopes);
    RunMerges(c, reg);
  }

  /** A merged list merges to itself. */
  lemma MergeIdempotent(stored: seq<string>, legacy: set<string>, defaults: seq<string>)
    requires forall x :: x in defaults ==> x !in legacy
    ensures Merge(Merge(stored, legacy, defaults), legacy, defaults) == Merge(stored, legacy, defaults)
  {
    var once := Merge(stored, legacy, defaults);
    DistinctNoDuplicates(Without(stored, legacy) + defaults);
    WithoutDisjoint(once, legacy);
    DistinctConcat(once, defaults);
    DistinctFixpoint(once);
    NothingMissing(Distinct(defaults), Elements(once));
  }

  lemma {:induction false} NothingMissing(xs: seq<string>, have: set<string>)
    requires forall x :: x in xs ==> x in have
    ensures Without(xs, have) == []
  {
    if xs == [] {
    } else {
      NothingMissing(xs[..|xs| - 1], have);
    }
  }

  /** A second run changes nothing, whatever was stored before the first. */
  lemma SecondRunWritesNothing(client: Option<Client>, reg: Registration)
    requires WellFormed(reg) && NoDuplicates(reg.redirectUris) && NoDuplicates(reg.scopes)
    ensures Ensured(Some(Ensured(client, reg)), reg) == Ensured(client, reg)
  {
    match client
    case None =>
      RewriteReads(PlainText(""), reg.redirectUris);
      NonBlankFixpoint(reg.redirectUris);
      NonBlankFixpoint(reg.scopes);
      AlreadyMerged(reg.redirectUris, reg.legacy);
      AlreadyMerged(reg.scopes, {});
    case Some(c) =>
      var uris, scopes := LoadList(c.redirectUris), LoadList(c.allowedScopes);
      MergeIsEntries(c.redirectUris, reg.legacy, reg.redirectUris);
      MergeIsEntries(c.allowedScopes, {}, reg.scopes);
      RewriteReads(c.redirectUris, Merge(uris, reg.legacy, reg.redirectUris));
      RewriteReads(c.allowedScopes, Merge(scopes, {}, reg.scopes));
      MergeIdempotent(uris, reg.legacy, reg.redirectUris);
      MergeIdempotent(scopes, {}, reg.scopes);
  }

  lemma AlreadyMerged(defaults: seq<string>, legacy: set<string>)
    requires NoDuplicates(defaults) && forall x :: x in defaults ==> x !in legacy
    ensures Merge(defaults, legacy, defaults) == defaults
  {
    WithoutDisjoint(defaults, legacy);
    DistinctConcat(defaults, defaults);
    DistinctFixpoint(defaults);
    NothingMissing(defaults, Elements(defaults));
  }

  lemma ScopesAreEntries()
    ensures Entries(ALLOWED_SCOPES) && NoDuplicates(ALLOWED_SCOPES)
  {
  }

  lemma UrisAreEntries()
    ensures Entries(DEMO_URIS) && Entries(MINIKB_REDIRECT_URIS)
  {
  }

  /** Both registrations are of the kind the merge is stable for. */
  lemma DemoIsWellFormed()
    ensures WellFormed(DemoRegistration())
    ensures NoDuplicates(DemoRegistration().redirectUris) && NoDuplicates(DemoRegistration().scopes)
  {
    UrisAreEntries();
    ScopesAreEntries();
    DistinctNoDuplicates(DEMO_URIS);
    assert |LEGACY_DEMO_REDIRECT_URI| == 40;
  }

  lemma MinikbIsWellFormed()
    ensures WellFormed(MinikbRegistration())
    ensures NoDuplicates(MinikbRegistration().redirectUris) && NoDuplicates(MinikbRegistration().scopes)
  {
    UrisAreEntries();
    ScopesAreEntries();
    var uris := MINIKB_REDIRECT_URIS;
    assert uris[0][4] == 's' && uris[1][4] == ':' && uris[2][4] == ':';
    assert uris[1][7] == '1' && uris[2][7] == 'l';
  }

  /** Ensuring a client twice commits at most once. */
  method EnsureTwice(table: ClientTable, id: string, reg: Registration)
    requires WellFormed(reg) && NoDuplicates(reg.redirectUris) && NoDuplicates(reg.scopes)
    modifies table
    ensures table.clients == old(table.clients)[id := Ensured(Lookup(old(table.clients), id), reg)]
    ensures table.commits <= old(table.commits) + 1
  {
    SecondRunWritesNothing(Lookup(table.clients, id), reg);
    table.EnsureClient(id, reg);
    table.EnsureClient(id, reg);
  }
}
