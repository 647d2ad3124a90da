/** One-time login codes sent by email: the sending limits and the attempt counter. */
module EmailCodes {
  import opened Sessions
  import opened Tables
  import opened Text

  function NormalizeEmail(email: string): string {
    Lower(Strip(email))
  }

  /** What the sending limit is counted by. */
  datatype Key = ByEmail(email: string) | ByIp(ip: string)

  predicate Counts(key: Key, c: EmailCode) {
    match key
    case ByEmail(email) => c.email == email
    case ByIp(ip) => c.ip == Some(ip)
  }

  function CountSince(codes: seq<EmailCode>, key: Key, start: int): nat {
    if codes == [] then 0
    else
      var last := codes[|codes| - 1];
      CountSince(codes[..|codes| - 1], key, start) + if Counts(key, last) && last.sentAt >= start then 1 else 0
  }

  /** The rows the counting query selects. */
  function SentSince(codes: seq<EmailCode>, key: Key, start: int): set<nat> {
    set i: nat | i < |codes| && Counts(key, codes[i]) && codes[i].sentAt >= start
  }

  /** The count is the number of those rows. */
  lemma {:induction false} CountsTheRows(codes: seq<EmailCode>, key: Key, start: int)
    ensures CountSince(codes, key, start) == |SentSince(codes, key, start)|
  {
    if codes == [] {
      assert SentSince(codes, key, start) == {};
    } else {
      var n := |codes| - 1;
      CountsTheRows(codes[..n], key, start);
      SentSinceLast(codes, key, start);
      hide SentSince;
    }
  }

  lemma SentSinceLast(codes: seq<EmailCode>, key: Key, start: int)
    requires codes != []
    ensures var n := |codes| - 1;
            var earlier := SentSince(codes[..n], key, start);
            && n !in earlier
            && SentSince(codes, key, start) == if Counts(key, codes[n]) && codes[n].sentAt >= start then earlier + {n}
                else earlier
  {
  }

  predicate IsPending(c: EmailCode, email: string) {
    c.email == email && c.consumedAt.None?
  }

  /** The unconsumed code sent last; of two sent together, the first row. */
  function LatestPending(codes: seq<EmailCode>, email: string): (k: Option<nat>)
    ensures k.Some? ==> k.value < |codes| && IsPending(codes[k.value], email)
    ensures k.Some? ==> forall i ::
              0 <= i < |codes| && IsPending(codes[i], email)
              ==> codes[i].sentAt <= codes[k.value].sentAt
    ensures k.Some? ==>
              forall i :: 0 <= i < k.value && IsPending(codes[i], email) ==> codes[i].sentAt < codes[k.value].sentAt
    ensures k.None? ==> forall i :: 0 <= i < |codes| ==> !IsPending(codes[i], email)
  {
    if codes == [] then None
    else
      var n := |codes| - 1;
      var earlier := LatestPending(codes[..n], email);
      if IsPending(codes[n], email) && (earlier.None? || codes[n].sentAt > codes[earlier.value].sentAt) then Some(n)
          else earlier
  }

  /** `delivered` is false when the mail provider refuses; the inserted row is then rolled back. */
  function StartEmail(db: Db, email: string, ip: Option<string>, code: string, delivered: bool): (Db, Reply) {
    var address := NormalizeEmail(email);
    var start := db.now - db.settings.window;
    var latest := LatestPending(db.codes, address);
    if CountSince(db.codes, ByEmail(address), start) >= db.settings.perEmail then (db, Failed(EmailRateLimited))
    else if ip.Some? && ip.value != "" && CountSince(db.codes, ByIp(ip.value), start) >= db.settings.perIp
    then (db, Failed(IpRateLimited))
    else if latest.Some? && db.now - db.codes[latest.value].sentAt < db.settings.resendGap
        then (db, Failed(SentTooRecently))
    else if !delivered then (db, Failed(DeliveryFailed))
    else (db.(codes := db.codes + [EmailCode(address, code, db.now, db.now + db.settings.codeTtl, None, 0, ip)]), Ok)
  }

  function VerifyEmail(db: Db, email: string, code: string, meta: Option<Meta>): (Db, Reply) {
    var address := NormalizeEmail(email);
    match LatestPending(db.codes, address)
    case None => (db, Failed(CodeNotFound))
    case Some(k) =>
      var c := db.codes[k];
      if c.expiresAt <= db.now then
        (db.(codes := db.codes[k := c.(consumedAt := Some(db.now))]), Failed(CodeNotFound))
      else if c.attempts >= db.settings.maxAttempts then (db, Failed(TooManyAttempts))
      else if Strip(code) != c.code then
        var tried := c.(attempts := c.attempts + 1);
        if tried.attempts >= db.settings.maxAttempts then
          (db.(codes := db.codes[k := tried.(consumedAt := Some(db.now))]), Failed(TooManyAttempts))
        else
          (db.(codes := db.codes[k := tried]), Failed(InvalidCode))
      else
        var spent := db.codes[k := c.(consumedAt := Some(db.now))];
        var known := UserByEmail(db.users, address);
        if known.None? && EmailStored(db.users, address) then (db, Failed(IntegrityFailure))
        else
          var users := if known.Some? then db.users else db.users + [User(address, false)];
          var user := if known.Some? then known.value else |db.users|;
          var (auth, reply) := SignIn(db.auth, db.now, db.settings.refreshLifetime, user, None, meta,
                                      "login.email_code");
          (db.(users := users, codes := spent, auth := auth), reply)
  }

  /** Only a matching code opens a session. */
  lemma VerifyEmailAuth(db: Db, db': Db, reply: Reply, email: string, code: string, meta: Option<Meta>)
    requires VerifyEmail(db, email, code, meta) == (db', reply)
    ensures db'.now == db.now && db'.settings == db.settings
    ensures if reply.Issued?
            then db'.auth == SignIn(db.auth, db.now, db.settings.refreshLifetime, reply.user, None, meta,
                                    "login.email_code").0
            else db'.auth == db.auth
  {
  }
}
