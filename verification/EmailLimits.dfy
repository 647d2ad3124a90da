/** Bounds on sent codes and on guesses, over whole runs. */
module EmailLimits {
  import opened EmailCodes
  import opened Service
  import opened Tables

  // ---------------------------------------------------------------- what a call does to the codes

  datatype CodeChange =
    | Untouched
    | Sent(row: EmailCode)
    | Consumed(k: nat)
    | Missed(k: nat)

  function AfterMiss(c: EmailCode, now: int, maxAttempts: nat): EmailCode {
    c.(attempts := c.attempts + 1, consumedAt := if c.attempts + 1 >= maxAttempts then Some(now) else c.consumedAt)
  }

  ghost predicate Separate(codes: seq<EmailCode>, c: EmailCode, gap: nat) {
    forall i :: 0 <= i < |codes| && IsPending(codes[i], c.email) ==> c.sentAt - codes[i].sentAt >= gap
  }

  ghost predicate CodesChanged(a: seq<EmailCode>, b: seq<EmailCode>, now: int, s: Settings, ch: CodeChange) {
    match ch
    case Untouched => b == a
    case Sent(c) =>
      && c == EmailCode(c.email, c.code, now, now + s.codeTtl, None, 0, c.ip)
      && b == a + [c]
      && CountSince(a, ByEmail(c.email), now - s.window) < s.perEmail
      && (c.ip.Some? && c.ip.value != "" ==> CountSince(a, ByIp(c.ip.value), now - s.window) < s.perIp)
      && Separate(a, c, s.resendGap)
    case Consumed(k) =>
      && k < |a| && a[k].consumedAt.None? && b == a[k := a[k].(consumedAt := Some(now))]
    case Missed(k) =>
      && k < |a| && a[k].consumedAt.None? && now < a[k].expiresAt && a[k].attempts < s.maxAttempts
      && b == a[k := AfterMiss(a[k], now, s.maxAttempts)]
  }

  lemma StartEmailChange(db: Db, db': Db, reply: Reply, email: string, ip: Option<string>, code: string,
                         delivered: bool)
    returns (ch: CodeChange)
    requires StartEmail(db, email, ip, code, delivered) == (db', reply)
    ensures CodesChanged(db.codes, db'.codes, db.now, db.settings, ch) && (ch.Untouched? || ch.Sent?)
    ensures ch.Sent? <==> reply.Ok?
    ensures ch.Sent? ==> Holds(ch.row, EmailStart(email, ip, code, delivered))
  {
    ch := if reply.Ok? then Sent(db'.codes[|db.codes|]) else Untouched;
  }

  /** The row is for the address and the secret of the call, and from its source. */
  predicate Holds(c: EmailCode, call: Call) {
    call.EmailStart? && c.email == NormalizeEmail(call.email) && c.code == call.secret && c.ip == call.ip
  }

  /** A reply that the code was wrong. */
  predicate Wrong(reply: Reply) {
    reply == Failed(InvalidCode) || reply == Failed(TooManyAttempts)
  }

  lemma VerifyEmailChange(db: Db, db': Db, reply: Reply, email: string, submitted: string, meta: Option<Meta>)
      returns (ch: CodeChange)
    requires VerifyEmail(db, email, submitted, meta) == (db', reply)
    requires Bounded(db)
    ensures CodesChanged(db.codes, db'.codes, db.now, db.settings, ch)
    ensures ch.Missed? <==> Wrong(reply)
    ensures !ch.Sent?
    ensures ch.Missed? || ch.Consumed? ==> db.codes[ch.k].email == NormalizeEmail(email)
    ensures reply.Issued? ==> ch.Consumed? && LatestPending(db.codes, NormalizeEmail(email)) == Some(ch.k)
  {
    var latest := LatestPending(db.codes, NormalizeEmail(email));
    if latest.None? || reply == Failed(IntegrityFailure) {
      ch := Untouched;
    } else if Wrong(reply) {
      ch := Missed(latest.value);
    } else {
      ch := Consumed(latest.value);
    }
  }

  /** Whether call `call` compared a wrong code for `email`. */
  predicate Guess(call: Call, reply: Reply, email: string) {
    call.EmailVerify? && NormalizeEmail(call.email) == email && Wrong(reply)
  }

  predicate ConcernsCodes(call: Call) {
    call.EmailStart? || call.EmailVerify?
  }

  lemma OtherCallsLeaveCodes(db: Db, call: Call)
    requires !ConcernsCodes(call)
    ensures Step(db, call).0.codes == db.codes
  {
  }

  lemma StepCodes(db: Db, call: Call, db': Db, reply: Reply) returns (ch: CodeChange)
    requires Step(db, call) == (db', reply) && Bounded(db)
    ensures CodesChanged(db.codes, db'.codes, db.now, db.settings, ch)
    ensures ch.Sent? <==> call.EmailStart? && reply.Ok?
    ensures ch.Sent? ==> Holds(ch.row, call)
    ensures ch.Missed? <==> call.EmailVerify? && Wrong(reply)
    ensures ch.Missed? || ch.Consumed? ==> call.EmailVerify? && db.codes[ch.k].email == NormalizeEmail(call.email)
    ensures call.EmailVerify? && reply.Issued? ==>
              ch.Consumed?
              && LatestPending(db.codes, NormalizeEmail(call.email)) == Some(ch.k)
  {
    if ConcernsCodes(call) {
      hide StartEmail, VerifyEmail, CodesChanged, Holds, Bounded;
      match call
      case EmailStart(email, ip, secret, delivered) =>
        ch := StartEmailChange(db, db', reply, email, ip, secret, delivered);
      case EmailVerify(email, submitted, meta) => ch := VerifyEmailChange(db, db', reply, email, submitted, meta);
    } else {
      OtherCallsLeaveCodes(db, call);
      hide Step;
      ch := Untouched;
    }
  }

  // ---------------------------------------------------------------- counting

  predicate Within(c: EmailCode, key: Key, lo: int, hi: int) {
    Counts(key, c) && lo <= c.sentAt <= hi
  }

  /** Codes counted by `key` and sent in the closed interval from `lo` to `hi`. */
  function CountIn(codes: seq<EmailCode>, key: Key, lo: int, hi: int): nat {
    if codes == [] then 0
    else CountIn(codes[..|codes| - 1], key, lo, hi) + if Within(codes[|codes| - 1], key, lo, hi) then 1 else 0
  }

  /** Recorded misses on the codes of `email` sent from `lo` to `hi`. */
  function AttemptsIn(codes: seq<EmailCode>, email: string, lo: int, hi: int): nat {
    if codes == [] then 0
    else
      var last := codes[|codes| - 1];
      AttemptsIn(codes[..|codes| - 1], email, lo, hi) + if Within(last, ByEmail(email), lo, hi) then last.attempts
          else 0
  }

  lemma {:induction false} CountInSince(codes: seq<EmailCode>, key: Key, start: int, lo: int, hi: int)
    requires start <= lo
    ensures CountIn(codes, key, lo, hi) <= CountSince(codes, key, start)
  {
    if codes == [] {
    } else {
      CountInSince(codes[..|codes| - 1], key, start, lo, hi);
    }
  }

  /** An interval holds no more than two intervals that cover it. */
  lemma {:induction false} CountInSplit(codes: seq<EmailCode>, key: Key, lo: int, mid: int, hi: int)
    ensures CountIn(codes, key, lo, hi) <= CountIn(codes, key, lo, mid) + CountIn(codes, key, mid, hi)
  {
    if codes == [] {
    } else {
      CountInSplit(codes[..|codes| - 1], key, lo, mid, hi);
    }
  }

  lemma {:induction false} CountInNarrower(codes: seq<EmailCode>, key: Key, lo: int, hi: int, lo': int)
    requires lo' <= lo
    ensures CountIn(codes, key, lo, hi) <= CountIn(codes, key, lo', hi)
  {
    if codes == [] {
    } else {
      CountInNarrower(codes[..|codes| - 1], key, lo, hi, lo');
    }
  }

  /** Rows that keep address, sender and time keep every count. */
  lemma {:induction false} CountInUpdate(codes: seq<EmailCode>, k: nat, c: EmailCode, key: Key, lo: int, hi: int)
    requires k < |codes| && c.email == codes[k].email && c.ip == codes[k].ip && c.sentAt == codes[k].sentAt
    ensures CountIn(codes[k := c], key, lo, hi) == CountIn(codes, key, lo, hi)
  {
    var n := |codes| - 1;
    if k < n {
      assert codes[k := c][..n] == codes[..n][k := c];
      CountInUpdate(codes[..n], k, c, key, lo, hi);
    } else {
      assert codes[k := c][..n] == codes[..n];
    }
  }

  lemma {:induction false} AttemptsInUpdate(codes: seq<EmailCode>, k: nat, c: EmailCode, email: string, lo: int,
                                            hi: int)
    requires k < |codes| && c.email == codes[k].email && c.sentAt == codes[k].sentAt
    ensures AttemptsIn(codes[k := c], email, lo, hi)
            == AttemptsIn(codes, email, lo, hi) + if Within(c, ByEmail(email), lo, hi)
                then c.attempts - codes[k].attempts else 0
  {
    var n := |codes| - 1;
    if k < n {
      assert codes[k := c][..n] == codes[..n][k := c];
      AttemptsInUpdate(codes[..n], k, c, email, lo, hi);
    } else {
      assert codes[k := c][..n] == codes[..n];
    }
  }

  lemma {:induction false} AttemptsInBound(codes: seq<EmailCode>, email: string, lo: int, hi: int, most: nat)
    requires forall i :: 0 <= i < |codes| ==> codes[i].attempts <= most
    ensures AttemptsIn(codes, email, lo, hi) <= most * CountIn(codes, ByEmail(email), lo, hi)
  {
    if codes == [] {
    } else {
      AttemptsInBound(codes[..|codes| - 1], email, lo, hi, most);
      Distribute(most, CountIn(codes[..|codes| - 1], ByEmail(email), lo, hi));
    }
  }

  lemma Distribute(x: nat, y: nat)
    ensures x * (y + 1) == x * y + x
  {
  }

  // ---------------------------------------------------------------- what every call keeps

  /** Never more misses than allowed, and the last allowed one consumes the code. */
  predicate CodeRow(c: EmailCode, now: int, s: Settings) {
    && c.sentAt <= now && c.expiresAt == c.sentAt + s.codeTtl
    && c.attempts <= s.maxAttempts && (c.consumedAt.None? ==> c.attempts < s.maxAttempts)
  }

  ghost predicate Bounded(db: Db) {
    && db.settings.maxAttempts >= 1
    && forall i :: 0 <= i < |db.codes| ==> CodeRow(db.codes[i], db.now, db.settings)
  }

  ghost predicate Spaced(codes: seq<EmailCode>, gap: nat) {
    forall i, j :: 0 <= i < j < |codes| && codes[i].email == codes[j].email && codes[i].consumedAt.None?
        && codes[j].consumedAt.None?
      ==> codes[j].sentAt - codes[i].sentAt >= gap
  }

  function Limit(s: Settings, key: Key): nat {
    if key.ByEmail? then s.perEmail else s.perIp
  }

  predicate Limited(key: Key) {
    key.ByIp? ==> key.ip != ""
  }

  predicate Fits(codes: seq<EmailCode>, s: Settings, key: Key, lo: int) {
    CountIn(codes, key, lo, lo + s.window) <= Limit(s, key)
  }

  ghost predicate Throttled(codes: seq<EmailCode>, s: Settings) {
    forall key, lo :: Limited(key) ==> Fits(codes, s, key, lo)
  }

  ghost predicate CodesSound(db: Db) {
    Bounded(db) && Spaced(db.codes, db.settings.resendGap) && Throttled(db.codes, db.settings)
  }

  lemma ChangeThrottled(a: seq<EmailCode>, b: seq<EmailCode>, now: int, s: Settings, ch: CodeChange, key: Key, lo: int)
    requires Throttled(a, s) && CodesChanged(a, b, now, s, ch) && Limited(key)
    ensures Fits(b, s, key, lo)
  {
    assert Fits(a, s, key, lo);
    match ch
    case Untouched =>
    case Sent(c) =>
      assert b[..|a|] == a;
      if Within(c, key, lo, lo + s.window) {
        CountInSince(a, key, now - s.window, lo, lo + s.window);
      }
    case Consumed(k) => CountInUpdate(a, k, b[k], key, lo, lo + s.window);
    case Missed(k) => CountInUpdate(a, k, b[k], key, lo, lo + s.window);
  }

  lemma ChangeBounded(a: seq<EmailCode>, b: seq<EmailCode>, now: int, s: Settings, ch: CodeChange, later: int)
    requires s.maxAttempts >= 1 && now <= later && CodesChanged(a, b, now, s, ch) && Spaced(a, s.resendGap)
    requires forall i :: 0 <= i < |a| ==> CodeRow(a[i], now, s)
    ensures forall i :: 0 <= i < |b| ==> CodeRow(b[i], later, s)
    ensures Spaced(b, s.resendGap)
  {
  }

  /** What call `i` of a run does to the codes. */
  lemma CallCodes(r: Run, i: nat) returns (ch: CodeChange)
    requires IsRun(r) && i < |r.calls| && Bounded(r.states[i])
    ensures CodesChanged(r.states[i].codes, r.states[i + 1].codes, r.states[i].now, r.states[i].settings, ch)
    ensures ch.Sent? <==> r.calls[i].EmailStart? && r.replies[i].Ok?
    ensures ch.Sent? ==> Holds(ch.row, r.calls[i])
    ensures ch.Missed? <==> r.calls[i].EmailVerify? && Wrong(r.replies[i])
    ensures ch.Missed? || ch.Consumed? ==>
              r.calls[i].EmailVerify? && r.states[i].codes[ch.k].email == NormalizeEmail(r.calls[i].email)
    ensures r.calls[i].EmailVerify? && r.replies[i].Issued? ==>
              ch.Consumed? && LatestPending(r.states[i].codes, NormalizeEmail(r.calls[i].email)) == Some(ch.k)
  {
    assert Happens(r, i);
    ch := StepCodes(r.states[i], r.calls[i], r.states[i + 1], r.replies[i]);
  }

  lemma ChangeSound(db: Db, db': Db, ch: CodeChange)
    requires CodesSound(db) && CodesChanged(db.codes, db'.codes, db.now, db.settings, ch)
    requires db.now <= db'.now && db'.settings == db.settings
    ensures CodesSound(db')
  {
    ChangeBounded(db.codes, db'.codes, db.now, db.settings, ch, db'.now);
    forall key, lo | Limited(key) ensures Fits(db'.codes, db.settings, key, lo) {
      ChangeThrottled(db.codes, db'.codes, db.now, db.settings, ch, key, lo);
    }
  }

  lemma {:induction false} RunCodesSound(r: Run, i: nat)
    requires IsRun(r) && i < |r.states|
    ensures CodesSound(r.states[i])
  {
    if i == 0 {
    } else {
      RunCodesSound(r, i - 1);
      ClockForward(r, i - 1, i);
      var ch := CallCodes(r, i - 1);
      ChangeSound(r.states[i - 1], r.states[i], ch);
    }
  }

  // ---------------------------------------------------------------- the limits

  /** In any run, every closed interval of the window length holds at most the limit of codes per address, and per
      non-empty IP. */
  lemma SendingLimit(r: Run, i: nat, key: Key, lo: int)
    requires IsRun(r) && i < |r.states| && Limited(key)
    ensures CountIn(r.states[i].codes, key, lo, lo + r.states[i].settings.window) <= Limit(r.states[i].settings, key)
  {
    RunCodesSound(r, i);
    assert Fits(r.states[i].codes, r.states[i].settings, key, lo);
  }

  /** And `n` consecutive windows hold at most `n` times the limit. */
  lemma SendingLimitOver(r: Run, i: nat, key: Key, lo: int, n: nat)
    requires IsRun(r) && i < |r.states| && Limited(key) && n >= 1
    ensures CountIn(r.states[i].codes, key, lo, lo + n * r.states[i].settings.window) <= n * Limit(r.states[i].settings,
            key)
  {
    RunCodesSound(r, i);
    ConsecutiveWindows(r.states[i].codes, r.states[i].settings, key, lo, n);
    TimesIsProduct(n, r.states[i].settings.window);
    TimesIsProduct(n, Limit(r.states[i].settings, key));
  }

  function Times(n: nat, x: nat): nat {
    if n == 0 then 0 else Times(n - 1, x) + x
  }

  lemma {:induction false} TimesIsProduct(n: nat, x: nat)
    ensures Times(n, x) == n * x
  {
    if n == 0 {
    } else {
      TimesIsProduct(n - 1, x);
      Distribute(x, n - 1);
    }
  }

  lemma {:induction false} ConsecutiveWindows(codes: seq<EmailCode>, s: Settings, key: Key, lo: int, n: nat)
    requires Throttled(codes, s) && Limited(key) && n >= 1
    ensures CountIn(codes, key, lo, lo + Times(n, s.window)) <= Times(n, Limit(s, key))
  {
    var mid := lo + Times(n - 1, s.window);
    assert Fits(codes, s, key, mid);
    if n > 1 {
      ConsecutiveWindows(codes, s, key, lo, n - 1);
      CountInSplit(codes, key, lo, mid, mid + s.window);
    }
  }

  /** Any two unconsumed codes for one address were sent at least the resend interval apart, so with a positive
      interval the latest is unique; and none of them has used up its attempts, so the attempt guard never fires. */
  lemma PendingCodes(r: Run, i: nat, j: nat, k: nat)
    requires IsRun(r) && i < |r.states| && j < k < |r.states[i].codes|
    requires var cs := r.states[i].codes; cs[j].email == cs[k].email && cs[j].consumedAt.None? && cs[k].consumedAt.None?
    ensures var cs, s := r.states[i].codes, r.states[i].settings;
            && cs[k].sentAt - cs[j].sentAt >= s.resendGap
            && cs[j].attempts < s.maxAttempts && cs[k].attempts < s.maxAttempts
    ensures r.states[i].settings.resendGap > 0 ==> LatestPending(r.states[i].codes,
                                                                 r.states[i].codes[j].email) != Some(j)
  {
    RunCodesSound(r, i);
    assert CodeRow(r.states[i].codes[j], r.states[i].now, r.states[i].settings);
    assert CodeRow(r.states[i].codes[k], r.states[i].now, r.states[i].settings);
    assert IsPending(r.states[i].codes[k], r.states[i].codes[j].email);
  }

  /** Attempt counters never pass the maximum, and a code that reaches it is consumed. */
  lemma AttemptsNeverExceed(r: Run, i: nat, k: nat)
    requires IsRun(r) && i < |r.states| && k < |r.states[i].codes|
    ensures var c, most := r.states[i].codes[k], r.states[i].settings.maxAttempts;
            c.attempts <= most && (c.attempts == most ==> c.consumedAt.Some?)
  {
    RunCodesSound(r, i);
    assert CodeRow(r.states[i].codes[k], r.states[i].now, r.states[i].settings);
  }

  // ---------------------------------------------------------------- guesses

  /** Wrong codes compared for `email` among the first `n` calls, at times from `lo` to `hi`. */
  function Guesses(r: Run, n: nat, email: string, lo: int, hi: int): nat
    requires n <= |r.calls| && |r.states| == |r.calls| + 1 && |r.replies| == |r.calls|
  {
    if n == 0 then 0
    else
      Guesses(r, n - 1, email, lo, hi)
      + if Guess(r.calls[n - 1], r.replies[n - 1], email) && lo <= r.states[n - 1].now <= hi then 1 else 0
  }

  lemma ChangeAttempts(a: seq<EmailCode>, b: seq<EmailCode>, now: int, s: Settings, ch: CodeChange, email: string,
                       lo: int, hi: int)
    requires CodesChanged(a, b, now, s, ch)
    requires forall i :: 0 <= i < |a| ==> CodeRow(a[i], now, s)
    ensures AttemptsIn(b, email, lo - s.codeTtl, hi)
            >= AttemptsIn(a, email, lo - s.codeTtl, hi)
               + if ch.Missed? && a[ch.k].email == email && lo <= now <= hi then 1 else 0
  {
    match ch
    case Untouched =>
    case Sent(c) => assert b[..|a|] == a;
    case Consumed(k) => AttemptsInUpdate(a, k, b[k], email, lo - s.codeTtl, hi);
    case Missed(k) =>
      assert CodeRow(a[k], now, s);
      AttemptsInUpdate(a, k, b[k], email, lo - s.codeTtl, hi);
  }

  lemma StepGuesses(r: Run, i: nat, email: string, lo: int, hi: int)
    requires IsRun(r) && i < |r.calls|
    ensures var s := r.states[i].settings;
            && r.states[i + 1].settings == s
            && AttemptsIn(r.states[i + 1].codes, email, lo - s.codeTtl, hi) - AttemptsIn(r.states[i].codes, email,
                lo - s.codeTtl, hi)
               >= Guesses(r, i + 1, email, lo, hi) - Guesses(r, i, email, lo, hi)
  {
    RunCodesSound(r, i);
    ClockForward(r, i, i + 1);
    var ch := CallCodes(r, i);
    ChangeAttempts(r.states[i].codes, r.states[i + 1].codes, r.states[i].now, r.states[i].settings, ch, email, lo, hi);
  }

  /** Every guess is recorded on a code sent no longer than the code lifetime before it. */
  lemma {:induction false} GuessesAreRecorded(r: Run, n: nat, email: string, lo: int, hi: int)
    requires IsRun(r) && n < |r.states|
    ensures Guesses(r, n, email, lo, hi) <= AttemptsIn(r.states[n].codes, email, lo - r.states[n].settings.codeTtl, hi)
  {
    if n == 0 {
    } else {
      GuessesAreRecorded(r, n - 1, email, lo, hi);
      StepGuesses(r, n - 1, email, lo, hi);
    }
  }

  function CeilingOf(x: nat, d: nat): (q: nat)
    requires d >= 1
    ensures q * d >= x && (x > 0 ==> (q - 1) * d < x)
  {
    (x + d - 1) / d
  }

  /** In any interval of the window length W, at most maxAttempts * perEmail * ceil((W + TTL) / W) wrong codes are
      compared for one address, however often codes are resent. */
  lemma GuessBound(r: Run, n: nat, email: string, lo: int)
    requires IsRun(r) && n < |r.states|
    ensures var s := r.states[n].settings;
            && s.window >= 1
            && Guesses(r, n, email, lo, lo + s.window) <= s.maxAttempts * (CeilingOf(s.window + s.codeTtl,
                s.window) * s.perEmail)
  {
    ClockForward(r, 0, n);
    var s, codes := r.states[n].settings, r.states[n].codes;
    var hi := lo + s.window;
    var q := CeilingOf(s.window + s.codeTtl, s.window);
    var from := hi - q * s.window;
    GuessesAreRecorded(r, n, email, lo, hi);
    RunCodesSound(r, n);
    forall i | 0 <= i < |codes| ensures codes[i].attempts <= s.maxAttempts {
      assert CodeRow(codes[i], r.states[n].now, s);
    }
    AttemptsInBound(codes, email, lo - s.codeTtl, hi, s.maxAttempts);
    CountInNarrower(codes, ByEmail(email), lo - s.codeTtl, hi, from);
    SendingLimitOver(r, n, ByEmail(email), from, q);
    Monotone(s.maxAttempts, CountIn(codes, ByEmail(email), lo - s.codeTtl, hi), q * s.perEmail);
  }

  /** The settings shipped by default: thirty days, ten minutes, one minute, and an hour of window. */
  const DEFAULTS := Settings(2592000, 600, 60, 5, 5, 10, 3600)

  /** With the default settings no more than 50 wrong codes are compared for an address in any hour. */
  lemma FiftyGuessesAnHour(r: Run, n: nat, email: string, lo: int)
    requires IsRun(r) && n < |r.states| && r.states[0].settings == DEFAULTS
    ensures Guesses(r, n, email, lo, lo + 3600) <= 50
  {
    ClockForward(r, 0, n);
    GuessBound(r, n, email, lo);
    assert CeilingOf(4200, 3600) == 2;
  }

  lemma Monotone(x: nat, y: nat, z: nat)
    requires y <= z
    ensures x * y <= x * z
  {
  }

  // ---------------------------------------------------------------- one success per code

  lemma {:induction false} ConsumedStays(r: Run, i: nat, j: nat, k: nat)
    requires IsRun(r) && i <= j < |r.states| && k < |r.states[i].codes| && r.states[i].codes[k].consumedAt.Some?
    ensures k < |r.states[j].codes| && r.states[j].codes[k] == r.states[i].codes[k]
  {
    if i == j {
    } else {
      ConsumedStays(r, i, j - 1, k);
      RunCodesSound(r, j - 1);
      var ch := CallCodes(r, j - 1);
    }
  }

  /** Call `i` signed a user in with code `k`. */
  predicate SucceedsWith(r: Run, i: nat, k: nat)
    requires |r.states| == |r.calls| + 1 && |r.replies| == |r.calls|
  {
    i < |r.calls| && r.calls[i].EmailVerify? && r.replies[i].Issued?
    && LatestPending(r.states[i].codes, NormalizeEmail(r.calls[i].email)) == Some(k)
  }

  lemma UsedCodeIsGone(r: Run, i: nat, j: nat, k: nat)
    requires IsRun(r) && SucceedsWith(r, i, k) && i < j
    ensures !SucceedsWith(r, j, k)
  {
    RunCodesSound(r, i);
    var ch := CallCodes(r, i);
    if j < |r.states| {
      ConsumedStays(r, i + 1, j, k);
    }
  }

  /** Each code signs in at most once. */
  lemma OneSuccessPerCode(r: Run, i: nat, j: nat, k: nat)
    requires IsRun(r) && SucceedsWith(r, i, k) && SucceedsWith(r, j, k)
    ensures i == j
  {
    if i < j {
      UsedCodeIsGone(r, i, j, k);
    } else if j < i {
      UsedCodeIsGone(r, j, i, k);
    }
  }
}
