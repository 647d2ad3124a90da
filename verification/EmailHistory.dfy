/** The codes that are stored are the codes that were sent, and what was sent is what signs in. */
module EmailHistory {
  import opened EmailCodes
  import opened EmailLimits
  import opened Outcomes
  import opened Service
  import opened Tables
  import opened Text
  import opened TextLaws

  /** A code keeps its address, secret, source and lifetime. */
  predicate CodeEvolves(c: EmailCode, d: EmailCode) {
    && d.email == c.email && d.code == c.code && d.ip == c.ip && d.sentAt == c.sentAt && d.expiresAt == c.expiresAt
    && c.attempts <= d.attempts && (c.consumedAt.Some? ==> d == c)
  }

  /** Every stored code was sent by an earlier call that succeeded: it holds that call's address, secret and source, and
      lives for the code lifetime from its instant. */
  lemma {:induction false} CodeWasSent(r: Run, n: nat, k: nat) returns (j: nat)
    requires IsRun(r) && n < |r.states| && k < |r.states[n].codes|
    ensures j < n && |r.states[j].codes| == k && r.replies[j].Ok? && Holds(r.states[n].codes[k], r.calls[j])
    ensures r.states[n].codes[k].sentAt == r.states[j].now
    ensures r.states[n].codes[k].expiresAt == r.states[j].now + r.states[j].settings.codeTtl
    decreases n
  {
    assert n > 0;
    RunCodesSound(r, n - 1);
    var ch := CallCodes(r, n - 1);
    if k < |r.states[n - 1].codes| {
      j := CodeWasSent(r, n - 1, k);
    } else {
      j := n - 1;
    }
  }

  lemma {:induction false} CodesEvolve(r: Run, i: nat, j: nat, k: nat)
    requires IsRun(r) && i <= j < |r.states| && k < |r.states[i].codes|
    ensures k < |r.states[j].codes| && CodeEvolves(r.states[i].codes[k], r.states[j].codes[k])
  {
    if i == j {
    } else {
      CodesEvolve(r, i, j - 1, k);
      RunCodesSound(r, j - 1);
      var ch := CallCodes(r, j - 1);
    }
  }

  /** Two texts name the same address exactly when they agree up to spaces around them and the case of letters. */
  lemma SameAddressExactly(a: string, b: string)
    ensures NormalizeEmail(a) == NormalizeEmail(b) <==> SameButCase(Strip(a), Strip(b))
  {
    LowerIsCaseBlind(Strip(a), Strip(b));
  }

  /** The call sends to the address or tries a code for it. */
  predicate Concerns(call: Call, address: string) {
    (call.EmailStart? || call.EmailVerify?) && NormalizeEmail(call.email) == address
  }

  /** The code is the one pending for its address, and was sent after all others to it. */
  ghost predicate Newest(codes: seq<EmailCode>, k: nat) {
    && k < |codes| && codes[k].consumedAt.None?
    && forall j :: 0 <= j < |codes| && j != k && IsPending(codes[j], codes[k].email)
        ==> codes[j].sentAt < codes[k].sentAt
  }

  /** It stays so while no call concerns the address. */
  lemma {:induction false} StaysNewest(r: Run, i: nat, n: nat, k: nat)
    requires IsRun(r) && i <= n < |r.states| && Newest(r.states[i].codes, k)
    requires forall m :: i <= m < n ==> !Concerns(r.calls[m], r.states[i].codes[k].email)
    ensures Newest(r.states[n].codes, k) && r.states[n].codes[k] == r.states[i].codes[k]
  {
    if i == n {
    } else {
      StaysNewest(r, i, n - 1, k);
      RunCodesSound(r, n - 1);
      var ch := CallCodes(r, n - 1);
      assert !Concerns(r.calls[n - 1], r.states[i].codes[k].email);
    }
  }

  lemma SentIsNewest(r: Run, i: nat) returns (k: nat)
    requires IsRun(r) && i < |r.calls| && r.calls[i].EmailStart? && r.replies[i].Ok?
             && r.states[i].settings.resendGap >= 1
    ensures Newest(r.states[i + 1].codes, k) && Holds(r.states[i + 1].codes[k], r.calls[i])
    ensures r.states[i + 1].codes[k].expiresAt == r.states[i].now + r.states[i].settings.codeTtl
  {
    RunCodesSound(r, i);
    var ch := CallCodes(r, i);
    k := |r.states[i].codes|;
  }

  /** After a code was sent, and while no other call concerns its address and its lifetime lasts, a text signs the
      address in exactly when it is the secret that was sent, spaces around it aside; unless the address is held by a
      deleted account only. */
  lemma SentCodeSignsIn(r: Run, i: nat, n: nat, email: string, submitted: string, meta: Option<Meta>)
    requires IsRun(r) && i < n < |r.states|
    requires r.calls[i].EmailStart? && r.replies[i].Ok? && r.states[i].settings.resendGap >= 1
    requires NormalizeEmail(email) == NormalizeEmail(r.calls[i].email)
    requires forall m :: i < m < n ==> !Concerns(r.calls[m], NormalizeEmail(email))
    requires r.states[n].now < r.states[i].now + r.states[i].settings.codeTtl
    requires EmailStored(r.states[n].users, NormalizeEmail(email)) ==>
               UserByEmail(r.states[n].users, NormalizeEmail(email)).Some?
    ensures VerifyEmail(r.states[n], email, submitted, meta).1.Issued? <==> Strip(submitted) == r.calls[i].secret
  {
    var address, db := NormalizeEmail(email), r.states[n];
    var k := SentIsNewest(r, i);
    StaysNewest(r, i + 1, n, k);
    var latest := LatestPending(db.codes, address);
    assert IsPending(db.codes[k], address);
    assert latest == Some(k);
    VerifiesExactly(r, n, email, submitted, meta);
    hide VerifyEmail, IsRun, LatestPending;
  }
}
