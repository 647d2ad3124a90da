/** Whom the sign-in routes sign in, and the accounts they create. */
module SignIns {
  import opened EmailCodes
  import opened Service
  import opened SessionTheorems
  import opened Tables
  import opened Text
  import opened TextLaws

  predicate UniqueEmails(users: seq<User>) {
    forall i, j :: 0 <= i < j < |users| ==> users[i].email != users[j].email
  }

  /** The call either leaves the accounts alone or adds an active one under an email nobody had. */
  predicate Enrolled(users: seq<User>, after: seq<User>, address: string) {
    || after == users
    || (after == users + [User(address, false)] && !EmailStored(users, address))
  }

  /** The newest session is `user`'s, bound to no client, and the account is active under `address`. */
  predicate SignedInAs(db: Db, after: Db, reply: Reply, address: string) {
    && reply.Issued? && reply.session == |db.auth.sessions| && |after.auth.sessions| == |db.auth.sessions| + 1
    && ActiveUser(after.users, reply.user) && after.users[reply.user].email == address
    && after.auth.sessions[reply.session].user == reply.user && after.auth.sessions[reply.session].client.None?
  }

  /** Registration succeeds exactly for an email no account has, deleted ones included, and signs the new account in. */
  lemma RegistersExactly(db: Db, email: string, meta: Option<Meta>)
    ensures var (after, reply) := RegisterUser(db, email, meta);
            && (reply.Issued? <==> !EmailStored(db.users, Lower(email)))
            && (reply.Issued? ==>
                  after.users == db.users + [User(Lower(email), false)]
                  && SignedInAs(db, after, reply, Lower(email)))
            && (!reply.Issued? ==> after == db)
  {
  }

  /** A password sign-in succeeds exactly when the password matches and the email has an active account: that one. */
  lemma LogsInExactly(db: Db, email: string, matches: bool, meta: Option<Meta>)
    ensures var (after, reply) := LoginUser(db, email, matches, meta);
            && (reply.Issued? <==> matches && exists u: nat ::
                  ActiveUser(db.users, u)
                  && db.users[u].email == Lower(email))
            && (reply.Issued? ==> after.users == db.users && SignedInAs(db, after, reply, Lower(email)))
            && (!reply.Issued? ==> after == db)
  {
  }

  /** A code sign-in signs in the account of its address, creating it when nobody ever had the address. */
  lemma VerifyingSignsIn(db: Db, email: string, submitted: string, meta: Option<Meta>)
    ensures var (after, reply) := VerifyEmail(db, email, submitted, meta);
            && (reply.Issued? ==>
                  Enrolled(db.users, after.users, NormalizeEmail(email))
                  && SignedInAs(db, after, reply, NormalizeEmail(email)))
            && (!reply.Issued? ==> after.users == db.users && after.auth == db.auth)
  {
  }

  lemma StepEnrols(db: Db, call: Call) returns (address: string)
    ensures Enrolled(db.users, Step(db, call).0.users, address)
  {
    address := "";
    match call
    case Register(email, meta) =>
      address := Lower(email);
      RegistersExactly(db, email, meta);
    case EmailVerify(email, submitted, meta) =>
      address := NormalizeEmail(email);
      VerifyingSignsIn(db, email, submitted, meta);
    case _ =>
  }

  /** Emails stay unique through every run, and no account changes or disappears. */
  lemma {:induction false} EmailsStayUnique(r: Run, i: nat, j: nat)
    requires IsRun(r) && i <= j < |r.states| && UniqueEmails(r.states[i].users)
    ensures UniqueEmails(r.states[j].users) && r.states[i].users <= r.states[j].users
  {
    hide Step;
    if i == j {
    } else {
      EmailsStayUnique(r, i, j - 1);
      assert Happens(r, j - 1);
      var address := StepEnrols(r.states[j - 1], r.calls[j - 1]);
    }
  }

  /** The address a call signs in, for the routes that take one. */
  function AddressOf(call: Call): Option<string> {
    match call
    case Register(email, _) => Some(Lower(email))
    case PasswordLogin(email, _, _) => Some(Lower(email))
    case EmailVerify(email, _, _) => Some(NormalizeEmail(email))
    case _ => None
  }

  /** The address as the caller typed it, less the spaces the email routes drop. */
  function TypedAddress(call: Call): Option<string> {
    match call
    case Register(email, _) => Some(email)
    case PasswordLogin(email, _, _) => Some(email)
    case EmailVerify(email, _, _) => Some(Strip(email))
    case _ => None
  }

  lemma StepSignsIn(db: Db, call: Call, after: Db, reply: Reply)
    requires Step(db, call) == (after, reply) && AddressOf(call).Some?
    ensures reply.Issued? ==> SignedInAs(db, after, reply, AddressOf(call).value)
    ensures call.Register? ==> (reply.Issued? <==> !EmailStored(db.users, AddressOf(call).value))
    ensures call.PasswordLogin? ==>
              (reply.Issued? <==> call.passwordMatches
                                  && exists u: nat :: ActiveUser(db.users, u)
                                      && db.users[u].email == AddressOf(call).value)
  {
    match call
    case Register(email, meta) => RegistersExactly(db, email, meta);
    case PasswordLogin(email, matches, meta) => LogsInExactly(db, email, matches, meta);
    case EmailVerify(email, submitted, meta) => VerifyingSignsIn(db, email, submitted, meta);
  }

  /** When the two routes that take no code sign a user in: registration exactly when nobody, deleted accounts included,
      has the email; a password exactly when it matches an active account. */
  lemma SignsInExactly(r: Run, i: nat)
    requires IsRun(r) && i < |r.calls|
    ensures var users, reply := r.states[i].users, r.replies[i];
            match r.calls[i]
            case Register(email, _) => reply.Issued? <==> !EmailStored(users, Lower(email))
            case PasswordLogin(email, matches, _) =>
              reply.Issued? <==> matches && exists u: nat :: ActiveUser(users, u) && users[u].email == Lower(email)
            case _ => true
  {
    assert Happens(r, i);
    if AddressOf(r.calls[i]).Some? {
      StepSignsIn(r.states[i], r.calls[i], r.states[i + 1], r.replies[i]);
    }
  }

  /** A session opened by registration, password or email code stays, in every later state of the run, a session of
      the one account with the address it was opened for, bound to no client. */
  lemma SessionKeepsItsAddress(r: Run, i: nat, j: nat)
    requires IsRun(r) && i < j < |r.states| && UniqueEmails(r.states[0].users)
    requires AddressOf(r.calls[i]).Some? && r.replies[i].Issued?
    ensures var user, sid, db := r.replies[i].user, r.replies[i].session, r.states[j];
            && ActiveUser(db.users, user)
            && (forall u :: 0 <= u < |db.users| ==> (db.users[u].email == AddressOf(r.calls[i]).value <==> u == user))
            && |r.states[i].auth.sessions| <= sid < |db.auth.sessions|
            && db.auth.sessions[sid].user == user && db.auth.sessions[sid].client.None?
  {
    var user, sid, next, db := r.replies[i].user, r.replies[i].session, r.states[i + 1], r.states[j];
    assert Happens(r, i);
    StepSignsIn(r.states[i], r.calls[i], next, r.replies[i]);
    hide Step, IsRun;
    EmailsStayUnique(r, 0, i + 1);
    EmailsStayUnique(r, i + 1, j);
    RunEvolves(r, i + 1, j);
    assert db.users[user] == next.users[user];
    assert SessionEvolves(next.auth.sessions[sid], db.auth.sessions[sid]);
    assert forall u, v ::
          0 <= u < |db.users| && 0 <= v < |db.users| && db.users[u].email == db.users[v].email
          ==> u == v;
  }

  /** Two sign-ins whose addresses differ at most in the case of letters, in any order and by any of these routes, reach
      the same account. */
  lemma OneAccountPerAddress(r: Run, i: nat, j: nat)
    requires IsRun(r) && i < |r.calls| && j < |r.calls| && UniqueEmails(r.states[0].users)
    requires r.replies[i].Issued? && r.replies[j].Issued?
    requires TypedAddress(r.calls[i]).Some? && TypedAddress(r.calls[j]).Some?
    requires SameButCase(TypedAddress(r.calls[i]).value, TypedAddress(r.calls[j]).value)
    ensures r.replies[i].user == r.replies[j].user
  {
    var n := |r.calls|;
    LowerIsCaseBlind(TypedAddress(r.calls[i]).value, TypedAddress(r.calls[j]).value);
    assert AddressOf(r.calls[i]) == AddressOf(r.calls[j]);
    hide IsRun, Lower, SameButCase;
    SessionKeepsItsAddress(r, i, n);
    SessionKeepsItsAddress(r, j, n);
  }
}
