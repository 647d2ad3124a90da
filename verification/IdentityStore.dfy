/** One call of the identity resolution as the service writes it: rows are added, the commit succeeds or is rolled
    back, and a rolled-back call reads again. Left alone it is one particular schedule of `ExternalIdentity`. */
module IdentityStore {
  import opened ExternalIdentity
  import opened Tables
  import opened Text

  /** The world after call 0 has taken `steps` more steps with nobody else moving. */
  ghost function Settle(w: World, steps: nat): (r: World)
    requires Sound(w)
    ensures Sound(r)
    decreases steps
  {
    if steps == 0 then w
    else
      NextSound(w, Proceed(0));
      Settle(Advance(w, 0), steps - 1)
  }

  lemma SettleStep(w: World, steps: nat)
    requires Sound(w)
    ensures Sound(Advance(w, 0)) && Settle(w, steps + 1) == Settle(Advance(w, 0), steps)
  {
    NextSound(w, Proceed(0));
  }

  function Alone(steps: nat): (moves: seq<Move>)
    ensures |moves| == steps && forall i :: 0 <= i < steps ==> moves[i] == Proceed(0)
  {
    seq(steps, _ => Proceed(0))
  }

  /** Settling is a schedule, so everything proved of all schedules holds of it. */
  lemma {:induction false} SettleIsPlay(w: World, steps: nat)
    requires Sound(w)
    ensures Settle(w, steps) == Play(w, Alone(steps))
  {
    if steps > 0 {
      SettleLast(w, steps);
      SettleIsPlay(w, steps - 1);
      assert Alone(steps)[..steps - 1] == Alone(steps - 1);
    }
  }

  lemma {:induction false} SettleLast(w: World, steps: nat)
    requires Sound(w) && steps > 0
    ensures Settle(w, steps) == Advance(Settle(w, steps - 1), 0)
    decreases steps
  {
    if steps > 1 {
      NextSound(w, Proceed(0));
      SettleLast(Advance(w, 0), steps - 1);
    }
  }

  /** The claim's identity exists and its owner is active. */
  ghost predicate Known(users: map<nat, Account>, identities: seq<Identity>, claim: Claim) {
    exists k :: 0 <= k < |identities| && Matches(identities[k], claim) && Active(users, identities[k].user)
  }

  /** A new identity may be stored: the email is verified and no stored identity has its subject or union id. */
  ghost predicate Linkable(identities: seq<Identity>, claim: Claim) {
    claim.email.Some? && claim.email.value != "" && claim.emailVerified && !Conflicts(identities, claim)
  }

  /** The email belongs to deleted accounts only, which still hold its unique value. */
  ghost predicate Burnt(users: map<nat, Account>, email: string) {
    Taken(users, email) && forall u :: u in users && users[u].email == email ==> users[u].deleted
  }

  /** The row binds the claim's identity to `user` and shows the claim's profile. */
  ghost predicate Follows(row: Identity, claim: Claim, user: nat) {
    && Matches(row, claim) && row.user == user
    && row.displayName == claim.displayName && row.avatarUrl == claim.avatarUrl
        && row.emailVerified == claim.emailVerified
    && (row.email.Some? <==> claim.email.Some? && claim.email.value != "")
    && (row.email.Some? ==>
          Lower(row.email.value) == row.email.value && Lower(Strip(row.email.value)) == EmailOf(claim))
  }

  /** A row just written from the claim follows it. */
  lemma ReturnedFollows(w: World, before: seq<Identity>, row: Option<nat>)
    requires Sound(w) && |w.calls| == 1 && w.calls[0].stage.Returned?
    requires var claim, user := w.calls[0].claim, w.calls[0].stage.user;
             if row.Some? then row.value < |before| && Matches(before[row.value], claim)
                 && before[row.value].user == user
                               && w.identities == before[row.value :=
                                   ExternalIdentity.Refresh(before[row.value], claim)]
             else w.identities == before + [IdentityFor(claim, user)] && Linkable(before, claim)
    ensures var claim, user := w.calls[0].claim, w.calls[0].stage.user;
            Active(w.users, user) && exists k :: 0 <= k < |w.identities| && Follows(w.identities[k], claim, user)
  {
    var claim, user := w.calls[0].claim, w.calls[0].stage.user;
    CallOf(w, 0);
    if claim.email.Some? {
      NormalizedOnce(claim.email.value);
      LowerTwice(claim.email.value);
      LowerTwice(Strip(claim.email.value));
    }
    assert Follows(w.identities[if row.Some? then row.value else |before|], claim, user);
  }

  class Store {
    var users: map<nat, Account>
    var identities: seq<Identity>
    var nextUser: nat

    ghost function Contents(calls: seq<Resolution>): World
      reads this
    {
      World(users, identities, calls, nextUser)
    }

    ghost predicate Valid()
      reads this
    {
      TablesSound(Contents([]))
    }

    constructor ()
      ensures Valid() && Contents([]) == World(map[], [], [], 0)
    {
      users, identities, nextUser := map[], [], 0;
    }

    method GetUserByEmail(email: string) returns (u: Option<nat>)
      requires Valid()
      ensures u == UserWithEmail(users, email)
    {
      for i := 0 to nextUser
        invariant forall v :: v < i && v in users && users[v].email == email ==> users[v].deleted
      {
        if i in users && users[i].email == email && !users[i].deleted {
          assert Active(users, i);
          return Some(i);
        }
      }
      u := None;
    }

    /** The lookup after a rollback. */
    method Reread(claim: Claim) returns (user: Option<nat>)
      requires Valid()
      ensures var f := FindIdentity(identities, claim);
              user == if f.Some? && Active(users, identities[f.value].user) then Some(identities[f.value].user)
                  else None
    {
      var raced := FindIdentity(identities, claim);
      if raced.Some? && !users[identities[raced.value].user].deleted {
        return Some(identities[raced.value].user);
      }
      user := None;
    }

    /** Links the identity to an account just read. A refused link leaves every table as it was. */
    method LinkIdentity(claim: Claim, user: nat, ghost draft: Option<nat>) returns (r: Stage, ghost steps: nat)
      requires Valid() && Sound(Contents([Resolution(claim, Linking(user), draft)]))
      modifies this`identities
      ensures Settle(old(Contents([Resolution(claim, Linking(user), draft)])), steps)
              == Contents([Resolution(claim, r, draft)])
      ensures !Conflicts(old(identities), claim) ==>
                r == Returned(user)
                && identities == old(identities) + [IdentityFor(claim, user)]
      ensures Conflicts(old(identities), claim) ==> identities == old(identities)
      ensures r.Returned? || r.Refused?
      ensures Conflicts(old(identities), claim) && !Known(users, identities, claim) ==> r == Refused(IdentityConflict)
    {
      ghost var w := Contents([Resolution(claim, Linking(user), draft)]);
      assert CallSound(w.users, w.identities, w.nextUser, w.calls[0]);
      SettleStep(w, 0);
      if !Conflicts(identities, claim) {
        identities := identities + [IdentityFor(claim, user)];
        return Returned(user), 1;
      }
      var raced := Reread(claim);
      r, steps := if raced.Some? then Returned(raced.value) else Refused(IdentityConflict), 2;
      SettleStep(Advance(w, 0), 0);
      SettleStep(w, 1);
    }

    /** Creates a user together with the identity: flushed first, then committed or rolled back as one. */
    method CreateUser(claim: Claim) returns (r: Stage, ghost draft: Option<nat>, ghost steps: nat)
      requires Sound(Contents([Resolution(claim, Creating, None)]))
      requires UserWithEmail(users, EmailOf(claim)).None? && !Known(users, identities, claim)
      modifies this
      ensures Settle(old(Contents([Resolution(claim, Creating, None)])), steps)
              == Contents([Resolution(claim, r, draft)])
      ensures if Taken(old(users), EmailOf(claim)) then r == Refused(ServerError)
              else if Conflicts(old(identities), claim) then r == Refused(IdentityConflict)
              else r == Returned(old(nextUser))
      ensures users == if r.Returned? then old(users)[old(nextUser) := Account(EmailOf(claim), false)] else old(users)
      ensures identities == if r.Returned? then old(identities) + [IdentityFor(claim, r.user)] else old(identities)
    {
      ghost var w := Contents([Resolution(claim, Creating, None)]);
      assert !Held(w.calls, EmailOf(claim));
      if Taken(users, EmailOf(claim)) {
        SettleStep(w, 0);
        return Refused(ServerError), None, 1;
      }
      var user := nextUser;
      nextUser := nextUser + 1;
      draft := Some(user);
      ghost var flushed := Contents([Resolution(claim, Created(user), draft)]);
      assert flushed == Advance(w, 0);
      ghost var more;
      r, more := CommitUser(claim, user);
      SettleStep(w, more);
      steps := more + 1;
    }

    /** The commit of a flushed user and its identity, rolled back as one on a conflict. */
    method CommitUser(claim: Claim, user: nat) returns (r: Stage, ghost steps: nat)
      requires Sound(Contents([Resolution(claim, Created(user), Some(user))]))
      requires UserWithEmail(users, EmailOf(claim)).None? && !Known(users, identities, claim)
      modifies this`users, this`identities
      ensures Settle(old(Contents([Resolution(claim, Created(user), Some(user))])), steps)
              == Contents([Resolution(claim, r, Some(user))])
      ensures r == if Conflicts(old(identities), claim) then Refused(IdentityConflict) else Returned(user)
      ensures users == if r.Returned? then old(users)[user := Account(EmailOf(claim), false)] else old(users)
      ensures identities == if r.Returned? then old(identities) + [IdentityFor(claim, r.user)] else old(identities)
    {
      ghost var w := Contents([Resolution(claim, Created(user), Some(user))]);
      if !Conflicts(identities, claim) {
        users := users[user := Account(EmailOf(claim), false)];
        identities := identities + [IdentityFor(claim, user)];
        SettleStep(w, 0);
        return Returned(user), 1;
      }
      assert Advance(w, 0) == Contents([Resolution(claim, LostCreate, Some(user))]);
      SettleStep(w, 0);
      ghost var more;
      r, more := Recover(claim, Some(user));
      SettleStep(w, more);
      steps := more + 1;
    }

    /** After a rolled-back creation: the identity, then the user, are looked up again. */
    method Recover(claim: Claim, ghost draft: Option<nat>) returns (r: Stage, ghost steps: nat)
      requires Sound(Contents([Resolution(claim, LostCreate, draft)])) && Conflicts(identities, claim)
      modifies this`identities
      ensures identities == old(identities)
      ensures Settle(old(Contents([Resolution(claim, LostCreate, draft)])), steps)
              == Contents([Resolution(claim, r, draft)])
      ensures !Known(users, identities, claim) ==> r == Refused(IdentityConflict)
      ensures r.Returned? || r.Refused?
    {
      ghost var w := Contents([Resolution(claim, LostCreate, draft)]);
      var raced := Reread(claim);
      SettleStep(w, 0);
      if raced.Some? {
        return Returned(raced.value), 1;
      }
      assert Advance(w, 0) == Contents([Resolution(claim, LostAgain, draft)]);
      hide Sound, Settle, Advance, Conflicts;
      ghost var more;
      r, more := LookAgain(claim, draft);
      SettleStep(w, more);
      steps := more + 1;
    }

    method LookAgain(claim: Claim, ghost draft: Option<nat>) returns (r: Stage, ghost steps: nat)
      requires Valid() && Sound(Contents([Resolution(claim, LostAgain, draft)])) && Conflicts(identities, claim)
      modifies this`identities
      ensures identities == old(identities)
      ensures Settle(old(Contents([Resolution(claim, LostAgain, draft)])), steps)
              == Contents([Resolution(claim, r, draft)])
      ensures !Known(users, identities, claim) ==> r == Refused(IdentityConflict)
      ensures r.Returned? || r.Refused?
    {
      ghost var w := Contents([Resolution(claim, LostAgain, draft)]);
      var racedUser := GetUserByEmail(EmailOf(claim));
      SettleStep(w, 0);
      if racedUser.None? {
        return Refused(IdentityConflict), 1;
      }
      ghost var linking := Contents([Resolution(claim, Linking(racedUser.value), draft)]);
      assert Advance(w, 0) == linking;
      hide Sound, Settle, Advance, Conflicts;
      ghost var more;
      r, more := LinkIdentity(claim, racedUser.value, draft);
      SettleStep(w, more);
      steps := more + 1;
    }

    method RefreshProfile(claim: Claim, row: nat) returns (r: Stage, ghost steps: nat)
      requires Valid() && FindIdentity(identities, claim) == Some(row)
      modifies this`identities
      ensures Settle(old(Contents([Resolution(claim, Start, None)])), steps) == Contents([Resolution(claim, r, None)])
      ensures var owner := old(identities)[row].user;
              if users[owner].deleted then r == Refused(IdentityInvalid) && identities == old(identities)
              else
                && r == Returned(owner)
                && identities == old(identities)[row := ExternalIdentity.Refresh(old(identities)[row], claim)]
    {
      ghost var w := Contents([Resolution(claim, Start, None)]);
      SettleStep(w, 0);
      var owner := identities[row].user;
      if users[owner].deleted {
        return Refused(IdentityInvalid), 1;
      }
      SettleStep(w, 1);
      SettleStep(Advance(w, 0), 0);
      identities := identities[row := ExternalIdentity.Refresh(identities[row], claim)];
      r, steps := Returned(owner), 2;
    }

    method ResolveNew(claim: Claim) returns (r: Stage, ghost draft: Option<nat>, ghost steps: nat)
      requires Valid() && FindIdentity(identities, claim).None?
      modifies this
      ensures Settle(old(Contents([Resolution(claim, Start, None)])), steps) == Contents([Resolution(claim, r, draft)])
      ensures r.Returned? || r.Refused?
      ensures r.Returned? <==> Linkable(old(identities), claim) && !Burnt(old(users), EmailOf(claim))
      ensures r.Returned? ==> identities == old(identities) + [IdentityFor(claim, r.user)]
      ensures r.Refused? ==> users == old(users) && identities == old(identities)
      ensures users == old(users) || (r == Returned(old(nextUser))
              && users == old(users)[r.user := Account(EmailOf(claim), false)])
    {
      ghost var w := Contents([Resolution(claim, Start, None)]);
      SettleStep(w, 0);
      if claim.email.None? || claim.email.value == "" || !claim.emailVerified {
        return Refused(VerifiedEmailRequired), None, 1;
      }
      assert Advance(w, 0) == Contents([Resolution(claim, NeedUser, None)]);
      ghost var more;
      r, draft, more := LinkOrCreate(claim);
      SettleStep(w, more);
      steps := more + 1;
    }

    method LinkOrCreate(claim: Claim) returns (r: Stage, ghost draft: Option<nat>, ghost steps: nat)
      requires Sound(Contents([Resolution(claim, NeedUser, None)])) && FindIdentity(identities, claim).None?
      modifies this
      ensures Settle(old(Contents([Resolution(claim, NeedUser, None)])), steps)
              == Contents([Resolution(claim, r, draft)])
      ensures r.Returned? || r.Refused?
      ensures r.Returned? <==> !Conflicts(old(identities), claim) && !Burnt(old(users), EmailOf(claim))
      ensures r.Returned? ==> identities == old(identities) + [IdentityFor(claim, r.user)]
      ensures r.Refused? ==> users == old(users) && identities == old(identities)
      ensures users == old(users) || (r == Returned(old(nextUser))
              && users == old(users)[r.user := Account(EmailOf(claim), false)])
    {
      ghost var w := Contents([Resolution(claim, NeedUser, None)]);
      SettleStep(w, 0);
      var existingUser := GetUserByEmail(EmailOf(claim));
      ghost var more;
      if existingUser.Some? {
        assert Advance(w, 0) == Contents([Resolution(claim, Linking(existingUser.value), None)]);
        r, more := LinkIdentity(claim, existingUser.value, None);
        draft := None;
      } else {
        assert Advance(w, 0) == Contents([Resolution(claim, Creating, None)]);
        r, draft, more := CreateUser(claim);
      }
      SettleStep(w, more);
      steps := more + 1;
    }

    /** Resolves a provider identity to a user with nobody interfering. It returns one exactly when the identity is
        known with an active owner, or is new, may be stored, and its email is not held by a deleted account; a call
        that fails changes neither table. */
    method ResolveExternalIdentity(claim: Claim) returns (r: Stage, ghost draft: Option<nat>, ghost steps: nat)
      requires Valid()
      modifies this
      ensures Valid()
      ensures Settle(old(Contents([Resolution(claim, Start, None)])), steps) == Contents([Resolution(claim, r, draft)])
      ensures r.Returned? || r.Refused?
      ensures r.Returned? <==>
              || Known(old(users), old(identities), claim)
              || (Linkable(old(identities), claim) && !Burnt(old(users), EmailOf(claim)))
      ensures r.Returned? ==> Active(users, r.user) && exists k ::
                0 <= k < |identities|
                && Follows(identities[k], claim, r.user)
      ensures r.Refused? ==> users == old(users) && identities == old(identities)
      ensures users == old(users) || (r == Returned(old(nextUser))
              && users == old(users)[r.user := Account(EmailOf(claim), false)])
    {
      var existing := FindIdentity(identities, claim);
      if existing.Some? {
        r, steps := RefreshProfile(claim, existing.value);
        draft := None;
      } else {
        r, draft, steps := ResolveNew(claim);
      }
      if r.Returned? {
        ReturnedFollows(Settle(old(Contents([Resolution(claim, Start, None)])), steps), old(identities), existing);
      }
    }
  }
}
