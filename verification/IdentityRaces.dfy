/** Which races between identity resolutions are recovered and which are lost: exact conditions on the tables a
    caller could check before the call, and the schedules that lose. */
module IdentityRaces {
  import opened ExternalIdentity
  import opened Tables

  predicate Verified(claim: Claim) {
    claim.email.Some? && claim.email.value != "" && claim.emailVerified
  }

  predicate Stored(identities: seq<Identity>, claim: Claim) {
    exists k :: 0 <= k < |identities| && Matches(identities[k], claim)
  }

  /** An active account has the email. */
  ghost predicate Accounted(users: map<nat, Account>, email: string) {
    exists u :: Active(users, u) && users[u].email == email
  }

  // ---------------------------------------------------------------- what one move does

  lemma Extend(w: World, moves: seq<Move>, move: Move) returns (longer: seq<Move>)
    requires Sound(w)
    ensures longer == moves + [move] && Play(w, longer) == Next(Play(w, moves), move)
  {
    longer := moves + [move];
    assert longer[..|moves|] == moves;
  }

  lemma Arrives(v: World, claim: Claim)
    requires Sound(v)
    ensures Next(v, Arrive(claim)) == v.(calls := v.calls + [Resolution(claim, Start, None)])
  {
  }

  lemma FindsNoIdentity(v: World, i: nat)
    requires Sound(v) && i < |v.calls| && v.calls[i].stage.Start? && !Stored(v.identities, v.calls[i].claim)
    ensures Next(v, Proceed(i)) == At(v, i, if Verified(v.calls[i].claim) then NeedUser
            else Refused(VerifiedEmailRequired))
  {
    hide Sound;
  }

  lemma FindsIdentity(v: World, i: nat, k: nat)
    requires Sound(v) && i < |v.calls| && v.calls[i].stage.Start?
    requires k < |v.identities| && Matches(v.identities[k], v.calls[i].claim)
    ensures v.identities[k].user in v.users
    ensures Next(v, Proceed(i)) ==
            At(v, i, if v.users[v.identities[k].user].deleted then Refused(IdentityInvalid)
                else Found(k, v.identities[k].user))
  {
    assert FindIdentity(v.identities, v.calls[i].claim) == Some(k);
  }

  lemma FindsAccount(v: World, i: nat, u: nat)
    requires Sound(v) && i < |v.calls| && v.calls[i].stage.NeedUser?
    requires Active(v.users, u) && v.users[u].email == EmailOf(v.calls[i].claim)
    ensures Next(v, Proceed(i)) == At(v, i, Linking(u))
  {
    assert UserWithEmail(v.users, EmailOf(v.calls[i].claim)) == Some(u);
  }

  lemma FindsNoAccount(v: World, i: nat)
    requires Sound(v) && i < |v.calls| && v.calls[i].stage.NeedUser? && !Accounted(v.users, EmailOf(v.calls[i].claim))
    ensures Next(v, Proceed(i)) == At(v, i, Creating)
  {
    hide Sound;
  }

  lemma Links(v: World, i: nat, u: nat)
    requires Sound(v) && i < |v.calls| && v.calls[i].stage == Linking(u)
    ensures Next(v, Proceed(i)) ==
            if Conflicts(v.identities, v.calls[i].claim) then At(v, i, LostLink)
            else At(v, i, Returned(u)).(identities := v.identities + [IdentityFor(v.calls[i].claim, u)])
  {
    hide Sound;
  }

  lemma ReadsAgain(v: World, i: nat)
    requires Sound(v) && i < |v.calls| && v.calls[i].stage.LostLink?
    ensures !Stored(v.identities, v.calls[i].claim) ==> Next(v, Proceed(i)) == At(v, i, Refused(IdentityConflict))
    ensures forall k ::
              0 <= k < |v.identities| && Matches(v.identities[k], v.calls[i].claim)
              && Active(v.users, v.identities[k].user) ==>
                Next(v, Proceed(i)) == At(v, i, Returned(v.identities[k].user))
  {
    forall k | 0 <= k < |v.identities| && Matches(v.identities[k], v.calls[i].claim)
      ensures FindIdentity(v.identities, v.calls[i].claim) == Some(k)
    {
    }
  }

  lemma Flushes(v: World, i: nat)
    requires Sound(v) && i < |v.calls| && v.calls[i].stage.Creating? && !Held(v.calls, EmailOf(v.calls[i].claim))
    ensures Next(v, Proceed(i)) ==
            if Taken(v.users, EmailOf(v.calls[i].claim)) then At(v, i, Refused(ServerError))
            else v.(calls := v.calls[i := v.calls[i].(stage := Created(v.nextUser), draft := Some(v.nextUser))],
                    nextUser := v.nextUser + 1)
  {
    hide Sound;
  }

  lemma Commits(v: World, i: nat, u: nat)
    requires Sound(v) && i < |v.calls| && v.calls[i].stage == Created(u) && !Conflicts(v.identities, v.calls[i].claim)
    ensures Next(v, Proceed(i)) ==
            At(v, i, Returned(u)).(users := v.users[u := Account(EmailOf(v.calls[i].claim), false)],
                                   identities := v.identities + [IdentityFor(v.calls[i].claim, u)])
  {
    hide Sound;
  }

  /** A call arrives and finds no identity. */
  lemma Enters(w: World, moves: seq<Move>, claim: Claim) returns (longer: seq<Move>)
    requires Sound(w) && Verified(claim) && !Stored(Play(w, moves).identities, claim)
    ensures Play(w, longer) == Play(w, moves).(calls := Play(w, moves).calls + [Resolution(claim, NeedUser, None)])
  {
    hide Sound, Play, Next, Stored;
    var v := Play(w, moves);
    longer := Extend(w, moves, Arrive(claim));
    Arrives(v, claim);
    var arrived := Play(w, longer);
    longer := Extend(w, longer, Proceed(|v.calls|));
    FindsNoIdentity(arrived, |v.calls|);
    assert arrived.calls[|v.calls| := Resolution(claim, NeedUser, None)]
        == v.calls + [Resolution(claim, NeedUser, None)];
  }

  /** A call arrives, finds no identity, and finds account `u` under its email. */
  lemma EntersWithAccount(w: World, moves: seq<Move>, claim: Claim, u: nat) returns (longer: seq<Move>)
    requires Sound(w) && Verified(claim) && !Stored(Play(w, moves).identities, claim)
    requires Active(Play(w, moves).users, u) && Play(w, moves).users[u].email == EmailOf(claim)
    ensures Play(w, longer) == Play(w, moves).(calls := Play(w, moves).calls + [Resolution(claim, Linking(u), None)])
  {
    hide Sound, Play, Next, Stored;
    var v := Play(w, moves);
    longer := Enters(w, moves, claim);
    FindsAccount(Play(w, longer), |v.calls|, u);
    var found := Play(w, longer);
    longer := Extend(w, longer, Proceed(|v.calls|));
    assert found.calls[|v.calls| := Resolution(claim, Linking(u), None)]
        == v.calls + [Resolution(claim, Linking(u), None)];
  }

  // ---------------------------------------------------------------- races recovered, races lost

  /** Two calls for one new identity, both past the lookup that found an account with their email: the one committing
      second is rolled back, reads again, and returns that account too. */
  lemma LinkRaceRecovers(w: World, claim: Claim, u: nat) returns (moves: seq<Move>)
    requires Initial(w) && Verified(claim) && !Conflicts(w.identities, claim)
    requires Active(w.users, u) && w.users[u].email == EmailOf(claim)
    ensures Play(w, moves) == w.(identities := w.identities + [IdentityFor(claim, u)],
                                 calls := [Resolution(claim, Returned(u), None), Resolution(claim, Returned(u), None)])
  {
    var returned := Resolution(claim, Returned(u), None);
    moves := OneLinked(w, claim, u);
    var first := Play(w, moves);
    assert Clashes(first.identities[|w.identities|], claim) && Matches(first.identities[|w.identities|], claim);
    hide Sound, Initial, Play, Next, Stored;
    moves := Extend(w, moves, Proceed(1));
    Links(first, 1, u);
    var lost := Play(w, moves);
    assert lost.calls == [returned, Resolution(claim, LostLink, None)];
    moves := Extend(w, moves, Proceed(1));
    ReadsAgain(lost, 1);
    assert Play(w, moves).calls == [returned, returned];
  }

  lemma OneLinked(w: World, claim: Claim, u: nat) returns (moves: seq<Move>)
    requires Initial(w) && Verified(claim) && !Conflicts(w.identities, claim)
    requires Active(w.users, u) && w.users[u].email == EmailOf(claim)
    ensures Play(w, moves) == w.(identities := w.identities + [IdentityFor(claim, u)],
                                 calls := [Resolution(claim, Returned(u), None), Resolution(claim, Linking(u), None)])
  {
    var linking := Resolution(claim, Linking(u), None);
    assert Play(w, []) == w && !Stored(w.identities, claim);
    moves := EntersWithAccount(w, [], claim, u);
    moves := EntersWithAccount(w, moves, claim, u);
    var both := Play(w, moves);
    hide Sound, Initial, Play, Next, Stored, Conflicts;
    assert both.calls == [linking, linking];
    moves := Extend(w, moves, Proceed(0));
    Links(both, 0, u);
    assert Play(w, moves).calls == [Resolution(claim, Returned(u), None), linking];
  }

  /** Two first sign-ins under one new email, of different identities or of the same one: when both are past the
      lookups before the first commits, the second fails at its flush. */
  lemma FlushRaceFails(w: World, first: Claim, second: Claim) returns (moves: seq<Move>)
    requires Initial(w) && Verified(first) && Verified(second) && EmailOf(first) == EmailOf(second)
    requires !Conflicts(w.identities, first) && !Stored(w.identities, second) && !Taken(w.users, EmailOf(first))
    ensures var u := w.nextUser;
            Play(w, moves) == World(w.users[u := Account(EmailOf(first), false)],
                                    w.identities + [IdentityFor(first, u)],
                                    [Resolution(first, Returned(u), Some(u)),
                                     Resolution(second, Refused(ServerError), None)], u + 1)
  {
    var u, waiting := w.nextUser, Resolution(second, Creating, None);
    moves := BothCreating(w, first, second);
    hide Sound, Initial, Play, Next;
    var both := Play(w, moves);
    moves := Extend(w, moves, Proceed(0));
    Flushes(both, 0);
    var flushed := Play(w, moves);
    assert flushed == World(w.users, w.identities, [Resolution(first, Created(u), Some(u)), waiting], u + 1);
    moves := Extend(w, moves, Proceed(0));
    Commits(flushed, 0, u);
    var committed := Play(w, moves);
    assert committed.calls == [Resolution(first, Returned(u), Some(u)), waiting];
    moves := Extend(w, moves, Proceed(1));
    assert committed.users[u].email == EmailOf(second);
    Flushes(committed, 1);
    assert Play(w, moves).calls == [Resolution(first, Returned(u), Some(u)),
                                    Resolution(second, Refused(ServerError), None)];
  }

  lemma BothCreating(w: World, first: Claim, second: Claim) returns (moves: seq<Move>)
    requires Initial(w) && Verified(first) && Verified(second) && EmailOf(first) == EmailOf(second)
    requires !Stored(w.identities, first) && !Stored(w.identities, second) && !Accounted(w.users, EmailOf(first))
    ensures Play(w, moves) == w.(calls := [Resolution(first, Creating, None), Resolution(second, Creating, None)])
  {
    assert Play(w, []) == w;
    moves := Enters(w, [], first);
    moves := Enters(w, moves, second);
    var both := Play(w, moves);
    assert both.calls == [Resolution(first, NeedUser, None), Resolution(second, NeedUser, None)];
    hide Sound, Initial, Play, Next, Stored, Accounted;
    moves := Extend(w, moves, Proceed(0));
    FindsNoAccount(both, 0);
    var one := Play(w, moves);
    assert one.calls == [Resolution(first, Creating, None), Resolution(second, NeedUser, None)];
    moves := Extend(w, moves, Proceed(1));
    FindsNoAccount(one, 1);
    assert Play(w, moves).calls == [Resolution(first, Creating, None), Resolution(second, Creating, None)];
  }

  /** A call overtaken by a sign-up with its email. */
  lemma OvertakenFails(w: World, claim: Claim) returns (moves: seq<Move>)
    requires Initial(w) && Verified(claim) && !Stored(w.identities, claim) && !Accounted(w.users, EmailOf(claim))
    ensures Play(w, moves).calls == [Resolution(claim, Refused(ServerError), None)]
  {
    assert Play(w, []) == w;
    moves := Enters(w, [], claim);
    var looked := Play(w, moves);
    hide Sound, Initial, Play, Stored, Accounted, Advance;
    moves := Extend(w, moves, Proceed(0));
    FindsNoAccount(looked, 0);
    var creating := Play(w, moves);
    assert creating.calls == [Resolution(claim, Creating, None)];
    moves := Extend(w, moves, SignUp(EmailOf(claim)));
    var overtaken := Play(w, moves);
    TakenAfterSignUp(creating, EmailOf(claim));
    moves := Extend(w, moves, Proceed(0));
    Flushes(overtaken, 0);
    assert Play(w, moves).calls == [Resolution(claim, Refused(ServerError), None)];
  }

  lemma TakenAfterSignUp(v: World, email: string)
    requires Sound(v) && !Held(v.calls, email)
    ensures var after := Next(v, SignUp(email)); Taken(after.users, email) && after.calls == v.calls
    ensures !Taken(v.users, email) ==> Accounted(Next(v, SignUp(email)).users, email)
  {
    var after := Next(v, SignUp(email));
    if !Taken(v.users, email) {
      assert Active(after.users, v.nextUser) && after.users[v.nextUser].email == email;
    }
  }

  // ---------------------------------------------------------------- when no schedule fails at the flush

  /** Every call for the claim, under every schedule, ends well or with an error that is handled. */
  ghost predicate NeverServerError(w: World, claim: Claim)
    requires Sound(w)
  {
    forall moves, i :: 0 <= i < |Play(w, moves).calls| && Play(w, moves).calls[i].claim == claim
      ==> Play(w, moves).calls[i].stage != Refused(ServerError)
  }

  /** A call for the claim has no account to create. */
  ghost predicate CreatesNothing(w: World, claim: Claim) {
    Stored(w.identities, claim) || !Verified(claim) || Accounted(w.users, EmailOf(claim))
  }

  ghost predicate AvoidsFlush(v: World, c: Resolution) {
    match c.stage
    case NeedUser => Accounted(v.users, EmailOf(c.claim))
    case Creating => false
    case Created(_) => false
    case LostCreate => false
    case LostAgain => false
    case Refused(error) => error != ServerError
    case _ => true
  }

  ghost predicate AllAvoidFlush(v: World, claim: Claim) {
    CreatesNothing(v, claim) && forall i ::
          0 <= i < |v.calls| && v.calls[i].claim == claim
          ==> AvoidsFlush(v, v.calls[i])
  }

  lemma AvoidsFlushStays(a: World, b: World, claim: Claim)
    requires Grows(a, b)
    ensures Accounted(a.users, EmailOf(claim)) ==> Accounted(b.users, EmailOf(claim))
    ensures CreatesNothing(a, claim) ==> CreatesNothing(b, claim)
    ensures forall c: Resolution :: c.claim == claim && AvoidsFlush(a, c) ==> AvoidsFlush(b, c)
  {
    if u :| Active(a.users, u) && a.users[u].email == EmailOf(claim) {
      assert Active(b.users, u) && b.users[u].email == EmailOf(claim);
    }
    if k :| 0 <= k < |a.identities| && Matches(a.identities[k], claim) {
      assert Matches(b.identities[k], claim);
    }
  }

  lemma OwnCallOnly(v: World, i: nat)
    requires OwnersExist(v) && i < |v.calls|
    ensures |Advance(v, i).calls| == |v.calls| && Advance(v, i).calls[i].claim == v.calls[i].claim
    ensures Advance(v, i).calls == v.calls[i := Advance(v, i).calls[i]]
  {
    hide Conflicts, Held, Taken, FindIdentity, UserWithEmail;
  }

  /** A move changes at most the call that makes it. */
  lemma OthersUntouched(v: World, move: Move)
    requires Sound(v)
    ensures var b := Next(v, move);
            && |b.calls| == |v.calls| + (if move.Arrive? then 1 else 0)
            && (move.Arrive? ==> b.calls[|v.calls|] == Resolution(move.claim, Start, None))
            && forall j :: 0 <= j < |v.calls| ==>
                 b.calls[j].claim == v.calls[j].claim && (move != Proceed(j) ==> b.calls[j] == v.calls[j])
  {
    if move.Proceed? && move.i < |v.calls| {
      OwnCallOnly(v, move.i);
      hide Advance, Sound;
    }
  }

  lemma OwnStepAvoidsFlush(v: World, i: nat)
    requires Sound(v) && i < |v.calls| && CreatesNothing(v, v.calls[i].claim) && AvoidsFlush(v, v.calls[i])
    requires i < |Next(v, Proceed(i)).calls|
    ensures AvoidsFlush(v, Next(v, Proceed(i)).calls[i])
  {
    hide Sound;
  }

  lemma StepAvoidsFlush(v: World, move: Move, claim: Claim)
    requires Sound(v) && AllAvoidFlush(v, claim)
    ensures AllAvoidFlush(Next(v, move), claim)
  {
    var b := Next(v, move);
    hide Sound, Next, Grows, CreatesNothing;
    NextSound(v, move);
    OthersUntouched(v, move);
    AvoidsFlushStays(v, b, claim);
    forall j | 0 <= j < |b.calls| && b.calls[j].claim == claim ensures AvoidsFlush(b, b.calls[j]) {
      if j < |v.calls| {
        assert AvoidsFlush(v, v.calls[j]);
        if move == Proceed(j) {
          OwnStepAvoidsFlush(v, j);
        }
      }
    }
  }

  lemma {:induction false} PlayAvoidsFlush(w: World, moves: seq<Move>, claim: Claim)
    requires Initial(w) && CreatesNothing(w, claim)
    ensures AllAvoidFlush(Play(w, moves), claim)
  {
    if moves == [] {
    } else {
      var last := |moves| - 1;
      PlayAvoidsFlush(w, moves[..last], claim);
      hide AllAvoidFlush, Sound, Next;
      StepAvoidsFlush(Play(w, moves[..last]), moves[last], claim);
    }
  }

  /** No schedule fails a call for the claim with a server error exactly when, beforehand, its identity is stored, its
      email is missing or unverified, or an active account has the email. */
  lemma FlushIsSafeExactly(w: World, claim: Claim)
    requires Initial(w)
    ensures NeverServerError(w, claim) <==> CreatesNothing(w, claim)
  {
    if CreatesNothing(w, claim) {
      forall moves, i | 0 <= i < |Play(w, moves).calls| && Play(w, moves).calls[i].claim == claim
        ensures Play(w, moves).calls[i].stage != Refused(ServerError)
      {
        PlayAvoidsFlush(w, moves, claim);
      }
    } else {
      var moves := OvertakenFails(w, claim);
      assert Play(w, moves).calls[0].stage == Refused(ServerError);
    }
  }

  // ---------------------------------------------------------------- when every schedule returns a user

  /** No schedule refuses a call for the claim. */
  ghost predicate NeverRefused(w: World, claim: Claim)
    requires Sound(w)
  {
    forall moves, i :: 0 <= i < |Play(w, moves).calls| && Play(w, moves).calls[i].claim == claim
      ==> !Play(w, moves).calls[i].stage.Refused?
  }

  ghost predicate StoredActive(w: World, claim: Claim) {
    exists k :: 0 <= k < |w.identities| && Matches(w.identities[k], claim) && Active(w.users, w.identities[k].user)
  }

  /** The claim can only link to an account that is there, and no other subject can take its union id. */
  ghost predicate OnlyLinks(w: World, claim: Claim) {
    Verified(claim) && claim.unionId.None? && Accounted(w.users, EmailOf(claim))
  }

  /** A stored identity of the claim has an active owner, and if none is stored the claim only links. */
  ghost predicate Secure(v: World, claim: Claim) {
    && (Stored(v.identities, claim) || OnlyLinks(v, claim))
    && forall k :: 0 <= k < |v.identities| && Matches(v.identities[k], claim) ==> Active(v.users, v.identities[k].user)
  }

  ghost predicate Succeeding(v: World, c: Resolution) {
    match c.stage
    case Start => true
    case Found(_, _) => true
    case NeedUser => OnlyLinks(v, c.claim)
    case Linking(u) => c.claim.unionId.None? && Active(v.users, u)
    case LostLink => Stored(v.identities, c.claim)
    case Returned(_) => true
    case _ => false
  }

  ghost predicate AllSucceeding(v: World, claim: Claim) {
    Secure(v, claim) && forall i :: 0 <= i < |v.calls| && v.calls[i].claim == claim ==> Succeeding(v, v.calls[i])
  }

  lemma SucceedingStays(a: World, b: World, claim: Claim)
    requires Grows(a, b)
    ensures forall c: Resolution :: c.claim == claim && Succeeding(a, c) ==> Succeeding(b, c)
    ensures Stored(a.identities, claim) || OnlyLinks(a, claim) ==> Stored(b.identities, claim) || OnlyLinks(b, claim)
  {
    AvoidsFlushStays(a, b, claim);
    if k :| 0 <= k < |a.identities| && Matches(a.identities[k], claim) {
      assert Matches(b.identities[k], claim);
    }
  }

  /** Whoever binds the claim's identity binds it to an active account. */
  lemma OwnersStayActive(v: World, move: Move, claim: Claim)
    requires Sound(v) && Secure(v, claim)
    ensures var b := Next(v, move);
            forall k :: 0 <= k < |b.identities| && Matches(b.identities[k], claim)
              ==> b.identities[k].user in b.users && Active(b.users, b.identities[k].user)
  {
    NextSound(v, move);
    var b := Next(v, move);
    if move.Proceed? && move.i < |v.calls| {
      assert CallSound(v.users, v.identities, v.nextUser, v.calls[move.i]);
    }
    forall k | 0 <= k < |v.identities| && Matches(b.identities[k], claim)
        ensures Active(b.users, b.identities[k].user) {
      assert SameKey(v.identities[k], b.identities[k]);
    }
  }

  lemma OwnStepSucceeding(v: World, i: nat)
    requires Sound(v) && i < |v.calls| && Secure(v, v.calls[i].claim) && Succeeding(v, v.calls[i])
    requires i < |Next(v, Proceed(i)).calls|
    ensures Succeeding(v, Next(v, Proceed(i)).calls[i])
  {
  }

  lemma StepSucceeding(v: World, move: Move, claim: Claim)
    requires Sound(v) && AllSucceeding(v, claim)
    ensures AllSucceeding(Next(v, move), claim)
  {
    var b := Next(v, move);
    NextSound(v, move);
    OwnersStayActive(v, move, claim);
    hide Sound, Next, Grows, OnlyLinks;
    OthersUntouched(v, move);
    SucceedingStays(v, b, claim);
    forall j | 0 <= j < |b.calls| && b.calls[j].claim == claim ensures Succeeding(b, b.calls[j]) {
      if j < |v.calls| {
        assert Succeeding(v, v.calls[j]);
        if move == Proceed(j) {
          OwnStepSucceeding(v, j);
        }
      }
    }
  }

  lemma {:induction false} PlaySucceeding(w: World, moves: seq<Move>, claim: Claim)
    requires Initial(w) && Secure(w, claim)
    ensures AllSucceeding(Play(w, moves), claim)
  {
    if moves == [] {
    } else {
      var last := |moves| - 1;
      PlaySucceeding(w, moves[..last], claim);
      hide AllSucceeding, Sound, Next;
      StepSucceeding(Play(w, moves[..last]), moves[last], claim);
    }
  }

  // ---------------------------------------------------------------- the other schedules that refuse

  /** A string longer than every stored subject. */
  function Unused(identities: seq<Identity>, start: string): (s: string)
    ensures |s| > |start| && forall k :: 0 <= k < |identities| ==> |s| > |identities[k].subject|
  {
    if identities == [] then start + "*" else identities[0].subject + Unused(identities[1..], start)
  }

  /** Refused at the first lookup. */
  lemma LookupRefuses(w: World, claim: Claim) returns (moves: seq<Move>)
    requires Initial(w)
    requires if Stored(w.identities, claim) then !StoredActive(w, claim) else !Verified(claim)
    ensures |Play(w, moves).calls| == 1 && Play(w, moves).calls[0].claim == claim
            && Play(w, moves).calls[0].stage.Refused?
  {
    assert Play(w, []) == w;
    moves := Extend(w, [], Arrive(claim));
    Arrives(w, claim);
    var arrived := Play(w, moves);
    moves := Extend(w, moves, Proceed(0));
    if k :| 0 <= k < |w.identities| && Matches(w.identities[k], claim) {
      FindsIdentity(arrived, 0, k);
    } else {
      FindsNoIdentity(arrived, 0);
    }
  }

  /** Once another subject holds the union id, a call that linked loses its commit and finds nothing to return. */
  lemma UnionIdRefuses(w: World, moves: seq<Move>, claim: Claim, u: nat) returns (longer: seq<Move>)
    requires Sound(w) && Verified(claim)
    requires var v := Play(w, moves);
             && !Stored(v.identities, claim) && Conflicts(v.identities, claim)
             && Active(v.users, u) && v.users[u].email == EmailOf(claim)
    ensures var calls := Play(w, longer).calls;
            calls == Play(w, moves).calls + [Resolution(claim, Refused(IdentityConflict), None)]
  {
    var v := Play(w, moves);
    longer := EntersWithAccount(w, moves, claim, u);
    hide Sound, Play, Next, Stored, Conflicts;
    var linking, n := Play(w, longer), |v.calls|;
    longer := Extend(w, longer, Proceed(n));
    Links(linking, n, u);
    var lost := Play(w, longer);
    assert lost.calls == v.calls + [Resolution(claim, LostLink, None)];
    longer := Extend(w, longer, Proceed(n));
    ReadsAgain(lost, n);
    assert Play(w, longer).calls == v.calls + [Resolution(claim, Refused(IdentityConflict), None)];
  }

  /** One call alone links a new identity to the account of its email. */
  lemma LinksAlone(w: World, claim: Claim, u: nat) returns (moves: seq<Move>)
    requires Initial(w) && Verified(claim) && !Conflicts(w.identities, claim)
    requires Active(w.users, u) && w.users[u].email == EmailOf(claim)
    ensures Play(w, moves) == w.(identities := w.identities + [IdentityFor(claim, u)], calls :=
            [Resolution(claim, Returned(u), None)])
  {
    assert Play(w, []) == w && !Stored(w.identities, claim);
    moves := EntersWithAccount(w, [], claim, u);
    hide Sound, Initial, Play, Next, Stored, Conflicts;
    var linking := Play(w, moves);
    moves := Extend(w, moves, Proceed(0));
    Links(linking, 0, u);
    assert Play(w, moves).calls == [Resolution(claim, Returned(u), None)];
  }

  /** Another subject takes the union id first. */
  lemma UnionIdTaken(w: World, claim: Claim, u: nat) returns (moves: seq<Move>, i: nat)
    requires Initial(w) && Verified(claim) && claim.unionId.Some? && !Stored(w.identities, claim)
    requires Active(w.users, u) && w.users[u].email == EmailOf(claim)
    ensures i < |Play(w, moves).calls| && Play(w, moves).calls[i] == Resolution(claim, Refused(IdentityConflict), None)
  {
    assert Play(w, []) == w;
    moves, i := [], 0;
    if !Conflicts(w.identities, claim) {
      var other := claim.(subject := Unused(w.identities, claim.subject));
      forall k | 0 <= k < |w.identities| ensures !Clashes(w.identities[k], other) {
        assert !Clashes(w.identities[k], claim);
      }
      moves := LinksAlone(w, other, u);
      i := 1;
      assert Clashes(Play(w, moves).identities[|w.identities|], claim);
    }
    moves := UnionIdRefuses(w, moves, claim, u);
  }

  /** Every schedule returns a user to every call for the claim, or lets it go on, exactly when beforehand its identity
      is stored for an active user; or it is not stored, is verified, carries no union id, and an active account has
      the email. Outside these cases some schedule refuses it. */
  lemma RecoversExactly(w: World, claim: Claim)
    requires Initial(w)
    ensures NeverRefused(w, claim) <==>
            StoredActive(w, claim) || (!Stored(w.identities, claim) && OnlyLinks(w, claim))
  {
    if StoredActive(w, claim) || (!Stored(w.identities, claim) && OnlyLinks(w, claim)) {
      assert Secure(w, claim);
      forall moves, i | 0 <= i < |Play(w, moves).calls| && Play(w, moves).calls[i].claim == claim
        ensures !Play(w, moves).calls[i].stage.Refused?
      {
        PlaySucceeding(w, moves, claim);
        assert Succeeding(Play(w, moves), Play(w, moves).calls[i]);
      }
    } else {
      var moves, i := Refusal(w, claim);
      assert Play(w, moves).calls[i].stage.Refused?;
    }
  }

  lemma Refusal(w: World, claim: Claim) returns (moves: seq<Move>, i: nat)
    requires Initial(w) && !StoredActive(w, claim) && (Stored(w.identities, claim) || !OnlyLinks(w, claim))
    ensures i < |Play(w, moves).calls| && Play(w, moves).calls[i].claim == claim
            && Play(w, moves).calls[i].stage.Refused?
  {
    hide Sound, Initial, Play, Stored, StoredActive;
    i := 0;
    if Stored(w.identities, claim) || !Verified(claim) {
      moves := LookupRefuses(w, claim);
    } else if u :| Active(w.users, u) && w.users[u].email == EmailOf(claim) {
      moves, i := UnionIdTaken(w, claim, u);
    } else {
      moves := OvertakenFails(w, claim);
    }
  }
}
