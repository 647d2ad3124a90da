/** Resolving a provider identity to a user, by any number of calls whose database steps interleave freely.
    Every step reads or commits atomically; a flushed but uncommitted user row is visible to nobody else, but its
    unique email makes another insert of the same email wait. */
module ExternalIdentity {
  import opened Tables
  import opened Text

  datatype Claim = Claim(
    provider: string,
    subject: string,
    unionId: Option<string>,
    email: Option<string>,
    emailVerified: bool,
    displayName: Option<string>,
    avatarUrl: Option<string>
  )

  datatype Account = Account(email: string, deleted: bool)

  datatype Identity = Identity(
    provider: string,
    subject: string,
    unionId: Option<string>,
    user: nat,
    email: Option<string>,
    emailVerified: bool,
    displayName: Option<string>,
    avatarUrl: Option<string>
  )

  datatype ResolveError = IdentityInvalid | VerifiedEmailRequired | IdentityConflict | ServerError

  /** Where a call stands between two of its database operations. */
  datatype Stage =
    | Start                            // about to look the identity up
    | Found(row: nat, user: nat)       // about to commit the refreshed profile of `row`
    | NeedUser                         // about to look the user up by email
    | Linking(user: nat)               // about to commit an identity for an existing user
    | Creating                         // about to flush a new user
    | Created(user: nat)               // about to commit the flushed user together with its identity
    | LostLink                         // rolled back in `Linking`, about to look the identity up again
    | LostCreate                       // rolled back in `Created`, about to look the identity up again
    | LostAgain                        // no usable identity after `LostCreate`, about to look the user up again
    | Returned(user: nat)
    | Refused(error: ResolveError)

  /** `draft` remembers the id of the user row the call flushed, if it got that far. */
  datatype Resolution = Resolution(claim: Claim, stage: Stage, draft: Option<nat>)

  datatype World = World(users: map<nat, Account>, identities: seq<Identity>, calls: seq<Resolution>, nextUser: nat)

  // ---------------------------------------------------------------- reads and constraints

  predicate Matches(row: Identity, claim: Claim) {
    row.provider == claim.provider && row.subject == claim.subject
  }

  /** The two unique constraints of the identity table. */
  predicate Clashes(row: Identity, claim: Claim) {
    row.provider == claim.provider && (row.subject == claim.subject
        || (row.unionId.Some? && row.unionId == claim.unionId))
  }

  function FindIdentity(identities: seq<Identity>, claim: Claim): (k: Option<nat>)
    ensures k.Some? ==> k.value < |identities| && Matches(identities[k.value], claim)
    ensures k.None? ==> forall i :: 0 <= i < |identities| ==> !Matches(identities[i], claim)
  {
    FindRow(identities, (row: Identity) => Matches(row, claim))
  }

  predicate Conflicts(identities: seq<Identity>, claim: Claim) {
    exists i :: 0 <= i < |identities| && Clashes(identities[i], claim)
  }

  predicate Active(users: map<nat, Account>, u: nat) {
    u in users && !users[u].deleted
  }

  predicate Taken(users: map<nat, Account>, email: string) {
    exists u :: u in users && users[u].email == email
  }

  function EmailOf(claim: Claim): string {
    if claim.email.Some? then Lower(Strip(claim.email.value)) else ""
  }

  function IdentityFor(claim: Claim, user: nat): Identity {
    Identity(claim.provider, claim.subject, claim.unionId, user, Some(EmailOf(claim)), true, claim.displayName,
             claim.avatarUrl)
  }

  function Refresh(row: Identity, claim: Claim): Identity {
    row.(email := if claim.email.Some? && claim.email.value != "" then Some(Lower(claim.email.value)) else None,
         emailVerified := claim.emailVerified, displayName := claim.displayName, avatarUrl := claim.avatarUrl)
  }

  /** Some other call holds an uncommitted user row with this email. */
  predicate Held(calls: seq<Resolution>, email: string) {
    exists j :: 0 <= j < |calls| && calls[j].stage.Created? && EmailOf(calls[j].claim) == email
  }

  // ---------------------------------------------------------------- steps

  function At(w: World, i: nat, stage: Stage): World
    requires i < |w.calls|
  {
    w.(calls := w.calls[i := w.calls[i].(stage := stage)])
  }

  /** The account found for an email; emails are unique, so the choice is determined. */
  ghost function UserWithEmail(users: map<nat, Account>, email: string): (u: Option<nat>)
    ensures u.Some? ==> Active(users, u.value) && users[u.value].email == email
    ensures u.None? ==> forall v :: v in users && users[v].email == email ==> users[v].deleted
  {
    if exists u :: Active(users, u) && users[u].email == email then
      var u :| Active(users, u) && users[u].email == email;
      Some(u)
    else None
  }

  /** The identity lookup after a rollback: a usable owner is returned. */
  function Raced(w: World, i: nat, otherwise: Stage): World
    requires i < |w.calls|
    requires forall k :: 0 <= k < |w.identities| ==> w.identities[k].user in w.users
  {
    var f := FindIdentity(w.identities, w.calls[i].claim);
    if f.Some? && Active(w.users, w.identities[f.value].user) then At(w, i, Returned(w.identities[f.value].user))
    else At(w, i, otherwise)
  }

  ghost predicate OwnersExist(w: World) {
    forall k :: 0 <= k < |w.identities| ==> w.identities[k].user in w.users
  }

  /** Call `i` does its next database operation. */
  ghost function Advance(w: World, i: nat): World
    requires OwnersExist(w)
  {
    if i >= |w.calls| then w
    else
      var c := w.calls[i];
      match c.stage
      case Start => AdvanceStart(w, i)
      case Found(row, user) =>
        if row < |w.identities|
        then At(w, i, Returned(user)).(identities := w.identities[row := Refresh(w.identities[row], c.claim)])
        else w
      case NeedUser =>
        var u := UserWithEmail(w.users, EmailOf(c.claim));
        At(w, i, if u.Some? then Linking(u.value) else Creating)
      case Linking(user) =>
        if Conflicts(w.identities, c.claim) then At(w, i, LostLink)
        else At(w, i, Returned(user)).(identities := w.identities + [IdentityFor(c.claim, user)])
      case Creating => AdvanceCreating(w, i)
      case Created(user) =>
        if Conflicts(w.identities, c.claim) then At(w, i, LostCreate)
        else At(w, i, Returned(user)).(users := w.users[user := Account(EmailOf(c.claim), false)],
                                       identities := w.identities + [IdentityFor(c.claim, user)])
      case LostLink => Raced(w, i, Refused(IdentityConflict))
      case LostCreate => Raced(w, i, LostAgain)
      case LostAgain =>
        var u := UserWithEmail(w.users, EmailOf(c.claim));
        At(w, i, if u.Some? then Linking(u.value) else Refused(IdentityConflict))
      case Returned(_) => w
      case Refused(_) => w
  }

  function AdvanceStart(w: World, i: nat): World
    requires i < |w.calls|
    requires forall k :: 0 <= k < |w.identities| ==> w.identities[k].user in w.users
  {
    var claim := w.calls[i].claim;
    match FindIdentity(w.identities, claim)
    case Some(k) =>
      var owner := w.identities[k].user;
      At(w, i, if w.users[owner].deleted then Refused(IdentityInvalid) else Found(k, owner))
    case None =>
      At(w, i, if claim.email.None? || claim.email.value == "" || !claim.emailVerified
          then Refused(VerifiedEmailRequired) else NeedUser)
  }

  /** The flush of a new user: it waits for an uncommitted row with the same email, and an already committed one,
      deleted or not, fails the call without recovery. */
  function AdvanceCreating(w: World, i: nat): World
    requires i < |w.calls|
  {
    var c := w.calls[i];
    if Held(w.calls, EmailOf(c.claim)) then w
    else if Taken(w.users, EmailOf(c.claim)) then At(w, i, Refused(ServerError))
    else w.(calls := w.calls[i := c.(stage := Created(w.nextUser), draft := Some(w.nextUser))], nextUser :=
        w.nextUser + 1)
  }

  /** One move of the whole system: a call starts, a call takes its next step, or someone signs up elsewhere. */
  datatype Move = Arrive(claim: Claim) | Proceed(i: nat) | SignUp(email: string)

  ghost function Next(w: World, move: Move): World
    requires OwnersExist(w)
  {
    match move
    case Arrive(claim) => w.(calls := w.calls + [Resolution(claim, Start, None)])
    case Proceed(i) => Advance(w, i)
    case SignUp(email) =>
      if Held(w.calls, email) || Taken(w.users, email) then w
      else w.(users := w.users[w.nextUser := Account(email, false)], nextUser := w.nextUser + 1)
  }

  // ---------------------------------------------------------------- the invariant

  ghost predicate UniqueEmails(users: map<nat, Account>) {
    forall u, v :: u in users && v in users && users[u].email == users[v].email ==> u == v
  }

  ghost predicate UniqueIdentities(identities: seq<Identity>) {
    forall j, k :: 0 <= j < k < |identities| && identities[j].provider == identities[k].provider ==>
      && identities[j].subject != identities[k].subject
      && (identities[j].unionId.Some? ==> identities[j].unionId != identities[k].unionId)
  }

  ghost predicate Bound(identities: seq<Identity>, claim: Claim, user: nat) {
    exists k :: 0 <= k < |identities| && Matches(identities[k], claim) && identities[k].user == user
  }

  /** The claim's own identity belongs to a deleted user, or its union id to another subject. */
  ghost predicate Stuck(users: map<nat, Account>, identities: seq<Identity>, claim: Claim) {
    exists k :: 0 <= k < |identities| && Clashes(identities[k], claim)
                && (Matches(identities[k], claim) ==> identities[k].user in users && users[identities[k].user].deleted)
  }

  ghost predicate CallSound(users: map<nat, Account>, identities: seq<Identity>, nextUser: nat, c: Resolution) {
    && (c.draft.Some? ==> c.draft.value < nextUser && (c.draft.value in users <==> c.stage == Returned(c.draft.value)))
    && match c.stage
       case Start => c.draft.None?
       case Found(row, user) =>
         row < |identities| && Matches(identities[row], c.claim) && identities[row].user == user && Active(users, user)
       case NeedUser => c.draft.None?
       case Linking(user) => Active(users, user)
       case Creating => c.draft.None?
       case Created(user) => c.draft == Some(user) && !Taken(users, EmailOf(c.claim))
       case LostLink => Conflicts(identities, c.claim)
       case LostCreate => Conflicts(identities, c.claim)
       case LostAgain => Stuck(users, identities, c.claim)
       case Returned(user) => Active(users, user) && Bound(identities, c.claim, user)
       case Refused(error) =>
         && (error == IdentityConflict ==> Stuck(users, identities, c.claim))
         && (error == ServerError ==> Taken(users, EmailOf(c.claim)))
  }

  ghost predicate DraftsApart(calls: seq<Resolution>) {
    forall i, j :: 0 <= i < j < |calls| ==>
      && (calls[i].draft.Some? ==> calls[i].draft != calls[j].draft)
      && (calls[i].stage.Created? && calls[j].stage.Created? ==> EmailOf(calls[i].claim) != EmailOf(calls[j].claim))
  }

  /** The tables alone. */
  ghost predicate TablesSound(w: World) {
    && (forall u :: u in w.users ==> u < w.nextUser)
    && UniqueEmails(w.users) && UniqueIdentities(w.identities) && OwnersExist(w)
  }

  ghost predicate Sound(w: World) {
    && TablesSound(w)
    && DraftsApart(w.calls)
    && forall i :: 0 <= i < |w.calls| ==> CallSound(w.users, w.identities, w.nextUser, w.calls[i])
  }

  // ---------------------------------------------------------------- how tables may grow

  predicate SameKey(a: Identity, b: Identity) {
    a.provider == b.provider && a.subject == b.subject && a.unionId == b.unionId && a.user == b.user
  }

  /** Accounts and bindings stay; new ones may appear. */
  ghost predicate Grows(a: World, b: World) {
    && a.nextUser <= b.nextUser
    && (forall u :: u in a.users ==> u in b.users && b.users[u] == a.users[u])
    && |a.identities| <= |b.identities|
    && forall k :: 0 <= k < |a.identities| ==> SameKey(a.identities[k], b.identities[k])
  }

  /** A call is undisturbed by growth that adds neither its draft nor its held email. */
  lemma CallUndisturbed(a: World, b: World, c: Resolution)
    requires Grows(a, b) && CallSound(a.users, a.identities, a.nextUser, c)
    requires forall u :: u in b.users && u !in a.users ==> c.draft != Some(u)
    requires c.stage.Created? ==> forall u :: u in b.users && u !in a.users ==> b.users[u].email != EmailOf(c.claim)
    ensures CallSound(b.users, b.identities, b.nextUser, c)
  {
  }

  // ---------------------------------------------------------------- every move keeps the invariant

  /** A move that changes one call and not the tables. */
  lemma StageSound(w: World, i: nat, stage: Stage)
    requires Sound(w) && i < |w.calls| && !stage.Created?
    requires CallSound(w.users, w.identities, w.nextUser, w.calls[i].(stage := stage))
    ensures Sound(At(w, i, stage)) && Grows(w, At(w, i, stage))
  {
  }

  lemma StartSound(w: World, i: nat)
    requires Sound(w) && i < |w.calls| && w.calls[i].stage.Start?
    ensures Sound(AdvanceStart(w, i)) && Grows(w, AdvanceStart(w, i))
  {
    var claim := w.calls[i].claim;
    match FindIdentity(w.identities, claim)
    case Some(k) =>
      var owner := w.identities[k].user;
      StageSound(w, i, if w.users[owner].deleted then Refused(IdentityInvalid) else Found(k, owner));
    case None =>
      StageSound(w, i, if claim.email.None? || claim.email.value == "" || !claim.emailVerified
          then Refused(VerifiedEmailRequired) else NeedUser);
  }

  lemma LookupSound(w: World, i: nat)
    requires Sound(w) && i < |w.calls| && (w.calls[i].stage.NeedUser? || w.calls[i].stage.LostAgain?)
    ensures Sound(Advance(w, i)) && Grows(w, Advance(w, i))
  {
    var c := w.calls[i];
    var u := UserWithEmail(w.users, EmailOf(c.claim));
    StageSound(w, i, if u.Some? then Linking(u.value) else if c.stage.NeedUser? then Creating
        else Refused(IdentityConflict));
  }

  lemma RacedSound(w: World, i: nat)
    requires Sound(w) && i < |w.calls| && (w.calls[i].stage.LostLink? || w.calls[i].stage.LostCreate?)
    ensures Sound(Advance(w, i)) && Grows(w, Advance(w, i))
  {
    var c := w.calls[i];
    var f := FindIdentity(w.identities, c.claim);
    if f.Some? && Active(w.users, w.identities[f.value].user) {
      StageSound(w, i, Returned(w.identities[f.value].user));
    } else {
      NotRecovered(w, c.claim);
      StageSound(w, i, if c.stage.LostLink? then Refused(IdentityConflict) else LostAgain);
    }
  }

  lemma NotRecovered(w: World, claim: Claim)
    requires TablesSound(w) && Conflicts(w.identities, claim)
    requires var f := FindIdentity(w.identities, claim); f.None? || !Active(w.users, w.identities[f.value].user)
    ensures Stuck(w.users, w.identities, claim)
  {
  }

  lemma CreatingSound(w: World, i: nat)
    requires Sound(w) && i < |w.calls| && w.calls[i].stage.Creating?
    ensures Sound(AdvanceCreating(w, i)) && Grows(w, AdvanceCreating(w, i))
  {
    var c := w.calls[i];
    if Held(w.calls, EmailOf(c.claim)) {
    } else if Taken(w.users, EmailOf(c.claim)) {
      StageSound(w, i, Refused(ServerError));
    } else {
      FlushSound(w, i);
    }
  }

  lemma FlushSound(w: World, i: nat)
    requires Sound(w) && i < |w.calls| && w.calls[i].stage.Creating?
    requires !Held(w.calls, EmailOf(w.calls[i].claim)) && !Taken(w.users, EmailOf(w.calls[i].claim))
    ensures Sound(AdvanceCreating(w, i)) && Grows(w, AdvanceCreating(w, i))
  {
  }

  /** The identity tables after a commit that met no conflict. */
  lemma AppendSound(identities: seq<Identity>, claim: Claim, user: nat)
    requires UniqueIdentities(identities) && !Conflicts(identities, claim)
    ensures UniqueIdentities(identities + [IdentityFor(claim, user)])
    ensures Bound(identities + [IdentityFor(claim, user)], claim, user)
  {
    var rows := identities + [IdentityFor(claim, user)];
    assert Matches(rows[|identities|], claim) && rows[|identities|].user == user;
    forall k | 0 <= k < |identities| ensures !Clashes(rows[k], claim) {
    }
  }

  lemma CommitSound(w: World, i: nat, user: nat)
    requires Sound(w) && i < |w.calls| && !Conflicts(w.identities, w.calls[i].claim)
    requires w.calls[i].stage == Linking(user) || w.calls[i].stage == Created(user)
    ensures Sound(Advance(w, i)) && Grows(w, Advance(w, i))
  {
    var b, c := Advance(w, i), w.calls[i];
    AppendSound(w.identities, c.claim, user);
    assert CallSound(w.users, w.identities, w.nextUser, c);
    forall u | u in w.users ensures u in b.users && b.users[u] == w.users[u]
        && (c.stage.Created? ==> w.users[u].email != EmailOf(c.claim)) {
    }
    forall j | 0 <= j < |b.calls| ensures CallSound(b.users, b.identities, b.nextUser, b.calls[j]) {
      assert CallSound(w.users, w.identities, w.nextUser, w.calls[j]);
      if j != i { CallUndisturbed(w, b, w.calls[j]); }
    }
  }

  lemma ProfileSound(w: World, i: nat)
    requires Sound(w) && i < |w.calls| && w.calls[i].stage.Found?
    ensures Sound(Advance(w, i)) && Grows(w, Advance(w, i))
  {
    var b, c := Advance(w, i), w.calls[i];
    assert CallSound(w.users, w.identities, w.nextUser, c);
    assert Matches(b.identities[c.stage.row], c.claim);
    forall j | 0 <= j < |b.calls| ensures CallSound(b.users, b.identities, b.nextUser, b.calls[j]) {
      assert CallSound(w.users, w.identities, w.nextUser, w.calls[j]);
      if j != i { CallUndisturbed(w, b, w.calls[j]); }
    }
  }

  lemma AdvanceSound(w: World, i: nat)
    requires Sound(w)
    ensures Sound(Advance(w, i)) && Grows(w, Advance(w, i))
  {
    if i < |w.calls| {
      match w.calls[i].stage
      case Start => StartSound(w, i);
      case Found(_, _) => ProfileSound(w, i);
      case NeedUser => LookupSound(w, i);
      case LostAgain => LookupSound(w, i);
      case LostLink => RacedSound(w, i);
      case LostCreate => RacedSound(w, i);
      case Creating => CreatingSound(w, i);
      case Linking(user) =>
        if Conflicts(w.identities, w.calls[i].claim) { StageSound(w, i, LostLink); } else { CommitSound(w, i, user); }
      case Created(user) =>
        if Conflicts(w.identities, w.calls[i].claim) { StageSound(w, i, LostCreate); } else { CommitSound(w, i, user); }
      case _ =>
    }
  }

  lemma NextSound(w: World, move: Move)
    requires Sound(w)
    ensures Sound(Next(w, move)) && Grows(w, Next(w, move))
  {
    match move
    case Arrive(claim) =>
    case Proceed(i) => AdvanceSound(w, i);
    case SignUp(email) => SignUpSound(w, email);
  }

  lemma SignUpSound(w: World, email: string)
    requires Sound(w)
    ensures Sound(Next(w, SignUp(email))) && Grows(w, Next(w, SignUp(email)))
  {
    var b := Next(w, SignUp(email));
    forall j | 0 <= j < |b.calls| ensures CallSound(b.users, b.identities, b.nextUser, b.calls[j]) {
      assert CallSound(w.users, w.identities, w.nextUser, w.calls[j]);
      CallUndisturbed(w, b, w.calls[j]);
    }
  }

  // ---------------------------------------------------------------- all schedules

  /** The world after any sequence of moves, from any tables that obey their constraints and no calls under way. */
  ghost function Play(w: World, moves: seq<Move>): (r: World)
    requires Sound(w)
    ensures Sound(r) && Grows(w, r)
  {
    if moves == [] then w
    else
      var before := Play(w, moves[..|moves| - 1]);
      NextSound(before, moves[|moves| - 1]);
      GrowsTwice(w, before, Next(before, moves[|moves| - 1]));
      Next(before, moves[|moves| - 1])
  }

  lemma GrowsTwice(a: World, b: World, c: World)
    requires Grows(a, b) && Grows(b, c)
    ensures Grows(a, c)
  {
  }

  ghost predicate Initial(w: World) {
    TablesSound(w) && w.calls == []
  }

  lemma OneOwner(identities: seq<Identity>, first: Claim, second: Claim, user: nat, other: nat)
    requires UniqueIdentities(identities) && first.provider == second.provider && first.subject == second.subject
    requires Bound(identities, first, user) && Bound(identities, second, other)
    ensures user == other
  {
  }

  /** Under every schedule, all calls that return a user for the same provider and subject return the same one, and
      that user is active. */
  lemma SameIdentitySameUser(w: World, moves: seq<Move>, i: nat, j: nat)
    requires Initial(w)
    requires i < |Play(w, moves).calls| && j < |Play(w, moves).calls|
    ensures var r := Play(w, moves);
            var c, d := r.calls[i], r.calls[j];
            c.stage.Returned? && d.stage.Returned? && c.claim.provider == d.claim.provider
                && c.claim.subject == d.claim.subject
            ==> c.stage.user == d.stage.user && Active(r.users, c.stage.user)
  {
    var r := Play(w, moves);
    var c, d := r.calls[i], r.calls[j];
    if c.stage.Returned? && d.stage.Returned? && c.claim.provider == d.claim.provider
        && c.claim.subject == d.claim.subject {
      CallOf(r, i);
      CallOf(r, j);
      OneOwner(r.identities, c.claim, d.claim, c.stage.user, d.stage.user);
    }
  }

  lemma CallOf(r: World, i: nat)
    requires Sound(r) && i < |r.calls| && r.calls[i].stage.Returned?
    ensures UniqueIdentities(r.identities) && Active(r.users, r.calls[i].stage.user)
    ensures Bound(r.identities, r.calls[i].claim, r.calls[i].stage.user)
  {
  }

  /** Bindings never change owner and accounts never change, from any point of a schedule to any later one. */
  lemma {:induction false} BindingsStay(w: World, moves: seq<Move>, n: nat)
    requires Initial(w) && n <= |moves|
    ensures Grows(Play(w, moves[..n]), Play(w, moves))
  {
    if n == |moves| {
      assert moves[..n] == moves;
    } else {
      var last := |moves| - 1;
      BindingsStay(w, moves[..last], n);
      assert moves[..last][..n] == moves[..n];
      var before := Play(w, moves[..last]);
      NextSound(before, moves[last]);
      GrowsTwice(Play(w, moves[..n]), before, Play(w, moves));
    }
  }

  /** The unique constraints hold throughout: emails, provider and subject, provider and union id. */
  lemma ConstraintsHold(w: World, moves: seq<Move>)
    requires Initial(w)
    ensures var r := Play(w, moves); UniqueEmails(r.users) && UniqueIdentities(r.identities) && OwnersExist(r)
  {
  }

  /** A user row a call flushed is in the table exactly when that call returned it: a rolled-back call leaves none,
      even if it goes on to return somebody else. */
  lemma NoRowLeftBehind(w: World, moves: seq<Move>, i: nat)
    requires Initial(w) && i < |Play(w, moves).calls| && Play(w, moves).calls[i].draft.Some?
    ensures var r := Play(w, moves);
            r.calls[i].draft.value in r.users <==> r.calls[i].stage == Returned(r.calls[i].draft.value)
  {
  }

  /** A call rolled back at its commit reports a conflict only for a reason: the identity belongs to a deleted user,
      or the union id to another subject. */
  lemma ConflictHasReason(w: World, moves: seq<Move>, i: nat)
    requires Initial(w) && i < |Play(w, moves).calls| && Play(w, moves).calls[i].stage == Refused(IdentityConflict)
    ensures var r := Play(w, moves);
            exists k :: 0 <= k < |r.identities| && r.identities[k].provider == r.calls[i].claim.provider
                        && if r.identities[k].subject == r.calls[i].claim.subject
                           then r.users[r.identities[k].user].deleted
                           else r.identities[k].unionId.Some? && r.identities[k].unionId == r.calls[i].claim.unionId
  {
  }
}
