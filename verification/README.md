# mini-auth: a verified model of the service layer

mini-auth's services are database state machines that share a few tables: sessions, refresh tokens, consents, an
append-only audit log, device requests, email codes, users and their external identities. The code never states the
invariants that tie these tables together. This project models the services and proves those invariants, together with
safety and counting theorems over arbitrary sequences of calls.

Check everything with `dafny verify dfyconfig.toml`.

## How the project is built

- `Tables` holds the rows; a row's id is its position, so ids are fresh and rows are never removed. `Text`, `Ordered`
  and `Scopes` hold the string and list operations the services use; `TextLaws` and `Columns` say what these return in
  terms of the text alone.
- `Sessions`, `Grants`, `EmailCodes` and `Service` specify each service call as a function from a database and its
  arguments to the next database and the reply. `Service.Run` is any sequence of calls from empty tables, with any
  settings, users and clients.
- `AuthStore.Store` is the service layer as the source writes it: a mutable object with one field per table and one
  method per service call, loops included. Every method is proved to do exactly what the specification says, and
  `ServeAll` shows that using the object is a run.
- `RotationChain`, `AuditReplay` and `ConsentAgreement` define the invariants; `Reachable` proves that every call keeps
  them. `Changes` sums up what a call can do to sessions and tokens.
- `SessionTheorems`, `AuditTrail`, `ConsentTheorems`, `EmailLimits`, `EmailHistory` and `DeviceSafety` are the theorems
  about whole runs. `Outcomes`, `SignIns` and `Openings` state exactly when calls succeed and what they then change,
  `Refusals` which error they report otherwise, and `Titles` which sessions share a title.
- `DeviceView` and `OptimisticRefinement` treat the device list: two implementations of the de-duplication, and the
  browser's optimistic update against the server's next answer.
- `ExternalIdentity` models concurrent identity resolution as interleaved reads, flushes, commits and rollbacks under
  unique constraints, for any number of calls; `IdentityRaces` says exactly which races are recovered; `IdentityStore`
  is one call as the source writes it, proved to be a schedule of that machine.
- `Bootstrap` is the startup registration of the two first-party clients.

## Assumptions

- Each service call is one atomic transaction at one clock instant, and the clock never goes backwards. The Python
  reads the clock several times in a call (app/services/email_auth_service.py:54 reads it later than line 103).
  Only identity resolution is modelled with interleaving.
- Time is an integer, in seconds. Durations and limits are constants; the attempt maximum and the rate window are at
  least 1. Every other setting may be 0.
- A signed token is an authentic record of its claims; anything else a caller presents is refused. Hashes are
  injective, so a stored hash stands for what was hashed; the PKCE hash of the presented verifier is a parameter.
- Random codes are parameters. A repeated device or user code violates a unique column and is refused, as is a new
  user whose email a deleted account still holds; both appear as `IntegrityFailure` with everything rolled back.
- Whether a password matches, and whether the mail provider accepts a message, are parameters.
- Rows an `ORDER BY` ranks equal stay in table order.
- Lower-casing and upper-casing act on ASCII letters. A JSON list column is the list it decodes to.

## Findings

- The consent agreement fails for client ids with surrounding space: sessions keep the id as presented while consents
  and their revocation use the stripped one. `AgreementNeedsTrimmedIds` proves that this is exactly when it fails.
- A scope of nothing but spaces parses to no scopes, and their join parses to the defaults (`ScopeRoundTrip`).
- `_dedupe_devices_by_name` says it prefers the most recently active row; it prefers the first (`ShowsThePreferred`),
  which is the most recently active one because the query lists sessions that way (`ShowsTheLatest`).
- The attempt guard at app/services/email_auth_service.py:165 and the pending reply at
  app/services/oidc_service.py:507 are unreachable (`AttemptsNeverExceed`, `PollingReplies`).
- Race recovery covers the commits but not the flush at app/services/external_identity_service.py:77: a call whose email
  is taken between its lookup and its flush ends in a server error, even when the winner is another call for the same
  identity (`FlushRaceFails`). This can happen exactly when the call would create an account (`FlushIsSafeExactly`).
  A race lost at a commit is recovered unless the union id went to another subject or the owner is deleted;
  `RecoversExactly` is the whole condition.
- In the browser mock, revoking a row hidden behind the current one can move the current row; the page only revokes
  displayed rows, for which this never happens (`UpdateCommutesExactly`, `MockSteps`).

## Model

| member | source | states |
|---|---|---|
| `SessionTheorems.AuditLogRebuildsSessions` | app/services/auth_service.py:274-287 | in every reachable state, folding the audit log (sign-in adds, sign-out and session revocation remove the listed sessions, consent revocation removes the actor's sessions for the client) gives exactly the live sessions with their owner and client |
| `AuditReplay.ConsentEntry` | app/services/consent_service.py:102-138 | an application revocation logs only the client, yet on the replayed log it removes exactly the sessions the call closed |
| `AuditTrail.EntriesNameTheirSessions` | app/services/security_service.py:450-461 | in every reachable state each log entry was appended by an earlier call of the run and records it: a sign-in or sign-out names one session and its client; a session revocation names only sessions of the caller and carries the client of the session requested; a consent revocation names the stripped client id |
| `AuditTrail.LogOnlyGrows` | app/services/auth_service.py:274-286 | over any run the log is append-only |
| `AuditTrail.ClosureIsStamped` | app/services/auth_service.py:434-447 | whichever call ends a session stamps the session and its live tokens with the instant of the call, touches no other column of them, and adds exactly one log entry |
| `SessionTheorems.TokensFormOneChain` | app/services/auth_service.py:243-273 | in every reachable state the tokens of a session are one unbranched chain through `rotated_from_id`, all of the session's user; a live session has exactly one live token, the last, expiring with it; a revoked one has none |
| `SessionTheorems.DeviceListExact` | app/services/security_service.py:262-276 | at any time a non-deleted user's active-session listing is exactly the set of that user's sessions for which some issued refresh token would then be accepted |
| `SessionTheorems.SlidingExpiry` | app/services/auth_service.py:394-408 | if a session is unexpired at t, every open interval of the refresh lifetime between its creation and t contains a token issue for it |
| `SessionTheorems.AcceptedOnce` | app/services/auth_service.py:382-408 | over any run a refresh token is accepted at most once |
| `SessionTheorems.RevocationIsPermanent` | app/services/auth_service.py:434-447 | once revoked by any of the three routes a session never changes again, gains no token, and no call ever refreshes it |
| `SessionTheorems.TokenCount` | app/services/auth_service.py:363-408 | over any run a session has one token more than it had successful refreshes |
| `SessionTheorems.RunEvolves` | app/services/auth_service.py:262-273 | across any stretch of a run rows stay, revoked rows stay as they are, and new tokens go only to sessions that were live |
| `RotationChain.UsableIsLast` | app/services/auth_service.py:186-205 | a token the refresh lookup accepts is the last of its session's chain |
| `RotationChain.RotateChains` | app/services/auth_service.py:394-408 | a refresh extends one chain by one token and leaves every other chain alone |
| `Reachable.StepSound` | app/services/auth_service.py:231-294 | every call, on any input, accepted or refused, keeps chains, replayability and consent agreement together |
| `Reachable.RunSound` | app/services/auth_service.py:363-461 | that invariant holds in every state of every run |
| `Outcomes.RefreshSucceedsExactly` | app/services/auth_service.py:369-392 | a refresh succeeds for a session if and only if the presented token was issued for it, is live and unexpired like the session, and the user is not deleted |
| `Outcomes.LogoutClosesExactly` | app/services/auth_service.py:417-447 | signing out closes exactly the sessions the presented token is good for, otherwise nothing |
| `Outcomes.RevokeSessionClosesExactly` | app/services/security_service.py:409-448 | a revocation succeeds exactly when the named session is the caller's, live, not the current one and some session is closed; it closes exactly the active sessions with the same title, the current one excepted |
| `Outcomes.RevokeApplicationClosesExactly` | app/services/consent_service.py:90-127 | succeeds exactly when a consent is live; stamps that consent and no other, and closes exactly the live sessions bound to the stripped client id |
| `Outcomes.TitleLasts` | app/services/auth_service.py:398-406 | over any stretch of a run a session keeps its title unless an accepted refresh of it brings a label or a user agent |
| `Outcomes.DeviceTitleLasts` | app/services/oidc_service.py:526-531 | a session opened by a device code is listed under the label given in the earlier call that started its request, until a refresh brings another label or user agent |
| `Titles.LabelIsTitle` | app/services/security_service.py:102-104 | a label that is not blank is the title, stripped |
| `Titles.UnlabelledTitle` | app/services/security_service.py:105-107 | without a label the title is the browser, followed by the system when known |
| `Titles.UnlabelledShareExactly` | app/services/security_service.py:100-107 | two sessions without a label share a title if and only if they have the same browser and the same system |
| `Titles.RevocationSparesOtherAgents` | app/services/security_service.py:423-448 | revoking a session without a label leaves live every session without a label of another browser or system |
| `Titles.RevocationLogsInOrder` | app/services/security_service.py:434-456 | a revocation logs exactly the sessions it closes, in the order they are listed |
| `Titles.AgentByFirstToken` | app/services/request_context.py:57-98 | browser, system and kind go by the first known token that occurs anywhere in the user agent, whatever its case; a blank one is unknown |
| `SignIns.SignsInExactly` | app/services/auth_service.py:297-334 | over any run, registration succeeds exactly for an email stored for nobody, deleted accounts included, and a password sign-in exactly when the password matches an active account |
| `SignIns.SessionKeepsItsAddress` | app/services/email_auth_service.py:178-194 | a session opened by registration, password or email code stays, in every later state, a session of the one account with that address |
| `SignIns.OneAccountPerAddress` | app/services/auth_service.py:144-148 | over any run, sign-ins whose addresses differ at most in letter case reach the same account, by whichever of these routes |
| `Openings.SessionOpenedAsAsked` | app/services/auth_service.py:164-183 | every route that opens a session stores the metadata of its call, binds the session to the client of the call, stamps it and logs it under the route's own action; a code exchange opens it for the user of the code |
| `Openings.RefreshUpdates` | app/services/auth_service.py:394-408 | an accepted refresh takes each metadata column it brings and keeps the others, renews the session and changes nothing else of it |
| `SignIns.EmailsStayUnique` | app/models/user.py:15 | emails stay unique over every run and no account changes |
| `ConsentTheorems.SessionsAreConsented` | app/services/oidc_service.py:239-253 | in every reachable state each live session whose client id equals its own strip has a live consent of its user |
| `ConsentTheorems.AgreementNeedsTrimmedIds` | app/services/consent_service.py:36-45 | for every client id that is not blank: the agreement holds in all runs if and only if the id has no surrounding space |
| `ConsentTheorems.OrphanRun` | app/services/consent_service.py:90-115 | for every padded client id a concrete run: device sign-in, application revoked, session still live |
| `ConsentTheorems.ConsentRowsStayUnique` | app/services/consent_service.py:36-64 | consent rows stay unique per user and client, with authorized_at <= last_used_at |
| `ConsentTheorems.GrantRecords` | app/services/consent_service.py:40-64 | a grant leaves one live consent for its user and client with the granted scopes, used now, authorized when it last became live; every other consent is unchanged |
| `ConsentAgreement.RevokeAgreement` | app/services/consent_service.py:90-127 | revoking a consent keeps the agreement: every live session that needed it is closed |
| `Scopes.ScopeRoundTrip` | app/services/oidc_service.py:52-55 | joining a parsed scope and parsing again gives the same list if and only if the list is not empty |
| `Scopes.ScopesParse` | app/services/oidc_service.py:52-55 | the list is empty exactly for a non-empty string of spaces only |
| `Text.WordsOfJoin` | app/services/oidc_service.py:114 | splitting a join of words gives the words back |
| `ConsentTheorems.AuthorizedScopes` | app/routers/oidc.py:79-104 | an authorization code carries exactly the scopes that were checked, every one of them listed in the client's stored column |
| `ConsentTheorems.ExchangedScopesWereAllowed` | app/services/oidc_service.py:236-244 | the consent a code exchange stores, in any later state of any run, parses to exactly the scopes asked for at authorize, every one listed in the client's stored column then |
| `Outcomes.AuthorizesExactly` | app/routers/oidc.py:79-104 | a code is granted if and only if the client is active, its redirect column lists the URI, its scope column lists every asked scope, openid among them, and a challenge came; the code carries the request for five minutes |
| `Outcomes.GrantedCodeExchanges` | app/services/oidc_service.py:91-117 | a code granted at one point of a run is exchanged at a later one exactly for its redirect URI and verifier, within its lifetime, while the user is active |
| `Columns.ScopesAsked` | app/services/oidc_service.py:52-55 | a scope string asks for exactly the words in it, an empty one for openid, profile and email |
| `Columns.ColumnReads` | app/services/oidc_service.py:180-187 | a redirect column reads as exactly what it lists: the stripped entries of a JSON list, or the stripped pieces between commas and newlines of any other text, blanks dropped |
| `Columns.VerbatimReads` | app/services/admin_service.py:21-28 | a scope column reads as exactly the non-blank entries of a JSON list as they stand, or the same pieces of any other text |
| `Columns.JsonReadsInOrder` | app/services/bootstrap_service.py:49-51 | both readers keep the order of a JSON list |
| `Columns.HeldEntriesRead` | app/services/bootstrap_service.py:47-54 | entries stored as a JSON list, or separated by commas or newlines, read back in order |
| `TextLaws.ListItemsSplit` | app/services/bootstrap_service.py:54 | a text column reads as what stands left and right of any comma or newline |
| `TextLaws.StripIsUnique` | app/services/consent_service.py:36 | `strip` is the one text left when spaces are dropped from both ends and neither end is a space any more |
| `TextLaws.WordsSplit` | app/services/oidc_service.py:55 | splitting looks at each side of a space on its own |
| `TextLaws.UpperIsCaseBlind` | app/services/oidc_service.py:429 | raising a user code identifies exactly the texts that differ in letter case |
| `Columns.JsonReadsOne` | app/services/bootstrap_service.py:51 | one entry of a JSON list reads as itself, stripped or verbatim, or as nothing when blank |
| `TextLaws.LowerIsCaseBlind` | app/services/auth_service.py:144-148 | lowering identifies exactly the texts that differ in letter case |
| `TextLaws.JoinAddsSpaces` | app/services/oidc_service.py:237 | the stored scope text has one space between neighbours and nothing else added |
| `DeviceSafety.RequestsEvolve` | app/services/oidc_service.py:422-456 | over any run a request keeps its codes, client, scope, metadata and lifetime, its status moves only forward, decisions and consumption are never rewritten |
| `DeviceSafety.RequestWasStarted` | app/services/oidc_service.py:342-364 | in every reachable state each request was stored by an earlier call that succeeded; it holds that call's codes, client, scope and metadata, and lives fifteen minutes from its instant |
| `Openings.DeviceSessionOpened` | app/services/oidc_service.py:526-545 | a session opened by a device code is bound to the client and takes each metadata column from the call that started the request, the poll filling in the others |
| `Openings.DeviceConsentRecorded` | app/services/oidc_service.py:523-537 | the consent a device code records lists the scopes asked for in the call that started the request |
| `DeviceSafety.ConsumedInTime` | app/services/oidc_service.py:491-522 | consumed implies approved_at <= consumed_at < expires_at; never both approved and denied |
| `DeviceSafety.DeviceCodeYieldsOnce` | app/services/oidc_service.py:508-521 | over any run a device code yields tokens at most once |
| `DeviceSafety.YieldNeedsApproval` | app/services/oidc_service.py:436-456 | if a device code yields tokens, its user code was approved by the same user in an earlier call before expiry, and no denial of it ever succeeds |
| `DeviceSafety.DenialExcludesYield` | app/services/oidc_service.py:447-455 | a successful denial and a yield never concern the same request, in either order |
| `DeviceSafety.ApprovalHappened` | app/services/oidc_service.py:436-446 | an approved request was approved by an earlier call of the recorded user at the recorded time |
| `Outcomes.PollingReplies` | app/services/oidc_service.py:491-516 | in reachable states the reply to a poll is determined by the request's history; the third pending branch is never taken |
| `Outcomes.DecisionTakesEffect` | app/services/oidc_service.py:422-455 | a decision takes effect exactly on an unexpired, undecided request, an approval only from a signed-in user |
| `EmailLimits.SendingLimit` | app/services/email_auth_service.py:48-78 | in any run every closed interval of the window length holds at most the per-email limit of codes per address and the per-IP limit per non-empty IP |
| `EmailLimits.SendingLimitOver` | app/services/email_auth_service.py:107-113 | k consecutive windows hold at most k times the limit |
| `EmailLimits.PendingCodes` | app/services/email_auth_service.py:115-132 | two unconsumed codes of an address were sent at least the resend interval apart, so the latest is unique, and neither has used up its attempts |
| `EmailLimits.AttemptsNeverExceed` | app/services/email_auth_service.py:165-172 | attempt counts never exceed the maximum and reaching it implies consumed, so the guard at line 165 never fires |
| `EmailLimits.GuessesAreRecorded` | app/services/email_auth_service.py:168-173 | every wrong-code comparison is accounted for by the attempt counters of codes sent at most a code lifetime before |
| `EmailLimits.GuessBound` | app/services/email_auth_service.py:155-179 | in any interval of window length W at most max_attempts * per-email limit * ceil((W + TTL) / W) wrong codes are compared for an address |
| `EmailLimits.FiftyGuessesAnHour` | app/config.py:26-31 | with the default settings that is 50 an hour |
| `EmailLimits.OneSuccessPerCode` | app/services/email_auth_service.py:178-194 | each code signs in at most once over any run |
| `EmailHistory.CodeWasSent` | app/services/email_auth_service.py:121-136 | in every reachable state each stored code was stored by an earlier call that succeeded, with that call's secret, normalized address and source, at its instant and for the code lifetime |
| `EmailHistory.SentCodeSignsIn` | app/services/email_auth_service.py:103-194 | the round trip: after a code is sent, with no other call for the address and within the lifetime, a text signs the address in if and only if its strip is the secret that was sent; a deleted account's address excepted |
| `EmailHistory.SameAddressExactly` | app/services/email_auth_service.py:30-31 | two texts are one address exactly when they agree up to outer spaces and letter case |
| `Outcomes.SendsExactly` | app/services/email_auth_service.py:107-136 | in reachable states a code is sent exactly when both counts over the window ending now are below their limits, every pending code is old enough, and the mail goes out; a sent code adds one to the counts of its address and its source and to no other |
| `Outcomes.VerifiesExactly` | app/services/email_auth_service.py:155-179 | in reachable states a code signs in exactly when it matches the latest pending, unexpired one and the address is not a deleted account's |
| `OptimisticRefinement.ListingMeetsQuery` | app/services/security_service.py:267-276 | the listing contains exactly the active sessions, each once, sorted by the query's order |
| `OptimisticRefinement.ListingBySight` | app/services/security_service.py:274-275 | later-seen sessions come first, never-seen last, ties by creation |
| `DeviceView.DedupeDevicesByName` | app/services/security_service.py:130-149 | the server's two loops compute the de-duplication, on every list |
| `DeviceView.DedupeDevicesInMock` | frontend/apps/web/src/security-center/mockDataSource.ts:168-186 | the browser's two loops compute the same function, on every list |
| `DeviceView.CollectBest` | app/services/security_service.py:142-149 | the second loop: one row per new name, from the map the first loop left |
| `DeviceView.DedupeMeetsItsSpec` | app/services/security_service.py:130-149 | names are distinct, are the input's, in order of first occurrence; a row is current exactly when its name has a current row |
| `DeviceView.ShowsThePreferred` | app/services/security_service.py:133-140 | a row is shown if and only if no other row of its name is preferred: a current one to a non-current one, else the first |
| `OptimisticRefinement.ShowsTheLatest` | app/services/security_service.py:130-149 | a displayed row that is not current was seen no earlier than any active session of its title |
| `OptimisticRefinement.SnapshotShows` | app/services/security_service.py:110-127 | a displayed row is of an active session of the user, and each of its columns is that session's |
| `OptimisticRefinement.SnapshotCovers` | app/services/security_service.py:285-301 | every active session's title is displayed, by the caller's own session when it has that title |
| `DeviceView.DedupeIdempotent` | app/services/security_service.py:130-149 | de-duplication is idempotent |
| `DeviceView.DedupeExcluding` | frontend/apps/web/src/security-center/SecurityCenterPage.tsx:265-274 | removing a name commutes with de-duplication, order included |
| `OptimisticRefinement.ListingAfterRevoke` | app/services/security_service.py:434-448 | revoking rows removes them from the listing and keeps the order of the others |
| `OptimisticRefinement.OptimisticUpdateMatchesServer` | frontend/apps/web/src/security-center/SecurityCenterPage.tsx:261-275 | revoking a displayed non-current device succeeds, and filtering the server's snapshot by "name differs or is current" equals, in content and order, the snapshot after the revocation, at every later instant |
| `OptimisticRefinement.StaleSnapshotMatches` | frontend/apps/web/src/security-center/SecurityCenterPage.tsx:265-275 | so does filtering the list the browser already has, when nothing in it expires in between |
| `DeviceView.MockSteps` | frontend/apps/web/src/security-center/mockDataSource.ts:250-262 | revoking a displayed row in the mock and updating the shown rows give the same list |
| `DeviceView.UpdateCommutesExactly` | frontend/apps/web/src/security-center/mockDataSource.ts:259-261 | for every list and name: dropping the non-current rows of the name before or after de-duplicating gives the same list if and only if no other name first occurs between the first row of the name and its first current row |
| `DeviceView.HiddenRowsMayMove` | frontend/apps/web/src/security-center/mockDataSource.ts:250-262 | so revoking a row hidden behind the current one can move the current row: a list for any two names |
| `DeviceView.MockDataSource.RevokeDevice` | frontend/apps/web/src/security-center/mockDataSource.ts:250-262 | refuses unknown and current devices unchanged, else drops the non-current rows of the name; the next snapshot is the optimistic update exactly under that condition, so always for a displayed row |
| `DeviceView.MockDataSource.GetSnapshot` | frontend/apps/web/src/security-center/mockDataSource.ts:227-239 | shows the de-duplicated rows |
| `Bootstrap.ClientTable.EnsureDemoOAuthClient` | app/services/bootstrap_service.py:57-118 | leaves the demo client as the merge describes and commits exactly when that changes the table |
| `Bootstrap.ClientTable.EnsureMinikbOAuthClient` | app/services/bootstrap_service.py:121-175 | the same for the minikb client, without a legacy entry |
| `Bootstrap.ClientTable.EnsureClient` | app/services/bootstrap_service.py:76-118 | the `changed` flag ends up true exactly when the stored row differs |
| `Bootstrap.ClientTable.UpdateClient` | app/services/bootstrap_service.py:97-115 | the field-by-field comparison sets the flag exactly when the row changes |
| `Bootstrap.RunMerges` | app/services/bootstrap_service.py:80-95 | for every stored value, JSON list or text: the stored entries without the legacy one, de-duplicated in order of first occurrence, then the missing defaults |
| `Bootstrap.RunRegisters` | app/services/bootstrap_service.py:76-115 | whatever was stored: afterwards the redirect column lists exactly the defaults and what it listed before, legacy excepted, the scope column the defaults and what it listed before; name, status and PKCE are set |
| `Bootstrap.HeldEntriesMerge` | app/services/bootstrap_service.py:76-115 | a column of given entries, JSON or separated by commas or newlines, becomes those entries without legacy, de-duplicated in order, then the missing defaults |
| `Bootstrap.MergeIdempotent` | app/services/bootstrap_service.py:80-95 | a merged list merges to itself |
| `Bootstrap.SecondRunWritesNothing` | app/services/bootstrap_service.py:109-118 | whatever was stored, a second run leaves the row as the first left it |
| `Bootstrap.EnsureTwice` | app/services/bootstrap_service.py:117-118 | two runs commit at most once |
| `ExternalIdentity.SameIdentitySameUser` | app/services/external_identity_service.py:25-41 | under every interleaving of any number of calls, all calls that return a user for one (provider, subject) return the same, active one |
| `ExternalIdentity.BindingsStay` | app/services/external_identity_service.py:61-66 | between any two points of a schedule no binding changes owner and no account changes |
| `ExternalIdentity.NoRowLeftBehind` | app/services/external_identity_service.py:75-84 | a flushed user row is stored exactly when the call returned it: a rolled-back call leaves none behind |
| `ExternalIdentity.ConstraintsHold` | app/models/user.py:34-37 | emails, (provider, subject) and (provider, union id) stay unique under every interleaving |
| `ExternalIdentity.ConflictHasReason` | app/services/external_identity_service.py:92-96 | a conflict is reported only when the identity belongs to a deleted user or its union id to another subject |
| `IdentityRaces.RecoversExactly` | app/services/external_identity_service.py:44-96 | from any tables: no schedule refuses a call for the claim if and only if its identity is stored for an active user, or it is not stored, verified, without union id, and an active account has its email |
| `IdentityRaces.FlushIsSafeExactly` | app/services/external_identity_service.py:64-77 | from any tables: no schedule ends a call for the claim in a server error if and only if its identity is stored, its email is missing or unverified, or an active account has the email |
| `IdentityRaces.LinkRaceRecovers` | app/services/external_identity_service.py:25-41 | two calls for one new identity, both past the account lookup: the second to commit is rolled back, reads again and returns the same user |
| `IdentityRaces.FlushRaceFails` | app/services/external_identity_service.py:69-77 | two first sign-ins under one new email, of different identities or of the same one: the second fails at its flush with a server error |
| `ExternalIdentity.NextSound` | app/services/external_identity_service.py:44-96 | every step of every call keeps the tables' constraints and each call's knowledge about them |
| `IdentityStore.Store.ResolveExternalIdentity` | app/services/external_identity_service.py:44-96 | an undisturbed call: succeeds exactly for a known identity with an active owner, or a new linkable one whose email is not held by a deleted account; the stored profile then follows the claim; a failure changes neither table |
| `IdentityStore.Store.LinkIdentity` | app/services/external_identity_service.py:25-41 | links exactly when no stored identity clashes; a refused link leaves the table as it was |
| `IdentityStore.Store.CreateUser` | app/services/external_identity_service.py:69-96 | stores user and identity together or neither; which error, exactly |
| `IdentityStore.Store.RefreshProfile` | app/services/external_identity_service.py:52-60 | refuses a deleted owner unchanged, else overwrites the profile columns of the row |
| `IdentityStore.SettleIsPlay` | app/services/external_identity_service.py:44-96 | an undisturbed call is one schedule of the interleaved machine |
| `Refusals.RefreshRefused` | app/services/auth_service.py:369-392 | which of three errors a refused refresh reports, each if and only if |
| `Refusals.LogoutRefused` | app/services/auth_service.py:417-432 | signing out is refused exactly for a text that is no unexpired refresh token of the server |
| `Refusals.RegisterRefused` | app/services/auth_service.py:305-316 | a registration is refused as taken exactly when an active account has the email, and fails when only a deleted one has it |
| `Refusals.LoginRefused` | app/services/auth_service.py:329-331 | a refused password sign-in always reports the same error |
| `Refusals.RevokeSessionRefused` | app/services/security_service.py:409-432 | a revocation of the current session is refused as such, exactly then; every other refusal is not found |
| `Refusals.RevokeApplicationRefused` | app/services/consent_service.py:91-100 | refused as not found exactly when no consent is live |
| `Refusals.AuthorizeRefused` | app/routers/oidc.py:79-95 | why no authorization code is granted, error by error |
| `Refusals.ExchangeRefused` | app/services/oidc_service.py:141-172 | why an authorization code is not exchanged, error by error |
| `Refusals.DecisionRefused` | app/services/oidc_service.py:422-438 | which error a refused decision reports, each if and only if |
| `Refusals.SendingRefused` | app/services/email_auth_service.py:107-135 | which error a refused sending reports, each if and only if, in order of precedence |
| `Refusals.VerificationRefused` | app/services/email_auth_service.py:155-176 | which error a refused code reports, each if and only if |
| `AuthStore.Store.IssueTokensWithRotation` | app/services/auth_service.py:231-294 | the rows written by a sign-in or rotation, in place |
| `AuthStore.Store.CreateSession` | app/services/auth_service.py:164-183 | appends the session row |
| `AuthStore.Store.RefreshTokens` | app/services/auth_service.py:363-408 | the tables and the reply of the specified refresh |
| `AuthStore.Store.LogoutUser` | app/services/auth_service.py:411-461 | the tables and the reply of the specified sign-out |
| `AuthStore.Store.RevokeTokensOf` | app/services/auth_service.py:439-447 | the loop revokes exactly the session's live tokens |
| `AuthStore.Store.RevokeSecuritySession` | app/services/security_service.py:401-462 | the tables and the reply of the specified revocation |
| `AuthStore.Store.RevokeAll` | app/services/security_service.py:434-448 | the nested loops close exactly the targets and their live tokens |
| `AuthStore.Store.BuildSecuritySnapshot` | app/services/security_service.py:279-302 | shows the de-duplicated active sessions |
| `AuthStore.Store.UpsertOAuthConsent` | app/services/consent_service.py:28-71 | refuses a blank id, else records the consent in place |
| `AuthStore.Store.RevokeOAuthConsent` | app/services/consent_service.py:83-138 | the tables and the reply of the specified application revocation |
| `AuthStore.Store.CloseClientSessions` | app/services/consent_service.py:106-115 | the loop closes exactly the user's live sessions of the client |
| `AuthStore.Store.ExchangeAuthorizationCode` | app/services/oidc_service.py:214-253 | the tables and the reply of the specified code exchange |
| `AuthStore.Store.StartDeviceAuthorization` | app/services/oidc_service.py:331-372 | appends a pending request, or fails on a repeated code |
| `AuthStore.Store.ConfirmDeviceAuthorization` | app/services/oidc_service.py:415-456 | the table and the reply of the specified decision |
| `AuthStore.Store.ExchangeDeviceCode` | app/services/oidc_service.py:465-545 | the tables and the reply of the specified poll, consumption rolled back with a failed grant |
| `AuthStore.Store.StartEmailLogin` | app/services/email_auth_service.py:95-136 | the table and the reply of the specified sending |
| `AuthStore.Store.CountRecentCodes` | app/services/email_auth_service.py:48-78 | how many stored codes have the address, and how many the source, with sent_at no earlier than the start of the window ending now |
| `AuthStore.Store.VerifyEmailLogin` | app/services/email_auth_service.py:146-194 | the tables and the reply of the specified verification |
| `AuthStore.Store.RegisterUser` | app/services/auth_service.py:297-319 | the tables and the reply of the specified registration |
| `AuthStore.Store.LoginUser` | app/services/auth_service.py:322-334 | the tables and the reply of the specified password sign-in |
| `AuthStore.Store.Serve` | app/services/auth_service.py:363-461 | any call keeps the store valid and does what the specification says |
| `AuthStore.Store.ServeAll` | app/services/auth_service.py:363-461 | any sequence of calls on a fresh store is a run, so every theorem about runs holds of it |

## Left out

- HTTP routing, cookies, CORS, database and mail drivers, provider clients, IP location: input and output. Of the
  authorization endpoint only the checks after sign-in and account confirmation are modelled.
- bcrypt, SHA-256, base64 and JWT encoding, return-URL parsing: library code.
- Rendering and login screens; of the security center page only the list update after revoking a device.
- The list update after revoking an application: it does not equal the server's view, because collapsed rows hide
  other clients.
- Interleaving inside refresh, email and device calls: they take no row locks, so the chain, limiter and single-use
  theorems are about atomic calls.
- Single use of authorization codes: they are stateless signed records and the code does not enforce it.
- Client and scope validation in the device grant: `start_device_authorization` does none.
- Audit columns for address, user agent, label and location, and the width of the target column: the target is an
  unbounded list of session ids.
- The application label of a device row, and its location when that is looked up from the address.
- Security score, settings list, avatar initials, address masking, the operations listing: straight-line code.
- User deletion: no code path performs it; deleted accounts occur only as initial data.
- Demo sign-in and the sign-in after identity resolution: further callers of the modelled token issue.
- Access tokens, id tokens and nonces, password hashes, nicknames and avatars of accounts.
- The two startup functions repeat the same statements; they share one method here, and the legacy entry is a parameter.
- AuthStore.Store.IssueTokensWithRotation: does not model the encoded tokens it returns, only the claims of the refresh
  token and the row that stores them.
- Ids: numbers, where the source and the browser mock use strings.
