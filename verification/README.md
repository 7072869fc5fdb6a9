# Autentico: a Dafny model of the server's state and its proofs

Autentico is an OAuth 2.0 and OpenID Connect server whose whole state is a few SQL tables,
changed by small guarded statements. This project models those tables, the statements and
loops that change them, and the text processing around them, and proves what runs of the
server keep. `dafny verify dfyconfig.toml` checks everything.

## How the model is laid out

| file | part of the server |
|---|---|
| `Tables.dfy`, `SessionStore.dfy` | browser logins (IdP sessions), OAuth sessions, tokens, authorization codes and consents; each SQL statement as a function with its WHERE guard, and the Go operations as methods of `Database` proved equal to those functions |
| `CascadeLaws.dfy` | what the cascade and the two sweeps kill and what they leave alone |
| `ServerRuns.dfy`, `ServerSteps.dfy` | runs: every request, revocation and cleaner tick as one step at one instant of a clock that never goes back, the invariant of all reachable states, and the proof that the methods of `Database` make these steps |
| `TokenLaws.dfy`, `RevocationLaws.dfy`, `SignOnLaws.dfy` | what each request does, row by row and answer by answer, and what every later run makes of it: redemption and replay, rotation, revocation and deletion, auto-login, consent decisions and the codes they issue |
| `Liveness.dfy`, `CodeLaws.dfy`, `ScopeLaws.dfy` | what no run can undo or add: dead tokens, spent codes, grants of consent, the scope of a grant |
| `SweepInvisible.dfy`, `SweepExactly.dfy` | a run with the cleaner against the same run without it: the guard and the simulation, and the proof that the guard is exact |
| `SqlText.dfy`, `ListQuery.dfy`, `Listers.dfy` | WHERE text as tokens, a reader with SQL's precedence and positional placeholders, the list-query compiler and the listers that splice its output |
| `Settings.dfy`, `SettingsRuns.dfy`, `Cors.dfy` | the settings table, the in-memory config, import and export, onboarding |
| `AppTree.dfy` | the application tree and its filter |
| `DeviceCodes.dfy`, `UserCodes.dfy` | device codes under interleaving, and the codes people type |
| `Scopes.dfy`, `Text.dfy` | scope strings, consent, and the string functions both use |

Code that changes state is a class with the methods of the source; each method's
postcondition gives its whole new state as a function of the old one, and the laws are lemmas
about those functions. Times are integers in nanoseconds on one clock. Generated secrets and
keys are fresh strings. Checks of signatures, passwords, PKCE and the like are booleans of the
step. A failing SQL statement is a parameter or a field of the request (`Fault`, `readOk`,
`failing`, `skipped`, `done`, `marked`, `rotated`, the flags of `Pair`).

## Where the code and its documentation disagree

The model follows the code. These findings are lemmas in the table below.

- `SettingsRuns.DefaultsKeepIff`: `EnsureDefaults` promises never to overwrite an existing value,
  but it takes "" for a missing one. `SettingsRuns.RestartReplacesEmptyTimeout` is the case of an
  accepted value: the idle timeout "" (none) becomes the default on a restart.
- `SettingsRuns.DefaultsAreBuiltInIff`: the defaults of the settings table and those compiled into the
  program are the same list twice, but they differ for the locale field of the profile, the brand
  color and the audit retention.
- `SettingsRuns.ExportCarriesPassword`: the export is documented to leave out `smtp_password`; the
  code only removes `onboarded`.
- `SettingsRuns.UnvalidatedDurationGoesStale`: `device_code_expiration` is parsed as a duration
  but missing from the validated keys, so a PUT can store an unparsable value and leave the
  parsed one as it was. `SettingsRuns.FieldIsDecidedIff` gives the exact condition for every
  setting.
- `SettingsRuns.AuditRetentionGoesStale`: the parsed audit retention keeps its old value when
  the setting becomes "", "0" or "-1".
- `DeviceCodes.AuthorizedAnswerCanBeFalse`: the handler answers "authorized" although a denial
  got in between; `DeviceCodes.AuthorizedAnswerIsTrueIff` says exactly when the answer is true.
- `DeviceCodes.GrantedTwiceIff`: a device code is called single-use, but the result of consuming
  it is not looked at, so polls that read it as authorized at the same time are all granted.
- `Liveness.CascadeIsFinalIff`: killing a login is meant to end everything born from it, but its
  authorization codes stay redeemable and redeeming one does not look at the login.
- The background sweep is meant to end only logins that are over anyway. Auto-login checks the
  timeouts itself, but a token refresh bumps a login's activity and the consent page accepts a
  login without looking at the timeouts; and the deletions take session rows by the expiry of
  their access token, after which a good refresh token is refused, and used codes, after which
  a replay is not noticed. Under a negative retention they also take the token row of a live
  refresh token, after which a refresh has no scope: asking for the granted scope is refused,
  and asking for none gives none. `SweepExactly.CleanerInvisibleIff` is the exact condition
  under which none of this can be told at the authorize endpoint, by consent decisions, code
  redemptions and refreshes; each way to fail it has its own lemma. `SweepExactly.CleanerUnseenIff`
  is the same by the answers of the run itself. `DeviceCodes.CleanShowsIff` says when a
  deletion can be told by a device's poll.
- `SettingsRuns.OnboardingIsFinalIff`: the onboarding page is for a fresh server only, but it
  answers as done whether or not it could store the flag that closes it.
- `CodeLaws.CleanupKeepsCodeIff`: the validator accepts a negative cleanup retention, and with
  one the cleaner deletes codes that are still live.

## Model

| member | source | states |
|---|---|---|
| SessionStore.Database.CreateIdpSession | pkg/idpsession/create.go:9-26 | inserts an active login stamped with the current time, and fails exactly when the id is taken |
| SessionStore.Database.UpdateLastActivity | pkg/idpsession/update.go:9-17 | bumps the login if it is active and changes nothing else |
| SessionStore.Database.DeactivateIdpSession | pkg/idpsession/update.go:19-27 | stamps the login if it is active; sessions and tokens stay as they are (no cascade) |
| SessionStore.Database.DeactivateAllForUser | pkg/idpsession/update.go:29-37 | stamps every active login of the user and no other; no cascade |
| SessionStore.Database.DeactivateWithCascade | pkg/idpsession/cascade.go:58-105 | atomicity under a failure at any statement: either nothing changed, or login, child sessions and their tokens are all dead |
| SessionStore.Database.GetIdleSessionIDs | pkg/idpsession/read.go:219-238 | lists exactly the active logins idle since before the threshold, each once |
| SessionStore.Database.GetExpiredMaxAgeSessionIDs | pkg/idpsession/read.go:198-217 | lists exactly the active logins created before the bound, each once |
| SessionStore.Database.CascadeEach | pkg/idpsession/cascade.go:19-24 | the loop stops at the first cascade that fails; exactly the ids before it are cascaded, as one cascade of their set |
| SessionStore.Database.DeactivateIdle | pkg/idpsession/cascade.go:13-25 | the idle sweep: which logins are cascaded, what is returned on success, on a failing read and when the k-th cascade fails |
| SessionStore.Database.DeactivateExpiredMaxAge | pkg/idpsession/cascade.go:29-41 | the maximum-age sweep, likewise |
| SessionStore.CascadeOneMore | pkg/idpsession/cascade.go:19-24 | two cascades in a row equal one cascade of the union, so the visiting order of a sweep does not show in the result |
| SessionStore.Database.DeleteExpiredTransientRows | pkg/cleanup/service.go:38-50 | deletes from each table the rows past the threshold; a failing table is skipped and the rest still cleaned |
| SessionStore.Database.DeactivateIdleIdpSessions | pkg/cleanup/service.go:71-84 | a timeout of zero or less sweeps nothing; otherwise only idle logins are cascaded, exactly all of them if no SELECT and no cascade fails; errors are swallowed |
| SessionStore.Database.DeactivateExpiredMaxAgeIdpSessions | pkg/cleanup/service.go:86-99 | the same for the maximum age |
| SessionStore.Database.Run | pkg/cleanup/service.go:15-20 | one cleaner tick: idle sweep, age sweep, then the deletions, in this order and whatever fails; without failures both sweeps get through their whole lists |
| SweepExactly.HealthyRunEndsLate | pkg/cleanup/service.go:15-20 | after such a tick exactly the active logins that were within both timeouts are left active, unchanged |
| SessionStore.Database.AuthCodeByCode | pkg/auth_code/read.go:12-52 | returns the row exactly when it exists, is unused and has not expired |
| SessionStore.Database.CreateAuthCode | pkg/auth_code/create.go:9-43 | inserts the row unless the code exists; a missing creation time becomes now and an empty login id NULL |
| SessionStore.Database.MarkAuthCodeAsUsed | pkg/auth_code/update.go:7-15 | only the one row changes, only in its used flag, and the code is not redeemable at any time after |
| SessionStore.Database.FinalizeLogin | pkg/idpsession/finalize.go:10-26 | a new login for the user and its id, or "" and no change |
| SessionStore.Database.CompleteAuthFlow | pkg/federation/handler.go:278-309 | a login, then a code for the same user that names it, or no login if creating it failed; email verification ends the same way |
| SessionStore.Database.HandleConsentPost | pkg/consent/handler.go:63-161 | every answer of the consent decision with its exact condition, a failing upsert or code generation included, and what is stored in each case |
| SessionStore.Database.RedeemCode | pkg/token/authorization_code.go:17-91 | every answer of the authorization_code grant and the tables it leaves: a replay revokes, a redemption marks the code before the pair is stored, a failing mark or generation issues nothing |
| SessionStore.Database.RefreshPair | pkg/token/handler.go:262-319 | every answer of the refresh_token grant and the tables it leaves: replay, bump of the login, rotation or its failure, the scope by the token row and the one requested, new pair |
| SessionStore.Database.ReadScope | pkg/token/handler.go:298-302 | the scope of the one token row with the refresh token, empty if a deletion took it |
| Scopes.IsScopeSubset | pkg/token/handler.go:414-427 | true exactly if every requested scope is in the original grant |
| SessionStore.Database.UserByRefreshToken | pkg/token/refresh_token.go:39-123 | the reason for which a refresh is turned down, in the order of the checks; only a replay writes |
| SessionStore.Database.StorePair | pkg/token/handler.go:336-399 | the token row and the session row, the answer, and which rows are left when generating the pair, a write or the ID token fails |
| SessionStore.Database.RevokeAccessOfUser | pkg/user/delete.go:27-67 | tokens, sessions and then the logins that no active session of the user names any more, all or nothing |
| SessionStore.Database.HardDeleteUser | pkg/user/delete.go:72-93 | every row of the user goes, and no other; when a DELETE fails half way, exactly the tables before it are emptied |
| SessionStore.Database.DeleteConsentsOf | pkg/client/handler.go:185-187 | every consent given to the client goes, and no other |
| SessionStore.Database.TryAutoLogin | pkg/authorize/handler.go:278-357 | the answer (code, consent page, login page with or without the session hint) and the new tables for every request, prompt and config |
| Tables.MaxAgeRoundTrip | pkg/authorize/handler.go:361-370 | a decimal max_age is read back if it fits 64 bits; anything negative or out of range means no limit |
| Tables.MaxAgeElse | pkg/authorize/handler.go:361-370 | a text that is not digits after at most one sign means no limit, and leading zeros do not count |
| Tables.MaxAgeIsKeptIff | pkg/authorize/handler.go:315-318 | the 64-bit product of max_age and a second tests the age that was asked for if and only if the limit fits a duration |
| SignOnLaws.NobodyIsRefused | pkg/authorize/handler.go:290-304 | without single sign-on, with `prompt=login` or without a live login the request gets the login page without the session hint, and nothing is written |
| SignOnLaws.IdleIsRefused | pkg/authorize/handler.go:305-308 | a login idle for the timeout or longer is refused, and nothing is written |
| SignOnLaws.AgedIsRefused | pkg/authorize/handler.go:310-313 | so is one as old as the maximum age |
| SignOnLaws.MaxAgeIsRefused | pkg/authorize/handler.go:315-318 | and one older than the `max_age` the request gives in decimal |
| SignOnLaws.HintIff | pkg/authorize/handler.go:290-318 | the login page is told of a session exactly when single sign-on was tried with a live one |
| SignOnLaws.SignOnIff | pkg/authorize/handler.go:278-357 | a request is answered with a code exactly if single sign-on is on, no new login is asked for, the cookie's login lives and is in time for both timeouts and `max_age`, and the user need not be asked; with the consent page exactly if only that is missing |
| SignOnLaws.SignOnBumps | pkg/authorize/handler.go:320-325 | getting past the checks counts as activity; apart from the code nothing else is written |
| SignOnLaws.BumpedLoginLasts | pkg/idpsession/update.go:9-17 | a bumped login is not idle, for a sweep or an auto-login, until the timeout has passed again |
| SignOnLaws.NewLoginIs | pkg/idpsession/finalize.go:10-26 | a new login is active, the user's, and its two times are now |
| SignOnLaws.NewLoginSignsOn | pkg/idpsession/finalize.go:10-26 | so the browser's next request is signed on |
| SignOnLaws.SignOnCode | pkg/authorize/handler.go:332-346 | the code of an auto-login is for the login's user, the request's client and scope, expires as configured, names the login and takes over its time |
| SignOnLaws.ConsentCode | pkg/consent/handler.go:63-161 | a consent decision by a live login stores the grant and then a code that names the login; refused, denied or failing it stores nothing |
| SignOnLaws.LoginCode | pkg/federation/handler.go:278-309 | the code of a login is for the user who logged in and names the new login, or none if there is none |
| SignOnLaws.RedeemedSession | pkg/token/handler.go:360-373 | a redeemed code makes a session that hangs on the code's login and shares its secrets with the token row |
| SignOnLaws.SessionStaysOrIsOver | pkg/introspect/handler.go:113-146 | over every run a session keeps its login and its access token, or its row is gone and the token is rejected |
| SignOnLaws.CascadeEndsRedeemed | pkg/idpsession/cascade.go:43-57 | whatever runs between a redemption and the cascade of the code's login, and whatever runs after, no reader accepts the access token |
| SignOnLaws.SignOnDiesWithLogin | pkg/idpsession/cascade.go:43-57 | the same from the auto-login that issued the code on |
| TokenLaws.IntrospectsIff | pkg/introspect/handler.go:113-146 | in every reachable state an access token is introspected as active exactly if its row is unrevoked and unexpired and, but for a client's own, has an active session |
| TokenLaws.RefreshIntrospectsIff | pkg/introspect/handler.go:113-146 | a refresh token exactly if its access token is |
| TokenLaws.BearerAcceptsIff | pkg/bearer/validate_bearer.go:63-73 | the bearer check asks for an unrevoked row and an active session |
| TokenLaws.RevokedForGood | pkg/introspect/handler.go:113-146 | no run makes a reader accept a token whose row is revoked |
| TokenLaws.IssuedRows | pkg/token/handler.go:343-373 | the two rows of a stored pair, field by field, and no other row changes |
| TokenLaws.PartlyIssued | pkg/token/handler.go:230-247 | what a failing write leaves, and the row of a client's own token |
| TokenLaws.AnswerTellsStored | pkg/token/handler.go:336-399 | tokens are answered only with both rows in place, and always then unless the ID token fails |
| TokenLaws.IdTokenIff | pkg/token/handler.go:391-399 | the ID token goes with a scope that has the word `openid`, and its failure is answered as an error although the rows are there |
| TokenLaws.NewPairWorks | pkg/token/handler.go:336-379 | both readers accept a new access token until it expires, and its refresh token is not turned down |
| TokenLaws.DirectGrants | pkg/token/handler.go:139-247 | passwords and device codes issue without a login under a grant of their own, client credentials without a user |
| TokenLaws.JwtExpiry | pkg/token/refresh_token.go:53-57 | a refresh token expires with its row, rounded down to a second |
| TokenLaws.RedeemAnswers | pkg/token/authorization_code.go:24-83 | the rejections of a redemption with their conditions; none of them writes |
| TokenLaws.RedeemsIff | pkg/token/authorization_code.go:40-91 | a redemption goes through exactly for an unused, unexpired code with every check in order, and is for the code's user, login and scope |
| TokenLaws.ReplayRevokes | pkg/token/authorization_code.go:31-38 | a replayed code revokes exactly the tokens issued to its user by codes and changes nothing else |
| TokenLaws.ReplayIsForever | pkg/token/authorization_code.go:31-38 | and no reader accepts any of them again, in any run |
| TokenLaws.OnePairPerCode | pkg/token/authorization_code.go:31-83 | a code that was redeemed issues nothing again, in any run |
| TokenLaws.RefreshPassesIff | pkg/token/refresh_token.go:39-123 | a refresh passes the checks exactly in time, by its own client, with an active session, no revoked row, its user there and the second factor in order |
| TokenLaws.RefreshRejections | pkg/token/refresh_token.go:39-123 | the reason given for each failing check |
| TokenLaws.BumpSets | pkg/token/handler.go:278-283 | the bump sets the time of last use of the one active login |
| TokenLaws.RotationRevokes | pkg/token/handler.go:284-294 | the rotation revokes the rows of the refresh token and no others |
| TokenLaws.RefreshOutcome | pkg/token/handler.go:262-319 | a refresh that passes leaves the bump alone if the rotation fails, revokes the old rows also if the scope is refused, and issues to the session's user and login |
| TokenLaws.RefreshScopes | pkg/token/handler.go:307-318 | the scope issued is the row's if none is requested, the requested one if it lies within, and refused otherwise |
| TokenLaws.RefreshReplayRevokes | pkg/token/refresh_token.go:79-97 | a replayed refresh token revokes every token of the user and changes nothing else |
| TokenLaws.RefreshUsesUp | pkg/token/handler.go:284-294 | right after a refresh the same token is answered as a replay until it expires |
| TokenLaws.SpentStaysSpent | pkg/token/handler.go:284-294 | in every later run it issues nothing as long as its row is there |
| TokenLaws.TokenRowLasts | pkg/cleanup/service.go:26-50 | with a retention that is not negative the row is there until the token expires, unless its user is deleted |
| TokenLaws.OnePairPerRefreshToken | pkg/token/handler.go:284-294 | so then a refresh token issues at most one pair over every run |
| RevocationLaws.RevocationEndsExactly | pkg/user/delete.go:36-53 | of the user's tokens and sessions exactly those that hold the kept access token are spared, none if there is none; nobody else's change |
| RevocationLaws.RevocationEndsLogins | pkg/user/delete.go:55-61 | the user's logins end but one that a spared active session names; nobody else's do |
| RevocationLaws.RevocationIsForever | pkg/user/delete.go:27-67 | no reader accepts any other token of the user again, in any run |
| RevocationLaws.RevocationSpares | pkg/user/delete.go:36-45 | the kept token and everybody else's are accepted as before |
| RevocationLaws.RevokeValueRevokes | pkg/token/revoke.go:24-51 | the revocation endpoint revokes the rows that hold the value as access or as refresh token, and no others |
| RevocationLaws.RevokedTokenIsOver | pkg/token/revoke.go:24-51 | a revoked token is rejected by every reader in every later run, and its refresh token issues nothing while its row is there |
| RevocationLaws.EndingEndsExactly | pkg/session/read.go:90-104 | ending one session or all of a user deactivates exactly those |
| RevocationLaws.EndedSessionIsOver | pkg/session/read.go:90-104 | and ends their access and refresh tokens in every later run |
| RevocationLaws.LoginsEndExactly | pkg/idpsession/update.go:19-37 | ending a login or all of a user stamps exactly the active ones and leaves sessions and tokens alone |
| RevocationLaws.DeletionDeletesExactly | pkg/user/delete.go:72-93 | a deletion leaves no row of the user and every other row as it was |
| RevocationLaws.DeletionStops | pkg/user/delete.go:84-88 | one that fails half way has emptied the tables before in order and no table after |
| RevocationLaws.DeletedIsOver | pkg/user/delete.go:84-88 | once the tokens are gone no reader accepts one of the user again, in any run |
| CascadeLaws.CascadeKills | pkg/idpsession/cascade.go:43-57 | after a cascade neither the login nor a child session nor a token any child names (dead before or not) is alive |
| CascadeLaws.CascadeChangesExactly | pkg/idpsession/cascade.go:71-99 | exactly the living rows that hang on the login change, only in their stamp; earlier stamps and unrelated rows stay |
| CascadeLaws.CascadeIdempotent | pkg/idpsession/cascade.go:55-57 | a repeated cascade at any later time changes nothing |
| CascadeLaws.SweepLosesExactly | pkg/idpsession/cascade.go:13-25 | the active logins after a sweep are those before minus the list, their number drops by its length, the rest is untouched |
| CascadeLaws.SweepOutcome | pkg/idpsession/cascade.go:13-41 | after k cascades the first k logins are fully dead and all others as before; after a full sweep the count is the number of logins lost and none due is left |
| ServerRuns.StepKeepsInv | pkg/authorize/handler.go:332-346 | every step keeps the invariant: codes and OAuth sessions that name a login name one created for their own user |
| ServerRuns.ReachableInv | pkg/authorize/handler.go:332-346 | so in every reachable state, over all issuing paths and after any deletions; and every secret is in at most one token row and one session row |
| ServerRuns.FromGenesis | pkg/authorize/handler.go:332-346 | from an empty database on, a code that names a login belongs to the user the login was created for, whether or not its row still exists |
| ServerRuns.RedeemKeepsInv | pkg/token/authorization_code.go:17-91 | redeeming a code, replays included, keeps it; the session gets the code's login |
| ServerRuns.RefreshKeepsInv | pkg/token/handler.go:262-322 | a refresh, replays included, keeps it; the new session stays linked to the same login |
| ServerRuns.PriorRowIsOwn | pkg/token/handler.go:271-302 | in every reachable state the lookups by refresh token of the prior login and of the scope find at most one row each, of the session the token was signed for |
| ServerRuns.QuietStep | pkg/user/delete.go:27-95 | every step that issues nothing adds no row, changes no owner, link or secret, and takes no stamp back |
| ServerRuns.CleanupIsQuiet | pkg/cleanup/service.go:15-50 | in particular the whole cleaner tick |
| ServerSteps.Perform | pkg/token/handler.go:108-379 | in every reachable state the operations of the database make exactly the steps of the run model |
| ServerSteps.PerformTick | pkg/cleanup/service.go:15-20 | so does a tick of the cleaner, whatever fails in it |
| Liveness.ReadersAgree | pkg/bearer/validate_bearer.go:63-73 | in every reachable state introspection and the bearer check agree on an unexpired access token issued to a user |
| Liveness.StepBackwards | pkg/introspect/handler.go:113-146 | whatever a reader accepts after a step it accepted before it |
| Liveness.DeadStaysDead | pkg/introspect/handler.go:113-146 | once a reader rejects an issued token, no run makes it accept the token again, whatever was deleted in whatever order |
| Liveness.CascadeIsForever | pkg/idpsession/cascade.go:43-57 | after a cascade no reader accepts an access token that a session of the login had at that time, whatever runs next |
| Liveness.CascadeIsFinalIff | pkg/idpsession/cascade.go:43-57 | no run after the cascade ever has a live session of the login if and only if no unused, unexpired code names it |
| Liveness.FinalCascadeSilences | pkg/introspect/handler.go:113-146 | in that case no access token of any session of the login, of whatever age, is accepted again |
| Liveness.OutstandingCodeRevives | pkg/token/authorization_code.go:17-91 | in the other case redeeming the code gives the dead login a session whose token both readers accept |
| CodeLaws.CodeStaysUnusable | pkg/auth_code/read.go:12-52 | once the lookup stops returning a code it never returns it again, over all runs |
| CodeLaws.CleanupKeepsAnswers | pkg/cleanup/service.go:26-38 | a cleaner tick with non-negative retention never changes the lookup's answer |
| CodeLaws.CleanupKeepsCodeIff | pkg/cleanup/service.go:26-38 | a live code stays live over a tick if and only if its table is skipped or its expiry is not below the threshold, so a negative retention can delete it |
| CodeLaws.ReplayLookupFinds | pkg/auth_code/read.go:56-96 | the replay lookup finds a used code until its expiry plus the retention, unless the user is deleted |
| CodeLaws.GrantIsKeptIff | pkg/client/handler.go:168-190 | between consent decisions a stored grant is kept unchanged if and only if its client is not deleted |
| CodeLaws.GrantedScopesSignOn | pkg/consent/handler.go:63-161 | after a grant, later auto-logins of the user issue a code if the grant covers the request and the client was not deleted meanwhile, and ask again in every other case |
| ScopeLaws.RefreshNarrows | pkg/token/handler.go:307-318 | a refresh issues no scope beyond that of its token row, and none if the row is gone |
| ScopeLaws.ScopesNeverGrow | pkg/token/handler.go:307-318 | over every run each user's token has a scope within one granted to that user by a code, a password or a device code: no chain of refreshes widens a grant or joins two |
| ScopeLaws.ScopesFromGenesis | pkg/token/handler.go:307-318 | in particular from an empty database on |
| SweepInvisible.TickKeepsRelated | pkg/cleanup/service.go:15-50 | a tick with any failures, on one side only, keeps the simulation relation over all four tables |
| SweepInvisible.SignOnAgrees | pkg/authorize/handler.go:301-330 | auto-login refuses every login a sweep may have ended, so its answer is the same with and without the sweep |
| SweepInvisible.RefreshAgrees | pkg/token/refresh_token.go:39-123 | a refresh in time is turned down for the same reason, or not at all, with and without the ticks |
| SweepInvisible.RefreshScope | pkg/token/handler.go:298-318 | a refresh in time reads the same scope with and without the ticks, or one that makes no difference to its answer |
| SweepInvisible.RedeemAgrees | pkg/token/authorization_code.go:24-45 | so is a redemption: a deleted code would have been turned down with the same answer |
| SweepInvisible.RevokeUserRelates | pkg/user/delete.go:27-67 | revoking a user except for one session, when that session row was not due, ends the same logins with and without the ticks |
| SweepInvisible.StepKeepsRelated | pkg/token/handler.go:108-379 | one step in time, of any kind: same answer, and all tables still related |
| SweepInvisible.SweptRunAgrees | pkg/authorize/handler.go:278-357 | the simulation: a run with ticks anywhere gives every authorize request, consent decision, redemption and refresh the answer of the run without them, if every step is in time |
| SweepInvisible.CleanerInvisibleToAutoLogin | pkg/authorize/handler.go:278-357 | without any guard: in runs of logins, auto-logins, all kinds of termination and token requests but refreshes, no auto-login is answered differently because of the cleaner |
| SweepExactly.CleanerInvisibleIff | pkg/cleanup/service.go:15-50 | for every run and every retention, also a negative one, the cleaner is invisible if and only if every step is in time: consent decisions and refreshes before a sweep could have ended the login, refreshes, replays and spared sessions before a tick could have deleted the row they need, logins ended without their sessions before a sweep could have ended both |
| SweepExactly.CleanerUnseenIff | pkg/cleanup/service.go:15-50 | for runs whose steps answer for themselves, the same by the answers of the run alone, without any continuation |
| SweepExactly.LatePostShows | pkg/consent/handler.go:224-236 | every late consent decision is answered differently after a healthy tick |
| SweepExactly.LateRefreshShows | pkg/token/handler.go:262-319 | so is every late refresh: its session row is gone or over, or the token row is gone that would tell a replay, a missing second factor or the scope |
| SweepExactly.LateRedeemShows | pkg/token/authorization_code.go:24-38 | so is every late redemption: a replay is not noticed as one, a live code not redeemed |
| SweepExactly.LateEndShows | pkg/idpsession/update.go:19-37 | ending a late login without its sessions shows in the next refresh of any of them |
| SweepExactly.LateSpareShows | pkg/user/delete.go:56-59 | sparing a session whose row is due shows in the next consent decision by its login |
| SweepInvisible.HintOnlyFades | pkg/authorize/handler.go:301-322 | the session hint can only turn off because of a sweep, never on |
| SqlText.ClauseMeaning | pkg/api/listquery.go:133-156 | the printed clause, read back with AND over OR and positional placeholders, is the conjunction of its parts, with no argument missing or left over |
| SqlText.ReadOr | pkg/api/listquery.go:137-145 | a list of alternatives is read back as written, each placeholder with its own argument |
| SqlText.ReadAnd | pkg/api/listquery.go:154-156 | so is a sequence of conjuncts |
| SqlText.ParenthesesMatter | pkg/api/listquery.go:144-144 | without the parentheses a row failing the base condition would be selected |
| ListQuery.SearchConditions | pkg/api/listquery.go:137-145 | the search condition holds exactly when some search column matches |
| ListQuery.BuildListQuery | pkg/api/listquery.go:133-187 | behind any base condition the fragment selects exactly what the request asks for, whatever order the filter map is visited in; sort column from the allowlist; limit between 1 and 1000 |
| ListQuery.DescendingIff | pkg/api/listquery.go:163-166 | the direction is descending exactly for the case variants of "desc" |
| ListQuery.MaxLimitIs | pkg/api/listquery.go:169-175 | the limit of a page is at most the configured one, 100 without one, and never over 1000 |
| ListQuery.SearchContains | pkg/api/listquery.go:137-145 | the printed LIKE pattern matches exactly the values that contain the searched text in whatever case |
| ListQuery.WantedMeans | pkg/api/listquery.go:133-156 | by the values of a row: some search column contains the searched text and every filter on an allowed column is its value |
| ListQuery.RangeMeans | pkg/api/listquery.go:85-118 | a date range selects from its first to its last instant, both included |
| ListQuery.BadRangeIff | pkg/api/listquery.go:96-112 | a range of one instant is accepted, a reversed or unreadable one is not |
| ListQuery.ParseDateRange | pkg/api/listquery.go:85-118 | fails exactly when some bound is malformed or some range reversed; otherwise prints exactly the bounds given |
| Listers.ListDeletionRequests | pkg/deletion/read.go:83-128 | total and page are those of the rows meeting dates and search, stated without SQL, and the page is sorted by the column in the requested direction |
| Listers.ListAuditLogs | pkg/audit/read.go:25-57 | the same with search and the event filter from the compiler |
| Listers.ListIdpSessions | pkg/idpsession/read.go:240-274 | the same for active logins |
| Listers.ListActiveDevicesForUser | pkg/idpsession/read.go:100-132 | the same for one user's active logins and an optional idle cutoff |
| Listers.SpliceThree | pkg/deletion/read.go:95-118 | fragments spliced in one order with their arguments in the same order mean the conjunction of all |
| Listers.ListedExactly | pkg/api/listquery.go:158-184 | the list behind the pages has exactly the wanted rows, each as often as there are, sorted by the column in the direction, and the count is theirs |
| Listers.PagesAddUp | pkg/api/listquery.go:169-184 | stepping the offset by the effective limit ends, visits every selected row once and in order, and takes total over limit pages |
| Settings.ReadsLastWrite | pkg/appsettings/crud.go:8-24 | after any history of writes a setting reads as what was last written to it, or as before if nothing was |
| Settings.Server.SetSetting | pkg/appsettings/crud.go:16-24 | replaces one value and no other |
| Settings.Server.EnsureDefaults | pkg/appsettings/load.go:87-96 | fills in exactly the missing or empty keys, in whatever order |
| Settings.Server.LoadIntoConfig | pkg/appsettings/load.go:99-377 | each field gets its block's value from the table, or keeps what it held; a duration is kept as text and parsed |
| Settings.Server.ValidateDurationSettings | pkg/appsettings/handler.go:40-54 | accepts exactly the updates whose duration keys all parse or are one of their special values |
| Settings.Server.HandlePutSettings | pkg/appsettings/handler.go:86-117 | protected keys never change; a rejected body changes nothing; an accepted one is stored whole and the config reloaded |
| SettingsRuns.ValidatedIff | pkg/appsettings/handler.go:18-36 | every setting loaded as a duration is validated but the device code expiration |
| SettingsRuns.AcceptedExactly | pkg/appsettings/handler.go:18-54 | which texts are accepted besides durations, for which of them |
| SettingsRuns.ProtectedStay | pkg/appsettings/handler.go:93-98 | no step writes the private key, and no PUT or import the onboarded flag |
| SettingsRuns.ExportCarriesPassword | pkg/appsettings/handler.go:141-160 | the exported file has the SMTP password exactly when the table has it, and an import overwrites the other server's with it |
| Settings.Server.HandleImportApply | pkg/appsettings/handler.go:211-241 | stores the known, unprotected keys of a valid payload and no others, and reloads |
| Settings.Server.HandleUpdateApplications | pkg/application/handler.go:51-83 | stores one setting without a reload |
| Settings.Server.IsOnboarded | pkg/appsettings/load.go:380-386 | true exactly for a stored value that parses as true |
| Settings.Server.ExecuteOnboard | pkg/cli/onboard.go:53-91 | succeeds exactly on a server that is not onboarded and has no users, for a valid request, if every read and write succeeds; what each failure leaves behind |
| SettingsRuns.Perform | pkg/appsettings/handler.go:86-117 | the methods of the server refine the run model step by step |
| SettingsRuns.RunKeepsInv | pkg/appsettings/handler.go:40-54 | over any run every duration stays acceptable, and after the first start the table is complete and the config agrees with it |
| SettingsRuns.ExportImport | pkg/appsettings/handler.go:211-241 | any exported file is accepted by any server, makes all known unprotected keys equal to the source and leaves every other key alone |
| SettingsRuns.LoadIdempotent | pkg/appsettings/load.go:99-377 | loading twice is loading once |
| SettingsRuns.FieldIsDecidedIff | pkg/appsettings/load.go:99-377 | a field is independent of the earlier config if and only if the text passes its block's guard |
| SettingsRuns.FieldReads | pkg/appsettings/load.go:99-377 | what each kind of block makes of a stored flag, number, duration or text |
| SettingsRuns.OriginsRead | pkg/appsettings/load.go:336-352 | the loaded origins are exactly the trimmed, non-empty comma pieces of the stored text |
| SettingsRuns.UnreadableFlag | pkg/appsettings/load.go:388-394 | an unreadable flag falls back to on for single sign-on and PKCE, else off |
| SettingsRuns.DefaultsAreBuiltInIff | pkg/config/config.go:162-236 | the first start loads the built-in value of every field, whatever the config held, except for three |
| SettingsRuns.UnvalidatedDurationGoesStale | pkg/appsettings/load.go:326-329 | an unparsable device code expiration is stored and shown while the parsed one stays the old |
| SettingsRuns.AuditRetentionGoesStale | pkg/appsettings/load.go:234-239 | switching audit retention off leaves the parsed value behind |
| SettingsRuns.DefaultsKeepIff | pkg/appsettings/load.go:85-96 | filling in the defaults keeps an existing value if and only if it is not empty or its default is empty too |
| SettingsRuns.RestartReplacesEmptyTimeout | pkg/appsettings/load.go:85-96 | so an accepted empty idle timeout, loaded as none, becomes 4h on the next start |
| Settings.Server.HandleOnboardPost | pkg/onboarding/handler.go:31-90 | behind the guards of the command line the account is created and the answer is success even if the flag is not stored |
| SettingsRuns.StepKeepsOnboarded | pkg/appsettings/handler.go:93-98 | no PUT, import, default filling or other step takes the onboarded flag back |
| SettingsRuns.OnboardsIff | pkg/cli/onboard.go:53-91 | onboarding succeeds exactly for a server without the flag and without users and a valid request whose reads and writes succeed |
| SettingsRuns.OnboardsAtMostOnce | pkg/cli/onboard.go:53-91 | over every sequential run, through the page or the command line, at most one onboarding stores the flag, and none succeeds on a server that has it, even if all users are deleted |
| SettingsRuns.OnboardingIsFinalIff | pkg/onboarding/handler.go:71-90 | a successful onboarding is the last one, whatever runs next, if and only if its flag was stored |
| Cors.CorsConfig.Load | pkg/appsettings/load.go:336-352 | the origins are the cleaned pieces whatever the config held, and allow-all is set exactly when one is "*" |
| Cors.CleanMembers | pkg/appsettings/load.go:340-350 | a text is an origin exactly when it is the trimmed, non-empty form of a comma piece |
| Cors.OriginsRoundTrip | pkg/appsettings/load.go:340-350 | re-parsing the comma-joined list gives the same list |
| AppTree.FilterApplications | pkg/application/handler.go:132-165 | the loop computes the pruning by one user's groups |
| AppTree.Prune | pkg/application/handler.go:132-165 | no category of the result is empty, at any depth |
| AppTree.AccessibleIff | pkg/application/handler.go:146-161 | an application is seen exactly if it asks for no group or for one the user has |
| AppTree.PruneKeepsAccessibleLeaves | pkg/application/handler.go:132-165 | the result shows exactly the accessible applications, in order, each under the same chain of categories |
| AppTree.PruneIdentity | pkg/application/handler.go:132-165 | a fully accessible tree without empty categories comes back unchanged |
| AppTree.PruneFusion | pkg/application/handler.go:132-165 | filtering for two sets of users in a row is one pruning for both |
| AppTree.FilterIdempotentAndCommutes | pkg/application/handler.go:132-165 | filtering is idempotent and two filters commute |
| AppTree.FilterMonotone | pkg/application/handler.go:146-161 | with fewer groups one sees a pruning of what one sees with more |
| DeviceCodes.DeviceCodeStore.CreateDeviceCode | pkg/devicecode/create.go:5-12 | inserts unless the device code or the user code exists |
| DeviceCodes.DeviceCodeStore.AuthorizeDeviceCode | pkg/devicecode/update.go:9-15 | binds the user, on a pending row only |
| DeviceCodes.DeviceCodeStore.DenyDeviceCode | pkg/devicecode/update.go:17-23 | denies, a pending row only |
| DeviceCodes.DeviceCodeStore.ConsumeDeviceCode | pkg/devicecode/update.go:25-31 | consumes, an authorized row only |
| DeviceCodes.DeviceCodeStore.IncrementInterval | pkg/devicecode/update.go:34-40 | adds five seconds to one row |
| DeviceCodes.DeviceCodeStore.UpdateLastPolledAt | pkg/devicecode/update.go:42-48 | stamps one row |
| DeviceCodes.DeviceCodeStore.Check | pkg/account/device.go:114-128 | the verdict of the handlers' check on the one row with that user code |
| DeviceCodes.StepAdvances | pkg/devicecode/update.go:9-40 | under interleaving one statement makes at most one legal transition, and counts a slow_down exactly when it issues one |
| DeviceCodes.ReachableInv | pkg/account/device.go:95-136 | in every reachable state the user is bound exactly on authorized and consumed rows, and is who received tokens |
| DeviceCodes.RunAdvances | pkg/token/device_code.go:41-52 | over any run a row only advances, its user never changes, and its interval is the start plus five per slow_down (section 3.5 of RFC 8628) |
| DeviceCodes.GoneStaysGone | pkg/cleanup/service.go:35-35 | a deleted row never comes back |
| DeviceCodes.OneUserPerCode | pkg/token/device_code.go:54-76 | no two users receive tokens for one code, in no interleaving and also after its row is deleted |
| DeviceCodes.GrantedTwiceIff | pkg/token/device_code.go:54-76 | once no poll is under way tokens were granted as often as polls had read the row as authorized, so twice if and only if a second one read it before the first consumed it |
| DeviceCodes.TwoPollsTwoGrants | pkg/token/device_code.go:74-76 | an interleaving in which one code is granted twice |
| DeviceCodes.Perform | pkg/devicecode/update.go:9-48 | every step of the interleaving model writes the table as one statement of the store does |
| DeviceCodes.NoGrantAfterGrant | pkg/token/device_code.go:54-80 | a poll that starts after a grant reads a consumed row |
| DeviceCodes.PollAnswerFits | pkg/token/device_code.go:15-81 | the answer to a poll, decided on the row it reads, is the one its later statements carry out |
| DeviceCodes.PollAnswersIff | pkg/token/device_code.go:30-81 | each answer to a poll with its exact condition on client, expiry, interval and status |
| DeviceCodes.NextPoll | pkg/token/device_code.go:41-52 | every poll stamps its row: one within the interval after it is told to slow down, a later one is not |
| DeviceCodes.DecisionStartsIff | pkg/account/device.go:108-136 | a decision goes ahead exactly for a pending row with that user code, an approval only before it expires |
| DeviceCodes.DecisionsWrite | pkg/devicecode/update.go:9-31 | approval, denial and consumption change exactly the rows in the status they are for |
| DeviceCodes.CleanShowsIff | pkg/token/device_code.go:23-41 | a deletion by the cleaner changes a poll's answer if and only if the row was there and under the threshold; without a threshold in the future only expired codes are answered differently |
| DeviceCodes.PollKnowsCodeIff | pkg/token/device_code.go:23-28 | over every run and interleaving, a poll is told that its code is unknown if and only if some tick had a threshold past its expiry |
| DeviceCodes.AuthorizedAnswerIsTrueIff | pkg/account/device.go:130-135 | the answer "authorized" is true exactly when the row was still pending, or already authorized for the same user |
| DeviceCodes.AuthorizedAnswerCanBeFalse | pkg/account/device.go:114-135 | an interleaving in which it is false |
| UserCodes.GenerateUserCode | pkg/devicecode/service.go:24-35 | eight letters of the alphabet, one per draw |
| UserCodes.NormalizeIsOnePass | pkg/devicecode/service.go:46-51 | the three passes equal one filter-and-upper-case pass |
| UserCodes.NormalizeIdempotent | pkg/devicecode/service.go:46-51 | normalizing twice is normalizing once |
| UserCodes.FormatRoundTrip | pkg/devicecode/service.go:38-51 | normalizing the displayed form of a generated code gives the code |
| UserCodes.FormatShows | pkg/devicecode/service.go:37-43 | a code is shown as its first four letters, a hyphen and the other four |
| UserCodes.Consonant | pkg/devicecode/service.go:20-21 | the letters are consonants |
| UserCodes.SmallLettersFind | pkg/devicecode/service.go:46-51 | typed in small letters without the hyphen it is found |
| UserCodes.SameRowIffVariant | pkg/devicecode/service.go:46-51 | two inputs find the same row exactly when they differ only in hyphens, spaces and case |
| UserCodes.VariantFindsItsCodeOnly | pkg/account/device.go:108-114 | every variant of a code's display form finds that code and no other |
| Scopes.FilterScopes | pkg/client/authenticate.go:121-138 | the requested words that the client allows, joined with spaces |
| Scopes.ValidateScopes | pkg/client/authenticate.go:143-159 | accepts exactly requests within the client's scopes |
| Scopes.FilteringIsSound | pkg/client/authenticate.go:121-159 | a filtered request always validates, grants exactly the common scopes, and filtering again is a no-op |
| Scopes.FilteringKeepsOrder | pkg/client/authenticate.go:121-138 | the result is the subsequence of allowed words, in the order of the request |
| Scopes.ContainsPromptValue | pkg/consent/model.go:60-67 | true exactly if the prompt has the word |
| Scopes.ScopesCovered | pkg/consent/model.go:69-80 | true exactly if every requested scope was granted |
| Scopes.DecideConsent | pkg/consent/model.go:45-58 | asks exactly if consent is required and the prompt says so, nothing was granted, or the grant does not cover the request |
| Scopes.ConsentFollowsLastGrant | pkg/consent/create.go:10-28 | after any history of grants by anyone to anyone only the last one of this user to this client decides: grants replace each other, they are not merged |
| Scopes.FilteredRequestStaysConsented | pkg/consent/model.go:45-58 | a granted request cut down by the client's scopes is not asked for again |
| Text.FieldsOfJoin | pkg/client/authenticate.go:126-137 | splitting joined words gives the words back |
| Text.SplitOfJoin | pkg/appsettings/load.go:340-341 | splitting comma-joined pieces gives the pieces back |
| Text.JoinOfSplit | pkg/appsettings/load.go:340-341 | joining the pieces of a split gives the text back |

## Left out

- SweepExactly.CleanerInvisibleIff: compares authorize requests, consent decisions, code redemptions and refreshes, under fixed timeouts and a fixed retention (of any sign). The consent page itself has the same session check as its decision and is not a step; device polls are in `DeviceCodes`, see `DeviceCodes.CleanShowsIff`. A sweep is meant to change what introspection, the bearer check and the admin pages answer about the tokens it revokes, so these are not compared. The `hasSession` hint is not either, see `SweepInvisible.HintOnlyFades`.
- Liveness.DeadStaysDead: speaks of the database part of the two readers; the JWT check, the `azp` check and the user-deactivated check are left out, the last because reactivating a user undoes it.
- Liveness.ReadersAgree: leaves out the same checks.
- ServerRuns.ReachableInv: a step is a whole request or a whole tick at one clock instant, so a sweep between auto-login's read and its bump, or between the tables of a user's deletion, is not modelled; device codes are, statement by statement.
- SessionStore.Database.DeleteExpiredTransientRows: the tables that only the cleaner empties (MFA and passkey challenges, trusted devices, password reset and magic link tokens) are not part of the state; device codes are cleaned in `DeviceCodes`.
- SessionStore.Database.Run: the audit log and its cleaning are not modelled.
- SessionStore.Database.TryAutoLogin: redirect URI, nonce and PKCE fields of the code are not kept.
- SessionStore.Database.RedeemCode: a failing SELECT, and a failing revocation on a replay, whose error the source ignores, are not modelled.
- SessionStore.Database.RefreshPair: the same, and a failing bump of the login; the time of issue in the token row is not kept, it only goes into an ID token, and without the row there is none.
- SessionStore.Database.HardDeleteUser: the tables emptied before and after these four, the user row among them, are not part of the state.
- Settings.Server.LoadIntoConfig: a config field is found by the key of its setting, the blocks run in any order (they touch disjoint fields), and the CSS file read from disk is left out; the allow-all flag is in `Cors`.
- Settings.Server.HandlePutSettings: reads and writes of the store succeed; a write that fails half way is not modelled.
- SettingsRuns.OnboardsAtMostOnce: for requests one after the other; two onboarding requests at once are not modelled. The role of the new account is not part of the state.
- UserCodes.NormalizeIsOnePass: letters outside ASCII are not upper-cased.
- DeviceCodes.ReachableInv: a poll whose user no longer exists ends without a grant and is not a separate step.
- Listers.ListDeletionRequests: which conditions hold of a row and how its column values compare is up to the database; rows that compare equal come in the order of FROM.
- `RevokeTokensByUserAndClient` ignores its client argument in the source; the run model does the same.
- The instant between the two expiry checks of a refresh token.
- The client row: deleting a client is modelled by its effect on the consents; whether a client is active is one of the checks of a request.
- The account page's list configuration, which is the same as that of the admin's login list but for its name.
- `pkg/consent/delete.go`, whose functions nothing calls.
- `ParseListParams`, `ParseFilters`, the import preview, `DescribeScopes`, `GetForClient` and `InitBootstrap`: short computations that would only add easy members.
- HTTP parsing, JSON, cookies, templates, redirects, logging, audit writes, email, the UIs and the CLI.
- Cryptography and randomness: generated values are new, signature and password checks are booleans.
- The certificate authority, MFA, passkeys, federation protocol and user management beyond what changes the session tables.
