# KySignOn: a model and its proofs

A Dafny model of the parts of KySignOn whose guarantees hold over whole runs, with proofs of those
guarantees. SQL tables are maps and sets keyed by their primary keys; a transaction, a Durable Object
turn or a statement run on its own is one atomic step; a clock reading is an integer parameter. A
refused transaction returns the state it was given.

`dafny verify dfyconfig.toml` checks everything.

| module | what it models |
|---|---|
| `Optional` | the option type |
| `Ranking` | the first rows of a set in an order, as `ORDER BY … LIMIT` and `ROW_NUMBER` pick them |
| `Coordinator` | the push relay's Durable Object, turn by turn, on mutable storage |
| `TokenProtocol` | device-token ownership: claims, takeovers, deliveries and settlements interleaving freely |
| `Takeovers` | what a takeover has seen, how old it was, and what can come between |
| `Registration` | overlapping key registrations from one address: claim, mint, confirm, revoke |
| `RegistrationIndex` | the id index beside the key records |
| `Budget` | the relay's daily budget over call sequences |
| `Directory` | the rows behind application access, the views that decide it, and when it ends |
| `Grants` | tokens, codes, revocation statements and the transactions that edit access |
| `Expiry` | the background expiry pass |
| `AccessRuns` | runs of all these commits: what is still live, and why |
| `AccessLocality` | whom a commit can reach, and expiry passes that other commits interleave with |
| `RoleFollowUp` | what a changed membership ends, and why no grant outlives its roles |
| `Revisions` | an app record's revision as a lock |
| `GrantEffects` | when each commit is accepted, and what else it writes |
| `Administrators` | whether someone who can administer is left |
| `AccessDatabase` | the transactions on stored rows |
| `Enrollment` | overlapping MFA enrollment policies, permitted factors and deadlines |
| `EnrollmentEffects` | what each enrollment transaction writes, whom it binds, and who may act |
| `EnrollmentGrants` | the grants those edits end |
| `Authentication` | app authentication policies, client requests and the deadline a code carries |
| `Limiter` | the sweeping token-bucket limiter against one that forgets nothing |
| `SlowLimits` | what it admits for limits of any speed |
| `Interactions` | the bounded table of pending authorization requests |
| `Alerts` | the batched audit evaluator and the outage pass |
| `Registry` | application records, and linking and unlinking their connections |
| `RegistryEffects` | what a connection keeps through links and unlinks |

## What is proved, in brief

**Relay.** In every interleaving `inflight` equals the owner's outstanding sends if and only if no key
reclaims a token while sends of a displaced claim of its own are outstanding
(`TokenProtocol.ExactIffDisciplined`); a displaced key that stays inactive never does that. Under that
discipline a claim is released only when nothing is outstanding and nothing arrived, all deliveries
between two takeovers are one key's, and at rest the token is owned exactly when something was
delivered. Registrations leave exactly the keys the protocol's order determines, and exactly one under
an exact condition. A confirmed owner keeps its token while its key is active, on every run. The budget
admits exactly `min(limit, calls)` a day if and only if the calls fit the limit or the clock comes to
that day only once. A takeover acts only on a claim that was a minute old, of an inactive key.

**Access.** A live token or code belongs to a user who had effective access at every commit since issue
that ran the follow-up, so re-granting revives nothing. The end of access is its exact boundary. The
expiry pass changes no verdict, is idle when repeated, spares everyone it finds nothing for, and, run
alone, never removes the last administrator. No commit changes the access of anyone it does not touch.
No token or code outlives a change of the roles it stands for, and no edit is accepted on a record that
has changed since it was read. Whatever commits leaves an administrator who can act, but for one exact
case; and one without an end remains on every run in which no commit takes the last such.

**Enrollment.** The view's sum of per-bit minima is the intersection of all applicable policies; nobody
is ever left without a permitted factor; every obligation has a deadline, no deadline ever moves later,
and its grace is given once. But for role edits that do not revoke and for lost app records, a grant
outlives only edits that leave its user's bindings as they were. Every accepted step writes exactly what
was asked, table by table and date by date.

**Authentication.** After any history of policy edits, an exchange passes only if the login still meets
the app's current policy and the client's request, and a live code of the current revision fails only
if it does not, also when the client's record is linked and unlinked in between. A code is redeemed at
most once.

**Bounds.** Sweeping is invisible to a key, on every run in which it finds room and whatever the other
keys do, if and only if its empty bucket refills within the shortest idle time after which it is dropped.
A key of any speed is admitted at most its allowance once, and once more per whole idle time of the
window, plus the refill. The interaction table keeps its three caps in every reachable state and
anonymous requests never fill it against anyone. Batches of any size, retried in any way, are one fold;
alert counts add up; each observed breakdown opens one alert.

**Registry.** Every connection is in exactly one record and no record is empty. Connection by connection,
a link changes access exactly where a launcher or system joins a client that is switched off, and an
unlink exactly where a lapsed direct grant is copied without its end or a switched-off client is left.
What a connection asks of a login, says about it and gives in roles never changes on the way.

## Where the code and its words differ

The model follows the code; each difference has a concrete run or an exact condition.

- `push-relay-shared/push-relay-common.ts:887` says an address ends with exactly one key. Two can remain:
  `Registration.TwoKeysSurvive`, with the condition in `Registration.OneKeyIffNobodyStranded`.
- `internal/api/middleware.go:155` says dropping a bucket loses nothing. It does for limits that refill
  slowly, such as the one for reset mail (`internal/api/onboarding_handlers.go:199`):
  `Limiter.ResetBucketForgets`, with the condition in `Limiter.SweepInvisibleIff`.
- `internal/store/app_registry.go:252` copies direct grants without `expires_at`:
  `Registry.UnlinkRevivesLapsedGrant`, with the condition in `Registry.UnlinkChangesAccessIff`.
- A client that is switched off hides its whole record (`internal/store/app_access.go:62`), so unlinking
  its launcher entry shows that entry to its users again: `Registry.UnlinkShowsHiddenLauncher`, under the
  same condition.
- `README.md:284` says losing effective access invalidates codes in the same transaction. Disabling a
  client ends its tokens and leaves its codes (`internal/store/store.go:1984`):
  `AccessRuns.StrandedCodeReturns`, with the condition in `AccessRuns.CommitKeepsAccessUnlessStranding`.
- `internal/store/expiry.go:80-81` says an instant extended before the run is untouched. One extended
  between the pass's query and its delete is lost: `AccessLocality.ExtensionIsLost`,
  `AccessLocality.GrantExtensionIsLost`, `AccessLocality.AccountExtensionIsLost`. Exactly whose access goes
  with it is in `AccessRuns.LeftAccess` and `AccessRuns.LapsedAccess`.
- `internal/store/expiry.go:96` says the last administrator is kept. The role is the one read by the query,
  so an account promoted since is ended as an ordinary one:
  `Administrators.StaleRoleEndsLastAdministrator`, with the condition in `Administrators.LastAdministratorIff`.
- `internal/store/store.go:735-736` says scheduling the last administrator's end is refused. The guard counts
  those who can act now, so two administrators can each be given an end:
  `Administrators.EveryAdministratorScheduled`, with the condition in `Administrators.LastStandingIff`.
- `internal/store/delegations.go:100` says a changed requirement set invalidates outstanding grants. A deleted
  or linked app record takes its owners' delegations along (`internal/store/delegations.go:30`) and ends no
  grant: `EnrollmentGrants.LostShopFreesAnn`, with the condition in
  `EnrollmentGrants.ChangedBindingsEndGrants`.
- `internal/store/alerts.go:227-228` says an alert is resolved once its source is quiet. Failures that name
  neither account nor address are filed under a key the query compares with columns it is not in, so
  theirs is resolved while they go on: `Alerts.NamelessFailuresAreForgotten`, with the condition in
  `Alerts.FailureKeepsItsAlertIff`.
- `push-relay-shared/push-relay-common.ts:371-373` says a re-claim by the owner beats the takeover. The
  comparison is with the key, not with its claim, so it does not: `Takeovers.ReclaimDoesNotBeatTakeover`,
  with the condition in `Takeovers.SwapTakesIff`.
- The coordinator's count assumes that a displaced key does not come back:
  `TokenProtocol.ReclaimReleasesUnderASend` is a run in which it does.

## Model

| member | source | states |
|---|---|---|
| `Coordinator.RelayCoordinator.CurrentOwner` | push-relay-shared/relay-coordinator.ts:83-99 | the owner is read from storage, adopting the legacy owner once, on the first touch |
| `Coordinator.RelayCoordinator.ClaimedAt` | push-relay-shared/relay-coordinator.ts:118-127 | a claim of unknown age is stamped as taken now, and nothing else changes |
| `Coordinator.RelayCoordinator.ClaimToken` | push-relay-shared/relay-coordinator.ts:129-186 | a claim turn takes a free or ceded token, rides along on its own, and only reports another's |
| `Coordinator.RelayCoordinator.SettleToken` | push-relay-shared/relay-coordinator.ts:192-217 | a settle turn confirms on delivery, counts down, and releases an unconfirmed claim with nothing left in flight |
| `Coordinator.RelayCoordinator.ClaimRegistrationIp` | push-relay-shared/relay-coordinator.ts:232-249 | a registration claim displaces and reports the key that held the address |
| `Coordinator.RelayCoordinator.ConfirmRegistrationIp` | push-relay-shared/relay-coordinator.ts:251-253 | a confirmation succeeds exactly for the current claimant |
| `Coordinator.RelayCoordinator.SpendDailyBudget` | push-relay-shared/relay-coordinator.ts:292-310 | a spend turn resets on a new day, refuses at the limit and counts what it admits |
| `TokenProtocol.StepKeeps` | push-relay-shared/relay-coordinator.ts:129-217 | every step of the protocol keeps: the count is exact, deliveries of one era are one key's, takeovers come only from inactive keys |
| `TokenProtocol.RunKeeps` | push-relay-shared/push-relay-common.ts:375-419 | the same over every disciplined run, however sends interleave |
| `TokenProtocol.ExactIffDisciplined` | push-relay-shared/relay-coordinator.ts:151-217 | on any run, the stored count is exact throughout if and only if no key reclaims a token while its own earlier sends are outstanding |
| `TokenProtocol.IndisciplineBreaksCount` | push-relay-shared/relay-coordinator.ts:129-149 | one undisciplined reclaim makes the count wrong at once |
| `TokenProtocol.StayingAwayIsDisciplined` | push-relay-shared/push-relay-common.ts:304-311 | if displaced keys never claim again, the run is disciplined |
| `TokenProtocol.ReleaseOnlyWhenNothingArrived` | push-relay-shared/relay-coordinator.ts:192-217 | a claim is released only when no other send of its era is outstanding and none delivered |
| `TokenProtocol.OneDelivererBetweenTakeovers` | push-relay-shared/relay-coordinator.ts:151-186 | between two takeovers all delivered sends come from one key |
| `TokenProtocol.OwnedIffDelivered` | push-relay-shared/relay-coordinator.ts:192-217 | once all sends have settled the token is owned if and only if something delivered since the last takeover, or the owner was adopted; the deliverer owns it |
| `TokenProtocol.ActiveOwnerKeepsToken` | push-relay-shared/push-relay-common.ts:375-419 | from any point of any run on, disciplined or not, a confirmed owner whose key stays active keeps the token, and no other key's send is let through |
| `TokenProtocol.DisplacedWereRevoked` | push-relay-shared/push-relay-common.ts:405-419 | on every run only keys that were inactive are displaced or about to be |
| `TokenProtocol.LegacyIgnoredAfterFirstTouch` | push-relay-shared/relay-coordinator.ts:83-99 | after the first touch, replacing every legacy value a caller passes changes nothing on any run |
| `TokenProtocol.ReclaimReleasesUnderASend` | push-relay-shared/relay-coordinator.ts:192-217 | a concrete run in which a displaced key returns and the token is released while a send is in flight |
| `Takeovers.JudgeIff` | push-relay-shared/push-relay-common.ts:404-411 | a takeover is tried if and only if the claim as reported was at least a minute old and its owner's key is inactive |
| `Takeovers.TakeoverWasJudged` | push-relay-shared/push-relay-common.ts:404-411 | on every run, whoever is about to take over was told so at some point of it |
| `Takeovers.ClaimReports` | push-relay-shared/relay-coordinator.ts:129-186 | what a send is told about the owner and the claim's age is what storage says after that turn |
| `Takeovers.StampsLast` | push-relay-shared/relay-coordinator.ts:101-127 | a claim keeps its stamp while it lasts, and a missing one is set once, to the instant it is first seen |
| `Takeovers.SwapTakesIff` | push-relay-shared/push-relay-common.ts:413-417 | the takeover turn is let through if and only if the token is free, still the expected key's, or its own by now; otherwise the owner stays |
| `Takeovers.ReclaimDoesNotBeatTakeover` | push-relay-shared/push-relay-common.ts:371-417 | a concrete run in which the owner claims again before the takeover and is displaced all the same |
| `Registration.StepKeeps` | push-relay-shared/push-relay-common.ts:945-983 | every step of overlapping registrations keeps the chain of claimants and what each has minted, confirmed and revoked |
| `Registration.RunKeeps` | push-relay-shared/push-relay-common.ts:945-983 | the same over every interleaving of any number of registrations |
| `Registration.ActiveKeysAtRest` | push-relay-shared/push-relay-common.ts:945-1007 | at rest the active keys are exactly the last claimant, each confirmed key whose successor was displaced before confirming, the previous key under the same condition, and keys of other addresses |
| `Registration.OneKeyIffNobodyStranded` | push-relay-shared/push-relay-common.ts:887-983 | the last claimant's key survives, and it is the only one if and only if no such stranded predecessor exists |
| `Registration.TwoKeysSurvive` | push-relay-shared/push-relay-common.ts:887-983 | a concrete run of two registrations that leaves two active keys |
| `RegistrationIndex.IndexMatchesAtRest` | push-relay-shared/push-relay-common.ts:945-1007 | however registrations overlap, at rest the id index names exactly the keys that have a record |
| `Budget.SpendExactly` | push-relay-shared/relay-coordinator.ts:292-310 | from any stored count, a day admits what is left of the limit and no more than is asked, and the stored count equals what was admitted |
| `Budget.TurnCounts` | push-relay-shared/relay-coordinator.ts:292-310 | one turn is admitted exactly below the limit and then adds one to its day's count |
| `Budget.DailyBudgetExact` | push-relay-shared/relay-coordinator.ts:292-310 | from fresh storage, with days that never go back, each day admits exactly `min(limit, calls)` |
| `Budget.SteppingBackOverspends` | push-relay-shared/relay-coordinator.ts:292-310 | a limit of one and a clock that steps back: the first day admits two |
| `Budget.BudgetExactIff` | push-relay-shared/relay-coordinator.ts:292-310 | whatever the clock does, a day admits exactly `min(limit, calls)` if and only if the limit is zero, the calls fit it, or the clock comes to that day only once |
| `Directory.GrantRowsDecide` | internal/store/app_access.go:57-65 | a grant holds at an instant exactly when some grant row is live at it |
| `Directory.QueryGrants` | internal/store/expiry.go:240-262 | the rows read for the end of access are exactly the live grant rows |
| `Directory.LatestBound` | internal/store/expiry.go:240-262 | the loop finds whether a row has no bound, and otherwise the latest bound |
| `Directory.AccessEndsAt` | internal/store/expiry.go:225-265 | when access holds now, for every later instant access holds if and only if there is no end or the instant is before it |
| `Directory.BoundaryIsExact` | internal/store/expiry.go:225-265 | the specified end is the exact boundary of the union of grants and the account |
| `Directory.TokenNeverOutlivesAccess` | internal/oauth/oauth.go:350-357 | a token issued with access expires no later than access ends or 15 minutes, and is cut short only where access ends |
| `Grants.RoleChangeTx` | internal/store/app_roles.go:166-202 | the loop over affected users equals one set-based bump and revocation |
| `Grants.RoleChangeForApps` | internal/store/groups.go:328-339 | the loop over apps equals the change for all of them at once |
| `Grants.RevokeTwice` | internal/store/app_access.go:75-92 | two revocations leave exactly what neither touches |
| `Grants.RevokeSum` | internal/store/app_roles.go:166-202 | revoking users one set after the other equals revoking their union |
| `Grants.RevokeSumClients` | internal/store/app_roles.go:166-202 | the same for clients |
| `Grants.RoleChangeOneMore` | internal/store/groups.go:328-339 | changing one more app equals changing the larger set |
| `Expiry.EndAccountsEffect` | internal/store/expiry.go:95-134 | whatever the order, ending due accounts disables all but the one refused administrator |
| `Expiry.PassEffect` | internal/store/expiry.go:82-204 | a pass removes exactly the due rows and disables exactly the due accounts, but one kept administrator |
| `Expiry.PassLeavesNothingPast` | internal/store/expiry.go:82-204 | after a pass no membership, direct grant or active account is left whose end has come |
| `Expiry.PassKeepsVerdicts` | internal/store/expiry.go:82-204 | for every app, every instant from now and every user but the kept administrator, access, roles and the end of access are the same before and after |
| `Expiry.SecondPassIsIdle` | internal/store/expiry.go:82-204 | a second pass at the same instant finds nothing due and changes no row, token, code or request |
| `Expiry.FollowUpTwice` | internal/store/groups.go:238-243 | the whole-directory follow-up is idempotent |
| `Expiry.AnAdministratorRemains` | internal/store/expiry.go:95-134 | an administrator with no passed end remains; none is refused if one existed, exactly one if all had ended, in every order |
| `AccessRuns.CommitShrinks` | internal/store/app_access.go:119-147 | no commit but issuing adds or revives a token or code |
| `AccessRuns.CommitRevivesNothing` | internal/store/app_access.go:75-92 | no commit un-revokes a token or brings back a code |
| `AccessRuns.RunRevivesNothing` | internal/store/groups.go:228-243 | the same over every run |
| `AccessRuns.FollowUpLeavesAccess` | internal/store/app_access.go:75-92 | after a commit with the follow-up every live token and every code has effective access |
| `AccessRuns.FollowUpEndsOnlyLost` | internal/store/app_access.go:75-92 | a follow-up, also the one that closes an expiry pass, ends nothing else: a grant of anyone whose own rows the commit leaves alone survives if and only if it was live and has access |
| `AccessRuns.LiveTokenHeldAccess` | internal/store/app_access.go:75-92 | a token live at the end of a run belongs to a user who had access at every such commit of the run |
| `AccessRuns.LiveCodeHeldAccess` | internal/store/app_access.go:75-92 | the same of a code |
| `AccessRuns.LiveTokenHistory` | internal/store/store.go:2126-2144 | every live token was issued at some commit with access and its user held access at every follow-up since |
| `AccessRuns.LiveCodeHistory` | internal/store/store.go:2051-2092 | every code that still exists was created at some commit with access and its user held access at every follow-up since |
| `AccessRuns.CommitKeepsAccessUnlessStranding` | internal/store/store.go:1984-2009 | a commit keeps every live grant backed by access if and only if it does not disable a client that has pending codes, and is not an expiry item whose row was extended after the query and on which a grant's access hangs |
| `AccessRuns.StrandedCodeReturns` | internal/store/store.go:1984-2009 | a code stranded by disabling its client is backed again once the client is enabled |
| `AccessRuns.PreviewMatchesEdit` | internal/store/app_access.go:213-241 | the users a policy preview counts as gained and lost are those the edit gains and loses, and no other app changes |
| `RoleFollowUp.MembershipEffect` | internal/store/groups.go:247-343 | an accepted change raises both revisions of exactly the apps that give the group a role; of the user's grants it ends those at such an app's client, or all under a required policy; of everybody's, those without access; and no others |
| `RoleFollowUp.DeletionEffect` | internal/store/groups.go:128-188 | a deleted group does the same to all its members |
| `RoleFollowUp.LeaveRevisions` | internal/store/expiry.go:143-161 | an ended membership raises the same revisions |
| `AccessRuns.LeaveSpares` | internal/store/expiry.go:143-161 | an ended membership ends the user's grants exactly at the clients of apps that give the group a role, or everywhere under a required policy, and nobody else's |
| `RoleFollowUp.WhoHoldsRole` | internal/store/app_roles.go:396-403 | a role is held by whom it is given to and by the current members of the groups it is given to |
| `RoleFollowUp.GrantsKeepTheirRoles` | internal/store/app_roles.go:162-202 | whatever commits, a token or code that is still good stands for exactly the roles it stood for, at every instant |
| `RoleFollowUp.LiveTokenKeepsItsRoles` | internal/store/app_roles.go:162-202 | the same over every run, for tokens |
| `RoleFollowUp.CodeKeepsItsRoles` | internal/store/app_roles.go:162-202 | the same over every run, for codes |
| `Revisions.AcceptedEditsAreCurrent` | internal/store/app_access.go:119-147 | a policy edit is accepted after any run of other commits only if the record and its direct grants are as they were read |
| `Revisions.SecondEditIsRefused` | internal/store/app_access.go:119-147 | of two edits made on the same record the second is refused, whatever comes between |
| `GrantEffects.AcceptedIff` | internal/store/groups.go:247-299 | each commit is accepted if and only if the rows it finds allow it, put row by row |
| `GrantEffects.RefusedChangesNothing` | internal/store/groups.go:209-226 | a refused commit leaves no trace |
| `GrantEffects.UserEditEnds` | internal/store/store.go:771-781 | an account edit stores what was asked, and ends the account's grants if and only if it disables the account or is asked to |
| `GrantEffects.EndItemEnds` | internal/store/expiry.go:101-124 | an account item ends all the account's grants, or for the last administrator drops the end and ends none |
| `GrantEffects.ClientEditEnds` | internal/store/store.go:1984-2009 | a client edit switches that client only, and ends its tokens if and only if it is switched off or they are to be revoked; codes stay |
| `GrantEffects.IssuedAsAsked` | internal/store/store.go:2126-2144 | an accepted token is live, its user's and its client's, with its own end, and nothing else is written |
| `GrantEffects.CodeIsSpentOnce` | internal/store/store.go:2106-2118 | a stored code can be spent once and no more, and its id is not accepted again |
| `GrantEffects.RequestsRunOut` | internal/store/access_requests.go:321-324 | a pass closes exactly the pending requests whose time has run out |
| `AccessDatabase.AccessStore.EditPolicy` | internal/store/app_access.go:119-147 | accepted exactly on the current revision, the policy is stored under the next one and every live grant has access; refused, nothing changes |
| `AccessDatabase.AccessStore.EditAssignment` | internal/store/app_access.go:340-378 | accepted exactly when app and principal exist and the end lies ahead, the row is as asked and every live grant has access; refused, nothing changes |
| `AccessDatabase.AccessStore.EditMembership` | internal/store/groups.go:209-299 | the membership is as asked and no other changes; the apps that give the group a role, and whose grants end, are as `RoleFollowUp.MembershipEffect` says; refused, nothing changes |
| `AccessDatabase.AccessStore.RemoveGroup` | internal/store/groups.go:128-188 | the group with its memberships, grants and mappings is gone and no other row; revisions and grants are as `RoleFollowUp.DeletionEffect` says; refused, nothing changes |
| `AccessDatabase.AccessStore.RunDueExpiries` | internal/store/expiry.go:82-204 | run alone, the three loops are one pass over exactly the due rows, in the order found |
| `AccessRuns.EndItemKeepsAccess` | internal/store/expiry.go:101-124 | an account item, whenever it commits, leaves every grant backed by access |
| `AccessLocality.PassIsARun` | internal/store/expiry.go:79-204 | a pass that nothing interrupts is the run of its items, each a commit of its own, and the follow-up |
| `AccessLocality.PassEndsOnlyLost` | internal/store/expiry.go:82-204 | a pass ends nothing else: a grant of anyone whose account and memberships it did not find due survives if and only if it was live and has access |
| `AccessLocality.UntouchedByCommit` | internal/store/app_access.go:57-65 | no commit changes, at any instant, the access of a user to an app that it does not touch |
| `AccessLocality.UntouchedKeepAccess` | internal/store/app_access.go:57-65 | the same over every run, with expiry items and edits interleaved in any way |
| `AccessLocality.ExtensionIsLost` | internal/store/expiry.go:135-166 | a membership extended after the pass found it due is removed all the same |
| `AccessLocality.GrantExtensionIsLost` | internal/store/expiry.go:168-190 | so is a direct grant |
| `AccessLocality.AccountExtensionIsLost` | internal/store/expiry.go:97-124 | an account extended after the pass found it due is ended all the same, unless and only unless it is kept as the last administrator's |
| `AccessRuns.LeftAccess` | internal/store/expiry.go:143-161 | a membership item takes away access exactly where that live membership was the only way into a record that admits assigned users only |
| `AccessRuns.LapsedAccess` | internal/store/expiry.go:168-190 | a direct-grant item takes away access exactly where that live grant was the only way in |
| `Administrators.EndItemEmptiesIff` | internal/store/expiry.go:101-124 | an account item leaves no administrator if and only if it ends the only one and had found it as an ordinary account |
| `Administrators.EditKeepsAnAdministrator` | internal/store/store.go:734-752 | no account edit, accepted or refused, takes the last administrator who can act |
| `Administrators.LastAdministratorIff` | internal/store/store.go:734-752 | from a state with an administrator who can act, any commit leaves none if and only if it is an account item that ends the only one as an ordinary account |
| `Administrators.LastStandingIff` | internal/store/store.go:735-752 | any commit takes the last administrator without an end if and only if it is an edit of that one while somebody else can act now, or an item that ends that one unrefused |
| `Administrators.StandsThroughoutIff` | internal/store/store.go:734-752 | over every run, an administrator without an end is there throughout if and only if no commit is such |
| `Administrators.SomeoneCanAlwaysAct` | internal/store/store.go:734-752 | and then an administrator can act at every instant, however late |
| `Administrators.EveryAdministratorScheduled` | internal/store/store.go:735-752 | a concrete run of two accepted edits after which nobody can act from an instant on |
| `Administrators.StaleRoleEndsLastAdministrator` | internal/store/expiry.go:97-124 | a concrete run of accepted commits in which that happens |
| `Enrollment.FactorNames` | internal/store/enrollment_policy.go:33-41 | the names are exactly the factors whose bit is set, each once |
| `Enrollment.MaskOf` | internal/store/enrollment_policy.go:42-52 | the mask is nonzero exactly for a nonempty list of distinct known factors, and has exactly their bits |
| `Enrollment.MaskRoundTrip` | internal/store/enrollment_policy.go:33-52 | naming a mask and reading it back gives the mask |
| `Enrollment.MinSumIsIntersection` | internal/store/group_enrollment.go:75 | the sum of per-bit minima is the bitwise AND of all the rows, and 7 for none |
| `Enrollment.ViewComputesAllowedFactors` | internal/store/group_enrollment.go:72-77 | the view's mask is that of the factors every applicable policy permits, and zero exactly when there is none |
| `Enrollment.SetMissingEffect` | internal/store/group_enrollment.go:82-94 | the triggers set every missing deadline of the user and change no other |
| `Enrollment.TightenEffect` | internal/store/enrollment_policy.go:122 | the upsert dates every obligation and moves none later |
| `EnrollmentEffects.ApplyEnrollmentPolicy` | internal/store/enrollment_policy.go:99-124 | an accepted edit stores what was asked, leaves everyone a permitted factor and every obligation dated within its grace and no later than before; a refused one leaves everything as it was |
| `EnrollmentEffects.AcceptedEditIsStored` | internal/store/enrollment_policy.go:99-124 | an accepted edit of the stored revision binds exactly its scope if required, leaves each user the intersection of its factors with what the other policies leave, stores grace and the next revision, and changes no other row |
| `EnrollmentEffects.EditAcceptedIff` | internal/store/enrollment_policy.go:99-187 | it is accepted if and only if it is well formed and current, leaves everybody a factor, and an administrator who could undo it asks |
| `EnrollmentEffects.StepBinds` | internal/store/group_enrollment.go:66-94 | whom each policy binds after any accepted step, by what was there before |
| `EnrollmentEffects.StepAllows` | internal/store/group_enrollment.go:72-77 | and which factors that leaves them |
| `EnrollmentEffects.StepDates` | internal/store/group_enrollment.go:82-94 | every date after any accepted step, to the second |
| `EnrollmentEffects.StepWritesPeople` | internal/store/store.go:707-760 | accounts after any accepted step: written as asked, and no other |
| `EnrollmentEffects.StepWritesMembers` | internal/store/groups.go:247-299 | likewise memberships |
| `EnrollmentEffects.StepWritesPolicies` | internal/store/enrollment_policy.go:99-124 | likewise policies |
| `EnrollmentEffects.StepWritesFactors` | internal/store/enrollment_policy.go:208-247 | likewise enrolled factors |
| `EnrollmentEffects.StepWritesDelegations` | internal/store/delegations.go:63-106 | likewise delegations |
| `EnrollmentEffects.RoleAcceptedIff` | internal/store/group_enrollment.go:90-91 | a role edit is refused exactly for an unknown account or one it would leave no factor |
| `EnrollmentEffects.DelegationAcceptedIff` | internal/store/delegations.go:63-106 | delegations are refused exactly for an unknown account or app, or where they would leave no factor |
| `EnrollmentEffects.MembershipAcceptedIff` | internal/store/groups.go:247-299 | a membership edit is refused exactly for an unknown group or account or, under a required policy, if it would leave no factor or nobody who could undo it asks |
| `EnrollmentEffects.WhoMayActivate` | internal/store/enrollment_policy.go:139-160 | an active administrator with a live full session may, if bound by no policy or having proved password and a factor every one of them permits within five minutes |
| `EnrollmentEffects.WhoHasFullAccess` | internal/store/enrollment_policy.go:249-257 | a session has full access exactly if nothing binds its user, every grace still runs and nothing permitted is enrolled, or it proved an enrolled permitted factor |
| `EnrollmentEffects.ResetEndsGrace` | internal/store/store.go:2399-2425 | after a reset a bound user has no factor and no grace, and nobody else's grace changes |
| `Enrollment.StepKeeps` | internal/store/enrollment_policy.go:99-187 | every transaction, and the loss of an app record with its delegations, keeps: nobody without a factor, every obligation dated, a newcomer administrator admitted |
| `Enrollment.NobodyIsEverLockedOut` | internal/store/group_enrollment.go:66-94 | in every reachable state every user may enroll some factor and every obligation has a deadline |
| `Enrollment.DeadlinesOnlyTighten` | internal/store/enrollment_policy.go:121-123 | along any run a user's deadline for a policy never moves later until the user or group is deleted |
| `Enrollment.HistoryOnlyTightens` | internal/store/group_enrollment.go:10-11 | the same between any two points of any history of an installation |
| `Enrollment.NewDateIsGraceFromNow` | internal/store/group_enrollment.go:82-94 | a date that appears, by whatever step, is the grace of the policy that brought it, counted from that instant |
| `Enrollment.GraceNeverRestarts` | internal/store/group_enrollment.go:10-11 | from the step that first dates an obligation, and until its user or group is deleted, the date never passes that instant plus that grace, though the user leaves, rejoins or is edited |
| `Enrollment.DueDateIsStored` | internal/store/group_enrollment.go:76 | in every reachable state a bound user's due date is the earliest stored deadline; the fallback of 0 is never used |
| `Enrollment.InGraceIsBeforeDue` | internal/store/group_enrollment.go:76 | being within every obligation's grace is the view's comparison with the earliest due date |
| `Enrollment.NewAdministratorAdmittedIff` | internal/store/group_enrollment.go:82-83 | creating an administrator leaves them a factor if and only if the first two policies share one |
| `Enrollment.CompatibilityAloneIsNotEnough` | internal/store/enrollment_policy.go:114-120 | checking existing users alone would let a conflicting pair through and lock out the next administrator |
| `Enrollment.AdministratorWitness` | internal/store/enrollment_policy.go:139-160 | an administrator with a permitted factor shows that the first two policies share one |
| `Enrollment.ActivatorKeepsAccess` | internal/store/enrollment_policy.go:172-187 | whoever commits a policy edit keeps full session access under it |
| `Enrollment.LastCompliantFactorIsKept` | internal/store/enrollment_policy.go:208-247 | removing a factor is refused exactly when it is a bound user's only permitted one, and compliance is kept |
| `EnrollmentGrants.EnrollmentStore.SetEnrollmentPolicy` | internal/store/enrollment_policy.go:172-206 | an accepted edit was current and asked for by someone who may, stores exactly what was asked, settles everyone and ends every code, interaction and token; a refused one changes nothing; the invariant is kept |
| `EnrollmentGrants.EnrollmentStore.PreviewEnrollmentPolicy` | internal/store/enrollment_policy.go:162-171 | a preview exists exactly when the edit is valid, counts the bound users, those without a permitted factor and the sessions the edit would leave restricted, and answers yes exactly when the commit would go through for whoever asks |
| `EnrollmentGrants.WhomThePreviewCounts` | internal/store/enrollment_policy.go:133-140 | the counts are of active users whom some policy binds, of those among them without an enrolled permitted factor, and of live sessions without full access, for a group's policy among its members |
| `EnrollmentGrants.EnrollmentStore.SetGroupMembership` | internal/store/groups.go:247-299 | the transaction on stored rows is the specified membership edit; accepted, the membership is as asked; the grants that end are exactly the user's, when a required policy is concerned; the invariant is kept |
| `EnrollmentGrants.EnrollmentStore.SetDelegations` | internal/store/delegations.go:63-106 | inserting delegations row by row under the trigger, up to an unknown app, equals one change or none; accepted, the rows are as asked and exactly the user's grants end; the invariant is kept |
| `EnrollmentGrants.WhichGrantsEnd` | internal/store/group_enrollment.go:111-121 | which grants each accepted edit ends, edit by edit, and that it ends no others |
| `EnrollmentGrants.ChangedBindingsEndGrants` | internal/store/group_enrollment.go:111-121 | a user with a grant left after an edit is bound as before, unless and only unless the required administrator policy hangs on the role alone and an account edit changes the role without revoking, or on the ownership of one app alone and that app's record goes |
| `EnrollmentGrants.LostRecordFreesItsOwner` | internal/store/delegations.go:27-34 | once an app's record goes, someone who was bound only as its owner is no longer bound, and every grant stays |
| `EnrollmentGrants.LostShopFreesAnn` | internal/store/app_registry.go:66-67 | a concrete installation in which that happens |
| `EnrollmentGrants.OutstandingMeansBoundAlike` | internal/store/group_enrollment.go:111-112 | a grant still outstanding after any run without such an edit or loss belongs to a user bound exactly as at the start; a change and its undoing end it all the same |
| `EnrollmentGrants.HistoryMeansBoundAlike` | internal/store/group_enrollment.go:111-112 | the same from any point of any history of an installation |
| `Authentication.DeadlineIsExact` | internal/store/app_authentication.go:30-69 | evidence good at one instant stays good exactly up to the policy's deadline |
| `Authentication.StrongerAcceptsLess` | internal/store/app_authentication.go:20-54 | a policy that asks for at least as much accepts no evidence the weaker one rejects, and each strength needs its own proof |
| `Authentication.CombinedIsBoth` | internal/oauth/authentication_request.go:86-119 | the combination accepts exactly what both sides accept, and nothing already proven if the policy is fresh: the proofs each demands, put in terms of the proofs |
| `Authentication.PolicyMeans` | internal/store/app_authentication.go:30-54 | a policy accepts exactly evidence with the password proof, second factor, passkey and ages it demands |
| `Authentication.ReasonsMean` | internal/store/app_authentication.go:30-54 | each reason names a proof that is missing, too weak or too old |
| `Authentication.RequestMeans` | internal/oauth/authentication_request.go:86-112 | a request is met exactly by evidence with the password proof, its age and the second factor that its maximum age and assurance demand |
| `Authentication.StoredDeadlineIsExact` | internal/oauth/oauth.go:226-256 | the stored deadline is the exact end of everything but freshness, on both sides |
| `Authentication.StepKeeps` | internal/store/app_authentication.go:99-176 | every edit, creation, redemption, recorded token, link, unlink and role change keeps: a code under its record's current revision was admitted by that record's policy, and a live token met the client's policy when issued |
| `Authentication.ExchangeMeetsCurrentRequirements` | internal/store/store.go:2126-2144 | after any history, links and unlinks included, an exchange passes only if the login still meets the current policy and the request, and a live code of the current record and revisions fails only if it does not |
| `Authentication.LiveTokensMetThePolicy` | internal/store/app_authentication.go:99-152 | after any history, a token that is still live was issued to a login that met the policy in force now |
| `Authentication.FreshTakesAnInteraction` | internal/store/app_authentication.go:163-171 | freshness, from client or policy, takes a completed interaction of that session and spends it; under a fresh policy the login is no older than the interaction |
| `Authentication.CodeIsMadeIff` | internal/oauth/oauth.go:222-257 | a code is made if and only if its id is new, the insert's conditions hold, the proofs that policy and request demand were there when asked and are there now, and freshness is shown by this session's interaction |
| `Authentication.CodeIsStored` | internal/store/store.go:2051-2092 | what is stored with it, for a minute from the asking, and that nothing else is written but the spent interaction |
| `Authentication.LiveTokensHadTheProofs` | internal/store/store.go:2126-2144 | after any history every live token's login had the password, age and second-factor proofs that the policy in force and its request demand |
| `Authentication.TokenIsIssuedIff` | internal/store/store.go:2126-2144 | after any history a token is issued if and only if the code is this session's, spent, unexpired, of this record and its revisions, and the proofs demanded are there at that instant |
| `Authentication.PolicyEditAcceptedIff` | internal/store/app_authentication.go:99-116 | a policy edit is accepted exactly on the current record, for known modes and factors with ages only where they make sense |
| `Authentication.CodeStore.CreateAuthorizationCode` | internal/oauth/oauth.go:222-257 | the steps that build and store a code are the specified creation, with the verdict of the access, session and enrollment conditions as a parameter; a stored code's login had what request and policy demand; a refusal changes nothing |
| `Authentication.CodeStore.CheckCodeAppAuthentication` | internal/store/app_authentication.go:155-176 | the check passes exactly when the policy as it stands admits the evidence, and stamps revision and the earlier deadline |
| `Authentication.CodeStore.SetAppAuthenticationPolicy` | internal/store/app_authentication.go:99-152 | an edit under the record's lock bumps both revisions and ends the app's codes, tokens and interactions; an unchanged policy does neither, a stale revision is refused |
| `Authentication.CodeStore.ConsumeAuthorizationCode` | internal/store/store.go:2106-2118 | a code is spent exactly when it could be, never again afterwards, and no other code is affected |
| `Authentication.SpentAtMostOnce` | internal/store/store.go:2106-2118 | on every run, with any clock, a code is redeemed at most once |
| `Authentication.CodeStore.RecordIssuedToken` | internal/store/store.go:2126-2144 | a token is recorded exactly when its code, spent by that session under this record and these revisions, comes from a login that meets the current policy and the request now; soundness is kept |
| `Authentication.ParseAge` | internal/oauth/authentication_request.go:44-57 | a maximum age is read exactly when it is a nonempty decimal of at most 2147483647, with its value |
| `Authentication.RenderedAgesReadBack` | internal/oauth/authentication_request.go:44-57 | every number's decimal text reads back as the number |
| `Authentication.ParseAuthenticationRequest` | internal/oauth/authentication_request.go:26-84 | a query is accepted exactly when every assurance in it is understood, and then means exactly what it says |
| `Limiter.GainIsProduct` | internal/api/middleware.go:228 | nanosecond by nanosecond the refill is elapsed seconds times the rate |
| `Limiter.RateLimiters.SweepLimiters` | internal/api/middleware.go:158-174 | the loop drops exactly the evictable buckets, at most once a minute unless at capacity |
| `Limiter.WhatIsSwept` | internal/api/middleware.go:158-174 | a bucket goes exactly if a sweep is due and it has been idle for over ten minutes, or for over one and has refilled |
| `Limiter.RateLimiters.AllowRateLimit` | internal/api/middleware.go:211-238 | a call on the mutable map is the specified decision and new state |
| `Limiter.NeverOverCapacity` | internal/api/middleware.go:218-221 | on every run, whatever limits the calls pass, the map holds at most its capacity |
| `Limiter.SweepingIsInvisible` | internal/api/middleware.go:155-174 | a key whose own limit refills in time is decided, on every run in which it finds room, as if no bucket were ever dropped, whatever the other keys do |
| `Limiter.FewKeysHaveRoom` | internal/api/middleware.go:215-224 | in a run with no more keys than buckets every key finds room |
| `Limiter.AdmittedInWindow` | internal/api/middleware.go:211-238 | on every run and in every window a key is admitted at most the largest allowance passed for it plus the largest rate passed for it times the window's length, whatever the other keys do; every limit passed for the key refills in time |
| `Limiter.SweepInvisibleIff` | internal/api/middleware.go:155-174 | for whole-token limits, sweeping is invisible to every key with that limit on all runs in which it finds room if and only if an empty bucket refills within the shortest idle time that drops it |
| `Limiter.SlowLimitExceedsItsBound` | internal/api/middleware.go:165-173 | any slower limit admits two whole allowances in a window whose bound is below that |
| `SlowLimits.AdmittedAtAnySpeed` | internal/api/middleware.go:155-238 | on every run and in every window, however slow its limits, a key is admitted at most its largest allowance times one plus the whole idle times in the window, plus the largest rate times its length |
| `Limiter.ResetBucketForgets` | internal/api/onboarding_handlers.go:199 | the reset-mail limit is such a limit |
| `Ranking.FirstSize` | internal/store/authorization_interactions.go:87-89 | taking the first `k` of a set in a strict order takes `min(k, n)` |
| `Ranking.FirstIsFirst` | internal/store/authorization_interactions.go:24-26 | nobody left out is ahead of anybody taken |
| `Interactions.TrimKeepsTen` | internal/store/authorization_interactions.go:24-26 | an account keeps `min(10, n)` rows, no completed proof goes while an unfinished request or an older proof stays, no request while an older one stays, and rows without an account stay |
| `Interactions.RepairKeepsTen` | internal/store/authorization_interactions.go:20-26 | the same of the whole repair, from any table |
| `Interactions.EvictionTakesOldestPending` | internal/store/authorization_interactions.go:87-91 | pressure takes only anonymous pending rows, those made first, as many as one insert needs, and leaves a full table only if none is left |
| `Interactions.AlwaysBounded` | internal/store/authorization_interactions.go:65-108 | every reachable state has at most 10 rows per browser, 10 per account and 10000 in all |
| `Interactions.RefusedOnlyFor` | internal/store/authorization_interactions.go:92-107 | a request is refused exactly for its hash, browser, account or the global cap, the last only while 10000 unexpired rows are account-bound or completed; a refusal changes nothing |
| `Interactions.CreateKeepsHeldRows` | internal/store/authorization_interactions.go:84-91 | an in-limit account's requests and completed proofs survive another creation, also when other accounts are over their limit |
| `Interactions.CompleteStaysBounded` | internal/store/store.go:884-896 | completing a request at login keeps the caps |
| `Interactions.CreatedAsAsked` | internal/store/authorization_interactions.go:65-108 | an accepted request is stored as made; every other row was there, unexpired; and with room every unexpired row stays |
| `Interactions.CompletedIff` | internal/store/store.go:881-900 | a login completes a request exactly if it is that browser's own open, unexpired one for nobody else, with a password given since, an active account with room and the session it started from |
| `Interactions.CompletedEffect` | internal/store/store.go:881-900 | the request is then that session's and account's, and no other row changes |
| `Interactions.CompletedOnce` | internal/store/store.go:881-900 | and it is completed once |
| `Interactions.InteractionStore.CreateAuthorizationInteraction` | internal/store/authorization_interactions.go:65-108 | the statements in order are the specified creation, and a refusal rolls all of them back |
| `Interactions.InteractionStore.CancelAuthorizationInteraction` | internal/store/authorization_interactions.go:120-123 | the browser that started a request is rid of it, and no other browser's request changes |
| `Interactions.CancelUndoesCreate` | internal/store/authorization_interactions.go:84-123 | cancelling undoes the creation but for the room it made, and only for the browser that asked |
| `Interactions.InteractionStore.CreateSessionForInteraction` | internal/store/store.go:881-900 | the login binds the request to its session and account, or changes nothing |
| `Alerts.BatchesAreOneFold` | internal/store/alerts.go:238-286 | after any batches of any sizes with any aborts, the alerts are one fold over what left the queue |
| `Alerts.DrainedIsOneFold` | internal/store/alerts.go:207-225 | draining the queue, in whatever batches, is one fold over it |
| `Alerts.FoldKeeps` | internal/store/alerts.go:376-382 | folding keeps one live alert per rule and key and at most ten live login alerts besides the shared one |
| `Alerts.FoldCounts` | internal/store/alerts.go:403-436 | privilege, recovery, credential and removal alerts of a key grow by exactly the events that call for them: successful administrator creations, role and delegation changes; recovery sign-ins and resets; credential changes, mail included; failed and refused removals |
| `Alerts.CallOpensAlert` | internal/store/alerts.go:403-436 | an event that calls for a rule and key leaves its alert open |
| `Alerts.SignInRaises` | internal/store/alerts.go:349-384 | a failed sign-in adds to its source's alert exactly if the failures of that account, or else address, inside the window up to it reach the threshold, and to the shared one past ten sources; a successful one does nothing |
| `Alerts.QuietResolves` | internal/store/alerts.go:230-236 | a login alert stays live exactly while a failure whose account or address is its key lies within the window, the shared one while any does, and no other alert changes |
| `Alerts.FailureKeepsItsAlertIff` | internal/store/alerts.go:230-236 | a recent failure keeps its own source's alert open if and only if it names an account or an address, or some recent failure carries the placeholder text |
| `Alerts.NamelessFailuresAreForgotten` | internal/store/alerts.go:349-362 | a nameless failure opens an alert that the next pass resolves at the same instant |
| `Alerts.AlertsStayAccountable` | internal/store/alerts.go:302-436 | on every run of batches, aborts, acknowledgements, resolutions and outage passes all three hold, and the counts equal the evaluated events |
| `Alerts.PassTracksOutages` | internal/store/alerts.go:450-542 | after a pass the live outage alerts are exactly what is down, and a pass opens one per new outage |
| `Alerts.LiveOutagesAreDown` | internal/store/alerts.go:458-491 | on what the queries found, exactly the enabled systems that fail or gave up a delivery and the clients with a logout given up have live alerts |
| `Alerts.OneAlertPerBreakdown` | internal/store/alerts.go:447-542 | over any run the alerts opened for a connector equal its observed changes from healthy to down, acknowledged or not |
| `Alerts.FindOutages` | internal/store/alerts.go:458-491 | the queries find exactly the failing systems and the clients with a logout given up |
| `Alerts.AlertStore.EvaluateBatch` | internal/store/alerts.go:238-286 | the loop folds the first 500 queued events and takes them off the queue; the counts grow by exactly the events that call for each rule and key |
| `Alerts.AlertStore.EvaluateBatches` | internal/store/alerts.go:215-223 | up to ten batches fold the first 5000 queued events |
| `Alerts.AlertStore.EvaluateOutages` | internal/store/alerts.go:492-541 | the two loops are the specified pass |
| `Alerts.AlertStore.EvaluateAlerts` | internal/store/alerts.go:207-225 | quiet sources, then the fold, then the outages |
| `Alerts.AlertStore.AcknowledgeAlert` | internal/store/alerts.go:594-608 | only an open alert is acknowledged; no key's liveness, no count and no other row changes |
| `Alerts.AcknowledgedReopens` | internal/store/alerts.go:376-436 | the next occurrence reopens the acknowledged alert with one more counted, instead of opening another |
| `Registry.CreateKeeps` | internal/store/app_registry.go:62-63 | a new connection gets its own record |
| `Registry.DeleteKeeps` | internal/store/app_registry.go:64-67 | a deleted connection leaves its record, and an emptied record goes |
| `Registry.LinkKeeps` | internal/store/app_registry.go:152-200 | a link keeps every connection in exactly one record |
| `Registry.UnlinkKeeps` | internal/store/app_registry.go:204-267 | an unlink keeps every connection in exactly one record and empties none |
| `Registry.RunStaysSound` | internal/store/app_registry.go:57-68 | through every run each connection is in exactly one record and no record is empty |
| `RegistryEffects.UnlinkKeepsTerms` | internal/store/app_registry.go:204-267 | after an unlink every connection's record has the settings, mode and switch its record had, its users have the same roles, and other records are untouched |
| `RegistryEffects.LinkKeepsTerms` | internal/store/app_registry.go:152-200 | after a link every connection's record asks for the same authentication, emits the same claims, admits alike and gives the same roles, and other records are untouched |
| `RegistryEffects.CreatedFresh` | internal/store/app_registry.go:62-63 | a new connection's record has the defaults, lets nobody in and gives no roles |
| `RegistryEffects.DeleteKeepsTerms` | internal/store/app_registry.go:64-67 | a deleted connection is gone, and the others keep their records with the same terms and roles |
| `RegistryEffects.ConnectionKeepsItsTerms` | internal/store/app_registry.go:57-68 | through every run of creations, deletions, links and unlinks a connection keeps these terms and roles until it is deleted |
| `RegistryEffects.LinkAcceptedIff` | internal/store/app_access.go:314-335 | a link is made exactly if both records are current, differ in nothing a connection would inherit, have no grants and roles, and no two connections of a kind |
| `RegistryEffects.UnlinkAcceptedIff` | internal/store/app_registry.go:204-247 | an unlink is made exactly if the record is current, keeps another connection and has no roles |
| `RegistryEffects.AcceptedChangesAreCurrent` | internal/store/app_registry.go:152-230 | a link or unlink made on records as read is accepted after any run only if they are as they were |
| `Registry.EndOfAccessIsExact` | internal/store/expiry.go:225-265 | after any run of creations, deletions, links and unlinks the computed end of access is the client's exact boundary, and its token lasts within it |
| `Registry.LinkKeepsAccess` | internal/store/app_access.go:314-335 | a link changes no client's effective users, at any instant |
| `Registry.LinkChangesAccessIff` | internal/store/app_registry.go:152-200 | a link gives nobody access, and a connection of any kind loses a user if and only if it had no client, was open to that user, and is joined with a client that is switched off |
| `Registry.UnlinkChangesAccessIff` | internal/store/app_registry.go:249-256 | for a connection of any kind: an unlink takes no access away, and gives it if and only if only a lapsed direct grant of the moved connection or a switched-off client that the connection leaves stood in the way |
| `Registry.UnlinkKeepsUnboundedAccess` | internal/store/app_registry.go:252-256 | with direct grants that have no end and no switched-off client, an unlink changes no connection's access at any instant |
| `Registry.UnlinkKeepsClientAccess` | internal/store/app_registry.go:252-256 | with direct grants that have no end, an unlink changes no OAuth client's access at any instant |
| `Registry.UnlinkRevivesLapsedGrant` | internal/store/app_registry.go:252-256 | a concrete record whose unlink lets a user back in after the grant ended |
| `Registry.UnlinkShowsHiddenLauncher` | internal/store/app_access.go:57-65 | a concrete record with a switched-off client: unlinking either connection gives the user the launcher entry, at every instant |
| `Registry.ClientConnectionAccess` | internal/store/app_access.go:93-98 | access of a client connection is the lookup every OAuth decision uses |
| `RegistryEffects.AppRegistry.LinkAppRecords` | internal/store/app_registry.go:152-200 | the transaction on stored rows is the specified link and keeps the invariant; accepted, every connection stays and keeps its terms and roles; refused, nothing changes |
| `RegistryEffects.AppRegistry.UnlinkAppRecord` | internal/store/app_registry.go:204-267 | the transaction on stored rows is the specified unlink and keeps the invariant; accepted, the connection moves to the new record and every connection keeps its settings, terms and roles; refused, nothing changes |

## Left out

- HTTP handlers, JSON, cookies, CSRF, templates and SCIM documents: input and output shaping.
- Cryptography, random identifiers and hashing: identifiers are opaque, and a new one differs from the old ones.
- Backup, restore, recovery capsules and schema migrations.
- Outbound provisioning, logout delivery, session and token rows beyond what an edit revokes: reconciling a downstream system is not part of this model.
- Editing roles, their mappings and the claim settings: each runs the same follow-up for its app (`internal/store/app_roles.go:166-202`) and would only add commits of that kind.
- Creating and deleting accounts among the commits of `AccessRuns`: a deletion has the last-administrator guard of an edit (`internal/store/store.go:833-841`) and cascades.
- Access requests, delegation permissions and the permission table: an approved request is an assignment edit.
- Cloudflare KV's eventual consistency: reads see the latest write. The sixty-second takeover grace is a comparison of the instants passed in.
- Two clock readings inside one transaction, and `unixepoch()` beside them, are taken as one instant; the two checks of a code's creation have an instant each.
- A legacy owner reaches `Coordinator` already trimmed, with the empty string as none.
- Limiter lock interleavings: a call is one atomic step. Tokens are reals, so floating-point rounding is not modelled.
- Limiter.SweepingIsInvisible: speaks of keys that always pass one limit, since for the two `mfa` limits of `internal/api/server.go:136-144` a dropped bucket may come back with the other one; `Limiter.AdmittedInWindow` covers those.
- Limiter.SweepInvisibleIff: is stated for limits of whole tokens, which all the limits in the code are.
- TokenProtocol.StepKeeps: holds for disciplined steps only, because an undisciplined one breaks the count; `TokenProtocol.ExactIffDisciplined` is the exact condition.
- Budget.DailyBudgetExact: needs days that never go back; `Budget.BudgetExactIff` is the exact condition for any clock.
- Alert titles, summaries, mail deliveries and the login-mail cooldown; `alertText` clean-up of an address is the identity. A queue row without its audit event cannot occur, since it is deleted with the event.
- Authentication.CodeStore.CreateAuthorizationCode: the verdict of the access, session and enrollment views on the insert is a parameter, as in `Authentication.CodeStore.RecordIssuedToken`; `Grants`, `Directory` and `Enrollment` model those views.
- White-space splitting of `acr_values` is a parameter of `Authentication.ParseAuthenticationRequest`.
- Listing, search, paging and export queries: they would only add easy members.
