# Model of a multi-tenant authentication backend

A Dafny model of the stateful cores of a NestJS backend with a shared PostgreSQL database and Redis, and
proofs of what they are for: tenants that cannot see each other, limiters that hold under interleaving,
one-time codes and states, refresh tokens that work once, permissions that stay inside a tenant, invitations
that close once, and who can sign in by which method.

`dafny verify dfyconfig.toml` checks everything.

| module | what it models |
|---|---|
| `TenantScoping` | the query middleware over filter trees, actions and a shared table; interleaved runs simulate private databases |
| `UnscopedQueries` | the queries the middleware passes unrewritten, and exactly when they keep to a tenant |
| `SlidingWindow` | the sorted-set limiters: pipelines and delayed removals of many clients, and the sequential refinement of an exact log |
| `WindowTightness` | the longest interval that limiter protects under clock lag, and the runs that go beyond it |
| `OtpCodes` | one-time codes, their attempt counts and the fixed-window limiter in front of them |
| `OtpOutcomes` | when a code is outstanding and who is verified |
| `RefreshSessions` | session families, rotation, provisional and final tokens |
| `SessionLifetimes` | how long sessions stay open and their tokens are good |
| `Directory` | users, roles, permissions, three join tables, invitations and their roles, with one step per service operation |
| `DirectoryScope`, `DirectoryIsolation`, `DirectoryKeys` | what every run of those steps keeps, and what the permissions guard can grant |
| `DirectoryReplies` | when its operations work, and what they leave alone |
| `DirectoryEffects` | the grants and invitations each operation gives and withdraws, for everybody |
| `InvitationLifecycle` | the life of an invitation over every run |
| `InvitationRefusals`, `InvitationWitnesses` | exactly when cancelling, expiring, joining and accepting fail, and how that arises |
| `DirectoryServices` | the services over the tables, statement by statement, proved against the steps |
| `EffectivePermissions` | the merge loops listing a user's permissions, against the guard |
| `SignInMethods` | passwords, Google identities, `authMethods` and the tenants' Google switches |
| `AccountChanges` | where passwords and accounts come from, and whom a Google sign-in signs in |
| `OAuthState` | one-time OAuth states and their cleanup loop |
| `CookieHeader`, `CookieEntries`, `UriComponent`, `Text` | the cookie parser with the encoding and trimming it rests on |
| `BulkInvitations` | the bulk creation loop over the invitation service |
| `Common` | options, distinct sequences, the pigeonhole principle |

The source updates state in place, so each store is a class whose methods follow the service statement by
statement and are proved against a step function on values; the theorems are about runs of those steps.
Functions without state stay functions. Clock readings, fresh identifiers and tokens, and whether Redis has
already dropped an expired key, are parameters, so the theorems hold for every choice of them.

## Where the code does less than one might expect

Kept as the code has it, each with its exact condition:

- A foreign top-level tenant condition is replaced, not conjoined (`RewriteAgreesExactly`); update data may
  name another tenant (`UpdateExact`, `UpdateManyExact`); a `createMany` with a bare object is not stamped
  (`CreateManyExact`); what is not listed passes through (`BypassExact`, with `UnlistedReadLeaks`,
  `UnlistedCreateIsLost` and `UnlistedUpdateReachesOthers`).
- Columns unique across tenants, `users.google_id` and `tenant_invitations.token`, let one tenant's row refuse
  another tenant's write (`RefusedExactly`, `ContainedSimulatesExactly`, `ForeignValueRefuses`).
- Under clock lag the sliding window protects only a window shortened by the lag (`SafeLengthExactly`,
  `FullWindowSafeExactly`).
- An attempt on a one-time code is recorded only while Redis reports a positive lifetime (`GuessIsRecorded`,
  `UnrecordedGuesses`).
- The index named for pending invitations covers every status (prisma/schema.prisma:345), so for one address in
  a tenant a second cancellation, expiry or acceptance is refused (`CancelWorksExactly`, `ExpiryWorksExactly`,
  `AcceptanceWorksExactly`, and over runs `SecondCancellationFails`, `SecondExpiryFails`,
  `SecondAcceptanceFails`).
- Acceptance creates the user before the invitation is closed and can stop in between (`HalfAcceptedExactly`);
  joining is lenient by one instant (`JoinAtExpiry`); the acceptance instant is read after the check and may lie
  past the expiry (`AcceptedWithinValidity`).
- An invitation whose roles were deleted makes whoever accepts a Member and gives whoever joins no role
  (`DeletedRoleFallsBack`, `JoinerHoldsInvited`).
- Permission strings are ambiguous when an action contains a colon (`ReadAlikeExactly`, `AmbiguityArises`).
- Founding a tenant leaves its Google switch off, so a founder without a password is locked out
  (`FoundingLocksOutExactly`, `GoogleFounderIsLockedOut`, `WaysBack`).
- Signing in with a second Google identity of the same email re-links the account (`IdentityLostExactly`).
- One malformed escape makes the whole cookie header unreadable, and a cookie named `__proto__` is lost
  (`ParseThrowsExactly`, `ReturnsExactly`).
- The bulk summary's total counts repeated addresses (`EveryAddressOnce`).

## Model

| member | source | states |
|---|---|---|
| `TenantScoping.Simulation` | src/database/prisma-tenant.middleware.ts:22-90 | However the queries of the tenants interleave on the shared table, each tenant receives the answers, and ends with the rows, of running only its own queries on a private table holding just its slice, as long as each query is confined; unique columns are consulted on both sides |
| `TenantScoping.FindsOwnRowsOnly` | src/database/prisma-tenant.middleware.ts:3-58 | Of every model but `Tenant`, each of the nine query actions and an upsert finds only rows whose `tenantId` is the tenant's, whatever filter it is given |
| `TenantScoping.CreatesOwnRowsOnly` | src/database/prisma-tenant.middleware.ts:60-86 | Of every such model, `create` sends its one object stamped, an empty one if need be, `createMany` every object of an array, and upsert the object it creates |
| `TenantScoping.StepExact` | src/database/prisma-tenant.middleware.ts:32-86 | One covered query simulates its private run if and only if it is confined: either both tables refuse it for a unique index, or neither does and its writes stay with the tenant (no update to another tenant, no bare object for `createMany`) |
| `TenantScoping.RefusedExactly` | prisma/schema.prisma:43 | A query whose writes stay with the tenant is refused on the shared table if and only if its own table would refuse it or a row of somebody else holds a unique value it writes, as `googleId` is unique across tenants |
| `TenantScoping.ContainedSimulatesExactly` | prisma/schema.prisma:331 | So it simulates its private run if and only if no row of somebody else holds such a value, or its own table refuses it as well |
| `TenantScoping.ForeignValueRefuses` | prisma/schema.prisma:331 | For every tenant and row, creating a row with a unique value that a foreign row holds is refused, though the tenant's own table would take it |
| `TenantScoping.BystanderUntouched` | src/database/prisma-tenant.middleware.ts:22-90 | No run of the other tenants' queries changes a row of a tenant that makes none |
| `TenantScoping.RestrictSelects` | src/database/prisma-tenant.middleware.ts:37-52 | The rewritten filter selects exactly the tenant's rows the filter selects once its own top-level tenant condition is dropped, for every nested filter and with SQL's third truth value |
| `TenantScoping.RewriteAgreesExactly` | src/database/prisma-tenant.middleware.ts:37-52 | The rewrite equals conjoining the tenant condition on a row exactly when the replaced top-level condition does not exclude it: a foreign condition is replaced, not conjoined |
| `TenantScoping.ScopedTwice` | src/database/prisma-tenant.middleware.ts:37-86 | Rewriting a rewritten query changes nothing more, whatever the action and the arguments |
| `TenantScoping.SelectedInSlice` | src/database/prisma-tenant.middleware.ts:37-52 | On the shared table the rewritten filter finds what the original finds on the tenant's own table |
| `TenantScoping.UpdateExact` | src/database/prisma-tenant.middleware.ts:37-52 | A single-row update mirrors the private one if and only if the data keeps the tenant: the middleware rewrites only the filter of an update |
| `TenantScoping.UpdateManyExact` | src/database/prisma-tenant.middleware.ts:37-52 | A many-row update mirrors the private one if and only if it hits nothing or its data keeps the tenant |
| `TenantScoping.CreateManyExact` | src/database/prisma-tenant.middleware.ts:65-71 | A `createMany` mirrors the private one if and only if its data is not a bare object, which the middleware leaves unstamped |
| `TenantScoping.UpsertStep` | src/database/prisma-tenant.middleware.ts:72-85 | An upsert simulates its private run, on the updating and on the creating branch, exactly when its update keeps the tenant |
| `UnscopedQueries.BypassExact` | src/database/prisma-tenant.middleware.ts:7-35 | Every query that passes unscoped (an action missing from the lists, a model not scoped, no tenant in the context) runs as on the tenant's own table if and only if both sides refuse it, or neither does and of itself it selects only the tenant's rows and writes only under the tenant's stamp |
| `UnscopedQueries.UnlistedReadLeaks` | src/database/prisma-tenant.middleware.ts:7-20 | A read missing from the lists, without a filter, returns every foreign row there is |
| `UnscopedQueries.UnlistedCreateIsLost` | src/database/prisma-tenant.middleware.ts:65-71 | Rows of a `createManyAndReturn` are inserted unstamped and are not among the tenant's own afterwards, whenever they are inserted at all |
| `UnscopedQueries.UnlistedUpdateReachesOthers` | src/database/prisma-tenant.middleware.ts:7-20 | An `updateManyAndReturn` without a filter rewrites foreign rows, whenever it is not refused |
| `TenantScoping.Params.Apply` | src/database/prisma-tenant.middleware.ts:32-86 | The in-place assignments into the arguments produce the rewritten query, touching the given arguments object when there is one |
| `TenantScoping.StampEach` | src/database/prisma-tenant.middleware.ts:65-71 | Mapping over the rows of a `createMany` stamps each of them |
| `TenantScoping.InsertStamped` | src/database/prisma-tenant.middleware.ts:60-71 | Inserting stamped rows into the shared table is, on the tenant's slice, inserting the plain ones, and leaves every other slice |
| `SlidingWindow.WindowBound` | src/auth/services/google-oauth-rate-limit.service.ts:68-138 | In every interleaving of atomic pipelines and delayed removals whose clocks lag the largest timestamp by at most d, no half-open interval of length W - d sees more than `maxRequests` allowed; d = 0 is the exact window |
| `SlidingWindow.PipelineCounts` | src/invitation/services/invitation-rate-limit.service.ts:44-67 | Although others' phantom entries come and go, the count a pipeline returns is at least the number of requests allowed in any such interval that contains its timestamp |
| `WindowTightness.LagBreaksLongerInterval` | src/auth/services/google-oauth-rate-limit.service.ts:68-138 | For every limit of at least one, every window and every lag, some possible run allows more than the limit in an interval one millisecond longer than the window less the lag |
| `WindowTightness.SafeLengthExactly` | src/invitation/services/invitation-rate-limit.service.ts:35-103 | With a lag below the window, the window less the lag is safe over every run and one millisecond more is not |
| `WindowTightness.FullWindowSafeExactly` | src/auth/services/google-oauth-rate-limit.service.ts:68-138 | The full window is safe over every run if and only if there is no lag, or the limit is zero, or the window is too short for a lag to matter (zero, or one millisecond with a limit of one) |
| `SlidingWindow.RejectionHasCause` | src/auth/services/google-oauth-rate-limit.service.ts:96-122 | A rejected request met a window filled by allowed requests and rejected ones still waiting to be removed |
| `SlidingWindow.RefinesLogFromStart` | src/invitation/services/invitation-rate-limit.service.ts:35-103 | When checks do not overlap, the pruned, expiring set answers every check and status query as the exact log of admitted requests, and remaining plus hits is the limit |
| `SlidingWindow.RefinesLog` | src/auth/services/google-oauth-rate-limit.service.ts:78-122 | The same from any tracking state: rejected attempts leave no trace and dropping the key on its rounded-up expiry changes no later answer |
| `SlidingWindow.FoundIsRecent` | src/invitation/services/invitation-rate-limit.service.ts:44-67 | After pruning, a live or expired key holds exactly the admitted requests of (now - W, now] |
| `SlidingWindow.LimiterKey.Pipeline` | src/auth/services/google-oauth-rate-limit.service.ts:78-94 | Prune, count, add and expire leave the pruned set with the new member and return the count before adding |
| `SlidingWindow.LimiterKey.CheckRateLimit` | src/invitation/services/invitation-rate-limit.service.ts:35-103 | A whole check, removal included, is the sequential step on set and expiry |
| `SlidingWindow.LimiterKey.GetRateLimitStatus` | src/invitation/services/invitation-rate-limit.service.ts:205-242 | A status query prunes and counts without adding |
| `OtpCodes.WrongGuessBound` | src/auth/services/email-otp.service.ts:266-462 | Storing, limiting and verifying compose: in any half-open interval of one window length at most 10 times the limit wrong codes are compared for one user, which is below 5 (2 max + 1) |
| `OtpOutcomes.VerifiedExactly` | src/auth/services/email-otp.service.ts:266-462 | After any run a user is verified if and only if some operation of it presented the code outstanding at that moment, told from the operations and their answers alone |
| `OtpOutcomes.AnswersVerifiedExactly` | src/auth/services/email-otp.service.ts:319-462 | An operation of a run answers that the user is verified if and only if it presents the outstanding code |
| `OtpOutcomes.VerifiesExactly` | src/auth/services/email-otp.service.ts:340-420 | A verification succeeds if and only if a stored code, not expired, is presented before its fifth wrong guess, and only success verifies the user |
| `OtpOutcomes.WrongGuessExactly` | src/auth/services/email-otp.service.ts:340-392 | A wrong guess says how many of five are left; the fifth deletes the code, an earlier one keeps it and counts the attempt |
| `OtpOutcomes.StoredIsOutstanding` | src/auth/services/email-otp.service.ts:63-561 | The code stored is always the one last sent and not verified, used up, found expired or withdrawn since, with fewer than five wrong guesses |
| `OtpOutcomes.SentCodeVerifies` | src/auth/services/otp-storage.service.ts:44-72 | A code just sent verifies its user at every instant of its lifetime |
| `OtpCodes.AtMostTwoWindows` | src/auth/services/otp-storage.service.ts:163-229 | At most 2 max - 1 requests are allowed in any half-open interval of one window length |
| `OtpCodes.TwoWindowsAreReached` | src/auth/services/otp-storage.service.ts:163-229 | That bound is met by a run for every limit, in every window of at least three milliseconds |
| `OtpCodes.CheckSound` | src/auth/services/otp-storage.service.ts:163-229 | The count stays between 1 and max, and windows start at least a window length apart since rounded-up lifetimes never drop the record early |
| `OtpCodes.DeniedUntilWindowEnd` | src/auth/services/otp-storage.service.ts:185-221 | A denied caller stays denied up to the window's end and is allowed after it, and `retryAfter` is the least whole number of seconds reaching it |
| `OtpCodes.StoredWereAllowed` | src/auth/services/email-otp.service.ts:63-183 | Every stored code was paid for by a request the limiter allowed |
| `OtpCodes.GuessesArePaidFor` | src/auth/services/email-otp.service.ts:319-392 | Wrong comparisons in an interval are at most five per code stored in it, plus what a code carried in still admits |
| `OtpCodes.GuessIsRecorded` | src/auth/services/otp-storage.service.ts:134-158 | A wrong code uses up a guess exactly when Redis reports a positive lifetime or it was the last guess |
| `OtpCodes.UnrecordedGuesses` | src/auth/services/otp-storage.service.ts:146-155 | Without a positive lifetime no attempt is ever written back: any number of wrong codes is compared |
| `OtpCodes.OtpService.CheckRateLimit` | src/auth/services/otp-storage.service.ts:163-229 | The limiter's branches, the refused zero-lifetime write included, are the specified check, and touch this user's record only |
| `OtpCodes.OtpService.IncrementAttempts` | src/auth/services/otp-storage.service.ts:134-158 | The attempt count returned, and the record rewritten only under a positive lifetime |
| `OtpCodes.OtpService.VerifyOTP` | src/auth/services/email-otp.service.ts:266-462 | Verification's answer and the user's new state: not found, used up, wrong, last wrong, verified |
| `OtpCodes.OtpService.GenerateOTP` | src/auth/services/email-otp.service.ts:63-183 | A code is stored only after the limiter allowed it |
| `OtpCodes.OtpService.ResendOTP` | src/auth/services/email-otp.service.ts:467-561 | Resending asks the limiter unless the user is verified already |
| `OtpCodes.OtpService.FindByCode` | src/auth/services/email-otp.service.ts:800-868 | The scan returns the first active record whose code, tenant and existence match, or shows there is none |
| `RefreshSessions.FamilyIsOneChain` | src/auth/services/refresh-session.service.ts:62-97 | After any run a family's sessions form one `replacedById` chain without repetition, and at most one, its last, is unrevoked |
| `RefreshSessions.AcceptedOnce` | src/auth/auth.service.ts:270-365 | Each refresh token is accepted at most once, and only if it is the final token issued for a session |
| `SessionLifetimes.OpenSessionRefreshes` | src/auth/auth.service.ts:270-365 | After any run the token of an open session of an existing user refreshes at every instant up to two seconds before the one fixed at login, in hours or days of milliseconds, and answers a token for that user with the claims now stored, for a session open until the same instant |
| `SessionLifetimes.LoginLasts` | src/auth/auth.service.ts:481-546 | A login's own token still refreshes at the end of its lifetime over every run that does not close its session |
| `SessionLifetimes.OpenExactly` | src/auth/services/refresh-session.service.ts:99-112 | Over any run a session stays open, and as it was, if and only if no refresh with its token, logout with an unexpired token of it, revocation of its user's sessions or deletion of its user comes |
| `SessionLifetimes.IssuedTruthfully` | src/auth/auth.service.ts:548-567 | Every token issued in a run was signed by one of its logins or accepted refreshes, for that user with the claims then stored, as the refresh token of that session |
| `SessionLifetimes.SignedTokenVerifies` | src/auth/auth.service.ts:548-570 | A signed token verifies up to two seconds before the expiry it was signed for and not after it |
| `RefreshSessions.SpentForGood` | src/auth/services/refresh-session.service.ts:37-60 | Once a session is revoked or gone, no later run makes any token naming it good again |
| `RefreshSessions.ProvisionalNeverAccepted` | src/auth/auth.service.ts:320-363 | The tokens signed before the final one are accepted in no state any later run reaches |
| `RefreshSessions.DeadFamilyNeverRefreshes` | src/auth/services/refresh-session.service.ts:99-111 | A family without an unrevoked session never gains one |
| `RefreshSessions.RefreshHonoursLogin` | src/auth/auth.service.ts:320-363 | A refresh succeeds only before the instant fixed at login, for that user; rememberMe is never reported for a family without it, and once lost is not regained |
| `RefreshSessions.AcceptsExactly` | src/auth/auth.service.ts:270-318 | After any run a token is accepted exactly when it is the final token of a live session within its times |
| `RefreshSessions.RunKeepsOrder` | src/auth/services/refresh-session.service.ts:17-111 | Tokens, families and accepted sessions stay in order over every run of logins, refreshes, logouts, revocations and deletions |
| `RefreshSessions.AuthStore.RotateSession` | src/auth/services/refresh-session.service.ts:62-97 | Rotation creates the successor with the family and user of the old session, then revokes and links the old one; a missing session changes nothing |
| `RefreshSessions.AuthStore.IssueTokens` | src/auth/auth.service.ts:481-546 | Provisional signing, creation, re-signing and rewriting of the digest make one login step |
| `RefreshSessions.AuthStore.RefreshWithToken` | src/auth/auth.service.ts:270-365 | A refresh is the refresh step, refusals included |
| `RefreshSessions.AuthStore.RevokeRefreshSession` | src/auth/auth.service.ts:367-377 | A logout revokes the session of a verifying token and swallows every failure |
| `DirectoryScope.GrantsStayInTenant` | src/common/guards/permissions.guard.ts:53-98 | In every reachable state a permission granted to a user is one of the user's own tenant; a tenant-less user is granted none |
| `DirectoryScope.GuardStaysInTenant` | src/common/guards/permissions.guard.ts:19-51 | After any run the guard passes a request that needs something if and only if the caller is a user of some tenant and every needed string reads as a permission of that tenant it holds |
| `DirectoryScope.RunKeepsScope` | src/invitation/services/invitation-acceptance.service.ts:327-387 | Over every run of the role, permission, user, tenant and invitation operations every link joins existing records of one tenant |
| `DirectoryScope.JoinKeepsScope` | src/tenant/tenant-management.service.ts:228-313 | Joining hands out only roles of the tenant joined |
| `DirectoryScope.AcceptInvitationKeepsScope` | src/invitation/services/invitation-acceptance.service.ts:64-182 | Accepting, through validation, user creation and marking, keeps links within one tenant, half-finished runs included |
| `DirectoryScope.CreateTenantForKeepsScope` | src/tenant/tenant-management.service.ts:54-199 | Founding a tenant keeps links within one tenant |
| `DirectoryScope.DeleteRoleKeepsScope` | src/role/role.service.ts:240-263 | Deleting a role leaves no link to it behind |
| `DirectoryScope.DeleteUserKeepsScope` | src/user/user.service.ts:197-220 | Deleting a user leaves behind no link of it, nor of the invitations it sent |
| `DirectoryScope.CountTestExact` | src/invitation/services/invitation.service.ts:444-462 | Comparing the number of rows found with the number of identifiers asked for passes if and only if all exist and none is repeated |
| `DirectoryScope.AssignableExact` | src/role/role.service.ts:178-219 | An assignment is let through if and only if its identifiers are distinct and of the tenant, and then inserts as many links as were asked for |
| `DirectoryScope.ReadAlikeExactly` | src/common/guards/permissions.guard.ts:90-97 | Two permissions read the same to the guard exactly when they agree or one's action runs over a colon, which nothing forbids |
| `DirectoryScope.AmbiguityArises` | src/permission/permission.service.ts:57-81 | For every action, middle part and subject both readings can be created in one tenant, and a user given the one passes the guard for the other without holding it |
| `DirectoryIsolation.OthersChangeNoGrants` | src/common/guards/permissions.guard.ts:53-98 | Over any run, what a user is granted changes only through six operations called for its own tenant; joining and inviting included, nothing else touches it |
| `DirectoryIsolation.SliceDecidesGrants` | src/common/guards/permissions.guard.ts:53-98 | What the guard computes depends on nothing outside the tenant's slice |
| `DirectoryKeys.LookupsAreUnambiguous` | src/invitation/services/invitation-acceptance.service.ts:365-383 | After any run the lookups of a tenant's Member role and of a user by email find at most one row |
| `DirectoryKeys.FounderHoldsAll` | src/tenant/tenant-management.service.ts:79-187 | Whoever founds a tenant belongs to it, holds exactly its role named `Admin` and is granted exactly its permissions, the default ones |
| `DirectoryKeys.CreatedAdminHoldsAll` | src/tenant/tenant.service.ts:74-175 | So does the administrator created together with a tenant |
| `DirectoryKeys.MentionsReadExactly` | src/tenant/tenant.service.ts:124-146 | The Member role is given the permissions in whose action the word `read` stands somewhere |
| `DirectoryKeys.MemberReadsOnly` | src/auth/services/google-auth.service.ts:220-285 | Whoever is provisioned into a tenant just seeded is granted exactly the permissions whose action mentions reading |
| `DirectoryKeys.RunKeepsKeys` | prisma/migrations/20251019211445_make_tenant_id_nullable/migration.sql:8-17 | Emails per tenant and among the tenant-less, and role names per tenant (prisma/schema.prisma:102), stay unique over every run |
| `DirectoryServices.Store.UpdateRolePermissions` | src/role/role.service.ts:158-235 | Replacing a role's permissions, its three refusals included, is the specified step |
| `DirectoryServices.Store.AssignRoles` | src/user/user.service.ts:225-306 | Replacing a user's roles is the specified step |
| `DirectoryServices.Store.AssignPermissions` | src/user/user.service.ts:311-397 | Replacing a user's permissions is the specified step |
| `DirectoryServices.Store.SeedTenant` | src/tenant/tenant.service.ts:74-151 | Creating the default permissions, the Admin role and its links, the Member role and its links in turn seeds the tenant as specified |
| `DirectoryServices.Store.CreateTenant` | src/tenant/tenant.service.ts:52-176 | The whole founding with a new administrator is the specified step |
| `DirectoryServices.Store.CreateTenantForUser` | src/tenant/tenant-management.service.ts:54-187 | The whole founding by a tenant-less user, its three refusals included, is the specified step |
| `DirectoryServices.Store.JoinTenantForUser` | src/tenant/tenant-management.service.ts:228-313 | The joining transaction, undone when the invitation cannot be marked, is the specified step |
| `DirectoryServices.Store.CreateLinks` | src/user/user.service.ts:273-281 | Inserting one link after another adds exactly the links asked for |
| `DirectoryServices.Store.CreateInvitation` | src/invitation/services/invitation.service.ts:26-158 | Role check, duplicate check, expiry check and insertion are the specified step |
| `DirectoryServices.Store.ValidateInvitation` | src/invitation/services/invitation.service.ts:164-225 | Expiry first, then status, with the marking of expired ones, is the specified step |
| `DirectoryServices.Store.ValidateToken` | src/invitation/services/invitation-validation.service.ts:33-131 | Status first, then expiry, every failure a refusal, is the specified step |
| `DirectoryServices.Store.CheckExpiration` | src/invitation/services/invitation-validation.service.ts:179-209 | Marking a pending invitation found expired is the specified step |
| `DirectoryServices.Store.CancelInvitation` | src/invitation/services/invitation.service.ts:296-341 | Cancelling, or its refusal by the index, is the specified step |
| `DirectoryServices.Store.AcceptInvitation` | src/invitation/services/invitation-acceptance.service.ts:64-182 | The three transactions of acceptance in their order are the specified step |
| `DirectoryServices.Store.CreateUserFromInvitation` | src/invitation/services/invitation-acceptance.service.ts:327-387 | The invited user gets the invitation's roles or, failing any, the Member role |
| `DirectoryServices.Store.CreateUserFromGoogle` | src/auth/services/google-auth.service.ts:220-285 | A provisioned user gets the Member role, which must exist |
| `DirectoryReplies.AssignRolesWorksExactly` | src/user/user.service.ts:225-262 | Assigning roles works if and only if the user is of the tenant and the identifiers are distinct roles of it |
| `DirectoryReplies.AssignPermissionsWorksExactly` | src/user/user.service.ts:311-354 | The same for permissions, of users and of roles |
| `DirectoryReplies.RefusedChangesNothing` | src/user/user.service.ts:99-397 | A refused operation on tenants, users, roles or permissions leaves every table as it was |
| `DirectoryReplies.OtherUsersStay` | src/user/user.service.ts:99-220 | A granted one leaves every user it does not name as it was |
| `DirectoryReplies.OtherRolesStay` | src/role/role.service.ts:74-263 | The same for roles |
| `DirectoryReplies.OtherPermissionsStay` | src/permission/permission.service.ts:57-109 | The same for permissions |
| `DirectoryReplies.RunKeepsNames` | src/tenant/tenant.service.ts:61-68 | Over every run no two tenants have the same name |
| `DirectoryReplies.InvitingWorksExactly` | src/invitation/services/invitation.service.ts:26-50 | Inviting works if and only if the roles are distinct and of the tenant, nobody is pending at that address there and the expiry lies ahead; refused, it changes nothing |
| `DirectoryReplies.InvitationSays` | src/invitation/services/invitation.service.ts:52-110 | The invitation made is the only row changed: pending, for that normalised address, tenant and inviter, with exactly the roles asked for, until the expiry asked for or for a week |
| `DirectoryReplies.ManagedByOwnTenantOnly` | src/invitation/services/invitation.service.ts:296-429 | Only a pending invitation of the very tenant can be cancelled or resent, resending gives it a week, and a refusal changes nothing |
| `DirectoryReplies.ExpiryIsMarkedExactly` | src/invitation/services/invitation-validation.service.ts:179-209 | The three checks mark a pending invitation expired if and only if it is past its expiry and the slot is free, and write nothing else |
| `DirectoryReplies.AcceptanceNeedsCredentials` | src/invitation/services/invitation-acceptance.service.ts:186-325 | Acceptance succeeds only with both names and a password of eight characters, or with a Google code for the invited address, the tenant's switch on and a free identity |
| `DirectoryReplies.CredentialsSuffice` | src/invitation/services/invitation-acceptance.service.ts:64-182 | Beyond the invitation's own conditions those credentials are all it takes |
| `DirectoryReplies.AcceptanceConflictsExactly` | src/invitation/services/invitation-acceptance.service.ts:64-118 | A conflict is answered if and only if a usable invitation's address already belongs to a user of the tenant |
| `DirectoryEffects.AssignedRolesGrantExactly` | src/user/user.service.ts:225-306 | After assigning roles the user is granted exactly what those roles bring besides its direct permissions, and everybody else what they were |
| `DirectoryEffects.AssignedPermissionsGrantExactly` | src/user/user.service.ts:311-397 | After assigning permissions the user is granted exactly those besides what its roles bring, and everybody else what they were |
| `DirectoryEffects.RolePermissionsGrantExactly` | src/role/role.service.ts:158-235 | After replacing a role's permissions whoever holds the role is granted exactly those through it, besides its direct permissions and its other roles, and everybody else what they were |
| `DirectoryEffects.DeletedPermissionIsWithdrawn` | src/permission/permission.service.ts:86-109 | Deleting a permission withdraws that one, and nothing else, from everybody |
| `DirectoryEffects.DeletedRoleIsWithdrawn` | src/role/role.service.ts:240-263 | Deleting a role leaves everybody exactly what comes directly or through another role |
| `DirectoryEffects.RenamingKeepsGrants` | src/role/role.service.ts:109-153 | Renaming a role changes nobody's grants; provisioning finds no default role from then on if and only if no other role is called `Member` and the new name is not |
| `DirectoryEffects.DeletedUserLosesAll` | src/user/user.service.ts:197-220 | A deleted user is granted nothing and everybody else what they were; exactly the invitations it sent are gone, all others stay with their roles |
| `DirectoryEffects.SentTokensAreDead` | prisma/schema.prisma:342 | No token a deleted user sent ever finds an invitation again, over any later run |
| `DirectoryEffects.DeletedRoleFallsBack` | src/invitation/services/invitation-acceptance.service.ts:327-387 | A deleted role drops out of the invitations; whoever accepts one that named no other gets the Member role instead |
| `DirectoryEffects.JoinerHoldsInvited` | src/tenant/tenant-management.service.ts:285-306 | Whoever joins holds exactly the roles the invitation still names, so none when its roles were deleted |
| `DirectoryEffects.ResentTokenWorks` | src/invitation/services/invitation.service.ts:347-429 | After resending, the new token leads to the invitation, address and roles unchanged, and is usable for exactly one week more; the old one leads nowhere |
| `InvitationLifecycle.InvitationsStaySound` | src/invitation/services/invitation.service.ts:26-158 | After any run an address, however written, has at most one pending invitation in a tenant, tokens identify invitations, and an acceptance instant is recorded exactly on acceptance |
| `InvitationLifecycle.AcceptedWithinValidity` | src/invitation/services/invitation.service.ts:231-260 | Every invitation found accepted after a run was accepted by one operation of it, which last checked it no later than its expiry; the recorded instant, read afterwards, lies within the validity if and only if that operation's recording instant does |
| `InvitationLifecycle.ClosedIsFinal` | src/invitation/services/invitation.service.ts:231-341 | Once an invitation has left PENDING its row never changes again over any run, and its identifier never returns |
| `InvitationLifecycle.LeavesPendingOnce` | src/invitation/services/invitation-validation.service.ts:292-386 | An invitation leaves PENDING at most once in a run, and not at all when it has left already |
| `InvitationLifecycle.ReplacedTokenIsDead` | src/invitation/services/invitation.service.ts:347-429 | A token replaced by resending never finds an invitation again, whatever follows |
| `InvitationLifecycle.StepEvolves` | src/invitation/services/invitation.service.ts:26-429 | Every operation renews one pending invitation, closes one, opens one, or only removes some with their inviter |
| `InvitationRefusals.ValidatorsAgree` | src/invitation/services/invitation-validation.service.ts:292-386 | Two validators that test status and expiry in opposite orders accept the same tokens and leave the same state |
| `InvitationRefusals.JoinAtExpiry` | src/tenant/tenant-management.service.ts:264-270 | Joining still works at the very instant of expiry, where validation no longer does |
| `InvitationRefusals.JoinWorksExactly` | src/tenant/tenant-management.service.ts:228-313 | Joining works if and only if the user has no tenant, the invitation is pending, addressed to it and not past its expiry, the tenant is there without a user of that email, and no other invitation to it there counts as accepted |
| `InvitationWitnesses.JoinAtExpiryArises` | src/tenant/tenant-management.service.ts:264-270 | From every state, for every address not invited before and every list of assignable roles, the lenient instant can be reached |
| `InvitationRefusals.CancelWorksExactly` | prisma/schema.prisma:345 | The index covers every status, so a pending invitation can be cancelled if and only if no other to that address in the tenant stands cancelled |
| `InvitationRefusals.SecondCancellationFails` | src/invitation/services/invitation.service.ts:316-327 | After one cancellation no invitation to the same address can be cancelled over any run, while the cancelled row is there |
| `InvitationWitnesses.SecondCancellationArises` | src/invitation/services/invitation.service.ts:296-341 | From every state, for every address not invited before and every list of assignable roles: invite, cancel, invite again leads to a cancellation that is refused |
| `InvitationRefusals.ExpiryWorksExactly` | src/invitation/services/invitation-validation.service.ts:179-209 | A pending invitation past its expiry can be marked expired, by any of the three checks, if and only if no other to that address in the tenant stands expired |
| `InvitationRefusals.SecondExpiryFails` | src/invitation/services/invitation.service.ts:202-212 | After one expiry was marked, none to the same address can be over any run while that row is there, by any of the three checks |
| `InvitationRefusals.PendingBlocksInviting` | src/invitation/services/invitation.service.ts:598-617 | And an invitation that stays pending keeps its address from being invited again |
| `InvitationWitnesses.SecondExpiryArises` | src/invitation/services/invitation-validation.service.ts:179-209 | From every state, for every address not invited before and every list of assignable roles: invite, let expire, invite again leads to an expiry that cannot be marked |
| `InvitationRefusals.AcceptanceWorksExactly` | src/invitation/services/invitation-acceptance.service.ts:64-182 | Acceptance works if and only if the user can be created, the expiry has not come in between, and no other invitation to that address in the tenant counts as accepted |
| `InvitationRefusals.SecondAcceptanceFails` | src/invitation/services/invitation.service.ts:231-260 | After one acceptance every later joining and acceptance for the same address in the tenant fails over any run while that row is there, and acceptance leaves a user behind each time it gets that far |
| `InvitationWitnesses.SecondAcceptanceArises` | src/invitation/services/invitation-acceptance.service.ts:64-182 | From every state, for every address not invited before and every list of assignable roles: invite, accept, delete the user, invite and accept again ends in a refusal with a user left behind |
| `InvitationRefusals.HalfAcceptedExactly` | src/invitation/services/invitation-acceptance.service.ts:64-118 | Acceptance leaves a user behind without accepting exactly when everything before was in order and by then the invitation has run out or the address counts as accepted |
| `InvitationWitnesses.HalfAcceptanceArises` | src/invitation/services/invitation-acceptance.service.ts:64-118 | From every state, for every address not invited before and every list of assignable roles, an expiry between the two validations leaves the user behind |
| `EffectivePermissions.GetEffectivePermissions` | src/user/user.service.ts:516-543 | The two merge loops keep the first entry of each identifier, in order, role entries before direct ones |
| `EffectivePermissions.FirstOnlyExactly` | src/user/user.service.ts:529-541 | What is kept is exactly the first entries, at increasing positions |
| `EffectivePermissions.EachOnce` | src/user/user.service.ts:529-541 | Each identifier offered is listed exactly once and no other is |
| `EffectivePermissions.RoleEntryWins` | src/user/user.service.ts:529-541 | An identifier held through a role is listed with a role's entry, any other with its direct one |
| `EffectivePermissions.FirstRoleNames` | src/user/user.service.ts:516-534 | Among several roles with a permission the first one names its entry |
| `EffectivePermissions.ListingAgreesWithGuard` | src/common/guards/permissions.guard.ts:53-98 | For the rows of a scoped state the list holds exactly the permissions the guard grants, tells role and direct ones apart, and reads as exactly the guard's strings |
| `SignInMethods.SignsInExactly` | src/auth/services/google-auth.service.ts:37-160 | After any run a password signs an account in if and only if `password` is listed, its Google identity if and only if `google` is and the account has no tenant or one with the switch on; if neither holds, no password and no Google identity signs it in by any flow |
| `SignInMethods.FoundingLocksOutExactly` | src/tenant/tenant-management.service.ts:87-93 | Founding a tenant, which leaves the switch off, locks its founder out if and only if it has no password |
| `SignInMethods.GoogleFounderIsLockedOut` | src/auth/services/google-auth.service.ts:544-555 | It arises for every Google profile: sign up without a tenant, found one, and nothing signs the account in any more |
| `SignInMethods.WaysBack` | src/auth/auth.service.ts:379-421 | A verified password reset gets any account back in, and switching Google sign-on on a linked one |
| `SignInMethods.RunKeepsSane` | src/auth/auth.service.ts:379-457 | Methods stay nonempty and distinct, agree with the stored password and Google identifier, and no two accounts share an identifier or an address |
| `SignInMethods.UnlinkExactly` | src/auth/services/google-auth.service.ts:417-478 | Unlinking works if and only if the account is linked and has a password, and leaves just the password |
| `SignInMethods.UnlinkUndoesLink` | src/auth/services/google-auth.service.ts:383-412 | Unlinking after linking restores the account table |
| `SignInMethods.GoogleOnlyNeedsPasswordFirst` | src/auth/auth.service.ts:426-457 | A Google-only account cannot be unlinked, but after setting a password it can |
| `SignInMethods.SetPasswordExactly` | src/auth/auth.service.ts:426-457 | A first password can be set if and only if there is none; it then signs the account in, no other does, and a linked Google identity stays |
| `AccountChanges.SignsInWithLastStored` | src/auth/auth.service.ts:379-457 | Over any run that does not delete the account, a password signs it in if and only if it is the one last set where there was none, or last reset with a verified code |
| `AccountChanges.SecretChangesExactly` | src/auth/auth.service.ts:379-457 | A step changes an account's password if and only if it sets one where there was none or is a verified reset to another |
| `AccountChanges.ResetExactly` | src/auth/auth.service.ts:379-421 | A reset works if and only if the account is there and the code was verified; refused it changes nothing, otherwise only that account's password and its missing method |
| `AccountChanges.FlowSignsInExactly` | src/auth/services/google-auth.service.ts:70-160 | Google signs in to the account its identity is linked to, else to the one with its email in that tenant, else to a new one where provisioning and the default role allow it, and in no other case |
| `AccountChanges.AppearsExactly` | src/auth/services/google-auth.service.ts:220-285 | An account appears if and only if an operation that creates one meets its address, identity, switch and provisioning conditions, and then with the one method it came with |
| `AccountChanges.MovesExactly` | src/tenant/tenant-management.service.ts:228-313 | An account's tenant and email change only by founding or joining with none before, or by a change of email within the tenant, to an address nobody else has |
| `SignInMethods.OthersChangeNothing` | src/auth/services/google-auth.service.ts:70-378 | No run of operations on other accounts changes how an account signs in |
| `SignInMethods.IdentityLostExactly` | src/auth/services/google-auth.service.ts:105-146 | One operation makes a linked identity stop finding its account if and only if it unlinks or deletes the account, links another identity, or signs in an unlinked identity of the same email, with the account's tenant when that is open or without one when it has none |
| `SignInMethods.AccountStore.AuthenticateWithGoogle` | src/auth/services/google-auth.service.ts:70-160 | Lookup by identifier, tenant check, auto-link by email and provisioning are the specified flow |
| `SignInMethods.AccountStore.AuthenticateTenantless` | src/auth/services/google-auth.service.ts:529-593 | The tenant-less flow is the specified one |
| `SignInMethods.AccountStore.LinkGoogleAccount` | src/auth/services/google-auth.service.ts:290-412 | Linking with its three refusals is the specified step |
| `SignInMethods.AccountStore.ResetPasswordWithOtp` | src/auth/auth.service.ts:379-421 | A verified reset rewrites the password of an account found by email and tenant, and adds the method when missing |
| `SignInMethods.AccountStore.LoginWithPassword` | src/auth/auth.service.ts:106-169 | Password sign-in finds the account by email and tenant and compares the password alone |
| `OAuthState.AnswersExactly` | src/auth/services/oauth-state.service.ts:71-129 | Every validation of a run answers non-null if and only if its state is outstanding, i.e. generated and not asked for since, still stored, at most ten minutes old and bound to the very user expected |
| `OAuthState.FirstLookAnswers` | src/auth/services/oauth-state.service.ts:28-129 | The first look at a generated state, by the party it is bound to and within 600 seconds, answers what was generated |
| `OAuthState.NoMoreSuccessesThanStates` | src/auth/services/oauth-state.service.ts:28-129 | A state is validated at most as often as it was generated |
| `OAuthState.ValidationIsBound` | src/auth/services/oauth-state.service.ts:71-129 | A non-null answer is the data generated under that state, within ten minutes, for the party it was bound to, at the first look |
| `OAuthState.CleanupChangesNoAnswer` | src/auth/services/oauth-state.service.ts:135-173 | Inserting a cleanup anywhere in a run changes no later answer |
| `OAuthState.StoreTracksHistory` | src/auth/services/oauth-state.service.ts:28-173 | Store and history agree but for dead keys and stale records |
| `OAuthState.OAuthStateService.CleanupExpiredStates` | src/auth/services/oauth-state.service.ts:135-173 | The loop deletes exactly the stale states Redis still lists and counts them |
| `CookieHeader.CookieStringReadsBack` | src/auth/services/auth-cookie.service.ts:162-189 | The cookie-string of section 4.2.1 of RFC 6265, with encoded values, is parsed back to the cookies printed, the last of each name winning |
| `CookieHeader.ParseReadsBack` | src/auth/services/auth-cookie.service.ts:174-188 | Entries without a name anywhere between the cookies disturb nothing, and the space after a semicolon does not matter |
| `CookieHeader.ParseThrowsExactly` | src/auth/services/auth-cookie.service.ts:184-186 | Parsing fails as a whole if and only if some entry with a name has a malformed escape |
| `CookieHeader.ReturnsExactly` | src/auth/services/auth-cookie.service.ts:177-188 | Otherwise it returns, for every name but `__proto__`, the decoded value of the last entry of that name, and no other name |
| `CookieHeader.SplitJoined` | src/auth/services/auth-cookie.service.ts:174-176 | Splitting at semicolons undoes joining with them |
| `CookieEntries.PaddedEntryReads` | src/auth/services/auth-cookie.service.ts:177-186 | An entry is read as its name with its decoded value, wherever white space stands around the two |
| `CookieEntries.SkippedExactly` | src/auth/services/auth-cookie.service.ts:177-183 | An entry says nothing if and only if it has no equals sign or only white space before the first |
| `CookieHeader.ParseCookies` | src/auth/services/auth-cookie.service.ts:162-189 | The reduce loop over the trimmed parts is the specified parser, the error included |
| `UriComponent.DecodeEncoded` | src/auth/services/auth-cookie.service.ts:186 | Decoding undoes encoding for every string, through percent escapes and UTF-8 |
| `UriComponent.OnlyUtf8` | src/auth/services/auth-cookie.service.ts:186 | Nothing but the shortest UTF-8 form of a code point is decoded as it |
| `BulkInvitations.OutcomeIsFilter` | src/invitation/services/invitation-management.service.ts:139-177 | The loop's successes and failures are the admissible addresses and the others, both in the order of the list, judged by the tables before the call: no address affects another |
| `BulkInvitations.EveryAddressOnce` | src/invitation/services/invitation-management.service.ts:134-177 | Each distinct normalised address ends in exactly one list; the counts add up to their number, and to the reported total if and only if none was repeated |
| `BulkInvitations.SuccessIsPendingOnce` | src/invitation/services/invitation.service.ts:26-158 | Each successful address has exactly one pending invitation in the tenant, the one reported |
| `BulkInvitations.UniqueExactly` | src/invitation/services/invitation-management.service.ts:134-136 | The addresses tried are the normalised ones, each once |
| `BulkInvitations.EmailFitsExactly` | src/invitation/services/invitation-management.service.ts:139 | The pattern fits exactly three nonempty words without white space or at signs, joined by an at sign and a dot |
| `Text.NormaliseExactly` | src/invitation/services/invitation-management.service.ts:134-136 | A normalised address is the address between its outer white space, differing in the case of letters only, with no capital of ASCII |
| `BulkInvitations.FailuresAreExplained` | src/invitation/services/invitation-management.service.ts:137-148 | A failure is put down to the format if and only if the address does not fit the pattern |
| `BulkInvitations.CreateBulkInvitations` | src/invitation/services/invitation-management.service.ts:105-196 | The loop, with its refusal of empty and overlong lists, leaves the tables and reports as the sequence of attempts does |

## Left out

- Controllers, DTO validation, interceptors, module wiring, configuration and seeding: plumbing.
- Audit, metrics, logging, email, SMS, queues, WebSockets: side effects only; their calls are dropped.
- Redis failures and the limiters' fail-open branches: the limiter theorems are about runs without them.
- Administrative resets (`resetRateLimit`, `clearRateLimit`, `clearUserOTPData`, `bulkVerifyUsers`): they lift the bounds on purpose.
- `InvitationStatusService`: it writes lower-case statuses the other services do not know; the lifecycle is about those others.
- Races inside methods that await several times (the one-time-code limiter and verification, rotation, state validation): serialised per user, session or state. The sliding-window limiter is the exception: its two steps interleave freely.
- bcrypt, SHA-256, JWT signing and random values are injective or fresh; stored passwords are equal exactly when the passwords are.
- The format check of invitation tokens (64 hexadecimal digits): tokens are opaque numbers, and a malformed one is one that resolves to nothing.
- Bulk cancelling and resending, pagination, statistics, reports and CSV export of invitations: easy members.
- Ordering and pagination arguments of queries, `select` and `include`, relation filters: the middleware does not look at them.
- `tenants` and `user_tenants` tables beyond names and the two Google switches, and the other tenant settings.
- Composite unique indexes that contain the tenant column: they refuse the same writes on the shared and on the private table.
- The middleware is not applied again in the directory model, whose services name their tenant in every query they make; the lookups by bare identifier are modelled unscoped, as they run without a tenant in the context.
- Lone surrogates in cookie values and names inherited from `Object.prototype` in cookie lookups.
- Lower-casing of letters outside ASCII in addresses.
- TenantScoping.Params.Apply: nested filter and data objects are replaced by values rather than mutated, so aliasing between the caller's nested objects is not captured.
- DirectoryServices.Store.AcceptInvitation: the result of the Google exchange, the tenant's switch and whether the Google identity is free come with the credentials as parameters; they are not read from tables.
- OtpCodes.OtpService.FindByCode: only the search by code is modelled; codes that match nothing reach no user's record.
- OAuthState.AnswersExactly: stored records always parse; unparsable ones, which cleanup deletes, do not arise from the service itself.
