# APAGE control plane: a verified model

APAGE serves preview links to uploaded files. This project models the state machines
and concurrent protocols under its Go control plane and proves properties of them over
every run. Redis and Postgres are explicit maps, sets, queues and a clock; each Redis
command, or each handler or job, is one atomic step, as said per group below.

| file | group |
|---|---|
| `Metering.dfy` | the usage buffer: producers and drainers interleave command by command |
| `FileLifecycle.dfy` | file statuses, the storage ledger, the scan queue, the sweep, the purge |
| `Policies.dfy`, `Admission.dfy` | access policies and expiries, the gate pipeline, render grants, view counting over runs of the whole server |
| `TimedKeys.dfy`, `Totp.dfy` | keys with a time to live: the view counter, the rate limiter, the TOTP nonce |
| `DeleteRetry.dfy`, `Decimal.dfy` | the delete queue with tagged retries, backoff and the dead-letter list |
| `Pagination.dfy` | keyset pages against the one sorted listing |
| `Freezes.dfy`, `Members.dfy` | tagged link freezes; memberships and the owner rule |
| `Text.dfy`, `Splitting.dfy` | the Content-Disposition header, the log scrubber, string splitting |
| `Sums.dfy`, `Arithmetic.dfy` | sums over maps, clamping and 64-bit wrap-around |

Code that changes state is a class whose methods are proved equal to a step function on
the abstract state. The lemmas named `...Exactly` say what each step does in the stored
fields alone; the run theorems are about sequences of steps.

## Where the code and its documentation differ

The model follows the code.

- `single_use` and `maxViews` are documented as hard caps. The counter's time to live is
  cut to whole seconds, so a link with an expiry can be served again in its last second:
  up to twice the cap in all. The cap holds for all runs that start at a given instant
  exactly when less than a second, or a whole number of seconds, is left
  (`ViewCap.CapHoldsIffWholeSeconds`, `ViewCap.CapBounds`).
  When the expiry is changed p - 1 times the bound is p + 1 times the cap
  (`ExpiryChanges.ServedWithinPeriods`).
- A fixed-window limiter admits up to `2 * limit - 1` calls in an interval as long as its
  window, and for every limit and window some run reaches that; the limit itself holds for
  all runs exactly when it is one (`RateWindow.LessThanTwiceTheLimit`,
  `RateWindow.BoundIsReached`, `RateWindow.LimitHoldsIffOne`).
- Delete and sweep subtract bytes that were never added, so the ledger may show less than
  what is stored, never more (`FileLedger.DeleteExactIff`, `FileLedger.SweepExactIff`).
- Restoring a tenant can revive the links of an instance that is still frozen
  (`Freezes.RestoreCanReviveFrozenInstance`, `Freezes.RestoreHoldsInstanceIff`), and a
  moderator's freeze whose text equals a system tag is lifted with that tag
  (`Freezes.SurvivesIffIndependent`).
- A link lifetime of more than 9223372036 seconds overflows; the link still ends at the
  earliest of request, plan cap and file exactly when the cap or the file's expiry hides the
  wrapped value (`Expiries.LinkExpiryIsEarliestLayer`).
- `single_use` and `ip_allowlist` are listed as policy types. Only the fields `singleUse` and
  `ipAllowlist` are enforced; the type alone does nothing (`Admission.OtherKindsMeanNothing`,
  `Admission.OtherKindsUnlockNothing`). A link is served once and then refused exactly when
  `singleUse` is set or `maxViews` is one, as long as its counter lives
  (`Admission.OneTimeIff`).
- The unlock limiter's five attempts in 15 minutes come to nine in the worst interval, and
  nine are reached (`LimiterRuns.AtMostNineGuesses`, `LimiterRuns.NineGuessesGetThrough`).
- A queue message pushed by hand with a negative attempt, or with the largest int, is tried
  more than six times (`RawMessages.SixAtMostIff`); storage keys never are such messages.
- The `order` parameter of a listing is parsed and never used; every listing is newest first.
- `DeleteInstance` is commented as cascading to links; the schema sets their instance to NULL.

## Assumptions

- Redis shows a key up to and including its deadline and drops it afterwards. Clocks are
  integers in nanoseconds from 1970 on that do not go back; one visitor request happens at
  one instant. Redis keeps deadlines in whole milliseconds and the model in nanoseconds, so
  conditions on exact instants, such as the whole number of seconds in
  `ViewCap.CapHoldsIffWholeSeconds`, are off by up to a millisecond.
- No Redis or database statement fails and no process crashes, except where an event
  carries a failure (database writes of a flush, object deletion, object reads of a scan,
  the upload's object store write). So the branches that let a request pass when Redis is
  down are not taken.
- Generated ids, tokens and secrets are fresh; keyed hashes are injective and cannot be
  made up, so a visitor presents a render grant or an unlock cookie only after the server
  has put it in some answer.

## Model

The table leaves out helper lemmas and the corollaries that spell out single answers of the
pipeline (`RedirectExactly`, `FrozenExactly`, `LoginRequiredExactly`, `PasswordPageExactly`,
`UnlockExactly` and `NoOracle` in `Admission.dfy`).

| member | source | states |
|---|---|---|
| `UsageBuffer.Client.AddUsage` | internal/redisx/redisx.go:186-195 | zero is ignored; otherwise the counter grows by n and its key is then in the key set |
| `UsageBuffer.Client.DrainUsage` | internal/redisx/redisx.go:198-217 | an undisturbed drain empties the key set, deletes exactly the announced counters and reports each of them once with its whole value |
| `UsageBuffer.MemberDecodes` | internal/redisx/redisx.go:198-217 | a set member is read back as its tenant and dimension exactly when the tenant id has no bar |
| `UsageBuffer.CounterNamesDistinct` | internal/redisx/redisx.go:186-195 | two meters share a counter key only if they are equal |
| `Metering.NothingStranded` | internal/redisx/redisx.go:186-217 | in every interleaving of any number of producers and drainers, one Redis command per step, a non-zero counter is in the key set or some process still owes its SADD or its GETDEL |
| `Metering.QuietBufferIsAnnounced` | internal/redisx/redisx.go:186-217 | when all processes are done every non-zero counter is in the key set, so the next drain takes it |
| `Metering.SwappedOrdersStrand` | internal/redisx/redisx.go:186-217 | with INCRBY and SADD swapped, or SREM and GETDEL swapped, an increment is stranded |
| `MeterEffects.AddExactly` | internal/redisx/redisx.go:186-195 | a producer step by step: the counter grows by n, then its key is in the set, and nothing else changes |
| `MeterEffects.TakeExactly` | internal/redisx/redisx.go:198-217 | a drainer step by step: the key leaves the set, then the counter is taken with its whole value |
| `MeterEffects.FlushExactly` | internal/worker/worker.go:155-168 | a flush step by step: the clamped column of an existing row, then the rollup of the day and no other; a failed first write skips the second |
| `MeterEffects.SoloDrain` | internal/redisx/redisx.go:198-217 | command by command and undisturbed, a drain does what the one-step drain promises |
| `Metering.UsageConserved` | internal/worker/worker.go:155-168 | in every interleaving, all that was added to a meter is buffered, carried by a process, in the database, or dropped by a failed write |
| `Metering.RunReconciles` | internal/worker/worker.go:155-168 | over every run with positive usage, with any failures of either database write, the column of a meter is its daily rows, the rollups still to come, and the rollups that failed |
| `Metering.DailyRowsMatchQuotaIff` | internal/store/usage.go:23-44 | while no flush sits between its two writes, the daily rows of a meter add up to its cumulative column exactly when no rollup of it has failed; a failed quota write skips both and does not matter; with nothing in flight the column is all that was added but what was dropped |
| `Metering.DailyRowsMatchQuota` | internal/store/usage.go:23-44 | so without database errors the two records agree between flushes, and both end at all that was added |
| `Metering.RollupMatchesIffNoClamp` | internal/store/usage.go:23-44 | the two writes of one flush move column and rollup alike exactly when the zero clamp does not bite |
| `MeterFlush.Worker.FlushUsage` | internal/worker/worker.go:155-168 | an undisturbed flush moves the whole value of every announced counter, once, into the column and the day's rollup, and touches no other column, rollup or day |
| `MeterFlush.Worker.AddUsageDaily` | internal/store/usage.go:34-44 | the rollup of one meter and day grows by n and no other does |
| `FileService.Service.AddStorageUsed` | internal/store/accounts.go:239-244 | the ledger of an existing row moves by delta and stops at zero |
| `FileService.Service.UploadFile` | internal/api/files.go:36-104 | type and quota refusals leave everything as it is; a failed store leaves an uncharged row; otherwise the file is scanning, charged and queued |
| `FileService.Service.PresignUpload` | internal/api/files.go:142-192 | a presigned upload reserves nothing: the row is uploading and uncharged |
| `FileService.Service.CompleteUpload` | internal/api/files.go:201-264 | completion takes the real size, rejects and queues deletion over quota, and charges and queues a scan otherwise |
| `FileService.Service.DeleteFile` | internal/api/files.go:303-326 | the row becomes deleted whatever its status, its size leaves the ledger, its object is queued |
| `FileService.Service.HandleScan` | internal/worker/worker.go:198-230 | the tail message is dropped, retried, rejected or made ready by status, type and bytes |
| `FileService.Service.RejectFile` | internal/worker/worker.go:327-339 | a rejected file's bytes are released and its object queued |
| `FileService.Service.ExpireDueFiles` | internal/store/files.go:112-134 | exactly the due rows become expired, and copies of them as they were are returned |
| `FileService.Service.SweepDue` | internal/worker/worker.go:302-319 | all due rows expire, and their bytes and objects are released one by one |
| `FileService.Service.PurgeTenant` | internal/store/compliance.go:16-59 | the tenant's rows go, its ledger is zero, and all of its objects are queued for deletion |
| `FileEffects.AllowedTypes` | internal/worker/worker.go:390-401 | which types may be uploaded and previewed |
| `FileEffects.UploadExactly` | internal/api/files.go:36-104 | the row, the charge, the scan message and the answer of every upload |
| `FileEffects.PresignExactly` | internal/api/files.go:142-192 | the row and the answer of every presigned upload |
| `FileEffects.CompleteExactly` | internal/api/files.go:201-264 | a completion counts the bytes really stored, or rejects and queues the object when they are over the limit |
| `FileEffects.DeleteExactly` | internal/api/files.go:303-326 | row, ledger, queue and answer of every delete |
| `FileEffects.ScanExactly` | internal/worker/worker.go:198-230 | the file at the tail becomes ready exactly when its type is allowed and the bytes fit it, type by type; rejected exactly when not; and it is queued again exactly when they could not be read |
| `FileEffects.StaleScanExactly` | internal/worker/worker.go:198-205 | the message of a deleted, expired or purged file is dropped |
| `FileEffects.SweepExpires` | internal/store/files.go:112-134 | exactly the unfinished files whose time has come expire |
| `FileEffects.SweepQueues` | internal/worker/worker.go:302-319 | the object of each of them is queued |
| `FileEffects.SweepReleases` | internal/worker/worker.go:302-319 | the ledger of each tenant goes down by its bytes among them, to zero at most |
| `FileEffects.PurgeExactly` | internal/store/compliance.go:16-59 | the tenant's files are gone, its ledger is zero, their objects are queued, and nothing else changes |
| `FileLedger.DeleteLedger` | internal/api/files.go:303-326 | a delete keeps 0 <= used <= stored bytes, even of an uncharged or already deleted file |
| `FileLedger.DeleteExactIff` | internal/api/files.go:303-326 | a delete keeps an exact ledger exact exactly when the file was charged, was empty, or the ledger was at zero |
| `FileLedger.SweepRows` | internal/worker/worker.go:302-319 | the sweep's row-by-row releases keep the ledger between zero and the stored bytes after every prefix of the rows |
| `FileLedger.ReleasedInOne` | internal/worker/worker.go:302-319 | clamping after each row of a sweep comes to the same as clamping once at its end |
| `FileLedger.UploadInTwoWrites` | internal/api/files.go:71-104 | with a delete between the status write and the ledger write of an upload, the ledger ends above what is stored exactly when it was below the size |
| `FileLedger.SweepExactIff` | internal/worker/worker.go:302-319 | a sweep keeps an exact ledger exact exactly when no uncharged bytes were due, or the charged bytes that were due were all there was |
| `FileRuns.RunsAreSafe` | internal/api/files.go:71-104 | in every reachable state 0 <= used <= bytes of scanning and ready files and used <= limit, each file has at most one scan message, a file with one is scanning, expired, deleted or purged, and every finished file's object was queued for deletion |
| `FileRuns.CleanRunsAreExact` | internal/api/files.go:201-264 | on runs whose deletes and expiries only hit scanning or ready files the ledger equals the stored bytes |
| `FileRuns.UnchargedDeleteUndercounts` | internal/api/files.go:303-326 | a concrete run on which deleting an uploading file empties the ledger of another file's bytes |
| `FileRuns.TerminalIsAbsorbing` | internal/worker/worker.go:198-230 | a rejected, expired or deleted file stays so through every later run, until its row is purged |
| `FileRuns.ReadyWasScanned` | internal/worker/worker.go:198-230 | a file is ready only after a scan step of the run that accepted its declared type and its bytes |
| `FileEffects.ObjectKept` | internal/store/compliance.go:16-59 | over every run a file's object is still its row's or was queued for deletion; a finished or purged file leaves no object behind |
| `Expiries.EffectiveIsEarliest` | internal/api/policy.go:14-25 | the effective expiry is past exactly when the link's or the file's is |
| `Expiries.LinkNeverOutlivesItsLayers` | internal/api/links.go:85-115 | whatever lifetime is requested, a new link ends no later than its file and the plan's cap |
| `Expiries.LinkExpiryIsEarliestLayer` | internal/api/links.go:85-115 | it ends at the earliest of request, cap and file exactly when the request fits 9223372036 seconds, or the cap or the file's expiry hides the wrapped product, for every plan and file |
| `Policies.IpAllowed` | internal/api/policy.go:97-115 | an empty list admits everyone, any other only a valid address that some entry covers |
| `Policies.AccountAllowed` | internal/api/runtime.go:358-387 | a logged-in user passes when listed, in a listed tenant, or when nothing is listed |
| `AdmissionEffects.PassiveExactly` | internal/api/runtime.go:51-72 | the answer to every request for passive content of a live link, from the stored fields: limiter, address, account, password, file expiry, view cap, signed URL or bytes |
| `AdmissionEffects.AskedExactly` | internal/api/policy.go:125-133 | a password or a login is asked for exactly when kind or switch of the stored policy says so |
| `AdmissionEffects.ActivePageExactly` | internal/api/render.go:34-87 | the answer to every page request for active content: bounce, wrapper, or the refusal |
| `AdmissionEffects.RawExactly` | internal/api/render.go:91-141 | the answer to every request for the bytes of active content |
| `AdmissionEffects.LinkRefusalsExactly` | internal/api/runtime.go:208-248 | what is said of a link that is unknown, revoked, frozen, expired or without a ready file |
| `AdmissionEffects.UnlockAnswers` | internal/api/runtime.go:169-204 | the answer to every password for a live link; a password link without a stored password stays locked |
| `AdmissionEffects.RenderOriginExactly` | internal/api/render.go:146-156 | the host name before any port is what counts |
| `AdmissionEffects.LimiterKeysExactly` | internal/api/runtime.go:174-176 | limiter keys are shared by the same address only, and for passwords by the same link too |
| `Admission.GatesAreAConjunction` | internal/api/runtime.go:206-248 | the ordered early returns pass exactly when all gates hold, in no order: secret, not revoked, not frozen, ready file, neither expiry past, and the visitor authorized for this origin |
| `Admission.PipelineRefinesConjunction` | internal/api/runtime.go:23-72 | content is attempted exactly when limiter, all gates and the counter allow it; the wrapper and the bounce need the same gates and no counter; a bounce is only given off the render origin and a wrapper only on it |
| `Admission.CounterMovesOnceOrNever` | internal/api/runtime.go:103-124 | a request runs the counter script of a link once if all gates hold for a counted link's content and never otherwise; no other Redis key but the limiter's changes |
| `Admission.OtherKindsMeanNothing` | internal/api/policy.go:117-133 | policy kinds other than password and account, single_use and ip_allowlist among them, change no answer and no effect of a page or byte request |
| `Admission.OtherKindsUnlockNothing` | internal/api/runtime.go:169-204 | nor of an unlock request |
| `Admission.OneTimeIff` | internal/api/runtime.go:103-124 | the first request that asks for the content of a link gets it; the next one gets it too exactly when neither singleUse is set nor maxViews is one, or when the counter of the first has gone |
| `VisitorService.Server.AdmitLink` | internal/api/runtime.go:208-233 | the first failing link gate decides the answer |
| `VisitorService.Server.ValidRenderGrant` | internal/api/render.go:170-181 | the grants of this link for the current and the previous window are accepted, and no others |
| `VisitorService.Server.ConsumeView` | internal/api/runtime.go:105-124 | an uncounted link costs nothing; a counted one takes one step of the script with the seconds left until its expiry |
| `VisitorService.Server.ServeActive` | internal/api/render.go:34-87 | bounce, wrapper or the first refusal, by origin |
| `VisitorService.Server.HandlePreview` | internal/api/runtime.go:23-72 | the handler's answer and its effect on Redis are the specified ones |
| `VisitorService.Server.HandlePreviewRaw` | internal/api/render.go:91-141 | the same for the bytes of active content |
| `VisitorService.Server.HandleUnlock` | internal/api/runtime.go:169-204 | the handler answers and changes Redis as specified: at most one limiter step, and the first failing gate decides |
| `AdmissionRuns.TokensTrace` | internal/api/render.go:160-166 | every grant or unlock token in circulation was given in the answer to an earlier step of the run |
| `AdmissionRuns.IssuedExactly` | internal/api/render.go:160-166 | tokens come into circulation with the answers that carry them and in no other way |
| `AdmissionCompletes.BouncedVisitorIsServed` | internal/api/render.go:89-141 | a bounced visitor gets the bytes on the render origin within 600 seconds, as long as link and views allow |
| `AdmissionCompletes.UnlockedVisitorIsServed` | internal/api/runtime.go:169-204 | a visitor who gave the right password is served without being asked again |
| `AdmissionRuns.GrantLifetime` | internal/api/render.go:168-181 | a grant is accepted up to the end of the window after its own: for 600 seconds at least, and never 1200 seconds after its issue |
| `AdmissionRuns.ActiveBytesTrace` | internal/api/render.go:89-141 | with a render domain, active bytes at time t come after a control-plane request for the same link, less than 1200 s earlier, that passed the address, account and password gates, whatever changed in between |
| `AdmissionRuns.UnlockTrace` | internal/api/runtime.go:389-403 | an unlock cookie is shown only after the right password was given for that link |
| `AdmissionRuns.ProtectedContentTrace` | internal/api/runtime.go:51-72 | no content of a link that always asks for a password is served, on any origin, before someone gave the right one |
| `AdmissionRuns.RunIsCounterRun` | internal/api/runtime.go:103-124 | projected on one link, any run of the whole server is a run of that link's counter alone |
| `AdmissionRuns.ServedWithinCap` | internal/api/runtime.go:103-124 | over any run with any other traffic, a link with a fixed cap and expiry is served at most twice the cap, and exactly min(attempts, cap) without an expiry or up to a second before it |
| `ExpiryChanges.ServedWithinPeriods` | internal/api/runtime.go:103-124 | over any run in which the link has had p expiries and one cap, it is served at most (p + 1) * cap times |
| `LimiterRuns.RunIsLimiterRun` | internal/api/auth.go:259-286 | projected on one limiter key, any run of the whole server is a run of that limiter alone, and exactly its allowed calls get past it |
| `LimiterRuns.FewerThanTwiceGetThrough` | internal/api/runtime.go:27-30 | over any run, in any interval as long as a limiter's window fewer than twice its limit of requests get past it |
| `LimiterRuns.AtMostNineGuesses` | internal/api/runtime.go:172-176 | over any run, at most nine passwords are checked for one link from one address in any 15 minutes |
| `LimiterRuns.NineGuessesGetThrough` | internal/api/runtime.go:172-176 | a visitor without any token gets nine tries through within 15 minutes, from any starting state |
| `LimiterRuns.GotThroughIsChecked` | internal/api/runtime.go:177-198 | on an open link that asks for a password, the tries that get through are exactly those on which the password is checked |
| `TimedKeys.Client.ConsumeViewOf` | internal/redisx/redisx.go:47-73 | the script's effect and result, with the duration, negative or not, cut to whole seconds |
| `TimedKeys.Client.RateLimitOf` | internal/redisx/redisx.go:77-117 | the script's effect and result, including the rounding of TTL |
| `TimedKeys.Client.SetNXOf` | internal/redisx/redisx.go:152-156 | the key is created, with its deadline, exactly when it is absent or expired, and nothing changes otherwise |
| `TimedKeys.ConsumeViewExactly` | internal/redisx/redisx.go:47-58 | number, deadline and answer of the view script for every stored cell |
| `TimedKeys.RateLimitExactly` | internal/redisx/redisx.go:77-91 | number, deadline, verdict, remaining and reset of the limiter script for every stored cell |
| `TimedKeys.SetNXExactly` | internal/redisx/redisx.go:152-156 | set exactly when absent or past its deadline |
| `ViewCap.CellClosedForm` | internal/redisx/redisx.go:47-58 | the counter after any run: one with the first deadline, and after it a second one that never expires |
| `ViewCap.AdmittedExactly` | internal/redisx/redisx.go:47-73 | the exact number of views any run admits |
| `ViewCap.CapIsExactWithoutExpiry` | internal/redisx/redisx.go:60-73 | without an expiry k attempts admit exactly min(k, cap) |
| `ViewCap.CapBounds` | internal/api/runtime.go:105-124 | with an expiry at most twice the cap in all, and exactly min(k, cap) up to a second before it |
| `ViewCap.CapHoldsIffWholeSeconds` | internal/redisx/redisx.go:63-65 | the documented cap holds for all runs that start at an instant exactly when less than a second or a whole number of seconds is left |
| `RateWindow.WindowMoves` | internal/redisx/redisx.go:77-91 | only a call after the window's end moves the window; denied calls never do |
| `RateWindow.WindowExact` | internal/redisx/redisx.go:77-91 | in each window exactly min(calls, limit) are allowed and the remaining count goes down to zero |
| `RateWindow.LessThanTwiceTheLimit` | internal/redisx/redisx.go:77-117 | any interval as long as the window contains at most 2 * limit - 1 allowed calls |
| `RateWindow.BoundIsReached` | internal/redisx/redisx.go:77-117 | for every limit and window an ordered run that reaches this bound |
| `RateWindow.LimitHoldsIffOne` | internal/redisx/redisx.go:77-117 | no run allows more than the limit in any interval as long as the window exactly when the limit is one |
| `RateWindow.NoLimitNoCalls` | internal/redisx/redisx.go:87-89 | a limit of zero or less allows nothing |
| `RateWindow.ResetIsWindowEnd` | internal/redisx/redisx.go:85-90 | the reset time told to the client is within 1.5 seconds of the window's end |
| `Totp.TruncateIsBigEndian` | internal/totp/totp.go:32-46 | dynamic truncation (section 5.3 of RFC 4226) stays inside the MAC and gives a 31-bit big-endian number |
| `Totp.SixDigits` | internal/totp/totp.go:32-46 | a code is six digits, and equal codes are equal numbers modulo a million |
| `Totp.VerifyStepWindow` | internal/totp/totp.go:58-67 | exactly the codes of the three steps around now match, which pins the clock to 90 seconds |
| `Totp.VerifyStepPrefers` | internal/totp/totp.go:58-67 | of several matching steps the current one is taken, then the one before |
| `Totp.SubmitCode` | internal/api/admin.go:166-176 | a code passes exactly when its step matches and its nonce was not yet set, and only that nonce is set |
| `Totp.SubmitExactly` | internal/api/admin.go:166-176 | a matched step sets its own nonce for two minutes exactly when it is not set |
| `Totp.NonceKeysDistinct` | internal/api/admin.go:170-176 | different admins or steps never share a nonce |
| `Totp.AcceptedIff` | internal/api/admin.go:166-176 | over any run of requests by any admins with any secrets on one keyspace, a request is accepted exactly when its code matches and none of the same admin and step was accepted in the last two minutes |
| `Totp.StepAcceptedOnce` | internal/api/admin.go:166-176 | over such runs each time step of an admin is accepted at most once when verification and nonce are at most 30 s apart, also when the secret is replaced in between |
| `Totp.SingleUseIffDelayBounded` | internal/api/admin.go:166-176 | the exact delay up to which single use (section 5.2 of RFC 6238) holds |
| `Decimal.AtoiOfItoa` | internal/worker/worker.go:259-265 | reading a printed number gives it back exactly when it fits an int |
| `RetryTag.TagRoundTrip` | internal/worker/worker.go:259-285 | a tagged message is read back as its key and attempt exactly when the attempt fits an int, whatever the key contains |
| `RetryTag.UntaggedKey` | internal/worker/worker.go:259-265 | an untagged key is read as itself at attempt zero exactly when nothing like a number follows its last bar |
| `RetryTag.StorageKeysAreUntagged` | internal/api/files.go:30-34 | every storage key is read untagged |
| `RetryTag.BackoffFitsIffAtMost29` | internal/worker/worker.go:269-275 | the backoff product fits 64 bits exactly up to attempt 29 |
| `RetryTag.BackoffIsCappedExponential` | internal/worker/worker.go:269-275 | up to there it is min(10 * 2^a, 600) seconds and never decreases |
| `RetryTag.BackoffWrapsAt30` | internal/worker/worker.go:269-275 | attempt 30 would give a negative delay |
| `DeleteRetry.Worker.HandleDelete` | internal/worker/worker.go:238-254 | a message is deleted, given up, or scheduled once more |
| `DeleteRetry.Worker.ConsumeOne` | internal/worker/worker.go:182-193 | the oldest message is taken and handled |
| `DeleteRetry.Worker.RequeueAfter` | internal/worker/worker.go:279-285 | a due timer puts its message back with its attempt number |
| `DeleteEffects.SuccessExactly` | internal/worker/worker.go:242-246 | a message whose object could be deleted is done at once: no timer, no dead letter |
| `DeleteEffects.FailureExactly` | internal/worker/worker.go:247-256 | a failure deletes nothing: it waits 20, 40, 80, 160 or 320 s with the next attempt, or goes to the dead-letter list |
| `DeleteEffects.SubmitExactly` | internal/redisx/redisx.go:222-224 | a handler's key goes to the head of the queue untagged |
| `DeleteEffects.FireExactly` | internal/worker/worker.go:279-285 | a due timer puts back its own key and attempt at the head of the queue |
| `DeleteEffects.DeletedIffSucceeded` | internal/worker/worker.go:238-254 | over every run a message counts as deleted exactly when the object store once deleted its object |
| `DeleteEffects.DeadIffSixFailures` | internal/worker/worker.go:238-254 | over every run a message is given up exactly when the object store has failed it six times, and has then never succeeded |
| `DeleteRetry.ExactlyOnePlace` | internal/worker/worker.go:232-285 | in every run each submitted message is in exactly one of queue, timer, deleted and dead-letter list |
| `DeleteRetry.RunsStayInBudget` | internal/worker/worker.go:232-285 | each message is tried at most six times and waits at most 620 s; it is given up only after the sixth failure, under its original key, so tags never nest |
| `DeleteRetry.WorkDecreases` | internal/worker/worker.go:232-285 | every worker step strictly decreases a non-negative measure |
| `DeleteRetry.RestMeansSettled` | internal/worker/worker.go:232-285 | when the measure is zero every message is deleted or dead-lettered |
| `RawMessages.SixAtMostIff` | internal/worker/worker.go:238-265 | a message of any text is tried at most six times, in every state and run, exactly when it is read with an attempt of at least 0 and below the largest int, where counting up wraps around |
| `RawMessages.GivenUpAtFailure` | internal/worker/worker.go:238-254 | a message read with an attempt a below six that always fails is given up at its failure number 6 - a |
| `Pagination.ParsePage` | internal/httpx/pagination.go:31-56 | which limits are refused, which value is used, and that a bad cursor is an error |
| `Pagination.NewList` | internal/httpx/pagination.go:88-100 | a full page points at its last row and any other at nothing |
| `KeyOrder.ListingFacts` | internal/store/files.go:68-99 | the full listing holds each row once, newest first, ties by id |
| `KeyOrder.ListingIsNewestFirst` | internal/store/files.go:68-99 | in the stored columns: later times first, and for equal times greater ids first, compared byte by byte |
| `Pagination.WalkIsListing` | internal/httpx/pagination.go:88-100 | over a table that stays as it is the pages put together are the listing after the cursor, for any limit |
| `Pagination.PageCountIs` | internal/httpx/pagination.go:88-100 | n rows take n / limit + 1 pages |
| `Pagination.FileListingComplete` | internal/store/files.go:68-99 | a filtered file listing followed to its end is the whole sorted listing, in floor(n / limit) + 1 pages |
| `Pagination.WalkOverChanges` | internal/store/files.go:68-99 | whatever is inserted or deleted between pages, the output is strictly newest first and contains every row that was there throughout |
| `LinkStore.Store.FreezeRows` | internal/store/admin.go:135-140 | exactly the live links in scope get the tag, and their number is returned |
| `LinkStore.Store.UnfreezeRows` | internal/store/instances.go:150-156 | exactly the links in scope frozen with the tag are lifted |
| `LinkStore.Store.HandleFreezeLink` | internal/api/moderation.go:32-51 | a link of the tenant that is not frozen is frozen with the given reason; anything else is not found |
| `LinkStore.Store.HandleUnfreezeLink` | internal/api/moderation.go:54-71 | a frozen link of the tenant is lifted whatever its reason |
| `LinkStore.Store.RevokeLink` | internal/store/links.go:143-152 | a link is revoked once |
| `LinkStore.Store.UpdateLink` | internal/store/links.go:43-88 | an update without any field succeeds and does nothing, also on a missing or revoked link; any other changes just the fields given of a link that is not revoked |
| `LinkStore.Store.HandleFreezeInstance` | internal/api/moderation.go:74-97 | the instance is frozen and its live links are tagged |
| `LinkStore.Store.HandleUnfreezeInstance` | internal/api/moderation.go:112-131 | the instance is lifted and only its tagged links with it |
| `LinkStore.Store.HandleAdminSuspend` | internal/api/admin.go:276-294 | the tenant is suspended and its live links are tagged |
| `LinkStore.Store.HandleAdminRestore` | internal/api/admin.go:296-313 | the tenant is restored and only the suspension's freezes are lifted |
| `LinkEffects.SuspendExactly` | internal/store/admin.go:133-140 | a suspension freezes every live link of the tenant with its time and tag, and changes no other row |
| `LinkEffects.RestoreExactly` | internal/store/admin.go:142-148 | a restore thaws exactly the tenant's links with the suspension's tag |
| `LinkEffects.FreezeInstanceExactly` | internal/store/instances.go:137-147 | an instance freeze freezes every live link of it with its time and tag, and changes no other row |
| `LinkEffects.UnfreezeInstanceExactly` | internal/store/instances.go:149-156 | its lift thaws exactly its links with the tag |
| `LinkEffects.FreezeLinkExactly` | internal/store/links.go:154-161 | one row, its time and the given reason |
| `LinkEffects.UnfreezeLinkExactly` | internal/store/links.go:163-169 | one row, whatever its reason |
| `LinkEffects.RevokeExactly` | internal/store/links.go:143-152 | the revocation is stamped on that row, once |
| `LinkEffects.UpdateExactly` | internal/store/links.go:53-88 | the supplied fields of that row and nothing else |
| `LinkEffects.RemovalsExactly` | internal/store/instances.go:114-118 | deleting an instance unties its links and keeps them; a purge removes the tenant's links |
| `LinkEffects.SuspensionHolds` | internal/api/admin.go:276-294 | a link that is live when its tenant is suspended is frozen through every run until the restore, its own unfreeze or a purge |
| `LinkEffects.InstanceFreezeHolds` | internal/api/moderation.go:74-97 | the same for an instance freeze, also when the instance is deleted meanwhile |
| `LinkEffects.RevokedForGood` | internal/store/links.go:142-152 | a revoked link stays revoked through every run until it is purged |
| `Freezes.FreezeThenLift` | internal/store/admin.go:133-148 | tagging a scope and lifting the tag is the identity exactly when no link in scope had the tag |
| `Freezes.FreezeSurvives` | internal/store/links.go:156-169 | an individual freeze stays, with its time and reason, through every run until its own unfreeze or a purge |
| `Freezes.SurvivesIffIndependent` | internal/api/moderation.go:99-131 | the freezes that survive every run are exactly those without a tag that something else lifts |
| `Freezes.RestoreCanReviveFrozenInstance` | internal/api/admin.go:296-313 | suspend, freeze the instance, restore: the link is live and its instance frozen |
| `Freezes.RestoreHoldsInstanceIff` | internal/store/admin.go:142-148 | a restore keeps the links of a frozen instance frozen exactly when none carries the suspension's tag |
| `Membership.Directory.RegisterAccount` | internal/store/accounts.go:32-64 | a new tenant starts with one owner |
| `Membership.Directory.MembershipFor` | internal/store/accounts.go:136-145 | the role of a user in a tenant |
| `Membership.Directory.HandleInviteMember` | internal/api/members.go:41-71 | admins invite, and only owners invite owners |
| `Membership.Directory.HandleAcceptInvite` | internal/api/members.go:78-114 | a token works once and only for its address, and never changes an existing membership |
| `Membership.Directory.HandleUpdateMember` | internal/api/members.go:121-158 | only owners act on owners or make owners, and the last one is not demoted |
| `Membership.Directory.HandleRemoveMember` | internal/api/members.go:161-189 | only owners remove owners, and never the last one |
| `Membership.InviteExactly` | internal/api/members.go:41-71 | who may send an invite, and what it holds |
| `Membership.AcceptExactly` | internal/api/members.go:78-114 | the token is used up; a user without a membership in the tenant gets a row with the invited role, and no other row changes |
| `Membership.ChangeRoleExactly` | internal/api/members.go:121-158 | who may give which row which role, in the stored rows, and that only this role changes |
| `Membership.RemoveExactly` | internal/api/members.go:161-189 | who may remove which row, and that only it goes |
| `Membership.AlwaysAnOwner` | internal/api/members.go:41-189 | in every reachable state every registered tenant has an owner, and a user has one membership per tenant |
| `Membership.OwnerInvitesTrace` | internal/api/members.go:41-71 | an owner invite in circulation was sent by someone who owned the tenant then |
| `Membership.OwnersTrace` | internal/api/members.go:78-158 | every owner row traces to a registration or to a step taken by someone who owned the tenant then |
| `Membership.RolesTrace` | internal/api/members.go:41-158 | over every run, every row traces, with the very role it has, to a registration, an accepted invite with that role or a change to it, by someone who could give it then |
| `HeaderText.Rfc5987Escape` | internal/api/runtime.go:335-354 | the loop writes the specified escape |
| `HeaderText.EscapeByteExactly` | internal/api/runtime.go:335-354 | which bytes stand for themselves, and that the others become upper-case hex |
| `HeaderText.UnescapeOfEscape` | internal/api/runtime.go:335-354 | for every byte string the output is well-formed by section 3.2.1 of RFC 5987 and decodes to it |
| `HeaderText.AsciiFilename` | internal/api/runtime.go:318-333 | the loop over runes writes the specified name |
| `HeaderText.CleanOfText` | internal/api/runtime.go:318-333 | each printable ASCII character but quote and backslash stays, each other character of a UTF-8 name becomes one underscore |
| `HeaderText.RuneIsUtf8` | internal/api/runtime.go:318-333 | only well-formed UTF-8 (RFC 3629) is taken as more than one byte |
| `HeaderText.FilenameIsSafe` | internal/api/runtime.go:318-333 | the name is never empty, has no quote, backslash or control character, and harmless names are kept |
| `HeaderText.DispositionRoundTrip` | internal/api/runtime.go:309-316 | reading the header gives back the type and both names, for every file name |
| `HeaderText.HeaderExactly` | internal/api/runtime.go:309-316 | the header as it is sent |
| `PathScrub.ScrubSecret` | internal/httpx/middleware.go:107-115 | the in-place loop over the split path computes the specified scrub |
| `PathScrub.ScrubPathSegments` | internal/httpx/middleware.go:107-115 | the number of segments stays, a segment is masked exactly when a marker remains two places before it, no other one changes |
| `PathScrub.ScrubPathIdempotent` | internal/httpx/middleware.go:107-115 | scrubbing a scrubbed path changes nothing |
| `PathScrub.LogIsIndependentOfSecret` | internal/httpx/middleware.go:104-115 | what is logged for a link or file route does not depend on the secret |

## Left out

- Steps inside one handler: ledger, status, owner check and write happen in one step. `FileLedger.UploadInTwoWrites` says when the ledger bound fails with the two writes of an upload apart.
- Int64 overflow of usage counters and ledger sums (the retry backoff, the attempt number and the link lifetime are modelled with their wrap-around).
- `Metering.DailyRowsMatchQuotaIff`: usage is positive, as served bytes are; `Metering.RollupMatchesIffNoClamp` says what a negative amount does to one flush.
- `ExpiryChanges.ServedWithinPeriods`: an upper bound for a cap that stays as it is; a change of the cap is not counted.
- `Pagination.WalkOverChanges`: a row id orders by its bytes; a database collation that orders ids otherwise is not modelled. The base64 and JSON coding of the cursor is taken to give back what was put in.
- The listings of links, instances, tenants and audit entries: the same keyset query as the file listing, with other filters.
- `Expiries.LinkExpiryIsEarliestLayer`: link creation only; an update clamps to the file only when it also swaps the file, and admission takes the earlier expiry in any case.
- `DeleteRetry.Worker.HandleDelete`: a worker without storage configured drops its messages; that is not modelled.
- `Policies.IpAllowed`: CIDR parsing is not modelled; an entry is a set of addresses or a literal text.
- `VisitorService.Server.HandlePreview`: the category of a file's MIME type, the headers, the byte ranges and failures of the object store are not modelled; content means that the bytes or a signed URL are attempted.
- `VisitorService.Server.HandleUnlock`: a malformed request body is not modelled.
- `FileService.Service.HandleScan`: content sniffing is not modelled; the sniffed type is a parameter of the step.
- `Totp.VerifyStepWindow`: HMAC is not modelled; the code of a step is an arbitrary function of the step.
- `HeaderText.AsciiFilename`: a file name is a byte string and a rune is the UTF-8 decoding of Go's range loop.
- `DeleteRetry.ExactlyOnePlace`: a worker that stops loses its pending timers; runs in which it keeps running are modelled.
- The in-memory counts, audit entries, cache invalidation and metrics beside the modelled steps.
- Idempotency keys, sessions, plans and upgrades, custom domains, webhooks, mail, OAuth, the web frontend and the MCP server: I/O, or one-branch rules.
