# SADE: a verified model

SADE takes a photographer's upload, queues it, watermarks it in a worker pool, e-mails a signed
preview link, and unlocks the original behind a Stripe payment. This project models the parts of
it where several steps, processes or passes have to agree, and proves what they keep:

- **The job queue** (`JobTable`, `JobRepository`, `Queue*`, `WorkerPool`). Rows of the jobs table
  and copies of claimed jobs held in memory, as interleaved atomic steps with a clock: claim, feed,
  start, outcome, drop at shutdown, crash, stuck-reset, conditional delete, and uploads that insert
  a row before its original exists. Any number of pools and processes may run.
- **Previews and files** (`Delivery`, `Files`, `FileSafety`, `FileProgress`, `JobService`, `StoredBytes`,
  `AssetRepository`, `Listings`, `LogoShelf`, `Logos`). Blobs and asset rows at every crash point, uploads and
  their rollback, the storage quota, the one preview row per job, and the logos frozen onto jobs.
- **Payments and signed links** (`Payments`, `PaymentSafety`, `PaymentRuns`, `PaymentLinks`, `PaymentProgress`,
  `PaymentService`, `Tokens`, `Base64Url`, `Share`). `CreateIntent`, `Status` and `Webhook` split at every database
  and Stripe call and interleaved freely; tokens down to their bytes (base64url is section 5 of
  RFC 4648).
- **Sign-in tokens** (`MagicTokens`, `SignIn`, `SignInRuns`), the **sliding-window limiter**
  (`LimiterSpec`, `Limiter`, `LimiterRuns`, `LimiterRefusals`), the **watermark text** on the
  server and in the browser (`Text`, `WmOpts`, `Templates`, `Recipient`, `Browser`, `TextFit`, `BurnIn`), the **logo box filter**
  (`BoxFilter`, `Downscale`) and **schema migrations** (`Migrations`).

Objects that the code updates in place are classes here, and each method is proved against a
function of the old state; what the code promises over whole runs is proved as lemmas about the
machines built from those functions, and what each function answers is stated apart from its
definition, for every input. `dafny verify dfyconfig.toml` checks everything.

## Where the code does less than its comments say

Four promises are false of the code as written. Each has a concrete run or input, and a theorem over all
runs or inputs that says exactly when the code does keep it.

| promise | counterexample | exactly when it holds |
|---|---|---|
| JobTimeout < StuckJobTimeout keeps a job from being processed twice (`config/main.go:369`) | `QueueCounterexample.ConfigCheckIsNotEnough`: the timeout starts in `handle`, after the wait in the channel for a processor that another job keeps busy for all of its own JobTimeout | `QueueResets.ExclusiveIffResetSpares`: after sparing requeues only, a requeue of stuck rows is safe - whatever follows, no job is held or processed twice and no done or failed row changes - iff it meets no held copy claimed before its cutoff. Runs in which every requeue spares the held copies are *careful*; `NoJobHeldTwice`, `FinalStays` and the rest hold of all careful runs |
| An original link is signed only for a payment recorded as paid (`internals/app/share/handler.go:81-84`, `internals/app/payment/service.go:246-268`) | `PaymentCounterexample.LinkMintedWithoutPaidRow`: `reconcile` sets the status in memory before `Update`, and `Status` signs even when that write fails | `PaymentLinks.LinksStayPaidForIff`: in every state of a run, each original link of a job that still exists has a payment recorded as paid, iff each failed write of `Status` in that run found its job deleted or already paid for by another row; for one write, `LastWriteKeepsPromiseIff`: iff it went through, or the job is gone, or the job had a paid row. `PaymentRuns.OriginalWasPaidFor` holds in every run: Stripe collected the money |
| The limiter refuses only when `limit` calls are in the window (`internals/ratelimit/limiter.go:32-53`) | `LimiterCounterexample.RefusedTooEarly`: `sweep` compacts another key's array without storing the shorter slice, so [0, 5] becomes [5, 5] | `LimiterRefusals.RefusalsDeservedIff`: after clean sweeps only, no continuation with clean sweeps ever refuses a call with room in its window iff the last sweep, too, met no list with both stale and live stamps |
| The recipient is never cut from the watermark text (`internals/wmopts/wmopts.go:70-76`) | `Recipient.BracedAddressIsCut`: a recipient holding `{date}`, or starting or ending in the middle of it - all of which an address may do - is rewritten | `Recipient.NeverCutIff`: iff no `{date}` can overlap the recipient |

The timing hypothesis of the design - every claimed copy is resolved or abandoned within
StuckJobTimeout of its claim - makes a run careful (`QueueRuns.TimelyRunIsCareful`), but is more than
is needed: a late copy that no requeue ever meets does no harm.

Two comments are merely imprecise: `ClaimPending` says "oldest-first", but the rows of an
`UPDATE ... RETURNING` come back in no promised order (the *chosen* rows are the oldest); and a
`Put` that fails after its rename leaves its file behind when `Create` rolls back without a key
(`JobService.JobService.Create` says exactly that, `JobService.StrandedFileStays` is an instance).

## Model

| member | source | states |
|---|---|---|
| JobRepository.JobRepo.Create | internals/app/job/repo.go:77-79 | A new row is pending, with no attempts and no retry deadline |
| JobRepository.JobRepo.ClaimPending | internals/app/job/repo.go:267-305 | Claims the oldest eligible rows nobody else has locked, as many as fit, each once, and returns them in no promised order with their new attempt number |
| JobRepository.JobRepo.SelectOldest | internals/app/job/repo.go:273-277 | The inner SELECT: no chosen row is younger than an eligible row left out, and none is left out while there is room |
| JobRepository.JobRepo.MarkDone | internals/app/job/repo.go:307-316 | Only a processing row becomes done |
| JobRepository.JobRepo.MarkFailed | internals/app/job/repo.go:318-327 | Any row becomes failed, whatever its status; the message is cut at 1000 bytes and nothing else changes |
| JobRepository.JobRepo.MarkForRetry | internals/app/job/repo.go:329-338 | Any row becomes pending with a deadline, whatever its status |
| JobRepository.JobRepo.ResetStuck | internals/app/job/repo.go:340-351 | Exactly the processing rows untouched since the cutoff become pending; their number is returned |
| JobRepository.JobRepo.DeleteIfNotProcessing | internals/app/job/repo.go:250-261 | The row goes iff it is not processing |
| QueueSafety.DomainsStep | internals/worker/worker.go:83-213 | Every step keeps the tables' bookkeeping: ids are not reused, copies come from claims |
| QueueSafety.CopiesStep | internals/worker/worker.go:116-213 | Every step keeps attempt numbers of copies at most their row's |
| QueueSafety.RetriedStep | internals/worker/worker.go:190-208 | Only attempts within MaxRetries are ever rescheduled |
| QueueSafety.ExclusiveStep | internals/app/job/repo.go:267-351 | Unless it is a requeue that takes a held copy's row, every step keeps each copy the one holder of its processing row |
| QueueSafety.SourcedStep | internals/app/job/repo.go:267-351 | Every attempt of a row is held, rescheduled, reset or lost: the accounting behind the claim bound |
| QueueSafety.ResetsStep | internals/app/job/repo.go:340-351 | Every reset is paid for by an abandoned copy |
| QueueSafety.DeadlinesStep | internals/worker/worker.go:196-208 | A row that was rescheduled is not claimable before its deadline |
| QueueRuns.RunBasic | internals/worker/worker.go:83-213 | The timing-free invariants hold in every reachable state |
| QueueRuns.RunInv | internals/worker/worker.go:83-213 | All invariants hold in every state of every careful run |
| QueueRuns.NoJobHeldTwice | internals/worker/worker.go:83-213 | In every careful interleaving no job is held by two copies; a held copy's row is processing with its attempt number, or was rolled back before it had an original |
| QueueRuns.FinalStep | internals/app/job/repo.go:307-338 | No step of a careful run changes or brings back a done or failed row |
| QueueRuns.FinalStays | internals/app/job/repo.go:307-338 | Done and failed are never left again in a careful run, although MarkFailed and MarkForRetry have no status guard |
| QueueRuns.EveryClaimHasOneFate | internals/worker/worker.go:116-213 | In every run, claims of a job = outcomes + abandoned copies + copies still held |
| QueueRuns.CountsAreHistory | internals/worker/worker.go:116-213 | The history counters are the numbers of claim, reschedule and abandon steps |
| QueueRuns.RescheduledAtMostMaxRetries | internals/worker/worker.go:190-208 | In every run, with no timing hypothesis, a job is rescheduled at most MaxRetries times |
| QueueRuns.ClaimsAreBounded | internals/worker/worker.go:190-208 | In a careful run a job is claimed at most MaxRetries + 1 + abandoned copies times |
| QueueRuns.FailureIsFinalIff | internals/worker/worker.go:190-208 | A recorded error leaves its row failed iff the attempt is past MaxRetries, and otherwise pending |
| QueueRuns.FailedOnlyWhenSpent | internals/worker/worker.go:190-208 | In every run a failed job has had more than MaxRetries attempts; in a careful run at most MaxRetries + 1, not counting abandoned copies |
| QueueTermination.LeftFalls | internals/worker/worker.go:116-213 | Each step on a job's copies lowers the number of steps still ahead of them, except a claim, which adds three |
| QueueTermination.MovesArePaidFor | internals/worker/worker.go:116-213 | In every run the steps taken on a job's copies and those still ahead are at most three per claim |
| QueueTermination.JobComesToRest | internals/worker/worker.go:116-213 | In a careful run all steps on a job's copies, taken or still ahead, number at most 4 * (MaxRetries + 1 + abandoned copies) |
| QueueRuns.BackoffIsRespected | internals/worker/worker.go:196-208 | In a careful run a job is never re-claimed before failure time plus its backoff |
| QueueRuns.BackoffDoubles | internals/worker/worker.go:196-204 | The int64 backoff is RetryBackoff * 2^min(attempt - 1, 16) exactly when that product fits an int64 |
| QueueRuns.BackoffNeverWraps | internals/worker/worker.go:196-204 | A base delay under 2^47 ns never wraps |
| QueueRuns.TimelyRunIsCareful | internals/worker/worker.go:83-112 | Copies resolved within StuckJobTimeout of their claim are spared by every requeue |
| QueueRuns.TimelyRunsAreExclusive | internals/worker/worker.go:83-213 | So in every run that meets the timing hypothesis no job is held twice and final rows stay |
| QueueResets.ResetKeepsExclusiveIff | internals/app/job/repo.go:340-351 | One requeue keeps each copy the holder of its row iff no held copy predates its cutoff |
| QueueResets.ClaimAgain | internals/app/job/repo.go:267-351 | A job whose row was taken from a held copy can be claimed again at once |
| QueueResets.TakeToProcessor | internals/worker/worker.go:134-213 | Any held copy can be taken to its processor with nothing else changing |
| QueueResets.UnsparingResetDoubles | internals/app/job/repo.go:340-351 | Any run that ends in an unsparing requeue can go on, with no further requeue, until a job is being processed twice at once |
| QueueResets.CarefulIsExclusive | internals/app/job/repo.go:267-351 | In a careful run no job is ever held or processed twice and no final row changes |
| QueueResets.ExclusiveIffResetSpares | internals/app/job/repo.go:340-351 | After sparing requeues, whatever follows stays exclusive and final iff the next requeue meets no held copy claimed before its cutoff |
| QueueCounterexample.ConfigCheckIsNotEnough | config/main.go:369 | A run with JobTimeout < StuckJobTimeout, every copy handled in time and waiting only while another job keeps the processor, in which a job is processed twice at once and a done row goes back to pending |
| WorkerPool.WithDefaults | internals/worker/struct.go:104-129 | Each sane value is kept on its own; the others become 30 s, 30 min, 1 h and a batch as large as the pool |
| WorkerPool.ClaimedInTurn | internals/worker/worker.go:116-149 | Two rounds of exact claims are one exact claim of both |
| WorkerPool.ClaimOfBatch | internals/worker/worker.go:116-149 | A batch shrinks the pending rows, and a short batch means no eligible row was left |
| WorkerPool.Pool.constructor | internals/worker/worker.go:30-60 | Start requeues what was stuck for StuckJobTimeout and nothing younger |
| WorkerPool.Pool.RequeueStuck | internals/worker/worker.go:83-112 | At most one requeue per half StuckJobTimeout, never of a row touched within StuckJobTimeout |
| WorkerPool.Pool.Feed | internals/worker/worker.go:133-144 | A prefix of the batch goes to the channel in order; only a stop signal cuts it short |
| WorkerPool.Pool.ClaimBatch | internals/worker/worker.go:116-132 | One claim: exactly the returned rows are flipped, and a short batch leaves nothing eligible |
| WorkerPool.Pool.ClaimRound | internals/worker/worker.go:116-149 | One round: everything claimed is sent or, at a stop, dropped with its row left processing |
| WorkerPool.Pool.ClaimAndFeed | internals/worker/worker.go:116-149 | Over all rounds every claimed job is sent or dropped, each once; undisturbed, it drains the table |
| WorkerPool.Pool.Handle | internals/worker/worker.go:173-213 | One outcome statement, field by field: done if it was processing; after an error failed iff the attempt is past MaxRetries, otherwise pending until the backoff is over; the message is cut at 1000 bytes and nothing else changes |
| Delivery.RefinesQueue | internals/worker/worker.go:173-213 | Hiding assets and previews, every run is a run of the queue protocol |
| Delivery.HowQueueMoved | internals/app/job/repo.go:250-351 | What one queue step can do to attached jobs, done rows and copies |
| Delivery.RecordKeeps | internals/app/asset/repo.go:94-109 | Creating or overwriting the preview row keeps one preview per job |
| Delivery.DeskRunInv | internals/worker/process.go:97-114 | What a running copy has looked up stays true until it records |
| Delivery.TimelyDeskRunIsCareful | internals/worker/worker.go:83-112 | The timing hypothesis makes a run with previews careful |
| Delivery.OnePreviewPerJob | internals/app/asset/repo.go:94-109 | In a careful run every job has at most one preview row, and a done job has one |
| Delivery.PreviewIdIsStable | internals/app/asset/repo.go:94-109 | Once recorded, the preview's id is the job's only one for as long as the job exists |
| Delivery.NotifierPurposes | internals/worker/notify.go:41-49 | The two purposes the notifier signs are non-empty and dotless |
| Delivery.SwitchSetsLinks | internals/app/job/repo.go:223-238 | The switch turns one job's links off and on again, and no other's |
| Delivery.EmailedLinksKeepWorking | internals/app/share/handler.go:162-193 | Every link already e-mailed for a preview, to view it or to download it, opens that job's preview exactly until its deadline and while the links are on |
| FileSafety.CallSurvives | internals/app/job/service.go:106-247 | What a waiting call relies on survives everybody else's steps |
| FileSafety.RollbackBlobKeeps | internals/app/job/service.go:238-247 | Rollback unlinks a file only while no row refers to it |
| FileSafety.DropRowKeeps | internals/app/job/service.go:327-363 | Deleting a job row takes its asset rows with it and strands no row |
| FileSafety.DeleteBlobKeeps | internals/app/job/service.go:353-359 | Rows first, then blobs: an unlinked file has no row left |
| FileSafety.RecordKeeps | internals/worker/process.go:71-107 | A preview row is written only over a stored file of its own job |
| FileSafety.RunInv | internals/app/job/service.go:106-363 | The file invariants hold in every reachable state, with no timing hypothesis |
| FileSafety.EveryAssetHasItsFile | internals/app/job/service.go:106-363 | At every crash point of every interleaving of Create, rollback, Delete and process, each asset row's key has a file of its own job |
| FileProgress.AcceptedUploadIsKept | internals/app/job/service.go:171-234 | Undisturbed, an accepted upload ends with its job row, its file and an asset row for it |
| FileProgress.RefusedUploadIsUndone | internals/app/job/service.go:190-247 | Undisturbed, a refused upload leaves rows and files as they were |
| FileProgress.StrandedFileStays | internals/app/job/service.go:184-188 | An upload whose Put fails after its rename leaves its file behind, with no row |
| FileProgress.DeleteLeavesNothing | internals/app/job/service.go:327-363 | Undisturbed, a delete leaves neither the job, nor its asset rows, nor any file they named, and touches nothing else |
| FileProgress.EncodeAddsPreview | internals/worker/process.go:71-107 | Undisturbed, a first encode ends with the preview file and one row for it |
| FileProgress.EncodeMovesPreview | internals/worker/process.go:71-107 | A later encode keeps the row's id and points it at the new file |
| JobService.JobService.Create | internals/app/job/service.go:106-234 | Which error or success, in the code's order of checks; a success adds one job, asset and blob and respects a nonzero quota; a failure with working rollback leaves everything as it was iff Put did not fail after its rename |
| JobService.CreatedIff | internals/app/job/service.go:106-234 | Created iff nothing stands in the way and every size, the daily number and the quota are within their limits; each refusal names something that was wrong |
| JobService.RefusedFor | internals/app/job/service.go:134-209 | If one thing only is wrong, that is what is told |
| JobService.OthersDoNotCount | internals/app/job/repo.go:145-156 | What other accounts store does not count |
| JobService.StrandedFileStays | internals/app/job/service.go:184-188 | An upload whose Put fails after its rename: the row is rolled back and the file stays |
| JobService.JobService.Store | internals/app/job/service.go:171-234 | The writing half of Create, the stored size re-checked against the quota |
| JobService.JobService.Inspect | internals/app/job/service.go:190-209 | The checks on the stored upload, in order; passing means the account is within its quota |
| JobService.JobService.Rollback | internals/app/job/service.go:238-247 | The blob first if there is a key, then the row with its assets |
| JobService.JobService.Usage | internals/app/job/service.go:365-383 | The loop adds up exactly the account's asset sizes |
| JobService.JobService.Delete | internals/app/job/service.go:327-363 | Another account's, paid and processing jobs are refused untouched; otherwise the row, its assets and each of its files that can be deleted are gone, and nothing else |
| JobService.OneMoreAsset | internals/app/job/repo.go:145-156 | A new asset adds its size to its account's bytes |
| JobService.Undone | internals/app/job/service.go:238-247 | Rolling back gives back the tables and the store exactly when the blob was dropped |
| StoredBytes.TakeOut | internals/app/job/repo.go:145-156 | A sum over rows may be taken in any order |
| AssetRepository.AssetRepo.ListByJob | internals/app/asset/repo.go:57-71 | All of a job's assets, each once, oldest first |
| AssetRepository.AssetRepo.GetByJobAndKind | internals/app/asset/repo.go:73-84 | The oldest asset of the kind, or none when there is none |
| AssetRepository.AssetRepo.UpsertPreview | internals/app/asset/repo.go:94-109 | Over an existing preview the row keeps its id and creation time; nothing else changes; one preview per job is kept |
| LogoShelf.KeysDiffer | internals/app/brand/service.go:141-142 | Two accounts never share a logo key |
| LogoShelf.KeyIsOfPicture | internals/app/brand/service.go:141-142 | Two keys are equal iff account and picture are |
| LogoShelf.SetLogoKeeps | internals/app/brand/service.go:121-159 | Setting a logo keeps every current and every needed logo stored, whatever fails |
| LogoShelf.RemoveLogoKeeps | internals/app/brand/service.go:212-227 | So does removing one |
| LogoShelf.BrandService.SetLogo | internals/app/brand/service.go:121-159 | Accepted iff a PNG or JPEG of at most 3 MiB, 16 to 6000 px a side and 4 megapixels, and nothing fails; then it is current and stored, and the one it replaces goes if it can and no unfinished job needs it |
| LogoShelf.BrandService.RemoveLogo | internals/app/brand/service.go:212-227 | Unset, then dropped if it can be and no unfinished job needs it |
| LogoShelf.BrandService.DropLogo | internals/app/brand/service.go:191-209 | An old file goes only if it is not current, the in-use check worked and no unfinished job needs it |
| LogoShelf.BrandService.Snapshot | internals/app/brand/service.go:256-265 | A job is frozen with the account's current logo: none, or a stored file of the account's own |
| Logos.RefinesQueue | internals/app/brand/repo.go:62-72 | Hiding the logos, every run is a run of the queue protocol |
| Logos.TimelyStudioRunIsCareful | internals/worker/worker.go:83-112 | The timing hypothesis makes a run with logos careful |
| Logos.UnfinishedComesFrom | internals/app/brand/repo.go:62-72 | In a careful run a row is pending or processing only if it was before or is new |
| Logos.StudioRunInv | internals/app/brand/service.go:121-227 | Every reachable state is stocked |
| Logos.LogosAreThere | internals/app/brand/service.go:121-227 | In every reachable state each pending or processing job's snapshot logo and each account's current logo is in storage |
| Logos.LogoIsFrozen | internals/app/job/service.go:125-137 | An upload freezes the logo its account has at that moment, whatever is set or removed later |
| Base64Url.QuantaRoundTrip | internals/token/main.go:108-109 | Decoding the quanta of an encoding gives the bytes back |
| Base64Url.RoundTrip | internals/token/main.go:108-109 | Decode inverts Encode on all byte strings |
| Base64Url.AlphabetIsUrlSafe | internals/token/main.go:108-109 | The digits are A-Z, a-z, 0-9, - and _, in this order |
| Base64Url.QuantumIsBigEndian | internals/token/main.go:108-109 | Up to three bytes, padded with zeros, are written big-endian in base 64 |
| Base64Url.EncodesByQuanta | internals/token/main.go:108-109 | Three bytes after three |
| Base64Url.LineBreaksAreSkipped | internals/token/main.go:71-74 | Decoding skips line breaks wherever they stand |
| Base64Url.LowBitsAreIgnored | internals/token/main.go:71-74 | Decoding ignores the bits the last digit leaves over |
| Tokens.FormatParses | internals/token/main.go:59-98 | The expiry survives formatting and parsing for every int64 |
| Tokens.SignIssuesToken | internals/token/main.go:51-62 | Sign succeeds iff purpose and subject are non-empty and dotless, and then issues the token of exactly that claim |
| Tokens.VerifyInvertsSign | internals/token/main.go:66-100 | On a signed token: the subject until the deadline, then expired, and a signature error for any other purpose |
| Tokens.SignatureIsChecked | internals/token/main.go:66-77 | What verifies carries, after its first dot, the MAC of what stands before it |
| Tokens.VerifiesIff | internals/token/main.go:66-100 | For every token: it verifies to a subject iff it is body.sig with sig an encoding of the body's MAC, the body reads purpose.subject.deadline for this purpose, and the deadline has not passed |
| Tokens.ExpiredIff | internals/token/main.go:66-100 | It is answered "expired" iff all of that holds but the deadline has passed |
| Tokens.ForgeryIsRefused | internals/token/main.go:75-77 | A wrong MAC is a bad signature, whatever the body says |
| Tokens.DecimalsOnly | internals/token/main.go:92-95 | A deadline is an optional sign and digits that fit an int64 |
| Tokens.VerifiedWasSigned | internals/token/main.go:66-100 | Unless its MAC was guessed, whatever verifies was signed for that purpose and subject and has not expired |
| Tokens.CodeIsNotDecodable | internals/app/auth/service.go:466-470 | A sign-in code's MAC, keyed with the same secret, never passes for a token's |
| Tokens.CodeMessageIsNoBody | internals/app/auth/service.go:466-470 | No sign-in code message is a token body |
| Tokens.OnePurposePerToken | internals/token/main.go:66-100 | No token verifies for two purposes |
| Share.SignedLinkOpens | internals/app/share/handler.go:162-193 | A signed link opens its asset iff it exists with the wanted kind, its links are on and the deadline has not passed |
| Share.ServedIff | internals/app/share/handler.go:162-193 | For every token: an asset is served iff an authentic token grants it for this purpose and in time, it exists with the wanted kind and its links are on; "gone" iff the grant is over; "disabled" iff only the links are off |
| Payments.FirstPaid | internals/app/payment/service.go:283-290 | The first paid payment of a list, or none |
| Payments.CoversIff | internals/app/payment/service.go:274-280 | The check holds iff what was received - or, if Stripe does not say, the amount - is at least what was asked, in the same currency up to case |
| PaymentSafety.CallSurvives | internals/app/payment/service.go:158-391 | What a waiting call read stays true under everybody else's steps |
| PaymentSafety.Survive | internals/app/payment/service.go:158-391 | So do all waiting calls and all signed claims |
| PaymentRuns.NewIntentStep | internals/app/payment/service.go:184-215 | A new intent's row is still unreachable to both paying paths |
| PaymentRuns.RefWrite | internals/app/payment/service.go:207-215 | Writing the provider ref, a full-row write, cannot undo a payment |
| PaymentRuns.PaidWrite | internals/app/payment/service.go:325-391 | Writing paid keeps refs unique and terms unchanged |
| PaymentRuns.RunInv | internals/app/payment/service.go:158-391 | The payment invariants hold in every interleaving |
| PaymentRuns.PaidStaysPaid | internals/app/payment/repo.go:77-83 | No full-row Update ever turns a paid row back, clears its ref or changes its terms |
| PaymentRuns.PaidWasCollected | internals/app/payment/service.go:274-280 | Every paid row has a succeeded intent that received at least its amount (or, with nothing reported as received, is for at least that amount), in its currency up to case |
| PaymentRuns.OriginalWasPaidFor | internals/app/payment/service.go:246-268 | Whatever resolves under purpose "original" belongs to a job with a payment Stripe collected, recorded paid unless that write failed |
| PaymentLinks.PaidRowStays | internals/app/payment/repo.go:77-83 | After any step of any call, a job with a paid row still has one or is gone |
| PaymentLinks.OnlyStatusSigns | internals/app/payment/service.go:246-268 | An original link is signed by Status only, over a listing with a paid payment or at its own paying write |
| PaymentLinks.PaidRowAfterWriteIff | internals/app/payment/service.go:325-346 | After Status's paying write its job has a paid row iff the write went through or the job had one before |
| PaymentLinks.LinksStep | internals/app/payment/service.go:246-268 | Unless a write of Status fails for an existing job with no paid row, every step keeps a paid row behind every original link |
| PaymentLinks.LinksHavePaidRows | internals/app/share/handler.go:81-84 | In every run, while no paying write of Status has failed, every original link of an existing job has a payment recorded as paid |
| PaymentLinks.UnpaidSigned | internals/app/payment/service.go:339-343 | A failed write of Status for an existing job with no paid row leaves a signed link without one |
| PaymentLinks.LinksStayPaidForIff | internals/app/share/handler.go:81-84 | In all states of a run every original link of an existing job has a payment recorded as paid iff no write of Status failed for an existing job with no paid row |
| PaymentLinks.LastWriteKeepsPromiseIff | internals/app/payment/service.go:246-268 | In a run that ends in Status's write, with the promise kept before it, every original link of an existing job has a paid row afterwards iff the write went through, or the job is gone, or the job already had a paid row |
| PaymentLinks.OpenedOriginalHasPaidRow | internals/app/share/handler.go:81-84 | As long as no such write failed, whatever opens under purpose "original" belongs to a job with a payment recorded as paid |
| PaymentCounterexample.LinkMintedWithoutPaidRow | internals/app/payment/service.go:246-268 | A run in which a link is signed and no row of the job is paid |
| PaymentProgress.StatusLists | internals/app/payment/service.go:228-252 | Reading the payments, Status signs at once iff the job has a paid row, and otherwise asks about the newest pending one that has a ref |
| PaymentProgress.BoughtIsUnlocked | internals/app/payment/service.go:220-269 | Undisturbed, Status on a bought job signs a link and changes nothing else |
| PaymentProgress.PendingIsUnlockedIff | internals/app/payment/service.go:220-269 | Undisturbed, Status on a waiting payment makes its row paid and signs a link iff Stripe confirms it was paid in full; otherwise nothing changes |
| PaymentProgress.EventPaysIff | internals/app/payment/service.go:348-391 | Undisturbed, a succeeded event makes the row of its ref paid iff that row is unpaid and the event pays it in full; otherwise nothing changes |
| PaymentProgress.CheckoutLists | internals/app/payment/service.go:168-179 | Reading the payments, CreateIntent refuses iff the job has a paid row, and otherwise looks up a newest pending payment with a ref or makes a new row |
| PaymentProgress.ReuseIff | internals/app/payment/service.go:295-318 | An intent is handed back iff Stripe still takes a confirmation on it for today's price |
| PaymentProgress.CheckoutAdds | internals/app/payment/service.go:180-218 | A checkout adds one pending row at the price and an intent for the same price |
| Listings.SelectSorted | internals/app/payment/repo.go:37-52 | One pass over the table, in any order, gives the selected rows, each once, sorted |
| PaymentService.PaidInListing | internals/app/payment/service.go:283-290 | A job has a paid row iff its listing shows one |
| PaymentService.PaidPayment | internals/app/payment/service.go:283-290 | The loop finds the first paid payment |
| PaymentService.PaymentRepo.ListByJob | internals/app/payment/repo.go:37-52 | All of a job's payments, each once, newest first |
| PaymentService.PaymentRepo.ByProviderRef | internals/app/payment/repo.go:65-75 | A payment with the ref, or none when there is none |
| PaymentService.PaymentRepo.Update | internals/app/payment/repo.go:77-83 | Replaces the whole row, if it exists |
| PaymentService.PaymentService.ReusableIntent | internals/app/payment/service.go:295-318 | Gives a secret iff the newest payment is pending and its intent is open at today's price |
| PaymentService.PaymentService.CreateIntent | internals/app/payment/service.go:158-218 | Refuses iff the job is paid; hands back an intent still open at the price if the newest payment has one; refusing and reusing change no row; otherwise exactly one pending row is added |
| PaymentService.PaymentService.Reconcile | internals/app/payment/service.go:325-346 | The copy is paid iff the intent succeeded and pays it in full; the row only if the write worked too |
| PaymentService.PaymentService.Status | internals/app/payment/service.go:220-269 | A bought job stays bought; a newest payment that Stripe confirms as paid in full is unlocked, and its row paid if the write works; otherwise nothing changes |
| PaymentService.PaymentService.Webhook | internals/app/payment/service.go:348-391 | A succeeded event that pays the unpaid row of its ref in full makes it paid if the write works and is redelivered if not; a row already paid or not paid in full is acknowledged untouched; an unknown ref is redelivered; nothing is touched without a secret, a valid signature and a readable event |
| MagicTokens.MagicTokenRepo.Consume | internals/app/magic_token/repo.go:51-91 | A token is spent iff it is live and this browser asked for it |
| MagicTokens.MagicTokenRepo.Peek | internals/app/magic_token/repo.go:93-105 | Found until the instant of expiry, inclusive |
| MagicTokens.MagicTokenRepo.ConsumeByCode | internals/app/magic_token/repo.go:107-174 | A match spends all tokens of the browser; a wrong code counts against every candidate and removes those at the limit |
| MagicTokens.MagicTokenRepo.AnyMatch | internals/app/magic_token/repo.go:140-146 | The loop finds a match iff some candidate has one |
| MagicTokens.MagicTokenRepo.CountAttempts | internals/app/magic_token/repo.go:162-171 | The loop bumps each candidate once or removes it |
| MagicTokens.MagicTokenRepo.DeleteExpired | internals/app/magic_token/repo.go:176-183 | Exactly the tokens that expired strictly before now go |
| SignIn.SameAnswer | internals/app/auth/service.go:236-305 | A table purged of expired rows gives the same answers as the full one; what the answers are is CodeSignsInIff, LinkSignsInIff and PeekShowsIff |
| SignIn.PeekShowsIff | internals/app/auth/service.go:236-256 | Peek shows the account of a stored token until its last instant, and whether it is this browser's; anything else is invalid |
| SignIn.LinkSignsInIff | internals/app/auth/service.go:261-274 | A link signs in its account iff it is stored, in time and from the browser it was asked for in; not stored or over is invalid; anything else is the wrong browser |
| SignIn.CodeSignsInIff | internals/app/auth/service.go:281-304 | A code signs in iff it is six digits, the browser has a nonce, and it is the code of a live token of the account from that browser; anything else is an invalid code |
| SignIn.LinkSpends | internals/app/magic_token/repo.go:51-91 | Signing in by link spends that token and no other |
| SignIn.CodeSpends | internals/app/magic_token/repo.go:140-158 | Signing in by code spends every token of the account from this browser and no other |
| SignIn.WrongCodeCounts | internals/app/magic_token/repo.go:160-174 | A wrong code counts once against each live token of the account from this browser, removes those it is the fifth for, and changes nothing else |
| SignIn.PurgeTakes | internals/app/magic_token/repo.go:176-183 | A purge takes exactly what was over before its instant |
| SignIn.SimulationStep | internals/app/auth/service.go:236-305 | Every call keeps the two tables related |
| SignIn.Simulation | internals/app/auth/service.go:236-305 | So over every run the purged table gives the unpurged answers |
| SignIn.PurgingIsInvisible | internals/app/auth/service.go:415-435 | Two runs that differ only in purges, anywhere and any number, give the same answers to Peek, Complete and CompleteWithCode |
| SignIn.AtTheInstantOfExpiry | internals/app/magic_token/repo.go:51-183 | At now = ExpiresAt the link works, the code does not and the purge keeps the row; one tick later none does |
| SignInRuns.SuccessIsAMatch | internals/app/magic_token/repo.go:107-160 | A code succeeds iff the loop stops at a match |
| SignInRuns.GuessesAreBounded | internals/app/magic_token/repo.go:107-174 | A stored token's attempts are the wrong codes tried while it was a candidate, below the limit; at most that many codes are ever compared with any token |
| SignInRuns.SignsInOnceInItsOwnBrowser | internals/app/magic_token/repo.go:51-91 | Every successful email step spends a different token, from the browser that asked for it |
| SignInRuns.SuccessesAndLiveTokens | internals/app/magic_token/repo.go:51-174 | Successful email steps plus live tokens never exceed tokens created |
| LimiterSpec.ListAfterCall | internals/ratelimit/limiter.go:34-79 | What one call does to one key's list, its own or another's |
| LimiterSpec.SweepsWhenDue | internals/ratelimit/limiter.go:69-80 | Only an admitted call sweeps, iff none came before or the last was a window ago |
| LimiterSpec.SweepForgetsStaleKeys | internals/ratelimit/limiter.go:69-80 | A sweep forgets exactly the keys with no stamp in the window |
| Limiter.KeepAfterInPlace | internals/ratelimit/limiter.go:57-65 | In-place compaction: the kept stamps first, the old tail untouched |
| Limiter.Append | internals/ratelimit/limiter.go:48 | append in place while there is room, otherwise into a fresh array of any capacity |
| Limiter.Limiter.Record | internals/ratelimit/limiter.go:43-48 | The key's list is its kept stamps plus now, iff there is room |
| Limiter.Limiter.CompactOrDrop | internals/ratelimit/limiter.go:74-78 | An empty key goes; any other keeps its old length and shows its kept stamps, then its old tail |
| Limiter.Limiter.SweepAll | internals/ratelimit/limiter.go:74-78 | The sweep does that to every key, in any order |
| Limiter.Limiter.Sweep | internals/ratelimit/limiter.go:69-79 | At most once a window |
| Limiter.Limiter.Allow | internals/ratelimit/limiter.go:34-53 | One call on the arrays is one call on the lists; no two keys ever share an array |
| LimiterRuns.ListsShowAdmitted | internals/ratelimit/limiter.go:34-79 | Every list shows at least the admitted calls still in the window, as a multiset |
| LimiterRuns.EveryAdmissionFits | internals/ratelimit/limiter.go:43-48 | Right after an admission at most limit admitted calls are in its window |
| LimiterRuns.NeverTooMany | internals/ratelimit/limiter.go:34-79 | For every key and run, every half-open interval as long as the window holds at most limit admitted calls |
| LimiterRuns.ZeroLimitDisables | internals/ratelimit/limiter.go:28-37 | A limit of zero or less admits everything and stores nothing |
| LimiterRuns.ListsAreShort | internals/ratelimit/limiter.go:43-48 | No list exceeds limit |
| LimiterRuns.CleanRunsAreExact | internals/ratelimit/limiter.go:69-79 | Without mixed sweeps the lists show just the admitted calls |
| LimiterRuns.AdmittedIffRoom | internals/ratelimit/limiter.go:43-48 | Without mixed sweeps a call is admitted iff fewer than limit admitted calls are in its window |
| LimiterRuns.SweepIsExactIff | internals/ratelimit/limiter.go:74-78 | A sweep leaves a sorted list exact iff it is not both stale and live |
| LimiterRuns.ListsStayExactIff | internals/ratelimit/limiter.go:69-79 | After clean sweeps, the lists stay exact iff the next sweep is clean |
| LimiterRefusals.MixedShowsMore | internals/ratelimit/limiter.go:74-78 | Sweeping a sorted mixed list shows strictly more live stamps than there are |
| LimiterRefusals.CallUntilRefused | internals/ratelimit/limiter.go:34-53 | While a list shows more live stamps than there are admitted calls, calling that key often enough gets a call refused with room left |
| LimiterRefusals.UncleanSweepMisleads | internals/ratelimit/limiter.go:69-79 | Any run whose last sweep alone is unclean can go on, with no further sweep, to such a refusal |
| LimiterRefusals.RefusalsDeservedIff | internals/ratelimit/limiter.go:34-79 | After clean sweeps, no continuation with clean sweeps refuses a call with room in its window iff the next sweep is clean |
| LimiterCounterexample.RefusedTooEarly | internals/ratelimit/limiter.go:69-79 | A call refused with one admitted call in its window and a limit of two |
| Text.Kept | internals/wmopts/wmopts.go:118-120 | ReplaceAll keeps every word no match can overlap |
| Text.PutIn | internals/wmopts/wmopts.go:118-120 | Where the pattern occurs, the replacement appears |
| Text.LeftmostIsReplaced | internals/wmopts/wmopts.go:117-121 | The leftmost occurrence is replaced, and the text after it in the same way |
| Text.TrimCuts | internals/wmopts/wmopts.go:108 | Trimming cuts white space at the ends and nothing else, and leaves none there |
| Text.CountFalls | internals/wmopts/wmopts.go:118-120 | Each replaced occurrence takes its characters away |
| Text.TrimKeeps | internals/wmopts/wmopts.go:121 | TrimSpace cannot cut into a trimmed word |
| WmOpts.DropPlaceholder | internals/wmopts/wmopts.go:124-129 | The five forms are removed in the code's order |
| WmOpts.Render | internals/wmopts/wmopts.go:107-122 | The passes in the code's order, the default template for a blank one |
| WmOpts.FittedWithCompany | internals/wmopts/wmopts.go:84-98 | The count-down loop finds the longest company prefix that fits |
| WmOpts.RenderTextFit | internals/wmopts/wmopts.go:77-103 | The result is the first rung of the ladder that fits |
| WmOpts.FitsIffSomeRungFits | internals/wmopts/wmopts.go:77-103 | The result fits a positive budget iff some rung does |
| WmOpts.NeverLonger | internals/wmopts/wmopts.go:77-103 | The result is never longer than the full text |
| Templates.ShowsValuesInPlace | internals/wmopts/wmopts.go:107-122 | Between its words a template shows the company, the recipient and the date where their placeholders stand |
| Templates.BlankIsDefault | internals/wmopts/wmopts.go:108-111 | A blank template is the recipient, a middle dot and the date |
| Templates.EmptyOnesAreDropped | internals/wmopts/wmopts.go:112-117 | An empty company and an empty date, and nothing else, are dropped |
| Templates.EmptyGoesWithSeparator | internals/wmopts/wmopts.go:124-129 | An empty value takes out its placeholder with one separator: the dot after it, else before it, else the dash after it, else before it |
| Templates.FittingIsFull | internals/wmopts/wmopts.go:77-83 | A line within the budget, or without one, is shown in full |
| Templates.LongestCompanyIsKept | internals/wmopts/wmopts.go:84-93 | A longer line keeps the longest beginning of the company, of at least three characters and with three dots, that fits |
| Templates.CompanyThenDateGo | internals/wmopts/wmopts.go:94-103 | If none fits the company goes, then the date, unless that gains nothing |
| Templates.OnlyDateGoes | internals/wmopts/wmopts.go:99-103 | Without a company on it, a longer line loses its date, unless that gains nothing |
| Recipient.PlaceholderSurvives | internals/wmopts/wmopts.go:107-129 | No deletion or replacement before its turn can overlap {recipient} |
| Recipient.FilledKeeps | internals/wmopts/wmopts.go:107-122 | Every rendering shows a recipient {date} cannot overlap, whole |
| Recipient.RecipientSurvives | internals/wmopts/wmopts.go:77-129 | So does the fitted text, for every company, date and budget |
| Recipient.ApartUnlessClashes | internals/wmopts/wmopts.go:120 | {date} can overlap a recipient with an @ only if it holds it, starts or ends in it |
| Recipient.ClashIsCaught | internals/wmopts/wmopts.go:107-122 | For every such recipient there is a template that cuts it |
| Recipient.BracedAddressIsCut | internals/wmopts/wmopts.go:107-122 | `{date}@example.com` is an instance |
| Recipient.NeverCutIff | internals/wmopts/wmopts.go:70-103 | A recipient is never cut, whatever the template, company, date and budget, iff {date} cannot overlap it |
| Recipient.BracelessIsNeverCut | internals/wmopts/wmopts.go:70-103 | In particular an address without braces is never cut |
| Browser.SplitJoinReplaces | frontend/src/lib/format.ts:126-137 | split then join is ReplaceAll, for every text and separator |
| Browser.SplitLosesNothing | frontend/src/lib/format.ts:126-137 | split then join with the separator gives the text back |
| Browser.RenderParts | frontend/src/lib/format.ts:126-137 | The browser fills a template as the server does |
| Browser.RenderWatermarkTextFit | frontend/src/lib/format.ts:97-119 | The browser's ladder equals the server's for every input |
| TextFit.FitText | internals/ffmpeg/textfit.go:46-59 | MinPx is the largest size within MinScale of the normal one, or 6; AvailPx the largest width that leaves both borders in the share, or 1 |
| TextFit.ShareOfFrame | internals/ffmpeg/textfit.go:46-55 | A tiled line may use 30 percent of the frame, any other 90; an unknown frame counts as 1280 px |
| TextFit.RoomInNumbers | internals/ffmpeg/textfit.go:46-59 | MinPx is the largest size up to six tenths of the normal one, AvailPx the largest width that leaves 8 px at both ends of the share |
| TextFit.BudgetIsLargest | internals/ffmpeg/textfit.go:61-65 | The budget is the largest number of characters that fit at MinPx, or one |
| TextFit.FontIsLargest | internals/ffmpeg/textfit.go:67-76 | The font is the largest size up to the normal one at which the line fits, or 6 |
| TextFit.BudgetFontAdjoint | internals/ffmpeg/textfit.go:63-76 | n is within the budget iff the font for n is at least MinPx |
| TextFit.FontIsAntitone | internals/ffmpeg/textfit.go:70-76 | More text never gets a larger font; the font stays within [6, BasePx] |
| TextFit.LineIsWithinShare | internals/ffmpeg/textfit.go:46-76 | Above 6 px the line and both borders are within the allowed share of the frame |
| TextFit.WithinBudgetKeepsMinPx | internals/ffmpeg/textfit.go:63-76 | Text within the budget keeps MinPx |
| BurnIn.SanitizeText | internals/ffmpeg/filters.go:236-248 | Control characters become spaces, the first 200 runes are kept, then trimmed |
| BurnIn.NoControlIsBurnedIn | internals/ffmpeg/filters.go:236-248 | No control character is burned in: each of the first 200 characters is kept or, if it is one, blanked, and the blanks at the ends go |
| BurnIn.Request.BasePx | internals/ffmpeg/filters.go:51-59 | A size set before wins; otherwise 2.2% of a known frame width, never below the configured size |
| BurnIn.SanitizingKeeps | internals/ffmpeg/filters.go:236-248 | A text within the cap keeps every word without control characters |
| BurnIn.LadderLineFits | internals/ffmpeg/textfit.go:83-93 | A line from the ladder keeps MinPx and its share of the frame whenever some rung is within the budget |
| BurnIn.LadderShowsRecipient | internals/worker/process.go:77 | A line from the ladder within the cap shows the recipient whole |
| BurnIn.Request.Fit | internals/ffmpeg/textfit.go:83-93 | The text - asked for within the budget, or given - is sanitised and the font fitted to it; from the ladder, the recipient is whole and the line fits whenever some rung does |
| BurnIn.BurnedInWhole | internals/worker/process.go:135-144 | End to end, the whole address is in the burned-in line when the rendered text is within the cap |
| BurnIn.FittedLine | internals/ffmpeg/textfit.go:83-93 | When some rung fits, the line keeps MinPx and stays within its share of the frame |
| BoxFilter.LongestSideIsMaxDim | internals/app/brand/service.go:281-293 | The longest side becomes maxDim and neither side grows or vanishes |
| BoxFilter.ProportionsAreKept | internals/app/brand/service.go:281-293 | The other side is the whole part of what the same scale makes of it, at least one pixel |
| BoxFilter.NextBox | internals/app/brand/service.go:301-303 | Each box ends where the next begins |
| BoxFilter.BoxesPartition | internals/app/brand/service.go:300-306 | The boxes are non-empty, in bounds, cover every source row and column, and do not overlap |
| BoxFilter.InBoxIff | internals/app/brand/service.go:301-306 | A source pixel is in the box its far edge falls into once scaled |
| BoxFilter.UnitBox | internals/app/brand/service.go:304-316 | n counts the box's pixels |
| BoxFilter.OnePixelBox | internals/app/brand/service.go:308-316 | One pixel adds its alpha, and each colour times its alpha |
| BoxFilter.CutByRow | internals/app/brand/service.go:304-316 | A box cut by a row has the sum of both halves |
| BoxFilter.CutByColumn | internals/app/brand/service.go:304-316 | And so by a column |
| BoxFilter.AverageIsMean | internals/app/brand/service.go:309-321 | The average is the mean cut to a whole number: alpha over the pixels, colours over the alphas |
| BoxFilter.ColourIsBetween | internals/app/brand/service.go:309-320 | Each output colour lies between the least and greatest visible pixel of its box |
| BoxFilter.AlphaIsBetween | internals/app/brand/service.go:313-317 | So does alpha |
| BoxFilter.TransparentHasNoInfluence | internals/app/brand/service.go:308-313 | The colour of a fully transparent pixel has no influence |
| BoxFilter.UniformStays | internals/app/brand/service.go:309-320 | A uniform box averages to its colour |
| Downscale.SumsNeverWrap | internals/app/brand/service.go:304-316 | Under the 4-megapixel cap no uint64 sum wraps |
| Downscale.AverageBox | internals/app/brand/service.go:304-321 | The two inner loops compute the box's average, with no index out of bounds and no uint8 cut short |
| Downscale.EveryPixelIsReadOnce | internals/app/brand/service.go:300-308 | Every source pixel is in exactly one destination pixel's box |
| Downscale.UniformPictureStays | internals/app/brand/service.go:281-325 | A picture of one visible colour stays that colour |
| Downscale.UniformBoxStays | internals/app/brand/service.go:301-321 | A destination pixel whose box shows one visible colour has that colour |
| Downscale.BoxPixelIsBetween | internals/app/brand/service.go:301-321 | Its colours lie between the extremes of the visible pixels of its own box, its alpha between those of all |
| Downscale.OnlyItsBoxCounts | internals/app/brand/service.go:301-321 | Nothing outside its box has any influence on it |
| Downscale.Downscale | internals/app/brand/service.go:281-325 | Small pictures are returned as they are; otherwise every destination pixel is the average of its own box, and has the colour of a box of one colour |
| Migrations.RunKeeps | internals/database/migrations.go:50-72 | One start keeps the history in order, only adds to it, and without faults records the whole list |
| Migrations.ForwardOnly | internals/database/migrations.go:39-74 | Over any starts with failures and crashes on an append-only list: recorded ids are a prefix, no Apply starts before all earlier ones are recorded, none after its own record |
| Migrations.CheckIsByPrefix | internals/database/migrations.go:57-63 | The check says exactly whether a migration is in the recorded prefix |
| Migrations.FailedIsNotRecorded | internals/database/migrations.go:57-72 | A start in which migration i fails records everything before it and neither it nor anything behind |
| Migrations.Database.RunMigrations | internals/database/migrations.go:39-74 | One start - with a connection and a table or without - does what the history function says; success means a valid list, all recorded |

## Assumptions

- Each SQL statement or transaction is one atomic step; foreign keys hold and cascade.
- Ids (jobs, assets, payments, Stripe intents) are never issued twice; an intent's id is not empty
  and a succeeded intent never changes again; MACs the server did not compute are not guessed.
- The clock does not go back; limiter stamps do not go back in lock order.
- A call that reports a database error changed nothing; a failing encode leaves an existing output
  file in place. `Put` may fail after its rename.
- *Careful* runs are those in which no requeue of stuck rows takes one from a copy still held. Runs
  in which every claimed copy is resolved or abandoned within StuckJobTimeout of its claim are careful.

## Left out

- HTTP handlers, cookies, the Svelte components, i18n, logging and configuration loading.
- ffmpeg and ffprobe runs, filter graphs, image decoding and encoding (`draw.Draw` included), SMTP, WebAuthn ceremonies, the Stripe client: their results are parameters.
- SQL text, crud-depot and schema-builder: statements are modelled by what they do to the rows.
- SHA-256, HMAC and randomness: uninterpreted functions and fresh values.
- TextFit.FitText: floats are exact reals, so rounding of `float64` is not modelled.
- Browser.RenderWatermarkTextFit: one white-space predicate serves both languages; the differences between Go's and JavaScript's trimming are not modelled.
- BurnIn.BurnedInWhole: requires the rendered text to be within 200 runes, because the cap may cut a longer one in the recipient.
- Downscale.Downscale: the picture is indexed from (0, 0); bounds that start elsewhere are an offset the code adds to every read.
- Limiter.Limiter.Allow: the nil receiver and the mutex; a call is one atomic step.
- WorkerPool.WithDefaults: Concurrency, PollInterval, ShutdownGrace and TextTemplate play no part in the protocol, and a negative MaxRetries (which the code makes 0) is not modelled.
- WorkerPool.Pool.ClaimBatch: no other process locks or changes rows during the call; the interleaved form is the machine in Queue.
- WorkerPool.Pool.ClaimRound: likewise.
- WorkerPool.Pool.ClaimAndFeed: likewise.
- JobService.JobService.Usage: the number of jobs in the last 24 hours and the exemption are parameters of Create.
- LogoShelf.BrandService.SetLogo: decoding and re-encoding are one answer, and the digest of the result a parameter.
- LogoShelf.BrandService.Snapshot: the logo key; company, template, position and sizes are copied along unchanged.
- BurnIn.Request.Fit: of look, the font size alone.
- Logos.LogosAreThere: each service call is atomic, because between `Snapshot` and the row insert a concurrent replacement can delete the logo.
- JobService.JobService.Create: the quota holds with no concurrent write for the same account, as its check and its writes are separate statements.
- PaymentService.PaymentService.CreateIntent: starts from the job the preview token resolved to (see `Share`), with Stripe enabled.
- PaymentService.PaymentService.Status: uninterrupted; the interleaved form is the machine in Payments.
- SignIn.CodeSignsInIff: "signed in" is the end of the e-mail step; an account that requires a passkey gets its challenge there instead of a session.
- SignIn.LinkSignsInIff: likewise.
- Templates.ShowsValuesInPlace: words and values without an opening brace; with braces the order of the passes decides, as `Recipient` says for the recipient.
- Two paid intents for one job, and "paid implies links enabled": the code does not guarantee them under interleaving.
- Passkeys, sessions, login alerts, user agents, paging, `RenderText` without a budget, `AddColumn`: easy next to the above.
