# Verified model of the certificate manager's core

This project models the parts of the certificate lifecycle manager in which
several actors share rows, arrays or counters, and proves what holds of them in
every run. Each store statement, committed transaction, CA, DNS and mail call is
one atomic step that may fail. A write, and the sending of a mail, may go through,
be rejected, or go through and lose its reply (`Prelude.Fault`). A process may die
between any two steps of the order protocol, the migrations and the scheduler.

| file | what it models |
|---|---|
| `OrderProtocol`, `OrderSafety`, `OrderFutures`, `CertificateIntegrity`, `CertificateOwners`, `OrderScenarios`, `OrderService`, `OrderReplies` | any number of `Validate` calls interleaving over order, certificate and version rows; what every run keeps; what a reachable world can still lead to; runs in which a promise fails; and `Validate` itself, statement by statement, as methods of a class that change the rows in place |
| `IpArithmetic`, `TargetExpansion`, `ScanRequests` | address counting with carries in a byte array, CIDR enumeration, target limits, request validation |
| `ProbePool`, `ScanRun` | the scanner's producer, unbuffered channel, workers, mutex and cancellation; the scan's counters and final status |
| `Migrations` | the migration runner in several processes at once, and one process's loop |
| `Reminders` | expiry reminders: which tick tries which threshold, once-only delivery, the tick's loops, and the retry loop of a renewal |
| `InventoryIndex` | the inventory index of a scan against the linear search it stands for |
| `Schedules` | one schedule's scheduler racing admin edits |
| `AcmeChallenges` | an ACME order threaded through validation calls that may fail part-way |
| `CsvExport`, `InventoryRefresh` | the inventory page's export and its guard against late answers |
| `OidcState` | the stateless login token |
| `LoginLockout`, `LoginOverlap` | the lockout of local accounts, for logins one after the other and for overlapping ones |

State machines are written as a datatype of actions, a total function `Apply`
(an action that is not possible changes nothing) and `Run` over a list of
actions, so that "for every list of actions" is "for every interleaving with
every fault". Code that loops or updates in place is a method with the same
branches, whose postcondition is the function or the action sequence that the
theorems are about; a second postcondition, or a theorem about that function, tells
the result from the inputs alone.

## What the proofs found

- **One CA request per order does not hold as written.** `Validate` writes
  `awaiting_validation` back unconditionally after an unfinished check, so a slow
  call can reopen an order that another call has claimed. What holds is
  `OrderSafety.IssueBound`: at most one request more than such reopenings. The
  bound is met for every number (`OrderSafety.BoundIsTight`), the exact condition
  for one more request is `OrderFutures.IssueAgainIff`, and with the write-back made
  conditional like the claim the promise holds in every run
  (`OrderSafety.IssueOnceWhenGuarded`). Providers look at challenges in place and
  take nothing back, so an order created with a refused challenge never gets there
  (`OrderFutures.RefusedAtCreationNeverIssues`).
- **Issued and failed are final only without overlap.** The last writes are
  unconditional, so a stale call can overwrite an issued order. The row is final
  exactly when no overlapping call can still write it (`OrderFutures.FinalIff`);
  `OrderScenarios.IssuedIsOverwritten` gives a run that reopens an issued order
  and one that turns it into a failed one.
- **An order can stay in `issuing` for good.** After a crash or a lost reply
  between the claim and the last write, no later call touches the row
  (`OrderFutures.SettledForever`, with a run in `OrderScenarios.AbandonedInIssuing`).
  A call that nobody interrupts, on stores that answer, never ends that way
  (`OrderService.LoneValidateDecides`).
- **The shipped daily tick can pass over a reminder threshold.** A threshold below
  the largest is passed over exactly when two successive looks at the certificate lie
  on either side of its day (`Reminders.PassedOverIff`). Looks at most 24 hours apart
  never do that (`Reminders.ThresholdIsCovered`). But the default interval is exactly
  24 hours and the look comes some time after the query, so a loop that takes one
  nanosecond longer than on the day before can (`Reminders.DailyTickPassesOver`).
- **The largest reminder threshold is hardly ever reached.** The inventory query
  ends where that threshold's day begins, so if it is positive only a tick at exactly
  that many days, to the instant, tries it (`Reminders.LargestThresholdIff`, with a
  run of the shipped thresholds in `Reminders.LargestThresholdIsMissed`). Days are
  rounded towards zero, so a certificate that expired within the last day still
  counts 0 days.
- **A renewal under way brings a revoked certificate back.** Without a new renewal a
  revoked certificate stays revoked for good exactly when no existing order or call
  can still commit one (`OrderFutures.RevokedStaysIff`).
- **`LatestVersion` can disagree with the certificate row.** In every reachable
  world they agree if and only if the version committed last was also issued last
  (`CertificateIntegrity.LatestMatchesRowIff`), and a renewal brings them together
  if and only if its NotBefore is later than that of every stored version
  (`CertificateIntegrity.RenewalMatchesRowIff`). Two renewals finalized crosswise
  are a run in which they disagree (`OrderScenarios.CrossedRenewalsDisagree`).
- **A certificate can be issued that no order names.** If a finalizer commits a new
  certificate and loses its reply, the certificate is active and its order ends
  without it, for good (`CertificateOwners.LostReplyOrphans`). Without a new renewal
  a certificate is or can come to be named by an order exactly when an order names
  it already or a call that has stored it has yet to complete
  (`CertificateOwners.NamedIff`).
- **A schedule can fire twice within five minutes.** The exact condition in every
  reachable world is `Schedules.EarlyFireIff`. It arises from two kinds of step,
  an edit that lands after a fire it did not reckon with
  (`Schedules.OvertakenEditShortensGap`) and a run that is not recorded
  (`Schedules.UnrecordedRunFiresAgain`). Without them the rate bound holds
  (`Schedules.RateBound`), and the guard that recognises them before they happen is
  exact (`Schedules.SlipIff`).
- **A scan can store every result and still end as partially completed,** exactly
  when the reply to one of its inserts is lost (`ScanRun.PartialWithAllRowsIff`).
- **ACME steps repeat when their write-back is lost.** A call whose order is not
  written back is repeated in full by the next one, so the DNS record can be removed
  and the CA triggered once more for each (`AcmeChallenges.LostWriteBacksRepeat`,
  which meets the bounds of `AcmeChallenges.ThreadedOrderIsSafe`). Whether either
  can happen once more is decided by the row alone (`AcmeChallenges.StepRepeatsIff`).
  The records of an order that could not be prepared in full are in no row, so no
  check removes them (`AcmeChallenges.RequestValidation`).
- **Overlapping logins lift a lock early.** Each failure overwrites counter and lock
  with what the login made of its own reading. The exact condition is
  `LoginOverlap.LockIsBrokenIff`, and two logins at a time meet it
  (`LoginOverlap.SlowLoginCanLift`). Password comparisons still stay within a bound
  that depends on how many logins overlap
  (`LoginOverlap.OverlappingComparisonsAreBounded`).
- **The link-local check is wider than its comment.** The comment names
  169.254.0.0/16 and fe80::/10; the code also refuses link-local multicast
  (224.0.0.0/24 and ffx2::/16), and so does the model.

## Model

| member | source | states |
|---|---|---|
| OrderProtocol.FirstChallengeError | backend/internal/order/service.go:370-377 | the first challenge in the list that has an error decides the message; it is empty only if no challenge has one |
| OrderProtocol.Recheck | backend/internal/ca/letsencrypt.go:202-236 | what a provider's check makes of the challenges: the list keeps its length, a verified challenge stays verified and a refused one refused; and every such outcome is possible |
| OrderSafety.MoveKeeps | backend/internal/order/service.go:245-268 | a step that pays for each CA request with a claim and for each claim with an open row keeps the budget of the order |
| OrderSafety.SaveMoves | backend/internal/order/service.go:228-244 | writing the order back is paid for either by an open row or by a counted reopening, guarded or not |
| OrderSafety.ClaimMoves | backend/internal/order/store.go:92-109 | the conditional write hands out one claim per open row, also when its reply is lost |
| OrderSafety.FinalWriteMoves | backend/internal/order/service.go:316-321 | the last write of a call and the failure write open no row and make no claim |
| OrderSafety.BudgetRun | backend/internal/order/service.go:209-326 | the budget holds after every list of steps of any number of calls with any faults |
| OrderSafety.IssueBound | backend/internal/order/service.go:209-268 | in every run the CA is asked to issue for an order at most once more than awaiting_validation was written over another status |
| OrderSafety.IssueOnceWhenGuarded | backend/internal/order/service.go:245-258 | were the write-back conditional like the claim, every run would ask the CA at most once per order, which is what the claim is for |
| OrderSafety.BoundIsTight | backend/internal/order/service.go:228-244 | for every n some run, starting from an order with one challenge nobody has looked at, reopens it n times and asks the CA n + 1 times, so the single-request promise fails as written |
| OrderFutures.IssueAgainIff | backend/internal/order/service.go:209-268 | in a reachable world the CA can be asked once more if and only if the row is open with challenges that are present and unrefused, a checking or saving call has such challenges, a claiming call has or can be given an open row, or a call holds an unused claim |
| OrderFutures.RefusedAtCreationNeverIssues | backend/internal/ca/adcs.go:122-131 | an order, new or of a renewal, created with a refused challenge or with none never reaches the CA in any run |
| OrderFutures.FrozenForever | backend/internal/order/service.go:214-268 | an order for which that condition fails never meets it again and never reaches the CA |
| OrderFutures.SettledForever | backend/internal/order/service.go:379-388 | once no call on it can write any more, an order that is not awaiting validation never changes again, whatever runs later |
| OrderFutures.FinalIff | backend/internal/order/service.go:209-326 | in a reachable world the row of an order that is not awaiting validation is final if and only if no overlapping call on it still stands at a step that can write |
| OrderFutures.RevokedStaysIff | backend/internal/certificate/store.go:261-292 | a revoked certificate can become active again without a new renewal if and only if a renewal order of it can still reach the CA, or a call on one has yet to store what it got |
| OrderScenarios.AbandonedInIssuing | backend/internal/order/service.go:252-255 | a run whose claim lands without its reply: the order is issuing, the CA was never asked, and no continuation changes the row |
| OrderScenarios.IssuedIsOverwritten | backend/internal/order/service.go:228-244 | runs in which an overlapping call turns an issued order into an open one by writing a slow check back, and into a failed one by reporting a refused challenge |
| OrderService.RunAloneIsARun | backend/internal/order/service.go:209-326 | a call that runs alone is one run of the protocol by steps of that call only, and it returns |
| OrderService.LoneValidateDecides | backend/internal/order/service.go:205-326 | an uninterrupted call on stores that answer leaves the order issued, failed or open exactly as the CA's, the key store's and the certificate table's answers say, never issuing |
| OrderService.LoneValidateAnswers | backend/internal/order/service.go:209-326 | an uninterrupted call on stores that may fail: the row column by column (status, challenges, attempts, completion time, the first challenge error or another reason, certificate), the certificate and version it stores, and a reply that is the row as it is now, or an error iff its last statement was not acknowledged |
| OrderReplies.ReplyIsTheRow | backend/internal/order/service.go:209-326 | in every interleaving an order that a call answers with is the row at that moment |
| OrderReplies.IssuedAnswerHasVersion | backend/internal/order/service.go:315-325 | in every interleaving an answer that says issued names an existing certificate with a stored version |
| OrderReplies.LoserAnswersTheWinnersRow | backend/internal/order/service.go:252-258 | a caller that loses the claim answers with the row of the winner, changes nothing and asks the CA for nothing |
| OrderService.Service.Update | backend/internal/order/store.go:73-90 | the row is overwritten whatever its status; an unknown id changes nothing; the answer may be lost |
| OrderService.Service.UpdateIfStatus | backend/internal/order/store.go:92-109 | the row is overwritten only from the expected status, and claimed is reported only for that |
| OrderService.Service.Finalize | backend/internal/certificate/store.go:214-292 | wherever the transaction stops, either both the certificate row and its version are stored or neither is |
| OrderService.Service.FailOrder | backend/internal/order/service.go:379-388 | the failure write is the protocol's Fail step; acknowledged, it answers with the row it leaves: failed, with the reason and the completion time; otherwise with an error |
| OrderService.Service.SaveOrder | backend/internal/order/service.go:228-244 | the write-back is the protocol's unguarded Save step; acknowledged, it answers with the row it leaves |
| OrderService.Service.StoreCertificate | backend/internal/order/service.go:278-325 | storing, then completing or failing, is the rest of the protocol's run for that call; the answer is the row as it is now, issued with its certificate and completion time iff the transaction was acknowledged, else failed |
| OrderService.Service.ClaimOrder | backend/internal/order/service.go:245-268 | the winner of the claim goes on to issue, the loser returns the row as it is now |
| OrderService.Service.CheckOrder | backend/internal/order/service.go:218-244 | every outcome of the challenge check goes where the protocol's call goes |
| OrderService.Service.Validate | backend/internal/order/service.go:209-326 | executed on the rows in place, Validate is an uninterrupted protocol run; its answer is the row as it is now, or an error iff the order is missing, unreadable or its last statement unacknowledged; row, certificate and version are told column by column from the tables it found |
| CertificateIntegrity.InsertKeeps | backend/internal/certificate/store.go:214-292 | a committed finalizer keeps every certificate backed by a version issued at its not_before |
| CertificateIntegrity.SoundRun | backend/internal/order/service.go:252-325 | orders, calls, certificates and versions stay consistent in every run |
| CertificateIntegrity.IssuedOrderHasVersion | backend/internal/order/service.go:278-325 | in every reachable world an order with status issued names an existing certificate that has a stored version |
| CertificateIntegrity.CertificateIsBacked | backend/internal/certificate/store.go:214-292 | in every reachable world the version committed last for a certificate, issued or imported, was issued at the row's not_before |
| CertificateIntegrity.LatestVersionMatchesRow | backend/internal/certificate/store.go:325-331 | if each renewal moves NotBefore forward, LatestVersion has exactly one possible answer and it is the version the row describes |
| CertificateIntegrity.LatestMatchesRowIff | backend/internal/certificate/store.go:325-331 | in every reachable world LatestVersion can only answer with the version the row describes if and only if the version committed last was issued later than every other |
| CertificateIntegrity.RenewalMatchesRowIff | backend/internal/certificate/store.go:261-292 | in any world, committing a renewal makes LatestVersion match the row if and only if its NotBefore is later than that of every stored version of the certificate |
| CertificateIntegrity.RenewalKeepsLatestIff | backend/internal/certificate/store.go:261-292 | from a world where they match, a renewal keeps LatestVersion in step with the row if and only if its NotBefore is later than the row's |
| CertificateOwners.NamedIff | backend/internal/order/service.go:278-321 | in every reachable world an existing certificate is or can still come to be named by an order, without a new renewal of it, if and only if an order names it now or a call that has stored it has yet to complete |
| CertificateOwners.LostReplyOrphans | backend/internal/order/service.go:289-313 | a finalizer that commits a new certificate and loses its reply leaves it active and named by no order in every continuation without a new renewal of it |
| OrderScenarios.CrossedRenewalsDisagree | backend/internal/order/service.go:285-289 | a run of two renewals of one certificate, finalized in the other order than issued, after which LatestVersion and the row disagree |
| IpArithmetic.SuccessorCounts | backend/internal/discovery/scanner.go:120-127 | carrying adds one to the number an address stands for, and wraps to zero only from the last address |
| IpArithmetic.SuccessorAddsOne | backend/internal/discovery/scanner.go:120-127 | counting is addition of one modulo 256 to the number of bytes |
| IpArithmetic.IncIP | backend/internal/discovery/scanner.go:120-127 | the in-place carry loop turns the array into the successor address |
| IpArithmetic.DupIP | backend/internal/discovery/scanner.go:114-118 | a fresh array with the same bytes |
| IpArithmetic.MaskRoundsDown | backend/internal/discovery/scanner.go:50 | masking an address rounds its number down to a multiple of the network's size |
| IpArithmetic.ContainsIff | backend/internal/discovery/scanner.go:50 | byte-wise membership under the mask is agreement of the numbers above the host bits |
| TargetExpansion.ContainsIffInRange | backend/internal/discovery/scanner.go:49-50 | an address is in the network iff its number is one of the 2^h from the masked address on |
| TargetExpansion.CountingLeavesNetwork | backend/internal/discovery/scanner.go:50 | the step after a network's last address leaves it, also where counting wraps around, except for a /0 |
| TargetExpansion.EnumerationIsTheNetwork | backend/internal/discovery/scanner.go:49-61 | the enumerated list holds every address of the network and no other, in strictly increasing order |
| TargetExpansion.ExpandNetwork | backend/internal/discovery/scanner.go:49-61 | the CIDR loop terminates on every network and appends exactly its enumeration, or stops for a reason that condemns the whole request |
| TargetExpansion.ExpandTargets | backend/internal/discovery/scanner.go:43-72 | the request is refused iff it expands past 20000 hosts or names a link-local address; otherwise the result is the in-order expansion: a host is in it iff a target names it, is its address or is a network that contains it, and it is as long as the targets are together; which error is reported is determined |
| TargetExpansion.InAllHosts | backend/internal/discovery/scanner.go:43-72 | a host is asked for iff some target is that name, that address or a network that contains it |
| TargetExpansion.HostsInOrder | backend/internal/discovery/scanner.go:43-72 | the hosts of each target stand together, after those of the targets before it |
| TargetExpansion.LinkLocalIff | backend/internal/discovery/scanner.go:79-81 | link-local are 169.254.0.0/16, 224.0.0.0/24, fe80::/10 and ffx2::/16, and nothing else |
| ScanRequests.ValidateScanParams | backend/internal/discovery/service.go:37-78 | accepts exactly the requests with a name, targets, at most 32 ports, an acceptable non-empty expansion and a timeout in range; uses the requested ports, timeout and workers, or port 443, 3000 ms and 16 if none are given and 64 workers if there are more; and reports the first complaint in the order of the checks |
| ScanRequests.StoredRequestIsStable | backend/internal/discovery/service.go:142-155 | what a schedule stores of an accepted request is accepted again when it fires and means the same scan |
| ScanRequests.AcceptedIsBounded | backend/internal/discovery/scanner.go:22-31 | an accepted scan has between 1 and 640000 probes and between 1 and 64 workers |
| ProbePool.InvRun | backend/internal/discovery/scanner.go:253-302 | in every schedule each sent occurrence is held by one worker, reported or given up, and the callback is exclusive |
| ProbePool.ReportedAtMostOnce | backend/internal/discovery/scanner.go:253-302 | in every schedule, cancelled or not, no occurrence reaches the callback twice and never two workers are in it |
| ProbePool.EverythingIsReported | backend/internal/discovery/scanner.go:250-252 | with a worker, no cancellation and no panic, every occurrence has been reported when the pool returns |
| ProbePool.CancelStopsTheScan | backend/internal/discovery/scanner.go:279-281 | after a cancellation no occurrence begins to be probed, and only those being probed, waiting for the mutex or in the callback are still reported |
| ProbePool.ReportsAreDeliveries | backend/internal/discovery/scanner.go:293-296 | the reports of a run carry what the callbacks found, in their order |
| ProbePool.StepUsesWork | backend/internal/discovery/scanner.go:253-302 | every step of every goroutine decreases one measure |
| ProbePool.ScanTerminates | backend/internal/discovery/scanner.go:253-302 | every schedule of n occurrences and c workers has at most 5n + c + 2 steps |
| ProbePool.SomeoneCanMove | backend/internal/discovery/scanner.go:253-302 | while a worker has not returned, some goroutine can move without a new cancellation: no deadlock |
| ProbePool.ProducerIsNotStranded | backend/internal/discovery/scanner.go:259-270 | when all workers have returned, the producer has closed the channel or is free to |
| ScanRun.EndpointAt | backend/internal/discovery/scanner.go:261-263 | occurrence i * ports + j is host i with port j |
| ScanRun.UndisturbedScanReportsAll | backend/internal/discovery/scanner.go:250-302 | an undisturbed scan reports hosts times ports as a multiset |
| ScanRun.ScanJob.OnResult | backend/internal/discovery/service.go:314-333 | the counters always describe the results whose insert was acknowledged; the stored rows are those whose insert landed |
| ScanRun.OneReportAdds | backend/internal/discovery/service.go:317-333 | an insert that lands adds its row; an acknowledged one counts once as scanned and once under its own status |
| ScanRun.ScanJob.Conclude | backend/internal/discovery/service.go:335-344 | the final status as a function of the callbacks so far and of the cancellation; the row keeps its old status if the last update does not land |
| ScanRun.RunScan | backend/internal/discovery/service.go:314-344 | a job fed the reports of any schedule of the pool ends with matched + mismatched + new at most scanned, scanned at most the stored rows (equal iff no reply was lost), those at most the total, and the status the condition below gives; the row still says running if the last update does not land |
| ScanRun.CountersAreConsistent | backend/internal/discovery/service.go:314-333 | after every schedule matched + mismatched + new is at most the acknowledged results, these are at most the stored rows, with equality iff no reply was lost, and those at most the total |
| ScanRun.CompletedIff | backend/internal/discovery/service.go:337-344 | a scan is completed iff it was not cancelled and every occurrence has exactly one acknowledged result; then each has exactly one stored row |
| ScanRun.PartialWithAllRowsIff | backend/internal/discovery/service.go:317-345 | an uncancelled scan with a row for every occurrence is reported as partial iff the reply to some insert was lost |
| Migrations.VersionsDistinct | backend/internal/db/db.go:52-53 | stripping the suffix keeps different files apart |
| Migrations.Versions | backend/internal/db/db.go:52-53 | the version recorded for a file is its name without the suffix |
| Migrations.InvRun | backend/internal/db/db.go:31-88 | every interleaving of processes, failures and crashes keeps the committed scripts a growing prefix that is recorded as such |
| Migrations.CommittedIsAPrefix | backend/internal/db/db.go:29-88 | from an empty database, committed scripts are always a prefix of the sorted list, each committed once, and exactly those are recorded |
| Migrations.SuccessMeansComplete | backend/internal/db/db.go:31-88 | when some run has returned nil, the whole list is committed then and at any later time |
| Migrations.RestartCompletes | backend/internal/db/db.go:31-88 | whatever earlier processes have left behind, unless one of them is about to commit, one more process can complete the list and return nil |
| Migrations.RejectionEndsTheRun | backend/internal/db/db.go:31-88 | a rejected statement ends the run with an error and commits nothing |
| Migrations.Database.Migrate | backend/internal/db/db.go:52-85 | the loop commits the pending files in order, never skips or repeats one, succeeds iff every statement it needed did, and otherwise stops at the first file that did not go through, with exactly those before it committed (and that one if only its reply was lost) |
| Reminders.InAttempts | backend/internal/renewal/engine.go:170-205 | a reminder is tried by a tick iff the certificate is in the query window and its whole remaining days, when its turn in the loop comes, equal a configured threshold |
| Reminders.TriesIff | backend/internal/renewal/engine.go:190-204 | a tick tries a threshold below the largest, or any threshold if the largest is not positive, iff that many whole days are left when it looks at the certificate |
| Reminders.PassedOverIff | backend/internal/renewal/engine.go:190-204 | a certificate watched from before a threshold's day until after it is never reminded of it if and only if two successive looks lie on either side of that day |
| Reminders.ThresholdIsCovered | backend/internal/renewal/engine.go:190-204 | with successive looks at most a day apart each such threshold is tried while the remaining time passes it, whatever else of the settings and of the certificate's row changes |
| Reminders.DailyTickPassesOver | backend/internal/renewal/engine.go:60-72 | ticks exactly 24 hours apart whose looks come one and later two nanoseconds after the query never try threshold 7 of a certificate |
| Reminders.LargestThresholdIff | backend/internal/renewal/engine.go:190-204 | a positive largest threshold is tried iff the remaining time is exactly that many days at the query and the loop reaches the certificate in that instant |
| Reminders.LargestThresholdIsMissed | backend/internal/renewal/engine.go:190-204 | a daily run with the shipped thresholds that never tries the 30 day reminder |
| Reminders.OncePerThreshold | backend/internal/renewal/engine.go:207-245 | over any ticks, edits, send and log failures: at most one sent entry per pair, and deliveries at most one plus the sends without an acknowledgement plus the unacknowledged records of sent mails |
| Reminders.SentWasDelivered | backend/internal/renewal/engine.go:230-245 | over any ticks a pair logged as sent has been delivered at least once |
| Reminders.EntryComesFromATick | backend/internal/renewal/engine.go:217-222 | every log entry was made by a tick for a listed certificate and a threshold that was due, and names the certificate's recipients or else the default ones, and the escalation list as well iff the threshold is the smallest |
| Reminders.AttemptSucceeds | backend/internal/renewal/engine.go:207-245 | an attempt all of whose calls go through leaves a sent entry for its pair, now and later |
| Reminders.LogOnlyGrows | backend/internal/renewal/notifylog.go:62-71 | a pair logged as sent stays so |
| Reminders.Engine.Record | backend/internal/renewal/notifylog.go:62-71 | appends the entry, or leaves the log alone |
| Reminders.Engine.SendOneReminder | backend/internal/renewal/engine.go:207-245 | one attempt, told from the fields: unless the pair is logged as sent or a step before fails, it mails the pair and logs whether the mail was acknowledged and to whom it went |
| Reminders.Engine.Bounds | backend/internal/renewal/engine.go:180-188 | the loop finds the largest and the smallest threshold |
| Reminders.Engine.SendExpiryReminders | backend/internal/renewal/engine.go:170-205 | the nested loops make exactly the tick's attempts, in order |
| Reminders.RenewOne | backend/internal/renewal/engine.go:105-132 | at most the configured number of validations, each further one only while the order waits, and success is reported iff the last answer was issued |
| InventoryIndex.LastClaimExpiresLast | backend/internal/certificate/store.go:93-133 | in the listing order the claimant found is one that expires last |
| InventoryIndex.BuildInventoryIndex | backend/internal/discovery/service.go:379-399 | the index maps exactly the claimed names, each to the last unrevoked certificate that claims it and that certificate's fingerprint |
| InventoryIndex.Reconcile | backend/internal/discovery/service.go:401-438 | a lookup through the index gives the verdict of the linear search, for every inventory and probe; unreachable iff not reachable, and no TLS iff reachable without it |
| InventoryIndex.VerdictMeans | backend/internal/discovery/service.go:415-437 | the certificate that answers is the last one listed under the first claimed name, host before served names; matched iff its latest non-empty fingerprint is served; not in inventory iff no name is claimed |
| InventoryIndex.ClaimsIff | backend/internal/discovery/service.go:386-397 | a certificate claims a name iff it is not revoked and one of its names is that name in any case of its ASCII letters |
| InventoryIndex.TreatedAlikeIff | backend/internal/discovery/service.go:415-424 | two names are treated alike iff they differ at most in the case of ASCII letters |
| Schedules.ConfigIsLastWrite | backend/internal/discovery/service.go:233-237 | in every interleaving the configuration columns are those of the last edit that landed |
| Schedules.InvRun | backend/internal/discovery/service.go:238-267 | every run keeps short gaps between fires paid for by slips, and a coming one paid for already |
| Schedules.FiresAreSpaced | backend/internal/discovery/service.go:216-267 | between two fires of any run lie five minutes for each step between them, save one per slip |
| Schedules.RateBound | backend/internal/discovery/scanner.go:32-38 | in a run in which no step slips, which can be checked before each step, fires in a window are at most one plus its length over five minutes |
| Schedules.EarlyFireIff | backend/internal/discovery/service.go:216-267 | in every reachable world the next fire can come within five minutes of the last one iff that time has not passed and the enabled row, an enabled edit ready to be written, or a begun sweep is due before it has; with and without unrecorded runs and restarts |
| Schedules.SlipIff | backend/internal/discovery/service.go:216-267 | after a run without slips, a step can be followed without further slips by fires less than five minutes apart iff that step slips |
| Schedules.DueIff | backend/internal/discovery/service.go:238-267 | while every run is recorded, no edit lands and nothing restarts, a sweep finds the schedule due iff it is enabled and its interval has passed since the last fire |
| Schedules.OvertakenEditShortensGap | backend/internal/discovery/service.go:160-181 | an edit overtaken by a fire makes the schedule fire again after one minute |
| Schedules.UnrecordedRunFiresAgain | backend/internal/discovery/service.go:264-266 | a run whose record is rejected is fired again by the next sweep, one minute later |
| Schedules.Service.RecordScheduleRun | backend/internal/discovery/store.go:305-314 | writes the three bookkeeping columns and leaves the configuration alone |
| Schedules.Service.FireSchedule | backend/internal/discovery/service.go:238-267 | a fire that is recorded leaves next run = fire time + the interval of the snapshot, last run = fire time and the started scan or none; one that is not leaves the row; the configuration stays |
| Schedules.Service.RunDueSchedules | backend/internal/discovery/service.go:216-225 | a sweep that can list the due schedules fires iff the enabled row was due when it asked, and then re-arms it by its interval; otherwise it changes nothing |
| Schedules.Service.UpdateSchedule | backend/internal/discovery/service.go:160-181 | an edit of an existing row with an acceptable request and interval that lands replaces the configuration and re-arms it from now, keeping the last run; any other changes nothing |
| AcmeChallenges.PollAuthorization | backend/internal/ca/letsencrypt.go:341-355 | asks at most five times and answers the first settled status, or the last one |
| AcmeChallenges.RequestValidation | backend/internal/ca/letsencrypt.go:139-193 | challenges and authorization states are built aligned, one open pair per authorization with its domain; the first authorization that cannot be prepared decides the error, and with automation the records of all before it have been presented and are in no row |
| AcmeChallenges.CallPays | backend/internal/ca/letsencrypt.go:196-243 | a call and its write-back keep the alignment, the stored verified flags and the accounts of triggers and clean-ups, also when the call fails part-way or the write-back is lost |
| AcmeChallenges.CallFinds | backend/internal/ca/letsencrypt.go:196-243 | for each challenge a call gets to, told from the CA's answers to at most five polls: verified iff the first settled one is valid, refused with its reason iff it is invalid, otherwise as it was; asked and cleaned up accordingly |
| AcmeChallenges.ThreadedOrderIsSafe | backend/internal/ca/letsencrypt.go:139-243 | over any calls: aligned lists, DNS clean-ups per authorization at most one plus the lost write-backs, CA triggers at most one plus the failing calls and the lost write-backs |
| AcmeChallenges.StepRepeatsIff | backend/internal/ca/letsencrypt.go:202-236 | in every world of an order some continuation triggers an authorization once more iff its challenge in the row is unverified, the stored state decodes and its entry is not triggered; some continuation removes its record once more iff it is unverified, decodes, is automated and not cleaned up |
| AcmeChallenges.VerifiedIsForever | backend/internal/ca/letsencrypt.go:221-223 | a challenge stored as verified stays so from any point of a thread on |
| AcmeChallenges.TriggerBoundIsTight | backend/internal/ca/letsencrypt.go:208-213 | for every n a thread with n failing calls triggers n + 1 times |
| AcmeChallenges.LostWriteBacksRepeat | backend/internal/order/service.go:225-240 | for every n a thread with n lost write-backs and no failing call removes the record and triggers n + 1 times |
| AcmeChallenges.LetsEncrypt.CheckAuthorization | backend/internal/ca/letsencrypt.go:202-236 | one authorization, flags set in place: verified, refused or failing exactly as the polls say |
| AcmeChallenges.LetsEncrypt.CheckChallenge | backend/internal/ca/letsencrypt.go:196-243 | the loop over the shared list finds, for every authorization it gets to, what the polls say, stops at the first that fails, and then hands the old state back with the flags already set |
| CsvExport.RecordReadsBack | frontend/src/pages/Inventory.tsx:85 | a printed record is read back field by field by the grammar of section 2 of RFC 4180, whatever the fields hold |
| CsvExport.FileReadsBack | frontend/src/pages/Inventory.tsx:85 | every printed table is read back as the same table |
| CsvExport.ExportReadsBack | frontend/src/pages/Inventory.tsx:74-85 | the exported text reads back as the header and one row per certificate |
| CsvExport.ColumnsMatchHeadings | frontend/src/pages/Inventory.tsx:75-84 | the column under each heading holds that field |
| InventoryRefresh.ShowsTheLastRequest | frontend/src/pages/Inventory.tsx:40-64 | in every order of requests, answers and callbacks the spinner is on iff the last request is unfinished, and off it the page shows that request's answer |
| InventoryRefresh.TablesOnlyGetNewer | frontend/src/pages/Inventory.tsx:40-64 | a newer table is never replaced by an older one |
| OidcState.EncodingIsClean | backend/internal/auth/oidc.go:130 | the unpadded URL alphabet of section 5 of RFC 4648 never produces a dot or a line break |
| OidcState.EncodingReadsBack | backend/internal/auth/oidc.go:144 | decoding inverts encoding on every byte string |
| OidcState.DecodableIff | backend/internal/auth/oidc.go:144 | what is decoded: symbols of the alphabet only, not one more than a multiple of four |
| OidcState.NumberReadsBack | backend/internal/auth/oidc.go:126-157 | reading inverts printing on every signed 64 bit number |
| OidcState.NumberIff | backend/internal/auth/oidc.go:152-157 | what is read as a number: an optional sign, at least one digit and nothing else, and a value of 64 bits |
| OidcState.Verify | backend/internal/auth/oidc.go:133-164 | for every string, told without the check itself: accepted iff it is a dot-free payload that decodes, a dot and the right signature of what it decodes to, which reads as a number of seconds at most ten minutes ago; and exactly which strings get each of the other four verdicts |
| OidcState.VerdictIff | backend/internal/auth/oidc.go:133-164 | the same of the function that the other theorems are about: each verdict and the strings that get it |
| OidcState.OwnTokenIsAcceptedIff | backend/internal/auth/oidc.go:125-164 | for every secret and every time whose seconds a time value can hold, a token is accepted iff at most ten minutes have passed since its second, and otherwise it is expired |
| OidcState.ForeignTokenNeedsSameMac | backend/internal/auth/oidc.go:148-154 | a token made with another secret is accepted iff both secrets give its timestamp the same MAC and it is not too old |
| LoginLockout.Account.LocalLogin | backend/internal/auth/password.go:98-118 | told from the fields: logged in iff the password is right and the account not locked, too many attempts iff locked, and then nothing changes; a recorded success clears counter and lock, a recorded failure counts one more and locks from the fifth on |
| LoginLockout.RepliesMean | backend/internal/auth/password.go:98-118 | over any history a login succeeds iff its password is right and is compared, and is told too many attempts iff it is not compared |
| LoginLockout.SuccessStartsAfresh | backend/internal/user/store.go:151-157 | after a recorded success the account is judged, and passwords are compared, as in a history that begins there |
| LoginLockout.ComparisonsAreSpaced | backend/internal/auth/password.go:98-115 | without a success the n-th password comparison comes no earlier than the fifth plus 15 minutes for each one after it, save unrecorded failures |
| LoginLockout.ComparisonsAreBounded | backend/internal/user/store.go:143-149 | comparisons are at most five plus the elapsed time over 15 minutes plus the unrecorded failures |
| LoginOverlap.OverlappingComparisonsAreBounded | backend/internal/auth/password.go:86-115 | in every interleaving of at most k logins with wrong passwords, each of which reads, looks, compares and overwrites at its own pace: those that read a counter b below five compare at most k^(b+1) passwords, corrected for lost updates, and all others at most k * (k + 2) per 15 minutes since the start plus the lost updates |
| LoginOverlap.RecordedComparisonsAreBounded | backend/internal/user/store.go:143-149 | if every update lands, at most k + k^2 + ... + k^5 comparisons in all and k * (k + 2) more for every 15 minutes |
| LoginOverlap.LockIsBrokenIff | backend/internal/auth/password.go:98-115 | in every reachable world a lock can be lifted or moved so that the row is unlocked before it has run out if and only if a login under way has read a counter below four, or compared so early that 15 minutes from then end before the lock |
| LoginOverlap.SlowLoginCanLift | backend/internal/auth/password.go:103-110 | two logins at a time reach such a world although every update is recorded |

## Left out

- HTTP routing, JSON decoding, CORS, sessions, RBAC, settings and audit writes: dispatch around the services above.
- TLS dialling, X.509, PEM, PKCS#12, HMAC, bcrypt, Vault and ACME transport: their results are parameters or outcomes of a step, the MAC is any function of its bytes.
- SQL text and Postgres internals: each statement or committed transaction is one step; `make_interval` days are 24 hours, and the database clock does not run ahead of the process clock.
- Create and CreateRenewal before the row insert (key generation, CSR, RequestValidation) and the order columns that never change afterwards; the row appears awaiting validation with any challenges.
- The onIssued hook after the last write, and the panic recovery around ticks and scans.
- net.ParseCIDR, net.ParseIP and JSON decoding of the stored ACME state: a target and a state come in already classified, an undecodable state is an error.
- A provider's problem detail that is empty: a challenge found invalid is taken to have a non-empty error.
- The precision of stored times: Postgres keeps microseconds, so a stored next run, lock or not_before may lie up to one microsecond off the nanosecond the model keeps.
- IPv4-mapped IPv6 literals: the two address families are kept apart.
- Hostname resolution, the probe itself, vulnerability classification and the extra result columns.
- sort.Strings over the embedded file names: the list is assumed sorted, and only its distinctness is used.
- Floating point in the remaining days: truncating integer division on nanoseconds.
- Letter case outside ASCII when domains are compared.
- A panic inside the scan callback, which leaves the mutex locked: only probes panic in the model.
- The scan's early return when its row cannot be marked running, and what marks interrupted scans failed after a restart.
- Schedules.Service.RunDueSchedules: one schedule; a sweep that finds several due fires them one after the other, each as modelled.
- DeleteSchedule and several schedulers over one table.
- Unknown user names, password changes and, among overlapping logins, successes in between: the bounds count wrong passwords.
- Overlapping calls on one ACME order: the thread takes them one after the other.
- ACME order polling, issue and revocation; an unsupported challenge type or a refused order is an error before anything is built.
- DueForRenewal's window and the renewal reports: a renewal is modelled from the start of its order on.
- Dashboard statistics, posture, Kubernetes, WinRM, AD CS, ZeroSSL, SMTP and webhook clients: wrappers with little state of their own.
