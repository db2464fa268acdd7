# Tax OCR verification

A Dafny model of the parts of the tax OCR system that carry logic of their own, with proofs of what they
promise. Tables are maps from row id to row; a SQL statement or transaction is one atomic step; NOW() is a
clock that grows with every statement; money is in satang, or an exact real where the source works on
floats; OCR, the AI classifier, failing statements and process crashes are unconstrained inputs. Where the
source changes things step by step, a class holds its state and its methods are proved against functions on
that state; runs are sequences of events, and the main results hold for all of them.

| files | component |
|---|---|
| Wrappers, Records, Ids | shared types and set facts |
| ReviewerTables, ReviewerProtocol, ReviewerSafety, ReviewerRouting, ReviewerHistory, RoundRobin, ReviewerFairness, ReviewerRuns, ReviewerService | HITL items, reviewer tasks, expiry, round robin, rewards |
| Text, EditDistance, Decimal, BuyerCheck | buyer validation with the Levenshtein name match |
| Invoices, DuplicateGraph, InvoiceStore | duplicate detection, the unique index, migration 029 |
| Redelivery | item replacement and HITL routing under at-least-once delivery |
| Migrations | the migration runner |
| RateLimiter | the login rate limiter |
| Classifier | rules, keyword lists and learning |
| Patterns, InvoiceDates | date formats and their readers |
| TokenRefresh | the admin client's token refresh |
| VatChecks | OCR cross-check, verification wizard, verifyInvoice |
| Archive | the archive schedulers |

`dafny verify dfyconfig.toml` checks everything.

Some things one might expect are false of the code as it stands. Each has a lemma with a case in which it
fails, and the lemmas named with it say when it holds.

- A HITL reason other than the worker's two gets two tasks at once (OtherReasonHasTwoTasks, SingleTaskReasons).
- Picking a reviewer and inserting the task are two statements, and overlapping assignments can give one
  reviewer two turns in a row (BothCanPickTheSame, OverlappingPicksCanRepeat, from a state TwoWaitingReachable
  reaches). Round robin is fair exactly if every insert finds its reviewer still next (FairIff), which
  PickStillGoodIff reduces to who got a task since the pick.
- Lookup and update of a duplicate are two statements as well. Two overlapping jobs can link each other
  (StaleLookupsCanCycle); the links stay acyclic exactly if every late link is safe when it is written
  (OverlappingRunsAcyclicIff).
- Two new invoices that show the same document and are processed at once are not linked: the second update is
  rejected by the unique index, its error dropped and all its data lost (OverlappingTwinsLoseOne). The same can
  happen to a single job whose OCR misses one key part (PartialKeyJobCanTrip). UpdateTripsIff says for any
  lookup when it happens, JobTripsIff for one directly before the update.
- Redelivery does not always replace the items: the worker drops the error of the DELETE, and the old items stay
  beside the new ones (FailedDeleteRepeats). Redeliver and ProcessItems say for all inputs that the items are the
  accepted lines exactly if the DELETE took effect or the invoice had none. Runs of one invoice that overlap can
  leave lines twice as well (OverlapRepeats); the items are those of the run that cleared last exactly if nobody
  else adds one after that (OverlappingJobsIff).
- Listing and logging are two statements, and two archive schedulers can give an invoice two active logs
  (TwoSchedulersLogTwice). No invoice ever has two exactly if every log row that is written finds none
  (OneActiveLogIff), as it does when passes list nothing another pass still has to log (ArchiveIsSafe).
- An invoice that is logged by a pass but not marked is never marked later (StoppedInvoiceIsNotFound), and a run
  that marks one exists only if the table's check takes the value archived (SomeRunMarksIff). The check of the
  migrations does not (NothingIsMarked).
- The rate limiter admits almost twice its limit in one window length (SlidingBound, SlidingBoundIsReached).
- Vision and worker disagree about the year 2400 (Year2400IsMoved, VisionDatesAreRead).
- A VAT choice of zero in the wizard is not stored (ZeroChoiceIsLost, ChosenVatIsStoredIff).
- A confident answer is not learned if its keyword is longer than 255 characters by more than blanks
  (LongKeywordIsNotLearned) or if the insert fails, of which the error is dropped (FailedInsertTeachesNothing).
  LearnsIff has the condition.
- If verifyInvoice cannot read the row, its zero corrections overwrite stored amounts with zero
  (FailedReadIsHarmlessIff).

## Model

| member | source | states |
|---|---|---|
| `ReviewerSafety.OneLiveTaskOrDuty` | backend/internal/reviewer/service.go:46-118 | In every state any interleaving of workers, checkers, reviewers, admins and deletes can reach, the tasks of an item a worker created that are not expired and the assignments still owed for it are at most one together, whatever other items exist |
| `ReviewerSafety.OnePaymentPerItem` | backend/internal/db/reviewer_store.go:214-245 | Over a whole run an item a worker created is paid for at most once |
| `ReviewerSafety.OnePaymentPerTask` | backend/internal/db/reviewer_store.go:214-245 | In every run, whatever the reasons, a task is paid for at most once, at the reward its row was created with; a task row is completed exactly when it was paid for |
| `ReviewerSafety.EarningsAreCompletions` | backend/internal/db/reviewer_store.go:237-239 | In every run, whatever the reasons, total_earned and pending_payout of every reviewer equal the sum over that reviewer's completions, whatever rewards, expiries and deletions came later |
| `ReviewerSafety.StepKeepsInv` | backend/internal/reviewer/service.go:46-118 | Every single step of the protocol keeps the joint invariant of tables, duties and payments |
| `ReviewerSafety.InsertKeepsInv` | backend/internal/db/reviewer_store.go:125-139 | Keeps the invariant: the insert hands the item from the duty to the new task, or fails a foreign key and ends the duty |
| `ReviewerSafety.ExpireKeepsInv` | backend/internal/db/reviewer_store.go:176-197 | Keeps the invariant: expiring all overdue tasks in one statement hands each item from its task to a fresh duty |
| `ReviewerSafety.CreateHitlKeepsInv` | backend/internal/queue/worker.go:382-394 | Keeps the invariant: a new HITL item of a worker's reason comes with one duty to assign it |
| `ReviewerSafety.CompleteKeepsLedger` | backend/internal/db/reviewer_store.go:214-245 | A completion is a first payment of its task, and for an item a worker created a first payment of the item |
| `ReviewerSafety.NotYetPaid` | backend/internal/db/reviewer_store.go:223-225 | A task of a worker's item that can still be completed belongs to an item nobody has been paid for |
| `ReviewerSafety.DeleteKeepsInv` | database/migrations/017_create_reviewer_tasks.sql:3 | Keeps the invariant, payments and earnings included, when items go together with their HITL rows and tasks |
| `ReviewerSafety.SingleTaskReasons` | backend/internal/reviewer/service.go:21-30 | A reason has a single task type exactly when it is one the queue worker writes |
| `ReviewerSafety.TwoTypesReachable` | backend/internal/reviewer/service.go:27-28 | A run reaches the state in which an item with any other reason waits for two tasks |
| `ReviewerSafety.OtherReasonHasTwoTasks` | backend/internal/reviewer/service.go:27-28 | From there that item gets two live tasks at once, so the two worker reasons are needed |
| `ReviewerRouting.TasksMatchReasons` | backend/internal/reviewer/service.go:21-30 | In every run a task is of a type the reason of its item asks for: an OCR mismatch only ever leads to text tasks, a needed classification only to classification tasks |
| `ReviewerRouting.TasksDevelop` | backend/internal/db/reviewer_store.go:176-245 | From every point of every run on, a task keeps its item, reviewer, type, reward and deadline, its status only goes from sent to accepted, completed or expired and from accepted to completed, it expires only after its deadline, and a deleted one never returns |
| `ReviewerRouting.HitlsDevelop` | backend/internal/db/hitl_store.go:63-74 | From every point of every run on, an item keeps its line and reason, is never reopened once resolved, and never returns once deleted |
| `ReviewerHistory.TasksWerePicked` | backend/internal/reviewer/service.go:46-66 | In every run each task went to a reviewer whom some duty picked at a moment when his row was active and of the type for the task and no other such reviewer had waited longer, at a reward that was configured at some point of the run or at none if that query failed |
| `ReviewerHistory.OwedUntilTaken` | backend/internal/reviewer/service.go:97-117 | In every run the item of each task that expires is owed a new assignment, and stays so through everything else until a step of that very duty |
| `ReviewerHistory.ReviewersDevelop` | backend/internal/db/reviewer_store.go:68-85 | From every point of every run on, no reviewer is lost, and type and activity change only by an update of that reviewer |
| `ReviewerTables.NextReviewerIff` | backend/internal/db/reviewer_store.go:159-165 | The query may return a reviewer iff he is active, of the type, and no task was sent to him later than to any other such reviewer |
| `ReviewerTables.WhoDoesWhat` | backend/internal/reviewer/service.go:15-30 | Which reasons ask for which task types, and which reviewers do them |
| `ReviewerTables.SetRewardIs` | backend/internal/db/reward_store.go:43-58 | A reward is set iff the amount is positive; the seeded ones are 5 and 3 baht |
| `ReviewerTables.DeleteItemsTakes` | database/migrations/009_create_hitl_queue.sql:4 | Deleting lines takes exactly their HITL rows and the tasks on these |
| `ReviewerFairness.FairIff` | backend/internal/reviewer/service.go:54-66 | Over any steady run of single events from a state without pending picks, nobody gets two turns in any stretch of as many turns as the pool has members iff every insert finds its reviewer still next |
| `ReviewerFairness.PickStillGoodIff` | backend/internal/reviewer/service.go:54-66 | After any events between pick and insert the chosen reviewer is still next iff no task went to that reviewer since, or everybody else in the pool got one after the latest such task |
| `ReviewerFairness.EveryoneOnce` | backend/internal/db/reviewer_store.go:156-173 | In a run whose inserts meet that condition any n consecutive turns of a pool of n give each reviewer exactly one, however ties are broken and whatever other steps come between |
| `ReviewerFairness.TurnsDifferByAtMostOne` | backend/internal/db/reviewer_store.go:156-173 | In such a run the numbers of turns of two reviewers of the pool never differ by more than one |
| `ReviewerFairness.NoEarlyTurn` | backend/internal/db/reviewer_store.go:161-165 | In such a run everybody else of the pool has a turn between two turns of one reviewer |
| `ReviewerFairness.UnfairShows` | backend/internal/reviewer/service.go:54-66 | One insert that misses the condition makes n consecutive turns give somebody two and somebody else none |
| `ReviewerFairness.EventEffect` | backend/internal/db/reviewer_store.go:125-139 | A turn makes its reviewer the one sent to last; every other step leaves the order of the pool alone |
| `ReviewerFairness.TwoWaitingReachable` | backend/internal/reviewer/service.go:46-52 | Six events from the initial state lead to two duties that are about to pick |
| `ReviewerFairness.BothCanPickTheSame` | backend/internal/reviewer/service.go:54-61 | Pick and insert are two statements: two overlapping duties can pick the same reviewer |
| `ReviewerFairness.OverlappingPicksCanRepeat` | backend/internal/reviewer/service.go:54-66 | That reviewer then gets both tasks while another has none |
| `ReviewerService.Store.AssignForHitl` | backend/internal/reviewer/service.go:46-79 | Exactly the events of one duty: the rewards are read, then each task type in order is skipped iff nobody active serves it, else given to the next reviewer; so the item gets one new sent task of each type its reason asks for and somebody active can serve, at the configured reward, and nothing else changes |
| `ReviewerRuns.ChecksRuns` | backend/internal/reviewer/service.go:97-118 | One tick of the checker is a run of the interleaving protocol, so its invariants hold of it |
| `ReviewerRuns.CheckHandsOut` | backend/internal/reviewer/service.go:97-118 | After a tick a pending item has, of each type its reason asks for and somebody active can serve, one new task per overdue task, and any other item none |
| `ReviewerRuns.CheckReassignsOnce` | backend/internal/reviewer/service.go:97-118 | In every reachable state an overdue item a worker created ends a tick with exactly one new sent task of its type at the configured reward iff it is pending and somebody active can serve it |
| `ReviewerRuns.AssignsHandsOut` | backend/internal/reviewer/service.go:46-79 | Whatever events the assignment of one item consists of, that item gets one task of each type that its reason asks for and somebody active can serve, and no other item gets any |
| `ReviewerService.Store.ExpireAndReassign` | backend/internal/reviewer/service.go:97-118 | Exactly one tick: expiry, then one reassignment per overdue task and nothing else; a pending item gets one new task per overdue one, of each type its reason asks for and somebody active can serve, and no other item gets any |
| `ReviewerService.Store.Reassign` | backend/internal/reviewer/service.go:107-117 | An expired task leads to that assignment iff its item exists and is still pending, and to no task otherwise |
| `ReviewerService.Store.NextReviewerRoundRobin` | backend/internal/db/reviewer_store.go:156-173 | Finds somebody iff there is an active reviewer of the type, and then an active one of the type to whom no task was sent later than to any other |
| `ReviewerService.Store.LatestSent` | backend/internal/db/reviewer_store.go:163-165 | The inner query: no task of the reviewer was sent later, and one was sent then unless the answer is zero |
| `ReviewerService.Store.ExpireOld` | backend/internal/db/reviewer_store.go:176-197 | The rows returned are exactly the tasks that were sent and overdue, and they are now expired |
| `ReviewerService.Store.CompleteReviewerTask` | backend/internal/db/reviewer_store.go:214-245 | Succeeds iff the task was sent or accepted; then the task is completed and its reward added to both balances of its reviewer, and nothing else changes |
| `ReviewerService.Store.AcceptReviewerTask` | backend/internal/db/reviewer_store.go:199-212 | Accepts a task and reports it iff it exists and was sent, and changes nothing else |
| `ReviewerService.Store.CreateReviewerTaskWithExpiry` | backend/internal/db/reviewer_store.go:125-139 | Adds a sent task when item and reviewer exist, else nothing |
| `ReviewerService.Store.CreateHitlItem` | backend/internal/db/hitl_store.go:49-61 | Adds a pending item under a new id |
| `ReviewerService.Store.ResolveHitlItem` | backend/internal/db/hitl_store.go:63-74 | Resolves the item if it exists |
| `EditDistance.NoScriptIsCheaper` | backend/internal/queue/worker.go:157-173 | No chain of single-rune insertions, deletions and substitutions, at any positions and in any order, is shorter than the computed distance |
| `EditDistance.ShortestScript` | backend/internal/queue/worker.go:157-173 | Some chain of exactly that many edits turns one name into the other |
| `EditDistance.TwoRowDistance` | backend/internal/queue/worker.go:157-173 | The two-row program computes the distance |
| `EditDistance.NextRow` | backend/internal/queue/worker.go:161-172 | From the row of prefix i - 1 the inner loop makes the row of prefix i |
| `EditDistance.DistanceZeroIffEqual` | backend/internal/queue/worker.go:145-179 | The distance is zero iff the names are equal |
| `EditDistance.DistanceSymmetric` | backend/internal/queue/worker.go:145-179 | The distance is symmetric |
| `EditDistance.TriangleInequality` | backend/internal/queue/worker.go:145-179 | The distance satisfies the triangle inequality |
| `EditDistance.DistanceBounds` | backend/internal/queue/worker.go:145-179 | The distance lies between the difference and the maximum of the lengths |
| `EditDistance.StringSimilarity` | backend/internal/queue/worker.go:145-179 | Early returns and table together give one formula on the trimmed names |
| `EditDistance.SimilarityMeaning` | backend/internal/queue/worker.go:145-179 | The ratio is one minus the distance over the longer length, lies in 0..1, is 1 iff the names are equal, is symmetric, and reaches 0.85 iff 20 * distance <= 3 * longer length |
| `EditDistance.Min3` | backend/internal/queue/worker.go:181-192 | The least of the three |
| `Text.TrimCutsSpace` | backend/internal/queue/worker.go:147-148 | Trimming cuts white space from both ends and nothing else |
| `Text.TrimKeepsCore` | backend/internal/queue/worker.go:75 | Trimming leaves whole what begins and ends without white space, whatever stands around it |
| `BuyerCheck.ValidateBuyer` | backend/internal/queue/worker.go:197-218 | Passes iff the document is no tax invoice or tax id, branch and name agree, the name to within 3 edits in 20; otherwise the reason is the first check that failed |
| `BuyerCheck.NumericBranchCodesAgree` | backend/internal/queue/worker.go:131-143 | Two numeric branch codes of up to five digits are the same branch iff they are the same number |
| `BuyerCheck.NumericBranchCode` | backend/internal/queue/worker.go:131-143 | A numeric code becomes its five-digit form, head office included |
| `BuyerCheck.HeadOfficeIsRecognised` | backend/internal/queue/worker.go:132-136 | Every name of the head office, in any letter case and with white space around it, becomes 00000 |
| `BuyerCheck.OtherCodesStay` | backend/internal/queue/worker.go:137-142 | A code that is neither such a name nor a number of up to five digits is only trimmed |
| `BuyerCheck.NormalizeIsIdempotent` | backend/internal/queue/worker.go:131-143 | Normalising a normalised code changes nothing |
| `DuplicateGraph.LinksNeverCycle` | backend/internal/db/invoice_store.go:286 | In every run of creations, jobs, edits and deletes whose jobs do not overlap, or whose late links are safe, the duplicate_of links have no cycle and lead from every invoice to a root |
| `DuplicateGraph.LinkSafeIff` | backend/internal/db/invoice_store.go:286 | A link to a target keeps the table acyclic iff the target's own links do not lead back to the row |
| `DuplicateGraph.StepKeepsInv` | backend/internal/db/invoice_store.go:106-405 | Every statement, a late update if it is safe, keeps the unique index, the foreign key and a ranking of the links |
| `DuplicateGraph.FullKeyJobNeverTrips` | backend/internal/queue/worker.go:283-336 | A job whose OCR gave vendor and document number, and whose lookup worked on the table it writes, never trips the unique index |
| `DuplicateGraph.JobTripsIff` | backend/internal/queue/worker.go:283-336 | With the lookup taken on the table that is written, a job trips the index iff the lookup was skipped or failed and the merged key belongs to another root while the row is a root |
| `DuplicateGraph.PartialKeyJobCanTrip` | backend/internal/db/invoice_store.go:266-286 | Such a table exists: the whole update of the job is then lost |
| `DuplicateGraph.UpdateTripsIff` | backend/internal/queue/worker.go:286-336 | A job whose lookup is of any age trips the index, and loses everything, iff it leaves the row a root of a key another root has; with both key parts read, iff it found nothing, the row is a root and by then another root matches |
| `DuplicateGraph.OverlappingTwinsLoseOne` | backend/internal/queue/worker.go:286-336 | Two new invoices with the same key are linked if processed one after the other; if both look up first, the second loses its whole update |
| `DuplicateGraph.RootAfterJobIff` | backend/internal/db/invoice_store.go:259-299 | After an accepted job its key has a root iff the row was a root or another root had the key |
| `DuplicateGraph.IndexRejectsIff` | database/migrations/029_add_invoice_date_parts_and_duplicate.sql:31-35 | The partial index turns a write down iff the row would be a second root of its key |
| `DuplicateGraph.StaleLookupsCanCycle` | backend/internal/queue/worker.go:286-309 | Lookup and update are two statements: two overlapping jobs can close a cycle that no index forbids |
| `DuplicateGraph.UpdateSafeIff` | backend/internal/db/invoice_store.go:259-299 | One such update keeps the links acyclic iff it is rejected, sets no link, or is safe in that sense |
| `DuplicateGraph.OverlappingRunsAcyclicIff` | backend/internal/queue/worker.go:286-336 | However jobs overlap with each other and with creations, edits and deletes, the links stay acyclic throughout iff every late link, when it is written, has a target that does not lead back to its row |
| `DuplicateGraph.RunKeepsTable` | database/migrations/029_add_invoice_date_parts_and_duplicate.sql:31-35 | Every run, however its jobs overlap, keeps unique roots and valid links |
| `DuplicateGraph.EditKeepsLinks` | backend/internal/db/invoice_store.go:157-184 | A manual edit stores the vendor and document number it is given, NULL for an empty one, and changes no link and no other row |
| `DuplicateGraph.RootBelow` | backend/internal/db/invoice_store.go:286 | Following the links from any row comes to a root |
| `InvoiceStore.MigrationLeavesOneRoot` | database/migrations/029_add_invoice_date_parts_and_duplicate.sql:10-27 | On a table without links every key keeps exactly one root, its earliest row, all other rows of the key point straight at it, and nothing else changes |
| `InvoiceStore.MigratedRunsStaySound` | database/migrations/029_add_invoice_date_parts_and_duplicate.sql:10-35 | After the migration the index can be created, and every later run, overlapping jobs included, keeps unique roots and valid links, and if its late links are safe no cycle |
| `InvoiceStore.Store.MarkDuplicates` | database/migrations/029_add_invoice_date_parts_and_duplicate.sql:10-27 | The migration's UPDATE marks every row but the chosen original of its key |
| `InvoiceStore.Store.FindDuplicateInvoice` | backend/internal/db/invoice_store.go:304-327 | Returns the earliest root of the tenant with vendor and document number other than the invoice itself, and none iff a part is empty or there is none |
| `InvoiceStore.Store.LinkAndUpdate` | backend/internal/queue/worker.go:283-336 | The job's lookup and update, undisturbed, are one job step of the run: parts that were read overwrite, parts that were not stay, a duplicate found is linked, all unless the key is taken |
| `InvoiceStore.Store.CreateInvoice` | backend/internal/db/invoice_store.go:106-135 | Inserts a root with the given key parts iff the other constraints accept it and no other root has its key |
| `InvoiceStore.Store.UpdateInvoice` | backend/internal/db/invoice_store.go:157-184 | A manual edit succeeds iff the row exists, the other constraints accept it and its new key is not taken; then the row has the given key parts, and nothing else changes |
| `InvoiceStore.Store.DeleteInvoiceRow` | backend/internal/db/invoice_store.go:396-405 | A row goes iff no other row links to it, and all others stay |
| `InvoiceStore.ConstraintsAre` | database/migrations/029_add_invoice_date_parts_and_duplicate.sql:31-35 | No two invoices of a tenant that are no duplicates share vendor and document number, if both are known |
| `InvoiceStore.AcceptedIff` | database/migrations/029_add_invoice_date_parts_and_duplicate.sql:31-35 | A write takes effect iff the other constraints accept it and its key belongs to no other row that is no duplicate |
| `Redelivery.Tables.Redeliver` | backend/internal/queue/worker.go:338-396 | After any number of runs cut off anywhere, and whichever statements of the final run fail: the items are exactly the accepted lines iff the DELETE took effect or there were none before; the new items are the accepted lines in order, each with its one HITL row iff it needs one and that insert took effect; a DELETE that took effect leaves nothing of earlier runs; all other invoices are as they were |
| `Redelivery.Tables.ProcessItems` | backend/internal/queue/worker.go:338-396 | The same from any valid tables, with other jobs and reviewer tasks going on between the statements, and old items that could not be deleted left as they were; a duplicate gets no new items |
| `Redelivery.Tables.SaveLine` | backend/internal/queue/worker.go:362-395 | One line is saved iff it has a description, a listed type and the table takes it; it has one pending HITL row iff it is pending or the OCR did not match and that insert took effect, with reason ocr_mismatch if the OCR did not match and classification_needed if it did |
| `Redelivery.ReasonsAre` | backend/internal/queue/worker.go:382-386 | The HITL rows of a run say ocr_mismatch if the OCR did not match and classification_needed if it did |
| `Redelivery.OneLineMore` | backend/internal/queue/worker.go:362-395 | Which lines are saved, and which of these get a HITL row |
| `Redelivery.ItemsAreIff` | backend/internal/queue/worker.go:338-339 | The items are exactly the accepted rows iff nothing of the invoice was left when the inserts began |
| `Redelivery.FailedDeleteRepeats` | backend/internal/queue/worker.go:338-339 | A run that saved a line and a run that could not delete it leave the line twice |
| `Redelivery.OverlappingJobsIff` | backend/internal/queue/worker.go:338-396 | Over any interleaving of any number of runs of one invoice, the items are exactly the accepted lines of the run that cleared last iff no other run adds an item after that DELETE |
| `Redelivery.OverlapRepeats` | backend/internal/queue/worker.go:338-396 | Two runs that both clear before either inserts leave a line twice |
| `Redelivery.ForeignKeepsProgress` | backend/internal/queue/worker.go:352-396 | Nothing that others do disturbs the run |
| `Redelivery.DeleteProgress` | backend/internal/db/invoice_store.go:391-394 | Clearing the items takes their HITL rows along and leaves valid tables |
| `Redelivery.AnythingLeavesValid` | database/migrations/009_create_hitl_queue.sql:4 | Any sequence of statements, so any cut-off run, leaves valid foreign keys |
| `Migrations.AlwaysAPrefix` | backend/internal/db/migrate.go:80-143 | Under any number of runners with stale or partial lists, interleaved and crashing anywhere, the recorded versions are a prefix of the files and the schema is what that prefix builds; a runner that returned nil makes it all files |
| `Migrations.SoloRunnerFinishes` | backend/internal/db/migrate.go:102-125 | A runner left alone goes on as far as a clean run gets and returns nil iff that is the last file |
| `Migrations.TransactionIff` | backend/internal/db/migrate.go:128-143 | A transaction takes effect iff the SQL works, the version is new and the commit gets through, and else changes nothing |
| `Migrations.StepKeepsPrefix` | backend/internal/db/migrate.go:103-119 | Every step of every runner keeps that, and the prefix never shrinks |
| `Migrations.CompleteIsFinal` | backend/internal/db/migrate.go:103-119 | Once all files are recorded no runner changes the database again |
| `Migrations.Database.RunMigrations` | backend/internal/db/migrate.go:88-127 | From whatever prefix is there an undisturbed run ends exactly where one clean run from the start ends, and returns nil iff that is the last file |
| `Migrations.Database.ApplyFile` | backend/internal/db/migrate.go:129-143 | One file is executed and recorded together, or nothing happens |
| `Migrations.ReachIsUnique` | backend/internal/db/migrate.go:103-119 | How far a clean run gets does not depend on the prefix it resumes from |
| `RateLimiter.SlidingBound` | backend/internal/api/ratelimit.go:42-56 | In any closed interval as long as the window fewer than two full limits of one key are admitted, with sweeps anywhere |
| `RateLimiter.SlidingBoundIsReached` | backend/internal/api/ratelimit.go:42-56 | For every limit and window there is a run that reaches that bound |
| `RateLimiter.OpenedWindowBound` | backend/internal/api/ratelimit.go:47-55 | From the request that opens a window to its last moment at most the limit is admitted |
| `RateLimiter.RefusedOnlyWhenFull` | backend/internal/api/ratelimit.go:42-56 | In every run, with sweeps anywhere, a request is refused only if as many requests of its key as the limit were admitted in the window length that ends with it |
| `RateLimiter.RefusalIsUnseen` | backend/internal/api/ratelimit.go:52-54 | A refused request changes the answer to no later request |
| `RateLimiter.RefusalsAreUnseen` | backend/internal/api/ratelimit.go:42-56 | Without the requests that are refused every other request of a run is admitted just the same |
| `RateLimiter.OtherKeysAreUnseen` | backend/internal/api/ratelimit.go:46-48 | Requests of other keys change no answer |
| `RateLimiter.TidyingIsUnseen` | backend/internal/api/ratelimit.go:26-38 | Wherever the sweeper runs, every request gets the answer it would get without a sweeper |
| `RateLimiter.BudgetIsEnough` | backend/internal/api/ratelimit.go:42-56 | From any map, what is admitted in the interval stays within what the open window leaves |
| `RateLimiter.Limiter.Allow` | backend/internal/api/ratelimit.go:42-56 | Refuses iff a window is open whose count has reached the limit, and then changes nothing; else counts in the open window or opens one |
| `RateLimiter.Limiter.Sweep` | backend/internal/api/ratelimit.go:27-37 | The loop deletes exactly the windows that are over and leaves the others as they are |
| `Classifier.LearnsIff` | backend/internal/classify/service.go:57-103 | When the answer is about a word of the description and the rules could be read, a rule is added iff the answer is confident and storable and the insert gets through; then the next call that reads the rules gives the same type by rule, with keyword and confidence as stored, otherwise it is left to the oracle again |
| `Classifier.LongKeywordIsNotLearned` | database/migrations/008_create_classification_rules.sql:4 | A confident answer with a keyword of 256 letters that occurs in the description adds no rule |
| `Classifier.RoundedIsNear` | database/migrations/008_create_classification_rules.sql:7 | The stored confidence is within half a unit of the fourth decimal of the reported one, and still enough to learn |
| `Classifier.LearningIsStable` | backend/internal/classify/service.go:57-103 | After such an answer, in any run that only adds rules and whichever of its queries and inserts fail, a call on the description reaches the oracle iff its rules query fails, and any other call decides it by rule |
| `Classifier.LearnedDespiteRace` | backend/internal/classify/service.go:91-100 | When calls overlap the description is decided for good if the insert gets through or fails because another call stored the keyword first |
| `Classifier.NoCollision` | database/migrations/008_create_classification_rules.sql:10 | A rule learned from a description no rule matched cannot collide with a stored keyword, cut to the column's length or not |
| `Classifier.LookUpFindsNewest` | backend/internal/db/rules_store.go:12-30 | The rule used is the newest of the tenant that occurs in the description, and none is used only when none occurs |
| `Classifier.WithRule` | backend/internal/classify/service.go:58-73 | The newest of the tenant's rules that occurs gives type, confidence and keyword |
| `Classifier.WithoutRules` | backend/internal/classify/service.go:75-103 | Without a rule, a word of the asset list makes an asset, else one of the expense list an expense, else the oracle's answer stands, and without one the verdict is pending |
| `Classifier.OccursIff` | backend/internal/classify/service.go:63 | A keyword occurs where the description reads the same, letter case aside |
| `Classifier.FirstOfIsFirst` | backend/internal/classify/service.go:129-145 | The keyword reported is the first of its list that occurs, and none is reported only when none occurs |
| `Classifier.DecidedForGood` | backend/internal/classify/service.go:58-73 | In any run that only adds rules a description some rule matches is decided as asset or expense by every call that can read the rules; one that cannot goes to the oracle iff no listed keyword occurs |
| `Classifier.Service.ClassifyWithDB` | backend/internal/classify/service.go:57-103 | Rules newest first unless they cannot be read, then the keyword lists in order, then the oracle, with the confidence and keyword each of them reports; the table changes only by learning, if the insert gets through |
| `Classifier.Service.AddRule` | backend/internal/db/rules_store.go:44-63 | A rule is added iff the statement gets through, the columns can hold it and its keyword, as stored, is new for the tenant |
| `InvoiceDates.PrintedIsRead` | backend/internal/queue/worker.go:94-104 | Printing YYYY-MM-DD and reading it gives the date back iff the year is below 2400 |
| `InvoiceDates.BothErasAgree` | backend/internal/queue/worker.go:82-126 | D/M/Y with any separators inside a longer text: the Christian year y and the Buddhist year y + 543 are read as the same date of year y iff 1857 <= y < 2400 |
| `InvoiceDates.BothErasAgreeInWords` | backend/internal/queue/worker.go:106-126 | The same with long and short Thai month names |
| `InvoiceDates.PrintedLooksLike` | backend/internal/ocr/vision.go:150 | Dates are printed as four digits, a dash, two digits, a dash, two digits |
| `InvoiceDates.DayFirstIsRead` | backend/internal/queue/worker.go:82-92 | D/M/Y wherever the first digit of a text begins it, whatever follows, is read as the date it says, years from 2400 on less 543 |
| `InvoiceDates.YearFirstIsRead` | backend/internal/queue/worker.go:94-104 | Y-M-D inside a text without other digits is read as the date it says |
| `InvoiceDates.YearFirstIsNotDayFirst` | backend/internal/queue/worker.go:82-84 | The day-first pattern, tried first, finds nothing in such a text |
| `InvoiceDates.WordDateIsRead` | backend/internal/queue/worker.go:106-126 | Day, word and year inside a text without other digits are read as the date they say iff the word names a month |
| `InvoiceDates.NoDigitsNoDate` | backend/internal/queue/worker.go:73-128 | Neither reader finds a date in a text without digits |
| `InvoiceDates.MonthNamesAreRead` | backend/internal/queue/worker.go:107-114 | All 24 month names stand for their month |
| `InvoiceDates.FirstHalfOfTheYear` | backend/internal/queue/worker.go:107-114 | The names of January to June |
| `InvoiceDates.SecondHalfOfTheYear` | backend/internal/queue/worker.go:107-114 | The names of July to December |
| `InvoiceDates.VisionDatesAreRead` | backend/internal/ocr/vision.go:141-163 | Whatever text the Vision pass reads, a date it emits is read by the worker as that date iff its year is below 2400 |
| `InvoiceDates.Year2400IsMoved` | backend/internal/ocr/vision.go:146-148 | Of any date of the year 2400 on a page the Vision pass emits a date the worker moves to 1857 |
| `InvoiceDates.VisionReadsNumeric` | backend/internal/ocr/vision.go:142-151 | D/M/Y wherever the first digit of a page begins it is emitted with its year converted iff the date is possible |
| `InvoiceDates.VisionReadsThai` | backend/internal/ocr/vision.go:152-163 | Day, full Thai month name and year on a page without other digits are emitted with the year converted |
| `Patterns.FoundIsThere` | backend/internal/queue/worker.go:83-84 | A match found stands in the text and fits the pattern piece by piece |
| `Patterns.FindIsLeftmost` | backend/internal/queue/worker.go:83-84 | A search yields the match of the first position that has one, and nothing iff none has |
| `Patterns.FindFailsIff` | backend/internal/queue/worker.go:83-84 | A search fails iff the pattern fits nowhere in the text |
| `Patterns.MatchIsGreediest` | backend/internal/queue/worker.go:83-84 | Wherever the pattern fits it matches, and each piece takes as much as any fit with the same pieces before it |
| `Patterns.MatchStep` | backend/internal/queue/worker.go:83-84 | Greedy matching takes piece after piece when no piece can take more |
| `TokenRefresh.OneRefreshAtATime` | frontend/admin/src/api/client.js:14-70 | In every run, logins and logouts included, at most one refresh call is under way, exactly while the flag says so, and nobody waits when there is none |
| `TokenRefresh.SettledByTheirRefresh` | frontend/admin/src/api/client.js:17-70 | Every request is open or settled, never settled twice; one that waited for a refresh or asked for it goes on with the new token, is rejected, or sees its session end as that refresh's answer says, and any other settled one is rejected |
| `TokenRefresh.AnswerReachesEveryone` | frontend/admin/src/api/client.js:17-64 | Case by case on the answer, what becomes of each waiting request and of the one that asked |
| `TokenRefresh.LogoutAndLogin` | frontend/admin/src/api/client.js:29-48 | After a logout a refused request is rejected at once; after a login the first one starts a refresh |
| `TokenRefresh.Client.ProcessQueue` | frontend/admin/src/api/client.js:17-23 | Settles all waiting requests in order and empties the queue |
| `TokenRefresh.Client.HandleUnauthorized` | frontend/admin/src/api/client.js:27-50 | Rejects at once iff the request was sent again before or no refresh token is stored; else queues it if a refresh is under way and asks for one if not |
| `TokenRefresh.Client.HandleReply` | frontend/admin/src/api/client.js:49-64 | try, catch and finally together: on success queue and leader go on with the token; on an error before the queue was served the queue is rejected, after it the queue goes on; on either the leader's session ends and the refresh token is removed |
| `TokenRefresh.ReplyKeepsInv` | frontend/admin/src/api/client.js:49-64 | An answer keeps the single-flight invariant |
| `VatChecks.MatchedTotalsBound` | backend/internal/ocr/crossverify.go:16-58 | Matched amounts with a correct VAT: the total is 107 percent of the net amount to within 0.52, Vision's to within 1.02 |
| `VatChecks.BoundsAreReached` | backend/internal/ocr/crossverify.go:5-7 | Neither bound can be lowered |
| `VatChecks.WhatBlocksAMatch` | backend/internal/ocr/crossverify.go:19-57 | Different tax ids always block a match; a Vision pass that found nothing never does; a Vision total below one percent is ignored |
| `VatChecks.MatchedIff` | backend/internal/ocr/crossverify.go:16-58 | Exactly when tax ids, totals and VAT count as matching, over all ids and amounts |
| `VatChecks.HintedAmountsPass` | backend/internal/ocr/gpt.go:157-176 | Amounts derived by the prompt's VAT-inclusive hint and rounded to two places pass the VAT check and the sum check |
| `VatChecks.WizardAgreesWithServer` | frontend/admin/src/pages/VerificationWizard.jsx:77-141 | Over any choices, and whether or not the server can read the row: without a VAT conflict, or when the computed nonzero VAT was chosen last, the server finds the VAT correct and stores it |
| `VatChecks.ChosenVatIsStoredIff` | backend/internal/api/invoice_handler.go:179-192 | The VAT chosen last is stored iff it is not zero, or zero was stored already, or the server could not read what was stored |
| `VatChecks.ZeroChoiceIsLost` | backend/internal/api/invoice_handler.go:184-192 | A chosen VAT of zero is lost, and the stored VAT then counts as correct iff it is between -1 and 2 satang |
| `VatChecks.VatChoiceSetsTotal` | frontend/admin/src/pages/VerificationWizard.jsx:99-109 | When the last choice is a VAT choice, the total sent is the net amount plus that VAT |
| `VatChecks.TotalChoiceIsSent` | frontend/admin/src/pages/VerificationWizard.jsx:111-115 | When the last choice is a total, that total is sent with the VAT chosen before |
| `VatChecks.ComputedVatPasses` | backend/internal/api/invoice_handler.go:192 | The computed VAT is within the server's tolerance for every net amount |
| `VatChecks.VatCalcIsNearest` | frontend/admin/src/pages/VerificationWizard.jsx:77-98 | The computed VAT is the whole satang nearest to seven percent |
| `VatChecks.CanVerifyIff` | frontend/admin/src/pages/VerificationWizard.jsx:77-141 | The invoice can be verified iff all items are resolved and its VAT is the computed one or one has been chosen |
| `VatChecks.InvoiceRow.Verify` | backend/internal/api/invoice_handler.go:157-211 | A zero correction keeps the stored amount if the row could be read and stores zero if not; the VAT flag is that of the amounts stored; the invoice is verified iff both updates get through |
| `VatChecks.FailedReadIsHarmlessIff` | backend/internal/api/invoice_handler.go:179-191 | After a read that failed the right amounts are stored iff every amount was corrected or zero anyway |
| `VatChecks.Wizard.PressVat` | frontend/admin/src/pages/VerificationWizard.jsx:99-109 | A VAT choice sets VAT and total together |
| `VatChecks.Wizard.PressTotal` | frontend/admin/src/pages/VerificationWizard.jsx:111-115 | A total choice sets the total |
| `Archive.ArchiveIsSafe` | backend/internal/archive/scheduler.go:62-89 | In every run of one scheduler, or of several whose passes list nothing another pass still has to log, no invoice ever has two active logs, with stops between any two statements, failing statements, restores and status changes |
| `Archive.OneActiveLogIff` | backend/internal/archive/scheduler.go:62-80 | Over every run of any number of schedulers, no invoice ever has two active logs iff every log row that is written finds no active log of its invoice |
| `Archive.ArchivedHasLog` | backend/internal/archive/scheduler.go:69-87 | In every run of any number of schedulers an archived invoice has a log |
| `Archive.Scheduler.ArchiveTenant` | backend/internal/archive/scheduler.go:62-89 | One undisturbed pass is a run of the step system: each eligible invoice whose log row gets through has an active log, those whose mark gets through and is taken by the check are archived and counted, and nothing else changes |
| `Archive.Scheduler.ArchiveOne` | backend/internal/archive/scheduler.go:69-87 | Log, then mark; a log row that fails leaves the invoice as it was |
| `Archive.Scheduler.FindInvoicesToArchive` | backend/internal/db/archive_store.go:110-139 | Lists each eligible invoice once |
| `Archive.StoppedInvoiceIsNotFound` | backend/internal/db/archive_store.go:118-121 | An invoice logged before a stop, and on no other pass's hands, is not selected and not marked in any later run of any schedulers in which its log is not restored |
| `Archive.RestoredIsFoundIff` | backend/internal/db/archive_store.go:38-45 | Once its log is restored an invoice is selected iff it is old enough and its status allows it |
| `Archive.SomeRunMarksIff` | backend/internal/db/archive_store.go:141-146 | Some run marks an invoice archived iff the table's check takes that value |
| `Archive.NothingIsMarked` | database/migrations/006_create_invoices.sql:12 | Under the status values the migrations list no run ever marks an invoice |
| `Archive.TwoSchedulersLogTwice` | backend/internal/archive/scheduler.go:62-76 | Six events of two schedulers from the initial state leave an invoice with two active logs |
| `Archive.StepKeepsInv` | backend/internal/archive/scheduler.go:69-87 | Every step, a listing if it keeps apart from the other passes, keeps the archive invariant and writes only fresh logs |
| `Archive.StatusMoves` | backend/internal/db/archive_store.go:141-146 | Which step sets the status of an existing invoice to what, and which removes the invoice |
| `Archive.PassBeginsIff` | backend/internal/archive/scheduler.go:62-66 | A scheduler with no pass under way begins one with exactly the eligible invoices |
| `Archive.PassGoesOn` | backend/internal/archive/scheduler.go:30-40 | A scheduler with a pass under way begins no other |

## Left out

- Fairness while the pool changes or task rows are deleted: the results are about stretches of a run without either.
- Liveness of assignments: an item without an active reviewer is skipped and never tried again, so no eventual assignment is claimed.
- RejectHitlItem: the status it writes is outside the table's check; the payout endpoints are placeholders.
- CreateReviewerTask (without expiry): nothing calls it.
- LINE messages, HTTP handlers, JSON, authentication, audit middleware, object storage and queue internals: plumbing without state of their own here.
- IEEE rounding: ratios and tolerances are exact; overflow of NUMERIC columns counts as a failing statement.
- Invalid UTF-8: names and descriptions are rune sequences.
- BuyerCheck.ValidateBuyer: upper-casing is modelled only as far as a comparison with the head-office synonyms can tell.
- A classifier without a rules table, tenant or oracle key: it answers from the keyword lists or with pending.
- Classifier: lower-casing is any function on runes; UpdateRule and DeleteRule are left out of the runs because they can unlearn a rule; a rules query that breaks off in the middle of its rows is not modelled, one that fails is.
- Columns of invoices other than the key, the link and the creation time: their constraints are one unconstrained input of each statement, which covers the status values the table's check rejects.
- A concurrent delete of the invoice itself during its job in Redelivery; the HITL rows of runs of one invoice that overlap.
- StampMigrations: it records versions without executing them, so the schema no longer follows the records.
- The wizard's item rows (resolveItem) and subtotal warning: an item choice changes nothing but its own row.
- updateInvoice's VAT flag: the same comparison as in verifyInvoice with a variable rate.
- Late-invoice flag, vendor registry and accounting period: single assignments from the parsed date.
- The other fields of parseInvoiceFromText: only its date part is modelled; a regular expression is modelled as far as the date patterns need it.
- Network timing and retries of the resumed requests in TokenRefresh: a resumed request that fails again is a new request.
