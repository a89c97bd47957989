# Titan-AAS: a verified model of its core

Titan-AAS is a runtime for Asset Administration Shells. This project models the parts of it
whose correctness is not visible from any single function, and proves what they promise.

* **Submodel documents.** A submodel is a tree of collections, lists, entities and annotated
  relationships. `Documents.dfy` gives the trees and their positions, `IdShortPath.dfy` the path
  language, `Navigation.dfy` the readers, `ElementOperations.dfy` the five edits. On top of them:
  lens laws with frames (`LensLaws.dfy`), whole edit histories (`EditHistory.dfy`), the path and
  reference collectors (`PathCollection.dfy`), batched value patches (`ValuePatch.dfy`), the second
  path interpreter of the templates (`Templates.dfy`, `TemplatePaths.dfy`) and the projections
  (`Projection.dfy`, and what each of them keeps in `ProjectionLaws.dfy`).
* **Protocols over Redis.** The job queue (`JobQueue.dfy`; its ownership in `JobQueueSafety.dfy`, the
  place of each job in `JobQueueAccounting.dfy`, claims and order in `JobQueueClaims.dfy`, cancels
  that undo a claim in `JobQueueCancels.dfy`, and its methods run alone in `JobQueueMethods.dfy`),
  leader election (`LeaderElection.dfy`, what its calls achieve in `LeaderCalls.dfy`, and the once-only
  bodies of `leader_only` in `LeaderOnly.dfy`) and the stream bus (`StreamBus.dfy`, how often a message
  is handled in `StreamDeliveries.dfy`, what its calls achieve in `StreamCalls.dfy`, and what becomes
  of failing messages in `StreamFailures.dfy`) are state machines whose steps are single Redis
  commands, so that commands of different processes interleave freely and processes crash between
  any two of them.
* **The cache and its writers.** Identifier encoding (`Ids.dfy`), the key schema and its
  invalidation globs (`CacheKeys.dfy`), the cache as a mutable object (`RedisCache.dfy`), the two
  event writers against whole event histories (`EventWriters.dfy`) and the batching buffer with
  failing flushes (`BatchWriter.dfy`).
* **XML, cron, versions.** The XML printer and parser with the exact set of values that survive
  (`XmlTree.dfy`) and the tags they go by (`XmlTags.dfy`), cron parsing and the search for the next
  run (`Cron.dfy`) against the written expression and the calendar (`CronMeaning.dfy`), and package
  version chains (`PackageVersions.dfy`) and what is listed after each operation on them
  (`PackageListings.dfy`).

`Wrappers.dfy`, `Sequences.dfy` and `Text.dfy` hold the shared vocabulary. Code that works step by
step is a method or a class here, proved equal to a function of its inputs or of the old state; the
promises are then theorems about that function. `dafny verify dfyconfig.toml` checks everything.

## Where the code differs from its documentation

The model follows the code. These differences are proved, each with the condition under which the
promise does hold:

* `next_run` does not roll over to the next month: it raises exactly when no later minute of the
  month matches (`NextRunFailsExactly`), and the scheduler then submits the job again at every check
  until the month ends (`OverdueUntilMonthEnds`).
* The stream bus delivers at least once, not exactly once (`HandledTwice`). A message is handled no
  more often than it is delivered, so at most once unless it is claimed (`HandledAtMostDelivered`,
  `UnclaimedAtMostOnce`). A crash is not needed for more: it can be handled again exactly while it is
  unread or claimable, or a live consumer is handling it or still has it in its batch
  (`HandledAgainExactly`).
* A published message is not kept until it is handled: the stream keeps about 100000 messages, and one
  that is trimmed before it was read, or while it was pending, is lost without a dead letter
  (`NoSilentLoss`).
* `is_leader` is not exclusive although the lock is: a release deletes the lock before it clears the
  flag, and a lost reply leaves the flag set, so that two instances can say that they lead with no
  time passing (`LostReplyMakesTwoFlags`). It is exclusive exactly as long as nobody becomes leader
  between the release of another and the moment its flag is cleared (`FlagExclusiveExactly`). Apart
  from such unnoticed releases, and while an instance waits to acquire, there is never more than one
  leader exactly as long as no delay outlasts a leader's lease (`MutualExclusion`,
  `DelayIsSafeExactly`); after a longer one the late leader also extends the other's lock
  (`LateRenewalMakesTwoLeaders`). Nothing renews the lock of a `leader_only` body, which can be
  overlapped exactly from the end of its lease on (`OverlapExactly`).
* The template path parser drops the second of two consecutive indexes
  (`TemplateParseLossless`, `NestedItemMeansInnerList`), and exactly then the template setter and
  the editor disagree (`InterpretersAgree`). On arbitrary path texts the setter is safe, that is, it
  changes only what readers find under the same text, exactly when both parsers read the text alike
  or the template parser reads nothing addressable (`SameReadingExactly`).
* Replacing an element by one with another idShort can make it unreachable by its own path, and a
  second replace then misses it (`ReplaceThenNavigate`, `LastReplaceWins`, `RenamingReplaceIsLost`).
* Deleting what was just inserted restores the document exactly when every bracket of the parent
  path is closed: an index without `]` at its end is accepted, but nothing can follow it
  (`DeleteUndoesInsert`).
* A cached document is the one of the entity's last event that was a delete or carried bytes and
  etag; updates without them leave the old one readable (`DocumentReadIs`, `DocumentReadIsCurrent`).
* The two event writers are not interchangeable: they differ on elements created with a value and on
  submodel updates without bytes or etag (`AgreeExactly`). Such an update is also the only way to a
  stale element value, under the micro-batching writer (`StaleElementExactly`,
  `MicroKeepsStaleElement`).
* The order of persisted events is kept exactly when flushes end in turn (`OrderExactly`). The drain
  of `stop` does not take the lock: if it fails after an arriving event has started a flush of its
  own, the order is lost (`DrainFailureExactly`), and the database can end up reordered
  (`OverlappingDrainReorders`, `DatabaseReordered`).
* XML is not lossless: numbers, nulls, empty or padded strings, lists of scalars, objects under list
  tags, single-item lists under other tags and booleans outside the boolean tags change
  (`ReadExactly`).
* Creating or rolling back from a row that is not the newest makes the whole chain unlistable
  (`ExtendLinearExactly`, `BranchingBreaksList`).
* A cancel that reads the record before a claim and writes it back after makes the queue forget the
  claim (`AttemptsCountClaims`), and the job then exceeds `max_retries` in some run from every state in
  which it can still be retried (`OvertakenCancelExceeds`, `CancelForgetsClaim`).
* `priority` of a job never orders the queue; the pending list is first-in first-out
  (`FirstInFirstOut`).

## Model

| member | source | states |
|---|---|---|
| `Text.PyIntOfNat` | src/titan/core/projection.py:222-260 | an index printed in brackets reads back as itself |
| `IdShortPath.ParseIdShortPath` | src/titan/core/projection.py:222-260 | the scanning loop computes the recursive parser, including empty names, unclosed brackets and the ValueError of a bad index |
| `IdShortPath.ParsePrint` | src/titan/core/projection.py:222-260 | parsing a printed path gives back its parts, for every list of plain parts |
| `IdShortPath.PrintInjective` | src/titan/core/projection.py:460-515 | distinct part lists never print to the same path |
| `IdShortPath.ParseExtend` | src/titan/core/projection.py:222-260 | appending one printed component to a path text appends exactly that component to its parts |
| `IdShortPath.ParseUnclosed` | src/titan/core/projection.py:222-260 | appending a component to a path text with an open bracket makes it a ValueError |
| `Navigation.FindElementByIdShort` | src/titan/core/projection.py:263-279 | returns the first entry with the idShort in the list the reader picks, or nothing |
| `Navigation.GetElementAtIndex` | src/titan/core/projection.py:282-294 | returns the entry at the index when it is an object, or nothing |
| `Navigation.FirstNonEmpty` | src/titan/core/projection.py:263-294 | where children are lists or absent, the reader takes the first field that holds an entry: an empty list of submodelElements hides nothing in value, statements or annotations |
| `Navigation.NavigateIdShortPath` | src/titan/core/projection.py:192-219 | the loop over the parts computes navigation by positions, errors included |
| `Navigation.NavigateToContainer` | src/titan/core/element_operations.py:295-336 | the edit navigator computes the container position |
| `Navigation.NavigatorsAgree` | src/titan/core/element_operations.py:295-336 | on every document the edit navigator reaches a position if and only if the read navigator does without passing statements or annotations |
| `ElementOperations.LocateElement` | src/titan/core/element_operations.py:104-159 | the search shared by replace, patch and delete finds the located position or its error |
| `ElementOperations.ReplaceElement` | src/titan/core/element_operations.py:104-159 | the result is the document with the element exchanged at the located position, or the error |
| `ElementOperations.PatchElement` | src/titan/core/element_operations.py:162-217 | the fields are merged into the located element only |
| `ElementOperations.UpdateElementValue` | src/titan/core/element_operations.py:220-238 | the value field of the located element is set |
| `ElementOperations.DeleteElement` | src/titan/core/element_operations.py:241-292 | the located entry is removed from its list |
| `ElementOperations.InsertElement` | src/titan/core/element_operations.py:42-101 | appends to the root, a collection or a list, with the duplicate check where the source has it, and every error case |
| `LensLaws.NavFrame` | src/titan/core/projection.py:192-219 | a path that does not lead strictly below an update still leads to the same position |
| `LensLaws.LocateFrame` | src/titan/core/element_operations.py:104-159 | an edit path that does not lead strictly below an update is located where it was |
| `LensLaws.LocatedIsNavigated` | src/titan/core/element_operations.py:104-159 | where an edit works the reader arrives, if and only if the parent branch has no submodelElements of its own |
| `LensLaws.ReplaceThenNavigate` | src/titan/core/element_operations.py:104-159 | the reader sees the replacement if and only if it answers to the path |
| `LensLaws.ReplaceWithCurrent` | src/titan/core/element_operations.py:104-159 | replacing an element by itself is the identity |
| `LensLaws.LastReplaceWins` | src/titan/core/element_operations.py:104-159 | of two replaces of one path the later one wins, if and only if the first replacement still answers to the path |
| `LensLaws.ReplaceLeavesDisjointPaths` | src/titan/core/element_operations.py:104-159 | every path that resolves to a disjoint position reads what it read before |
| `LensLaws.ReplaceSeenFromAbove` | src/titan/core/element_operations.py:104-159 | a path to an ancestor reads the old ancestor with the replacement inside it |
| `LensLaws.RenamingReplaceIsLost` | src/titan/core/element_operations.py:104-159 | a replacement with another idShort is not found by its path |
| `EditHistory.InsertUnique` | src/titan/core/element_operations.py:42-101 | inserting an element that is unique inside keeps sibling idShorts unique |
| `EditHistory.DeleteUnique` | src/titan/core/element_operations.py:241-292 | deleting keeps sibling idShorts unique |
| `EditHistory.RunKeepsUnique` | src/titan/core/element_operations.py:42-292 | over every sequence of inserts, deletes, leaf value updates and identity-keeping replaces, sibling idShorts stay unique |
| `EditHistory.DeleteUndoesInsert` | src/titan/core/element_operations.py:42-292 | deleting the path of an element just inserted into a collection or list (at a path of at least one component) restores the document, up to a child list the insert created, if and only if every bracket of the parent path is closed; otherwise it is the ValueError of a bad index |
| `EditHistory.DeleteUndoesAppend` | src/titan/core/element_operations.py:42-292 | for parent paths that are closed: whatever was appended, the delete undoes it |
| `EditHistory.DeleteUndoesRootInsert` | src/titan/core/element_operations.py:42-101 | the same for elements inserted at the root |
| `EditHistory.DeletedIsGone` | src/titan/core/element_operations.py:241-292 | after a delete by name the reader finds nothing under the path, if and only if no other entry it would read answers to that name |
| `PathCollection.CollectIdShortPaths` | src/titan/core/projection.py:437-445 | the collector lists the paths of all entries in document order |
| `PathCollection.CollectPaths` | src/titan/core/projection.py:460-490 | appends the path of the element and of everything below it |
| `PathCollection.CollectChildPaths` | src/titan/core/projection.py:493-515 | appends the paths of the children, indexes in lists and names elsewhere |
| `PathCollection.CollectElementReferences` | src/titan/core/projection.py:448-457 | the reference collector lists the same entries |
| `PathCollection.CollectReferences` | src/titan/core/projection.py:518-553 | appends the reference of the element and of everything below it |
| `PathCollection.CollectChildReferences` | src/titan/core/projection.py:556-583 | appends the references of the children |
| `PathCollection.CollectedPathsLeadBack` | src/titan/core/projection.py:437-515 | in a well-formed submodel every listed path parses and navigates back to exactly the element it was listed for |
| `PathCollection.CollectedPathsDistinct` | src/titan/core/projection.py:437-515 | no path is listed twice |
| `PathCollection.EveryElementIsListed` | src/titan/core/projection.py:437-515 | every element below the submodel is listed, with a path that leads to its position |
| `PathCollection.ReferencesLeadBack` | src/titan/core/projection.py:448-583 | every listed reference names the submodel, and its path navigates to an element of the type it names, SubmodelElement standing for elements without one |
| `PathCollection.NamelessPassedOver` | src/titan/core/projection.py:437-515 | an element is passed over exactly when it has no non-empty text as idShort, except in a SubmodelElementList |
| `ValuePatch.ApplySubmodelValuePatch` | src/titan/api/submodel_update_utils.py:51-67 | the loop applies the updates in dictionary order and stops at the first error |
| `ValuePatch.PatchIsSimultaneous` | src/titan/api/submodel_update_utils.py:51-67 | with paths to pairwise disjoint positions, every order gives the simultaneous update |
| `ValuePatch.PatchOrderFree` | src/titan/api/submodel_update_utils.py:51-67 | any two orders give the same document |
| `ValuePatch.PatchChangesOnlyValues` | src/titan/api/submodel_update_utils.py:51-67 | each addressed element gets exactly its new value, and every disjoint position is unchanged |
| `Templates.ParsePath` | src/titan/core/templates.py:189-231 | the loop over the split pieces computes the recursive template parser |
| `Templates.TemplateParsePrint` | src/titan/core/templates.py:189-231 | on printed paths it yields the name and index pairs of the parts |
| `Templates.TemplateParseLossless` | src/titan/core/templates.py:189-231 | nothing is lost if and only if no index follows an index |
| `Templates.NestedItemMeansInnerList` | src/titan/core/templates.py:189-231 | an item of a list in a list is parsed as the inner list itself |
| `Templates.BadIndexEmptiesPath` | src/titan/core/templates.py:189-231 | a last bracket that int() cannot read, the empty one included, makes the whole path empty, whatever comes before it |
| `Templates.SetValueAtPath` | src/titan/core/templates.py:122-187 | the in-place walk sets the value at the template position or changes nothing |
| `TemplatePaths.SetterFindsWhatReaderFinds` | src/titan/core/templates.py:122-231 | for every path text and document, where the setter finds an element the reader finds the same one under the setter's reading of the path, if and only if no element on the way has submodelElements of its own |
| `TemplatePaths.SameReadingExactly` | src/titan/core/templates.py:122-231 | on all documents the setter changes only what the reader finds under the same text, unless nested submodelElements hide it, if and only if both parsers read the text alike or the template parser reads nothing addressable |
| `Templates.InterpretersAgree` | src/titan/core/templates.py:122-227 | on printed paths through collections and lists the setter and update_element_value give the same document for every value, if and only if no index follows an index |
| `Templates.ListedPathsAgree` | src/titan/core/templates.py:122-227 | the same for every path the collector lists |
| `Projection.ApplyProjection` | src/titan/core/projection.py:84-117 | the result is that of its stages in any order, and projecting again changes nothing |
| `Projection.TwoStages` | src/titan/core/projection.py:119-190 | two stages in a row are one pass that keeps what both keep |
| `Projection.StageIdempotent` | src/titan/core/projection.py:119-190 | each stage is idempotent on every document |
| `Projection.StagesCommute` | src/titan/core/projection.py:119-190 | any two stages commute on every document |
| `Projection.PipelineOrderFree` | src/titan/core/projection.py:84-117 | any permutation of the stages gives the same result |
| `Projection.PipelineIdempotent` | src/titan/core/projection.py:84-117 | any pipeline of stages is idempotent |
| `Projection.ProjectThenNavigate` | src/titan/core/projection.py:192-219 | metadata projection and blob stripping commute with navigation along collections and lists |
| `ProjectionLaws.ValueKeepsValues` | src/titan/core/projection.py:137-156 | after $value every element without child lists, at every position through collections and lists, has its value fields as they were and no other field |
| `ProjectionLaws.MetadataKeepsMetadata` | src/titan/core/projection.py:119-134 | after $metadata every such element has its metadata fields as they were and no other field |
| `ProjectionLaws.LeafSplits` | src/titan/core/projection.py:47-80 | $metadata and $value of an element over the two field lists share the model type only and together give back every field |
| `ProjectionLaws.ListsKeepLength` | src/titan/core/projection.py:119-190 | every collection and list keeps its number of entries under every stage but core |
| `ProjectionLaws.OnlyBlobValuesGo` | src/titan/core/projection.py:170-190 | stripping takes the value of every Blob at every position and leaves every other field of every element as it was |
| `ProjectionLaws.CoreIsFlat` | src/titan/core/projection.py:159-167 | nothing can be navigated to below a core projection, and every other field is as it was |
| `JobQueueSafety.StepSafe` | src/titan/jobs/queue.py:173-419 | every Redis command of every process keeps the ownership invariant |
| `JobQueueSafety.AtMostOnce` | src/titan/jobs/queue.py:173-419 | in every reachable state an id occurs at most once over pending, dead letters and holders, and a processed id has a holder |
| `JobQueueAccounting.StepAccounted` | src/titan/jobs/queue.py:173-419 | every step of every process keeps the status of a job in agreement with its place and its owner, unless it starts a cancel of that job or is the expiry of its record |
| `JobQueueAccounting.AtRest` | src/titan/jobs/queue.py:306-382 | in every run that neither cancels nor expires the job, once nobody owns it, it is in exactly the place its status says, whatever fails or crashes elsewhere |
| `JobQueueClaims.CountedExactly` | src/titan/jobs/queue.py:233-419 | a step of any kind leaves attempts equal to the number of claims, if and only if it is not a cancel that writes back a record read before a claim |
| `JobQueueClaims.StaleExactly` | src/titan/jobs/queue.py:233-419 | the copy a cancel is about to write is out of step with the claims if and only if a claim was stored between that cancel's GET and its SET |
| `JobQueueClaims.AttemptsCountClaims` | src/titan/jobs/queue.py:233-419 | over every run, cancels, errors, expiry and crashes included, attempts always equals the number of claims if and only if no cancel writes its copy after a claim that was stored since it read it |
| `JobQueueClaims.ClaimsBounded` | src/titan/jobs/queue.py:233-382 | and then a job is never claimed more than max(1, max_retries) times |
| `JobQueueCancels.OvertakenCancelExceeds` | src/titan/jobs/queue.py:233-419 | from every safe state with a cancel that was overtaken by a claim while attempts were left, and with the job waiting, past the point where the cancel withdraws it, or in the hands of a live worker that can claim or retry it, some run claims it more than max(1, max_retries) times |
| `JobQueueCancels.CancelForgetsClaim` | src/titan/jobs/queue.py:384-419 | such a state is reached from the start for every retry limit and any two processes, so the bound can always be exceeded |
| `JobQueueClaims.FirstInFirstOut` | src/titan/jobs/queue.py:201-419 | in every run the ids popped and then those waiting are the pushed ones in their order, retries included, with nothing left out if and only if no cancel withdrew a waiting id |
| `JobQueueMethods.RedisQueue.Submit` | src/titan/jobs/queue.py:173-214 | an uninterrupted submit stores the record and queues the id, as its step program does |
| `JobQueueMethods.RedisQueue.ClaimJob` | src/titan/jobs/queue.py:233-293 | one uninterrupted claim pops the oldest id and marks its record running, or drops an id whose record is gone |
| `JobQueueMethods.RedisQueue.CompleteJob` | src/titan/jobs/queue.py:295-329 | an uninterrupted completion marks the record and leaves the processing list |
| `JobQueueMethods.RedisQueue.FailJob` | src/titan/jobs/queue.py:331-382 | an uninterrupted failure queues the job again while attempts remain, and moves it to the dead letters otherwise |
| `JobQueueMethods.RedisQueue.CancelJob` | src/titan/jobs/queue.py:384-419 | an uninterrupted cancel succeeds exactly for pending and running jobs and removes them from both lists |
| `JobQueueMethods.FinishIsRun` | src/titan/jobs/queue.py:173-419 | a call that runs alone is one of the interleavings and keeps the ownership invariant |
| `JobQueueMethods.ProcessJobAlone` | src/titan/jobs/worker.py:191-220 | a job without a handler ends in the dead letters whatever its attempts, one whose handler raises is queued again exactly while attempts remain, and one whose handler returns ends completed |
| `JobQueueMethods.StoringFailsAlone` | src/titan/jobs/worker.py:208-220 | an error while the result is stored counts as a failed attempt, even when the job was already marked as completed |
| `JobQueueMethods.ExpiredJobAlone` | src/titan/jobs/queue.py:233-293 | a job whose record expires while it waits is dropped from both lists when its turn comes, and nothing runs |
| `LeaderElection.StepSafe` | src/titan/distributed/leader.py:134-261 | every command, local assignment, lost reply, interruption, crash and timely delay keeps each leader that has not given up its lock in possession of it |
| `LeaderElection.MutualExclusion` | src/titan/distributed/leader.py:134-261 | in any timely run two instances whose is_leader is set are the same one, or one of them has deleted its lock and its is_leader does not know yet |
| `LeaderElection.FlagExclusiveExactly` | src/titan/distributed/leader.py:134-261 | throughout a timely run at most one is_leader is set, if and only if nobody becomes leader between the release of another instance and the moment its is_leader is cleared |
| `LeaderElection.LostReplyMakesTwoFlags` | src/titan/distributed/leader.py:219-239 | otherwise: from every safe state with a leader and a waiting instance, a release whose reply is lost lets both say that they lead, at once and for as long as the other's lease |
| `LeaderElection.DelayIsSafeExactly` | src/titan/distributed/leader.py:134-261 | while an instance is ready to acquire, a delay is shorter than every leader's lease if and only if no run without longer delays leads to two leaders neither of which has given up its lock |
| `LeaderElection.CrashedLockExpires` | src/titan/distributed/leader.py:180-239 | the lock of a crashed leader is gone within its lease |
| `LeaderElection.LateRenewalMakesTwoLeaders` | src/titan/distributed/leader.py:198-217 | whenever a lease runs out between GET and EXPIRE, any waiting instance can become a second leader and have its lock extended by the first |
| `LeaderCalls.RenewalsKeepLeading` | src/titan/distributed/leader.py:155-217 | a leader that renews within every lease still owns the lock after any number of rounds, with a full lease from the last renewal |
| `LeaderCalls.RenewedLockExpires` | src/titan/distributed/leader.py:198-217 | after those rounds the lock is alive exactly until one lease after the last renewal |
| `LeaderCalls.LeaderLeaseIsFresh` | src/titan/distributed/leader.py:134-261 | in every timely run, whatever the others do, the lock of a leader expires one lease after its last successful SET or EXPIRE |
| `LeaderCalls.AcquireAlone` | src/titan/distributed/leader.py:180-196 | a waiting instance that finds the lock free leads and holds it for one lease; one that finds it taken changes nothing |
| `LeaderCalls.ReleaseAlone` | src/titan/distributed/leader.py:219-239 | a release by the owner frees the lock and clears the flag; by anyone else it changes nothing |
| `LeaderCalls.FailureAlone` | src/titan/distributed/leader.py:155-178 | after a failure or a crash the lock stays until its lease is over, and is free exactly from then on |
| `LeaderOnly.BodiesNeverOverlap` | src/titan/distributed/leader.py:293-389 | in every run two running bodies that are both within their leases are the same one, however late bodies begin and locks are released |
| `LeaderOnly.OverlapExactly` | src/titan/distributed/leader.py:293-389 | after a delay another call can begin its body beside a running one, if and only if the delay reached the end of its lease |
| `LeaderOnly.CallAlone` | src/titan/distributed/leader.py:293-389 | a call that finds the lock free runs its body under one lease and frees the lock; one that finds it taken ends without a body |
| `LeaderOnly.CrashAlone` | src/titan/distributed/leader.py:341-358 | the lock of a call that crashes inside is free exactly from the end of its lease |
| `StreamBus.StepSafe` | src/titan/events/redis_bus.py:173-302 | every command of every consumer keeps each message in exactly one place with a reason for its acknowledgement |
| `StreamBus.NoSilentLoss` | src/titan/events/redis_bus.py:123-302 | in every run each message is in exactly one of undelivered, pending, acknowledged, and lost by trimming; acknowledged means handled completely in one delivery, dead-lettered after enough deliveries, or trimmed, and nothing is trimmed before 100000 newer messages were published |
| `StreamBus.HandledTwice` | src/titan/events/redis_bus.py:246-275 | one instance: after a crash between the last handler and the acknowledgement a message is handled twice |
| `StreamDeliveries.HandledAtMostDelivered` | src/titan/events/redis_bus.py:173-302 | in every run a message is handled no more often than it was delivered: once if it was read before it was trimmed, and once for every successful claim |
| `StreamDeliveries.UnclaimedAtMostOnce` | src/titan/events/redis_bus.py:205-275 | a message that is never claimed is handled at most once |
| `StreamDeliveries.HandledAgainExactly` | src/titan/events/redis_bus.py:173-302 | from every reachable state a message can be handled again if and only if it is unread and not trimmed, pending and not trimmed and claimable or listed for a claim, or a live consumer is handling it or has it in its batch |
| `StreamCalls.DeadLetterAlone` | src/titan/events/redis_bus.py:226-302 | a message whose deliveries are used up ends acknowledged and not pending, is in the dead letters exactly if the stream still held it, and the scan goes on behind it |
| `StreamCalls.ClaimAlone` | src/titan/events/redis_bus.py:205-244 | a claim hands an idle message over with one more delivery, forgets a trimmed one, and passes over any other |
| `StreamCalls.ProcessAlone` | src/titan/events/redis_bus.py:246-275 | a message whose handlers succeed is handled once and acknowledged; one without data is acknowledged unhandled |
| `StreamCalls.ReadAlone` | src/titan/events/redis_bus.py:173-203 | a batch whose handlers succeed leaves the pending entries as they were, with every message of it acknowledged and every one with data handled once |
| `StreamFailures.FailingMessageDies` | src/titan/events/redis_bus.py:205-302 | a message whose processing always fails is delivered until it has had exactly three deliveries and then ends as a dead letter, never handled |
| `StreamFailures.FailureGoesOn` | src/titan/events/redis_bus.py:246-275 | a failed message stays pending as it was, and the consumer goes on with the next one of its batch or scan |
| `Ids.Utf8RoundTrip` | src/titan/core/ids.py:13-31 | UTF-8 decoding undoes encoding for every text |
| `Ids.Utf8Strict` | src/titan/core/ids.py:20-31 | only the encoding of a text decodes to it |
| `Ids.Base64RoundTrip` | src/titan/core/ids.py:13-31 | unpadded base64url decodes back to every byte sequence |
| `Ids.DecodeEncode` | src/titan/core/ids.py:13-31 | every non-empty identifier decodes back to itself, and the empty one is refused |
| `Ids.EncodeInjective` | src/titan/core/ids.py:13-17 | distinct identifiers have distinct encodings |
| `Ids.EncodeDecode` | src/titan/core/ids.py:20-31 | a text that decodes is the encoding of its identifier if and only if it is canonical |
| `CacheKeys.KeysDistinct` | src/titan/cache/keys.py:25-87 | distinct entries of the key schema never share a key |
| `CacheKeys.ElementKeysDistinct` | src/titan/cache/keys.py:71-87 | distinct pairs of submodel and path have distinct element keys |
| `CacheKeys.ParseRendered` | src/titan/cache/keys.py:89-103 | parse_key recovers entity type, identifier and variant of every key of the schema |
| `CacheKeys.ParsedExactly` | src/titan/cache/keys.py:89-103 | a text of colon-separated fields is parsed exactly if it has at least four and starts with the prefix titan; further fields are ignored |
| `CacheKeys.KeyTexts` | src/titan/cache/keys.py:25-87 | the keys of shells, submodels and concept descriptions as they are written |
| `CacheKeys.PatternIsExact` | src/titan/cache/redis.py:218-232 | the glob of a submodel matches all keys of its elements and no other key of the schema |
| `Cache.RedisCache.GetPair` | src/titan/cache/redis.py:64-83 | returns bytes and decoded etag when both are there, and nothing otherwise |
| `Cache.RedisCache.SetPair` | src/titan/cache/redis.py:85-97 | both keys are written and no other |
| `Cache.RedisCache.GetAas` | src/titan/cache/redis.py:103-112 | reads the pair of one shell |
| `Cache.RedisCache.GetSubmodel` | src/titan/cache/redis.py:133-138 | reads the pair of one submodel |
| `Cache.RedisCache.SetAas` | src/titan/cache/redis.py:114-121 | the pair of one shell is written |
| `Cache.RedisCache.DeleteAas` | src/titan/cache/redis.py:123-127 | both keys of one shell are removed |
| `Cache.RedisCache.SetSubmodel` | src/titan/cache/redis.py:140-147 | the pair of one submodel is written |
| `Cache.RedisCache.DeleteSubmodel` | src/titan/cache/redis.py:149-153 | both keys of one submodel are removed |
| `Cache.RedisCache.GetElementValue` | src/titan/cache/redis.py:187-193 | the cached value of one element, if any |
| `Cache.RedisCache.SetElementValue` | src/titan/cache/redis.py:195-207 | the value of one element is written |
| `Cache.RedisCache.DeleteElementValue` | src/titan/cache/redis.py:209-212 | the value of one element is removed |
| `Cache.RedisCache.InvalidateSubmodelElements` | src/titan/cache/redis.py:218-232 | exactly the keys the glob matches are removed, and their number is returned |
| `Cache.ReadBackPair` | src/titan/cache/redis.py:64-121 | a pair reads back as it was set, and every other entry is unchanged |
| `Cache.InvalidationIsExact` | src/titan/cache/redis.py:218-232 | invalidation removes the element values of one submodel and nothing else of the schema |
| `EventWriters.SingleWriter.HandleEvent` | src/titan/events/worker.py:79-104 | the cache afterwards is the fold step of the event, and known events are broadcast |
| `EventWriters.SingleWriter.HandleAasEvent` | src/titan/events/worker.py:106-131 | shells are cached, replaced or dropped |
| `EventWriters.SingleWriter.HandleSubmodelEvent` | src/titan/events/worker.py:133-158 | submodels are cached, replaced or dropped, and updates and deletes drop their element values |
| `EventWriters.SingleWriter.HandleElementEvent` | src/titan/events/worker.py:160-176 | element values are stored on update and dropped on delete |
| `EventWriters.UpdateCache` | src/titan/events/batch_writer.py:189-226 | the cache update of the micro-batching writer is its fold step |
| `EventWriters.ApplyAt` | src/titan/events/worker.py:79-176 | what one event does to the store is what it does to each key of the schema |
| `EventWriters.EmptyIsMissing` | src/titan/events/worker.py:106-176 | events with empty bytes, an empty etag or an empty value do what they do without them |
| `EventWriters.DocumentReadIs` | src/titan/events/worker.py:79-158 | after any history with expiry a read returns nothing or the bytes and etag of the entity's last event that was a delete or had both, and exactly that when nothing expired |
| `EventWriters.DocumentReadIsCurrent` | src/titan/events/worker.py:79-158 | an unexpired read is what the last event calls for, if and only if that event was a delete or had bytes and etag, or nothing was cached anyway |
| `EventWriters.CompleteReadIsCurrent` | src/titan/events/worker.py:79-158 | when every event had bytes and etag a read is current or finds nothing |
| `EventWriters.IncompleteUpdateIsStale` | src/titan/events/worker.py:118-126 | one instance: an update without bytes leaves the old document in the cache |
| `EventWriters.ElementReadIsFresh` | src/titan/events/worker.py:133-176 | every cached element value was written after the last update or delete of its submodel |
| `EventWriters.StaleElementExactly` | src/titan/events/batch_writer.py:200-226 | a cached element value is stale if and only if a submodel update without bytes or etag followed its write and nothing later dropped or rewrote it |
| `EventWriters.MicroKeepsStaleElement` | src/titan/events/batch_writer.py:200-213 | one instance: the micro-batching writer keeps a value the single writer drops |
| `EventWriters.AgreeExactly` | src/titan/events/batch_writer.py:189-226 | the two writers agree on an event in every cache if and only if it is neither an element created with a value nor an incomplete submodel update |
| `EventWriters.WritersAgree` | src/titan/events/batch_writer.py:189-226 | both writers leave identical caches after every history of events they treat alike |
| `BatchWriter.BatchMetrics.RecordFlush` | src/titan/events/batch_writer.py:68-86 | totals grow by the batch, and the averages are those of the last hundred flushes |
| `BatchWriter.AveragesBalance` | src/titan/events/batch_writer.py:81-82 | an average is the one value from which the members of the window deviate by nothing in all |
| `BatchWriter.WindowIsLastHundred` | src/titan/events/batch_writer.py:74-79 | the windows hold the last hundred flushes, or all while there are fewer |
| `BatchWriter.MicroBatchWriter.HandleEvent` | src/titan/events/batch_writer.py:165-176 | the event is counted, applied to the cache, broadcast and waits for the lock |
| `BatchWriter.MicroBatchWriter.AppendEvent` | src/titan/events/batch_writer.py:177-183 | the event is appended, and a full buffer starts a flush |
| `BatchWriter.MicroBatchWriter.BeginFlush` | src/titan/events/batch_writer.py:246-258 | a non-empty buffer is taken and emptied |
| `BatchWriter.MicroBatchWriter.PeriodicFlush` | src/titan/events/batch_writer.py:228-239 | the timer starts a flush of a non-empty buffer under the lock |
| `BatchWriter.MicroBatchWriter.DrainBuffer` | src/titan/events/batch_writer.py:145-160 | shutdown stops the timer and starts a flush without the lock |
| `BatchWriter.MicroBatchWriter.CommitFlush` | src/titan/events/batch_writer.py:259-273 | the batch reaches the database and is recorded |
| `BatchWriter.MicroBatchWriter.FailFlush` | src/titan/events/batch_writer.py:275-284 | the batch goes back to the front of the buffer in its order, and the errors are counted |
| `BatchWriter.MicroBatchWriter.Requeue` | src/titan/events/batch_writer.py:280-282 | pushing the events to the left end in reverse puts them in order before the buffer |
| `BatchWriter.StepSafe` | src/titan/events/batch_writer.py:165-284 | every step conserves the events and counts the committed ones |
| `BatchWriter.RunSafe` | src/titan/events/batch_writer.py:165-284 | over every run committed, in-flight and buffered events together are the appended ones, and the batch sizes sum to the committed events |
| `BatchWriter.OrderExactly` | src/titan/events/batch_writer.py:246-284 | a commit keeps the order if and only if the flush is the oldest, a failure if and only if it is the newest |
| `BatchWriter.RunOrdered` | src/titan/events/batch_writer.py:246-284 | as long as flushes end in turn, committed, in-flight and buffered events are the appended ones in order |
| `BatchWriter.LockedRunInTurn` | src/titan/events/batch_writer.py:177-239 | before shutdown the lock alone keeps every flush in turn, whatever fails |
| `BatchWriter.FailedDrainKeepsOrder` | src/titan/events/batch_writer.py:145-160 | whatever arrives during a failing drain without starting a flush stays behind the requeued events, in order |
| `BatchWriter.DrainFailureExactly` | src/titan/events/batch_writer.py:145-160 | whatever arrives, the order survives the failure of a drain if and only if no flush has begun since |
| `BatchWriter.OverlappingDrainReorders` | src/titan/events/batch_writer.py:145-160 | from every state with a drain and a later flush in flight, a commit of the later one, a failure of the drain and one more arrival persist the drained events after the later ones |
| `BatchWriter.DatabaseReordered` | src/titan/events/batch_writer.py:145-284 | from the start there is a run that persists the second of three events before the first |
| `XmlTree.ValueToElement` | src/titan/compat/xml_serializer.py:115-194 | the recursive printer appends exactly the printed elements to its parent |
| `XmlTree.ElementToDict` | src/titan/compat/xml_serializer.py:323-351 | the loop over the children builds the dictionary in which a later child with the same tag wins |
| `XmlTree.ParseElementValue` | src/titan/compat/xml_serializer.py:364-404 | dictionaries get their missing model type, texts are trimmed and booleans recognised |
| `XmlTree.FieldsInto` | src/titan/compat/xml_serializer.py:323-351 | a printed object reads back what each of its fields reads back, in order |
| `XmlTree.NotMistakenForList` | src/titan/compat/xml_serializer.py:406-425 | an object with distinct surviving fields is never taken for a list |
| `XmlTree.LooksLikeList` | src/titan/compat/xml_serializer.py:406-425 | a printed object list is recognised if and only if its key is in the list table or it prints more than one child |
| `XmlTree.AddedModelType` | src/titan/compat/xml_serializer.py:375-385 | the added model type never makes up for something lost |
| `XmlTree.ReadExactly` | src/titan/compat/xml_serializer.py:115-425 | a printed value reads back as itself if and only if it survives |
| `XmlTree.DocumentRoundTrip` | src/titan/compat/xml_serializer.py:94-113 | a whole document comes back as it was if and only if all its fields survive |
| `XmlTags.ModelTypeFromTag` | src/titan/compat/xml_serializer.py:142-404 | an element printed for an item of an element list parses, with its modelType child taken out, to an object of that model type |
| `XmlTags.ElementItemTag` | src/titan/compat/xml_serializer.py:142-158 | items with a model type are printed under its name with the first letter lowered, for every kind of submodel element |
| `XmlTags.AllElementTags` | src/titan/compat/xml_serializer.py:226 | exactly these tags count as submodel elements |
| `XmlTags.SpecialItemTags` | src/titan/compat/xml_serializer.py:142-171 | lang strings, references and all other items have their tags, in this order of precedence |
| `XmlTags.SingularItemTags` | src/titan/compat/xml_serializer.py:167-212 | the items of every list key of the format have its singular as tag: keys gives key, submodels gives submodel |
| `XmlTags.SingularOfPlural` | src/titan/compat/xml_serializer.py:196-212 | adding and removing the plural s is undone exactly for words that do not end in s, ie or se |
| `XmlTags.LeavesReadAs` | src/titan/compat/xml_serializer.py:353-404 | null is dropped, an empty text becomes null, a number its digits, and a boolean outside the boolean tags a text |
| `XmlTags.ScalarListReadsLast` | src/titan/compat/xml_serializer.py:172-176 | of a list of scalars only the last one is read back |
| `XmlTags.OneItemReadsAsList` | src/titan/compat/xml_serializer.py:294-321 | a list of one object reads back as a list under exactly these keys, and as an object under others |
| `XmlTags.QuotedStandsFor` | src/titan/compat/xml_serializer.py:214-220 | a text inside a nested value is written as a literal that stands for it and does not end early |
| `Cron.ParseField` | src/titan/jobs/scheduler.py:76-92 | fails exactly when some part is invalid, and otherwise holds exactly the values its parts denote |
| `Cron.Parse` | src/titan/jobs/scheduler.py:64-74 | needs five words, fails exactly when one of them is invalid, and fills each field with what its word denotes |
| `Cron.FieldMeans` | src/titan/jobs/scheduler.py:46-58 | a field printed from the documented forms stands for exactly the values they cover |
| `Cron.WordsOfJoined` | src/titan/jobs/scheduler.py:64-68 | words joined by blanks are split back |
| `Cron.ConvertWeekday` | src/titan/jobs/scheduler.py:104-114 | the loop converts every weekday from Sunday-based to Monday-based |
| `Cron.WeekdayMatches` | src/titan/jobs/scheduler.py:94-114 | a date matches if and only if its weekday counted from Sunday is listed, or it is a Sunday and 7 is |
| `Cron.AdvanceMinute` | src/titan/jobs/scheduler.py:126-135 | one turn of the search moves one minute on and fails at the end of the month |
| `Cron.NextRun` | src/titan/jobs/scheduler.py:116-140 | the loop computes the first match of the rest of the month, and its iteration bound is never reached |
| `Cron.NextRunIsLeast` | src/titan/jobs/scheduler.py:116-140 | the result matches, is strictly later, lies in the same month, and no minute in between matches |
| `Cron.NextRunFailsExactly` | src/titan/jobs/scheduler.py:116-140 | the search raises if and only if no later minute of the month matches |
| `Cron.ScheduledJob.Check` | src/titan/jobs/scheduler.py:273-303 | a due job is submitted and rescheduled, and stays due when the search raises |
| `Cron.DueAgainExactly` | src/titan/jobs/scheduler.py:273-303 | after a submission the job is due again in that month if and only if the search raised or a matching minute has passed |
| `Cron.OverdueUntilMonthEnds` | src/titan/jobs/scheduler.py:273-303 | after the last match of a month every further check of the month submits the job again |
| `CronMeaning.NextRunOf` | src/titan/jobs/scheduler.py:64-140 | for five printed fields the search returns the least later minute of the month that every field covers, with weekdays counted from Sunday and 7 also meaning Sunday, and fails exactly if there is none |
| `CronMeaning.WeekdaysFollow` | src/titan/jobs/scheduler.py:94-114 | 6 January 2025 is a Monday, and every next day has the next weekday |
| `CronMeaning.NegativeStep` | src/titan/jobs/scheduler.py:76-92 | a negative step stands for no value at all, where zero is refused |
| `CronMeaning.DueIsLater` | src/titan/jobs/scheduler.py:273-303 | a job is due exactly when the moment of the check is not before that of its next run |
| `PackageVersions.PackageManager.FindRoot` | src/titan/packages/manager.py:707-725 | the backward walk ends at the root of the chain |
| `PackageVersions.PackageManager.ListVersions` | src/titan/packages/manager.py:689-755 | the two walks compute the list of the chain, or fail on a branch |
| `PackageVersions.PackageManager.FindVersion` | src/titan/packages/manager.py:818-844 | the forward walk stops at the first row with the version |
| `PackageVersions.PackageManager.CreateVersion` | src/titan/packages/manager.py:619-687 | adds one row with the next version linked to the given row, or fails when it is missing |
| `PackageVersions.PackageManager.RollbackToVersion` | src/titan/packages/manager.py:757-882 | adds one row with the content of the target version, or fails without change |
| `PackageVersions.ListFailsExactly` | src/titan/packages/manager.py:727-755 | listing fails if and only if some row of the chain has two successors |
| `PackageVersions.ListIsWholeChain` | src/titan/packages/manager.py:689-755 | the list holds exactly the rows of the chain, from its root |
| `PackageVersions.VersionsAreConsecutive` | src/titan/packages/manager.py:727-755 | listed versions are consecutive and each names its predecessor's number |
| `PackageVersions.ExtendAppends` | src/titan/packages/manager.py:619-687 | a version made from the newest row is listed last from every row of its chain, other chains and earlier rows are unchanged |
| `PackageVersions.ExtendLinearExactly` | src/titan/packages/manager.py:619-687 | chains stay unbranched if and only if the version is made from a newest row |
| `PackageVersions.RollbackCopies` | src/titan/packages/manager.py:779-882 | rollback succeeds if and only if the version is listed, copies that row's content and leaves every earlier row unchanged |
| `PackageVersions.DeleteKeeps` | src/titan/persistence/tables.py:406-410 | deleting a row leaves the remaining rows linked and unbranched |
| `PackageVersions.StepKeeps` | src/titan/packages/manager.py:619-882 | uploads, versions, rollbacks and deletes keep all rows linked, and unbranched when made from newest rows |
| `PackageVersions.RunListable` | src/titan/packages/manager.py:689-755 | over every run that works on newest rows every package can list its versions |
| `PackageVersions.BranchingBreaksList` | src/titan/packages/manager.py:619-755 | two versions made from one row make its chain unlistable |
| `PackageListings.CreatedIsListed` | src/titan/packages/manager.py:619-755 | a version made from the newest row is listed last with the next number and what its creator supplied; its counts are those of that row |
| `PackageListings.RollbackIsListed` | src/titan/packages/manager.py:757-882 | a rollback is listed last, by nobody, with the hash that the version it names is listed with |
| `PackageListings.NumberInComment` | src/titan/packages/manager.py:757-882 | the comment of a rollback names the version |
| `PackageListings.UploadIsListed` | src/titan/packages/manager.py:689-755 | a first version is all that is listed for it |
| `PackageListings.DeleteSplits` | src/titan/persistence/tables.py:406-410 | deleting a version splits its chain: earlier ones are listed without it, later ones on their own with their numbers, the first of them without a parent |

## Left out

- Documents that are not trees of JSON objects as the API stores them: a child field that is not a list or an entry that is not an object makes an edit an `IllFormed` error here, where the source raises an AttributeError or TypeError; the readers skip such entries as the source does.
- Aliasing: the editors deep-copy first and then change nested lists in place; the model updates by position on values, which also means that an inserted element is never shared with the caller.
- ElementOperations.InsertElement: the idShort of the inserted element is compared as a JSON value, as in the source, but reordering of dictionary keys is not modelled (documents are maps, except in `XmlTree.dfy`).
- `int()` accepts further Unicode digits and spaces and limits the length of its text; the model reads ASCII digits, underscores, a sign and the common white space.
- `extract_value`, `extract_reference*` and the metadata patch of a submodel: easy members beside what is proved.
- JobQueue: payloads, results, error texts, time stamps and `priority`; a claim is one turn of the claiming loop. The protocol is a state machine on values with one step per Redis command, because the methods only go wrong when they interleave; `JobQueueMethods.dfy` gives the methods themselves.
- JobQueueAccounting.StepAccounted: speaks of a job until it is cancelled or its record expires; a cancel that overlaps other calls can leave a cancelled job queued, and an expired record leaves no status.
- JobQueueSafety.AtMostOnce: a job record that expires under its TTL is remembered as expired, and only ids that never expired are promised an owner.
- LeaderElection: modelled on values as a state machine, not as a class; callbacks, waiting futures and sleep intervals; the clock is shared and exact. The body of a `leader_only` call is one stretch of time; what it does is not modelled.
- LeaderElection.MutualExclusion: assumes that no delay outlasts a leader's lease; `DelayIsSafeExactly` shows that nothing weaker will do while an instance waits to acquire. One instance makes one call at a time: stop, start and `__aenter__` of the same object at once are not modelled.
- StreamBus: modelled on values as a state machine, not as a class; XCLAIM removes a trimmed entry from the pending entries, as Redis 7 does; message contents, and the trimming of the dead-letter stream.
- Real Redis, SQL, asyncio and threads; a pipeline of two SETEX commands is one atomic step, as is an SQL transaction.
- Cache entries: the lengths of the TTLs; expiry is an event that may happen at any time. Writes to the cache by the API layer itself, concept descriptions and the connection pool are not modelled.
- CacheKeys.GlobMatch: character classes in globs, which the key schema never produces.
- Cache.RedisCache.InvalidateSubmodelElements: SCAN may report a key twice, and then the source counts it twice; here every key is scanned once.
- BatchWriter.MicroBatchWriter: an exception of the cache or of the broadcast before an event is buffered, cancellation of the periodic task in the middle of a flush (its events are then lost), and a commit whose reply is lost.
- XmlTree.ValueToElement: requires object items with a non-empty text as `modelType` where the printer reads one, because the source raises otherwise. Letter case outside ASCII, control characters in the Python text of a nested value, namespaces, indentation and XML text itself are left out, except that an empty text reads back as no text.
- Cron: time zones, and the scheduler's dictionary of jobs; one job is modelled with its checks.
- PackageVersions: the content bytes and their SHA-256, tags, update time stamps and blob storage; identifiers of new rows are fresh. Import, export and diff of packages.
- `packages/differ.py`, `federation/sync.py`, GraphQL, MQTT, HTTP routing, dashboards, tracing and logging.
