# Flair: the write protocols, modelled and proved

Flair is a memory store for agents on the Harper database. Harper has no compare-and-set, so most of
Flair's write paths run the same hand-built protocol: take a per-key lock, open an owned transaction,
re-read, decide, stage, re-read the committed row, commit, read back, and compensate or answer "unknown".
This project models those protocols, the merge rules they carry, and the packing of a bootstrap, and proves
what they keep over every run.

`dafny verify dfyconfig.toml` checks the whole project.

## How the store is modelled

`Store.dfy` states the ordering rules the code relies on (`resources/Agent.ts:298-313`,
`resources/Memory.ts:1077-1087`, `resources/Federation.ts:911-920`). A row is the fold, in the order of
their times, of full puts, field updates and deletes. A transaction's writes carry one time, taken at its
first read, so a write can be committed beneath one that is already stored, and a commit can resolve while
its write is dropped. `CommitOrderIrrelevant`, `DroppedByLaterFullWrite` and `UpdatesFoldAround` are those
rules as theorems about the fold.

The protocols use it in three forms, chosen by what the code does:

- several actors on shared rows (Agent PUT, pairing, key registration, retry entries, overlapping sweeps): a
  state machine whose events are the requests' steps and the other writers' writes, with theorems over every
  event sequence. The rows of all but the sweeps are time-ordered logs; `OneShot.dfy` is the machine that key
  registration and retry entries share: the row's log, the audit rows and events stored beside it, and other
  writers who commit at any time of their own;
- one imperative handler against arbitrary other writers (delete, supersede, the auto-promotion sweep,
  Integration writes): a class whose fields are the committed store, with an `Interfere` method called
  wherever another writer may commit; each change of the store is one step method that keeps `Valid()`, so a
  request stopped after any step leaves `Valid()`. Supersede's and Integration's rows are time-ordered logs,
  where a commit of this request can be dropped; delete and the sweep keep the stored rows themselves;
- one imperative handler against a store whose every answer is an input (re-embedding, write-back, sync,
  paging) or with no store at all (bootstrap).

Safety alone would let an operation refuse everything, so each also says when it must succeed. The handlers over
inputs state their answers as exact functions of them; the classes take what the store does around one attempt or
one candidate as an input (a removal it drops, a throw that landed or not, a read that fails) and record whether
another writer interfered; the state machines have a theorem on a call that nothing disturbs, from any reachable
state.

## Assumptions, theorem by theorem

- The final confirmation and the commit are one step for a first pair, an owner or granted close, an
  Integration write and a one-shot transition: the code discloses that a change committed between the two is
  not seen. A POST of an Integration row commits through the request's own context, after the confirmation in
  the owned transaction, so there the assumption is the stronger one. For an Agent PUT, a re-pair and a
  re-embed it is not assumed: time order, or the read-back, settles the case.
- Pairing and Agent PUT: operators' and outside writers' writes take their time at their commit
  (`AgentPut.RotationShowsExactlyWhenLater` says what happens otherwise). One node: the token lock excludes.
  Token rows are written only under that lock. A random id (a pairing attempt's marker, a Memory id, an
  incarnation token, a history id) is never used twice.
- Delete: other writers do not remove pointers or history records.
- Supersede: other writers leave an open predecessor open and do not delete the successor while the request
  runs; the write owns its transaction.
- Auto-promotion: in `Sweeper` sweeps of one agent follow one another, and other writers change a candidate
  only in its status. Recordings that do not persist, failed Memory writes that landed and rows others changed
  are not excluded: they are recorded in `lost` and `edited`, and the theorem names them. `SweepOverlap` has
  any number of sweeps of one candidate interleave, with no other writers.
- Pairing, key registration and retry entries: a commit that throws has written nothing. (Write-back, re-embedding,
  sync and the sweep have such a throw as an input, landed or not; in a delete it is a throw after the commit.)
- Key registration and retry entries: no write outside the lock between a confirmation and its commit; an
  outside writer stores a call's own update time only over a row that already shows it; two registrations
  never stage one time. A registration's 200 allows any raw write of the audit table; the one-to-one
  correspondence of the three tables is for runs without raw writes of them.
- Signatures, content safety, embeddings, hashes, entitlement and the authentication verdict are inputs.

## Findings

Each is a property the code or its comments suggest and the code does not have in full, with an input that
fails and, where one decides it, the exact condition under which it holds.

- `write-back.ts` answers a conflict for an attempt that committed no write, and the sync's caller reads it as
  "aborted before commit" (`resources/Federation.ts:1319`). `WriteBack.ConflictAfterACommit` is a run whose
  answer is a conflict after an earlier attempt's commit. A conflict or skip means that nothing was committed,
  whatever the store answers, exactly when the call may make one attempt only or its plan is idempotent over
  no row it would accept as the selected one (`RefusalsAreCleanExactly`). Sync makes one attempt.
- An owner's close compares rows, not times, so a close can be reported and not stored
  (`Supersede.CloseDroppedBySameRow`). It is in effect exactly when no later-timed put, delete or update of
  `validTo` was committed before it; otherwise the predecessor stays open (`CloseInEffectExactly`).
- A registration's confirmation compares rows too: a pending row changed and put back hides the registration
  that then commits (`KeyRegister.RestoredRowHidesRegistration`), exactly when a later-timed write decides the
  key (`CommitHiddenExactly`). Such a registration is not answered 200, and another may commit: the surplus of
  transitions over armings is the hidden commits less those others undid and less one where the row is still
  armed (`TransitionsCommitted`).
- A confirmed DELETE says nothing about the pointer: the confirmation reads the row alone
  (`MemoryDelete.ConfirmedDeleteLeavesPointer` is a run where the pointer remains). A removal lands exactly when
  nothing timed after it was committed before it, or nothing was stored (`RemovedExactly`); so, whatever the
  pointer's history, a confirmed delete leaves none exactly when none was stored at its commit
  (`PointerGoneExactly`). Its history record exists only for a row whose durability asks for one.
- Overlapping auto-promotion sweeps can write two rows for one candidate (`SweepOverlap.TwoSweepsTwoRows`):
  exactly when two visits enumerated before any recording persisted both wrote (`TwoRowsExactly`), which a
  state still allows exactly when its rows and open visits together are more than one (`OverlapIsExact`).
- A truncated soul entry overspends the soul's 40% and can overspend the whole budget
  (`Bootstrap.SoulCanOverspend`: 108 tokens of 70). The task section's turn comes with less than its reserve
  exactly when the soul's charge is above the budget; the reserve is then zero and nothing is searched
  (`TaskHasItsReserveExactly`). Keys short enough for the other 60% exclude it (`ShortKeysCannotOverspend`).
- Last-writer-wins merging depends on delivery order. The orders of two records agree exactly when every field
  the older one sets and the newer one omits is already stored with that value (`Merge.TwoOrdersAgreeExactly`);
  the orders of a whole batch, exactly when that holds of every applicable record and each newest one, and the
  newest ones, where several share their time, leave the same row (`EveryOrderAgreesExactly`). A newer record without a visibility is such a run
  (`OrderCountsWithoutVisibility`).
- The sync's final Peer put writes the whole row it read. A concurrent revoke stands exactly when its time is
  the later of the two, whichever commits first (`Pairing.RevokeStandsExactlyWhenLater`); whether Harper gives
  that read and put one time, the code does not say.

## Model

| member | source | states |
|---|---|---|
| Store.CommitMeaning | resources/Agent.ts:298-313 | a committed write takes its place by its time: the later-timed writes apply on top of it, it on top of the earlier-timed ones |
| Store.DroppedByLaterFullWrite | resources/Memory.ts:1077-1087 | a commit changes nothing when a full put or delete with a later time is already stored |
| Store.UpdatesFoldAround | resources/Federation.ts:911-920 | field updates timed after a full put leave every field they do not name as the put wrote it |
| Store.InsertCommutes | resources/Agent.ts:298-313 | two commits with different times leave the same history in either order |
| Store.CommitOrderIrrelevant | resources/Agent.ts:298-313 | the stored row depends on the writes and their times, not on the order of any number of commits |
| AgentPut.InvAlways | resources/Agent.ts:285-354 | in every run every staged and committed PUT carries, as of its own time, exactly the existence and immutable fields the other writers left |
| AgentPut.PutNeverCreatesDeletesOrReverts | resources/Agent.ts:285-354 | however many PUTs interleave with deletes, rotations and other writes, the row exists exactly when those writes alone leave it, with exactly the key, createdAt, home and sync fields they leave |
| AgentPut.DeletedStaysDeleted | resources/Agent.ts:303-310 | an agent deleted while PUTs are in flight stays deleted until another writer re-creates it |
| AgentPut.RotatedKeyStands | resources/Agent.ts:303-310 | a key rotated at any point of any PUTs stands until another writer changes it or deletes the row |
| AgentPut.CommittedPutShows | resources/Agent.ts:313-354 | a committed PUT's fields are in the stored row wherever no later-timed write names them |
| AgentPut.UncontestedPutIsExact | resources/Agent.ts:313-354 | an uncontested PUT stores its body over the re-read row: body fields, the stored immutable fields, the new update time and nothing else |
| AgentPut.UndisturbedPutWritesExactly | resources/Agent.ts:285-354 | after any run, a PUT that nothing disturbs is written exactly when the row exists: createdAt, key, home and sync fields stay as stored, updatedAt is new, and every other field is the body's; otherwise it requires an existing agent and changes nothing |
| AgentPut.RotationShowsExactlyWhenLater | resources/Agent.ts:311-313 | a rotation that took its time early and commits after the PUT shows exactly when its time is the later one |
| Pairing.CommitKeepsPin | resources/Federation.ts:652-777 | committing a pairing, whatever was committed since its read, keeps an existing row's pinned key and revoked state; the history stays one in which, in time order, every write was allowed |
| Pairing.GroundedUnderCommit | resources/Federation.ts:673-690 | a pairing's commit, even beneath other attempts' reads, leaves every other staged attempt's basis valid |
| Pairing.InvAlways | resources/Federation.ts:614-843 | over every run: logs clean, staged attempts grounded, the lock exclusive, a staged token unconsumed, every put and consume accounted for |
| Pairing.RevokeStandsAndKeyStays | resources/Federation.ts:616-777 | in every interleaving of first pairs, re-pairs and operators' writes, until the row is deleted its pinned key never changes and it is revoked exactly when it was or an operator revoked it |
| Pairing.TokenConsumedOnce | resources/Federation.ts:1119-1173 | over every run each token is consumed at most once |
| Pairing.SpentTokenStaysSpent | resources/Federation.ts:1140-1145 | a token consumed before the run is never consumed again and its row never changes |
| Pairing.ConsumeExactlyWithPut | resources/Federation.ts:652-735 | for a request that supplied a token, its consume with a marker exists exactly when its Peer put with that marker was committed |
| Pairing.RefusedLeavesNothing | resources/Federation.ts:702-726 | a refused request committed no Peer row and no consume |
| Pairing.OnePairedPerToken | resources/Federation.ts:1077-1112 | of all requests supplying one token at most one is answered paired, and an unconfirmed one excludes any other |
| Pairing.PairedMeans | resources/Federation.ts:928-949 | when a request is answered paired the stored row is pinned to the key it proved, is not revoked and carries every field the request staged, its marker among them, and the token row is consumed for this instance by this request at this attempt and by no other |
| Pairing.UndisturbedPairsExactly | resources/Federation.ts:614-949 | after any run, a request that nothing disturbs is answered paired exactly when it is a new peer with a usable unused token, or a stored peer that is not revoked, proves its pinned key and supplies no token but such a one; it then leaves the paired row, field by field, and its token consumed; otherwise it is refused and leaves nothing |
| Pairing.RePairKeeps | resources/Federation.ts:644-649 | a re-pair keeps every field of the re-read row but endpoint (when given), status, update time and marker |
| Pairing.RevokeStandsExactlyWhenLater | resources/Federation.ts:1714-1731 | a revoke and the sync's final put of the Peer row it read, in either commit order: the key stays, and the row is revoked exactly when the revoke's time is the later |
| Pairing.DeleteStandsExactlyWhenLater | resources/Federation.ts:1714-1731 | a delete and that put, in either commit order: the row is gone exactly when the delete's time is the later |
| Merge.LatestIsMaximum | resources/Federation.ts:200-219 | the time a delivery converges to is one of the given times and none is later |
| Merge.MergeLeavesMaximumTime | resources/Federation.ts:200-219 | folding any records over a stored row leaves the maximum updatedAt |
| Merge.RedeliveryChangesNothing | resources/Federation.ts:200-219 | applying a record again, at once or after any others, changes nothing |
| Merge.VisibilityNeverCleared | resources/Federation.ts:200-219 | a stored non-null visibility stays non-null through any records |
| Merge.NewestWins | resources/Federation.ts:200-219 | with equal field sets a delivery leaves the stored row or the newest record's row |
| Merge.DeliveryOrderIrrelevant | resources/Federation.ts:200-219 | with equal field sets and distinct times every permutation of a delivery leaves the same row |
| Merge.TwoOrdersAgreeExactly | resources/Federation.ts:200-219 | any two records newer than the row: their two delivery orders leave the same row exactly when every field the older sets and the newer omits, updatedAt aside, is already stored with that value |
| Merge.EveryOrderAgreesExactly | resources/Federation.ts:200-219 | every permutation of any batch leaves the same row exactly when nothing an older applicable record sets is lost to a newest one, and the newest ones, where several share their time, leave the same row |
| Merge.OrderCountsWithoutVisibility | resources/Federation.ts:200-219 | two deliverable records, the newer without a visibility: the two orders agree exactly when the row already had the older one's visibility |
| Merge.ConsumedAbsorbs | resources/Federation.ts:1595-1631 | a consumed message stays consumed with no failure reason after each of any deliveries, and its consumption time never changes |
| Merge.StateAfterDelivery | resources/relay-lib.ts:242-253 | a delivery makes a message consumed exactly when it was or the winning record says so; a failed one yields only to consumed; any other change is the winning record's |
| Merge.PlanStoresMerged | resources/Federation.ts:1601-1631 | the planned write, incremental or full, leaves exactly the merged row |
| Merge.PlanSparesCompetitor | resources/Federation.ts:1601-1631 | an incremental plan keeps a competitor's write to any field the merge did not change, and names only fields it changed |
| WriteBack.WriteBackCommittedRow | resources/write-back.ts:313-411 | applied: an attempt planned the write over the selected row, saw it unchanged and read it back; applied or unconfirmed: something was committed; conflict or skip of a single attempt or of a plan that must not run twice: nothing was; and the number of commits is that of the attempts taken one after another |
| WriteBack.ResultsMean | resources/write-back.ts:313-411 | an applied answer had an attempt that planned the write over the selected row, saw it unchanged and read the write back; applied and unconfirmed answers committed |
| WriteBack.OneAttemptIsExact | resources/write-back.ts:96-114 | with one attempt a conflict or skip committed nothing and an applied or unconfirmed call committed once |
| WriteBack.ShownExactly | resources/write-back.ts:420-497 | a staged row is shown by that row alone; a staged update of a stored row exactly by a row with every field it staged and the identity of the row it updated, so a write that landed is shown and another row is not |
| WriteBack.RefusalsAreCleanExactly | resources/write-back.ts:96-114 | over all answers of the store, a conflict or skip committed nothing exactly when the call may make one attempt, or its plan is idempotent over no row it would accept |
| WriteBack.RefusedAfterACommit | resources/write-back.ts:172-185 | any other call has a run that is refused after one commit |
| WriteBack.ConflictAfterACommit | resources/write-back.ts:313-411 | a concrete run answers conflict after its first attempt committed |
| Sync.MergeOne | resources/Federation.ts:1357-1694 | what becomes of a record, for everything its run can meet: exactly when it is refused and for which reason (an id mismatch, a failed check or gate, a busy lock, the refusal planned inside the transaction, a row changed since it was read), exactly when something is committed, and exactly when it is merged, which is when its commit resolves and the merged row (last writer wins with the receiver's bookkeeping, state-guarded for a message) is read back; everything else is indeterminate |
| Sync.ReadsBackExactly | resources/write-back.ts:420-497 | the write-back's comparison holds exactly when the row read back is the merged row, or for a Memory merged into a stored row the same row with every field the merge changed |
| Sync.CheckKeys | resources/Federation.ts:1218-1248 | a batch goes on exactly when every key is well formed, matches its payload and is offered once |
| Sync.Post | resources/Federation.ts:1218-1248 | the report partitions the offered keys into merged, refused and indeterminate; its counts and total agree; its refusals are, in order, exactly the records refused in time, each with its run's own reason; the merged keys are exactly those whose run merges in time, and every key whose run commits is merged or indeterminate; a record past its deadline is indeterminate |
| Sync.Tally | resources/Federation.ts:1244-1248 | one outcome is counted once, in one of the three ways, with its reason |
| Sync.RefusedNotCommitted | resources/Federation.ts:1697-1712 | no refused entry of a truthful report was committed by the request |
| Sync.ReportGrows | resources/Federation.ts:1697-1712 | one more record keeps the report truthful |
| Reembed.ReembedStoredRow | resources/Memory.ts:1973-2170 | over any answers of the store and provider: at most three attempts, of which each but the last found a new text or committed an update not read back; the last one's answer is exact: a success exactly when its commit resolved and the read-back shows its own text, vector, hash and time on the row it read; a 404 for a missing row; and each refusal for its own cause, or once an earlier attempt has committed an unknown outcome that marks the id; a quiet first attempt succeeds |
| MemoryDelete.Rows.CompensateDroppedRemoval | resources/Memory.ts:505-549 | afterwards this call's history record is gone and a pointer is stored when one was captured: the captured one unless another was stored |
| MemoryDelete.Rows.Delete | resources/Memory.ts:4085-4165 | true: the authorized row is gone and one history record of this call remains when its durability asks for one; false only when its own read found no row and no removal of this call had landed; every refusal is of the row stored then, with no history record of this call and the pointer as it was; without other writers the answer is that of the first attempt whose removal is not dropped and undone |
| MemoryDelete.Rows.AttemptDelete | resources/Memory.ts:4085-4165 | one attempt: without other writers, over an authorized row, it answers true exactly when nothing throws, the pointer can be deleted and the row's removal is not dropped; a removal is undone only when it was dropped or another writer stored the row again |
| MemoryDelete.RemovedExactly | resources/Memory.ts:4136-4165 | a committed removal leaves no row exactly when none was stored or no write timed after it was committed before it |
| MemoryDelete.PointerGoneExactly | resources/Memory.ts:4136-4165 | over every history of the pointer, a confirmed delete leaves no pointer exactly when none was stored at its commit |
| MemoryDelete.ConfirmedDeleteLeavesPointer | resources/Memory.ts:4136-4165 | a run in which the row is gone and the pointer remains |
| Supersede.CloseKeepsDeclared | resources/Memory.ts:1092-1115 | a close keeps every declared field but validTo and updatedAt, drops undeclared ones, and an owner's close alone stores an empty vector as none |
| Supersede.ClosedRowCloses | resources/Memory.ts:1339-1345 | the closed row is valid until the successor's validFrom, or without one its createdAt, and was updated at its createdAt, or without one its updatedAt; its other declared fields are kept |
| Supersede.ClosedIsNotOpen | resources/Memory.ts:1339-1345 | a closed row is no longer open once its successor has a validFrom or a createdAt |
| Supersede.CommittedIsStored | resources/Memory.ts:3929-3948 | a committed successor nobody deleted since the request began is stored |
| Supersede.Versions.CloseSupersededRecord | resources/Memory.ts:1092-1130 | within three attempts; a reported close is the row as committed at its final re-read, still owned as authorized, with the close's two dates and its other declared fields kept; none is reported only when the predecessor is gone or no longer owned as authorized, or others wrote it in each of three attempts; undisturbed, it closes at once |
| Supersede.Versions.GrantedAttempt | resources/Memory.ts:1402-1461 | a granted close is committed over the row read, as its final re-read saw it committed, still owned as authorized, with the grant held and who can read unchanged, together with its successor; otherwise nothing is, and one of those failed |
| Supersede.Versions.WriteSuccessor | resources/Memory.ts:3870-3956 | a close is of the row its final re-read saw, still owned as authorized, with the successor's dates, and its entry is in the predecessor's log; a granted close commits with its successor or not at all and keeps who can read; a refusal wrote nothing, and a check or the grant's own conditions asked for it; a written owner's close is missing only when the predecessor cannot be closed or others wrote it three times; with no other writer what nothing refuses is written, its predecessor closed, and no longer open when the successor is dated |
| Supersede.Versions.CommitBoth | resources/Memory.ts:1402-1461 | a granted close and its successor are one commit |
| Supersede.CloseStoredFieldwise | resources/Memory.ts:1077-1130 | each field of a committed close: the close's value exactly when no later-timed write decides it, else as it was confirmed |
| Supersede.CloseInEffectExactly | resources/Memory.ts:1109-1125 | a close of an open predecessor is in effect exactly when no later-timed put, delete or update of validTo was committed before it; otherwise the predecessor is still open; with nothing timed later the close is the stored row |
| Supersede.CloseDroppedBySameRow | resources/Memory.ts:1077-1087 | a run: the same row put again after the close's read passes the confirmation and the close is dropped |
| AutoPromote.RecordedRowIsTakenUp | resources/AutoPromoteCandidates.ts:128-158 | a recorded row that keeps its fields is reused exactly when it has no verdict or this reviewer's on its own content, and adopted exactly in the latter case |
| AutoPromote.StaleEnumerationWritesAgain | resources/AutoPromoteCandidates.ts:319-352 | the reuse rule at one stale candidate: it finds nothing to reuse where the stored candidate's row is to be adopted (the runs are SweepOverlap's) |
| AutoPromote.Sweeper.AtMostOneRow | resources/AutoPromoteCandidates.ts:352-582 | after any sweeps one after another a candidate has at most one written row, if its recordings persisted, its failed writes did not land and its row was not changed |
| AutoPromote.Sweeper.WriteMemory | resources/AutoPromoteCandidates.ts:452-518 | a write lands one fresh row with the candidate's fields, or none, and never endangers the one-row invariant at any step |
| AutoPromote.Sweeper.Record | resources/AutoPromoteCandidates.ts:521-543 | once the recording persists the candidate names its one row |
| AutoPromote.Sweeper.Stamp | resources/promotion-stamp.ts:49-150 | a stamp reported landed leaves the row of this promotion, with the candidate's agent, claim and token, carrying this reviewer's approval bound to its content; it lands exactly when such a row is stored, unstamped or bound to its own content, and neither its refusal nor its confirmation fails; it writes that row's verdict or nothing |
| AutoPromote.Sweeper.CommitCandidatePromotion | resources/AutoPromoteCandidates.ts:186-226 | the candidate is marked, with a row stored carrying this reviewer's approval of its claim, when its update returned or landed, and nothing else is; an update that returned is promoted; after one that threw the fresh read decides: pending exactly when it is pending, promoted exactly when it is promoted on this row by this reviewer, unconfirmed otherwise |
| AutoPromote.Sweeper.Adopt | resources/AutoPromoteCandidates.ts:397-437 | an adoption writes no Memory row, is of a row stored with this reviewer's approval of the candidate's claim, and of an adoptable row is skipped only for a busy lock or another writer |
| AutoPromote.Sweeper.AdoptStored | resources/AutoPromoteCandidates.ts:397-437 | under the lock it adopts exactly when the recorded row as stored then is adoptable, and that very row |
| AutoPromote.Sweeper.Visit | resources/AutoPromoteCandidates.ts:352-582 | one candidate costs at most one Memory write, made only when its one-row promise allows; it is skipped only for a busy lock, a failed write or stamp, or another writer; otherwise its row was stored with this reviewer's approval of the candidate's claim and the result says what its update met |
| AutoPromote.Sweeper.Sweep | resources/AutoPromoteCandidates.ts:287-594 | a sweep goes on to its cap or over every pending candidate, writes at most one row for each it handles, counts every candidate it considered once and leaves the others alone; every id it reports is of a row stored with this reviewer's approval of the claim of one of the agent's candidates; promoted ids are of candidates marked on that row or read back promoted on it by this reviewer, incomplete ones of candidates read back pending; every mark is reported; undisturbed, every eligible candidate it considered is promoted |
| SweepOverlap.InvAlways | resources/AutoPromoteCandidates.ts:319-582 | over every interleaving of sweeps of one candidate: what is recorded can be taken up, and a visit was enumerated unrecorded exactly when no recording had persisted |
| SweepOverlap.WritesExactlyUnrecorded | resources/AutoPromoteCandidates.ts:319-352 | in a reachable state a visit finds nothing to reuse exactly when it was enumerated unrecorded |
| SweepOverlap.RowsAreBounded | resources/AutoPromoteCandidates.ts:352-582 | the rows a run adds are as many as the visits that wrote, each enumerated before the first recording persisted |
| SweepOverlap.TwoRowsExactly | resources/AutoPromoteCandidates.ts:319-352 | a run adds more than one row exactly when two such visits both wrote |
| SweepOverlap.OverlapIsExact | resources/AutoPromoteCandidates.ts:319-352 | after any run, some continuation without further enumeration has added more than one row exactly when added rows and open visits are more than one |
| SweepOverlap.TwoSweepsTwoRows | resources/AutoPromoteCandidates.ts:319-352 | two sweeps that both enumerate first: a run with two rows |
| SweepOverlap.UndisturbedVisitPromotes | resources/AutoPromoteCandidates.ts:352-582 | whatever sweeps did before, a visit to a pending candidate that nothing disturbs promotes it on one row carrying this reviewer's approval: the recorded one, or without one a single fresh row |
| Integration.DecisionIsResourceStep | resources/Integration.ts:113-145 | whatever any verb lands over any row keeps published rows well formed, sets, clears or removes a stamp only for an operator, and keeps the binding of a row that stays published |
| Integration.PostIsResourceStep | resources/Integration.ts:273-300 | so does a POST |
| Integration.PatchIsResourceStep | resources/Integration.ts:303-328 | so does a PATCH, where an omitted field keeps its stored value |
| Integration.PutIsResourceStep | resources/Integration.ts:331-364 | so does a PUT, where an omitted field is removed |
| Integration.OnlyNamedFieldsChange | resources/Integration.ts:303-364 | a patch changes only the fields it names and its times and stamp; a put leaves only the fields it names and those |
| Integration.NewStampExactly | resources/Integration.ts:65-145 | a new stamp is carried exactly for an operator who keeps a published binding and names an active agent, the mail platform and an email within 256 UTF-8 bytes; each of the eight refusals exactly for its own cause |
| Integration.LandsExactly | resources/Integration.ts:113-364 | each verb lands over the row it read exactly when its row is there or absent as it needs, no guard refuses, its stamp is acceptable and a bound agent owns the stored row |
| Integration.LandedTimesAndStamp | resources/Integration.ts:273-364 | a landed row is updated now, keeps the stored creation time or is created now, and its stamp is set, withdrawn or kept as the write and the verb say |
| Integration.Utf8BytesExactly | resources/Integration.ts:70-80 | a text's bytes are between one and four for each character, one for every ASCII text, and each further character adds what its code point takes |
| Integration.PublishedContactsAreFrozen | resources/Integration.ts:65-145 | over every run a published row has the supported platform, a non-empty email within 256 bytes and a non-empty agentId; without operator writes its stamp and binding never change |
| Integration.BindingHoldsUntilWithdrawn | resources/Integration.ts:108-119 | operators included, a binding changes only after the row was withdrawn or removed |
| Integration.Contact.RunIntegrationWrite | resources/Integration.ts:188-225 | at most three attempts, each but the last spent on a row it would have written and that really changed between its read and its confirmation; it commits exactly once, what it decided over the very row stored at that commit, or denies for the reason decided over a row it read and commits nothing; the commit is the stored row exactly when no write timed later was committed before it, and otherwise changes nothing |
| Bootstrap.TruncationOverspends | resources/MemoryBootstrap.ts:642-654 | a truncated soul entry costs more than what was left, by at most its key and ellipsis |
| Bootstrap.AdmitSoul | resources/MemoryBootstrap.ts:617-665 | at most the last admitted entry is truncated; the soul charge is within 40% or that plus the truncated entry's key and ellipsis; each distinct value is admitted once, whole at its cost or cut when it is no workspace file |
| Bootstrap.SoulIsWithinAllowance | resources/MemoryBootstrap.ts:642-665 | over any entries the soul's charge is within its allowance and at most the last admitted is cut |
| Bootstrap.SoulValuesAreDistinct | resources/MemoryBootstrap.ts:630-642 | each distinct value is admitted once, from the entries, whole at its cost or cut when allowed |
| Bootstrap.SoulCanOverspend | resources/MemoryBootstrap.ts:642-654 | one entry that charges 108 tokens of a budget of 70 |
| Bootstrap.ShortKeysCannotOverspend | resources/MemoryBootstrap.ts:642-654 | keys that fit the other 60% keep the soul within the whole budget |
| Bootstrap.TaskHasItsReserveExactly | resources/MemoryBootstrap.ts:871-1119 | the task section's turn comes with at least its reserve exactly when the soul's charge is at most the budget; a search starts only then; otherwise the reserve is zero and the budget still negative |
| Bootstrap.Dedup | resources/MemoryBootstrap.ts:1525-1540 | exactly one event is kept for each signature, the newest |
| Bootstrap.NewestFirstSorts | resources/MemoryBootstrap.ts:1551-1552 | the admission order is the same events, newest first |
| Bootstrap.EverythingIsCharged | resources/MemoryBootstrap.ts:417 | the tokens of everything shipped, in all nine sections, and what is left are the whole budget, and only the soul can exceed it |
| Bootstrap.PackShare | resources/MemoryBootstrap.ts:1001-1074 | recent and predicted memories spend at most their share of what is left |
| Bootstrap.PlaceAllKeeps | resources/MemoryBootstrap.ts:905-1346 | every section of memories (permanent, recent, predicted, task, remaining): it spends exactly what it ships and never more than there is, ships only the request's memories and each own one once, and ships or counts every one of its memories |
| Bootstrap.PackPermanent | resources/MemoryBootstrap.ts:905-946 | the permanent section ships, in order, each memory that still fits, and cuts the others |
| Bootstrap.PackFirst | resources/MemoryBootstrap.ts:871-876 | the reserve is the 3/10 of the budget as far as there is any, and is moved, not lost |
| Bootstrap.PackTask | resources/MemoryBootstrap.ts:1245-1346 | the task section is the scored pool taken in rank order, own entries placed or cut and teammates' shipped or counted |
| Bootstrap.ShippedEvents | resources/MemoryBootstrap.ts:1547-1585 | the shipped events are at most the cap, newest first, each the newest of its signature |
| Bootstrap.TakeEvents | resources/MemoryBootstrap.ts:1553-1585 | shipped plus remaining are all the events; an event is shipped exactly when the cap is not reached and it fits what the earlier ones left |
| Bootstrap.Bootstrap | resources/MemoryBootstrap.ts:395-1600 | the tokens of everything shipped and what is left are the whole budget, exceeded by the soul alone; every section ships what the request leads to; included plus truncated own memories fit the available ones and none ships twice; teammates' and events' counters account for the whole pool and every deduplicated event |
| OneShot.InvAlways | resources/AgentKeyRegister.ts:142-281 | over every run, with other writers committing at times of their own: one lock holder, a confirmed basis is the stored row, and committed transitions, hidden ones, re-armings and the row's state balance |
| OneShot.SingleWinner | resources/AgentKeyRegister.ts:142-281 | calls answered after a read-back succeed at most once, plus once for each time an outside writer re-armed the row, even when commits are dropped |
| OneShot.TransitionsCounted | resources/AgentKeyRegister.ts:142-281 | how many transitions are committed: one for each arming others did not undo, and one more for each commit hidden under a later-timed write |
| OneShot.AnswersSpeakTrue | resources/FederationRetry.ts:103-196 | a success committed its own transition; answered at the commit, a failure committed none |
| OneShot.MovedOnceAndForAll | resources/FederationRetry.ts:103-117 | without outside writers the row is as it started or as the single winner left it, for good |
| OneShot.ReadBackMeans | resources/AgentKeyRegister.ts:250-281 | a confirmed read-back: the stored row shows the call over the row it read, its audit row is stored for its subject, and its own transition of a ready row was committed |
| OneShot.UndisturbedSucceedsExactly | resources/AgentKeyRegister.ts:142-281 | after any run, a call that nothing disturbs succeeds exactly when the stored row is ready for it; it then leaves its own write of that row and its own rows beside it, and otherwise nothing |
| KeyRegister.OneRegistrationWins | resources/AgentKeyRegister.ts:142-281 | of any number of concurrent registrations at most one answers 200, plus one for each reset to pending, whatever other writers write at whatever times |
| KeyRegister.CommitHiddenExactly | resources/AgentKeyRegister.ts:142-205 | a registration's commit leaves the row pending exactly when a later-timed write, committed before it, decides the key |
| KeyRegister.RestoredRowHidesRegistration | resources/AgentKeyRegister.ts:142-205 | a run: the row changed and put back hides the registration |
| KeyRegister.TransitionsCommitted | resources/AgentKeyRegister.ts:142-281 | the registrations committed beyond the row's armings are the hidden commits less those undone by others and less one where the row is still armed; so there are more exactly when the hidden ones exceed those |
| KeyRegister.RegisteredMeans | resources/AgentKeyRegister.ts:264-281 | at a 200's read-back the row carried this request's key and time and the identity of the row it read, its audit row was stored for this agent, and its own registration of an eligible row was committed |
| KeyRegister.RegistrationsMatchTheirAudit | resources/AgentKeyRegister.ts:164-205 | without raw writes, registrations, audit rows and events correspond one to one, each with the winner's key over an eligible pending row |
| KeyRegister.UndisturbedRegistersExactly | resources/AgentKeyRegister.ts:142-281 | after any run, a registration that nothing disturbs is answered 200 exactly when the stored row is eligible; the row then has the registered key and time and is otherwise unchanged, with its audit row and event; otherwise nothing changes |
| RetryEntry.TerminalRowIsWellFormed | resources/FederationRetry.ts:159-166 | a transitioned row is a well-formed terminal one, bound exactly when exhausted |
| RetryEntry.TerminalRowKeeps | resources/FederationRetry.ts:159-166 | the transition keeps each of the twelve declared fields it does not set and no undeclared one |
| RetryEntry.TerminalOnce | resources/FederationRetry.ts:117-196 | of any concurrent calls at most one commits, over a pending row, and the row is then for good the well-formed terminal row it made, its other declared fields kept |
| RetryEntry.AnswersAreExact | resources/FederationRetry.ts:103-196 | ok exactly when the call's own transition, over a pending row, was committed; failed exactly when none of its was |
| RetryEntry.FailedCallChangesNothing | resources/FederationRetry.ts:182-196 | whatever other writers do, a call answered as failed has no entry of its own in the row's history |
| RetryEntry.UndisturbedTransitionsExactly | resources/FederationRetry.ts:103-196 | after any run, a call that nothing disturbs answers ok exactly when the entry is pending; the row is then the well-formed terminal one of its own outcome, its other declared fields kept; otherwise it stays as it was |
| RetryKey.KeyRoundTrip | src/lib/federation-retry-row.ts:21-62 | the three components come back from the key exactly, whatever characters they hold |
| RetryKey.KeysAreDistinct | src/lib/federation-retry-row.ts:21-45 | distinct entries have distinct keys |
| Paging.Get | resources/AdminMemoryCandidates.ts:89-129 | a page is the first ids after the cursor up to the capped limit, with hasMore exactly when more follow; a row read without a usable id fails it whole |
| Paging.RemainingAfter | resources/AdminMemoryCandidates.ts:103-117 | continuing after a row's id reads exactly the rows after it |
| Paging.PagesAreComplete | resources/AdminMemoryCandidates.ts:12-17 | for every limit the pages end and are together exactly the agent's ids in order; with an unusable id the first page fails |

## Left out

- Harper itself, HTTP, headers, response bodies, rate limits, logging, admin pages and test-only pauses.
- Embedding, retrieval ranking, content safety, redaction, scanning, signatures and hashing: inputs or any functions.
- A POST that joins a caller's transaction and a composed PUT: their commit is outside the handler.
- Skill versions, host-pointer visibility, grants, dedup clustering, A2A, OAuth, seeds and attention queries.
- Admin edits of token rows, raw writes that took their time before a re-read and commit after it, and locks across nodes.
- Agent PATCH, the home stamp and the principal write-back: the PUT is the hardest of the guarded Agent writes.
- Pairing's instance-identity refusals, replay nonces and bootstrap user: they precede or follow the protocol and change no row it reads.
- Pairing.RevokeStandsExactlyWhenLater: whether FederationSync's read and put share one time is Harper's; both cases are stated.
- Supersede.ClosedRowCloses: a successor with no date at all closes with null, where the code assigns nothing; the write path always sets createdAt.
- MemoryDelete.Rows.Delete: skill deletes and ids that are not strings are other paths of the same handler.
- Reembed.ReembedStoredRow: a failed read inside an attempt and a failed staging are one input, since both throw before the commit; a transaction that staged nothing does not throw at its commit.
- SweepOverlap.RowsAreBounded: other writers of the candidate and its rows are in `Sweeper`, not here; a failed write that landed is the write of a visit that then stops.
- AutoPromote.Sweeper.Sweep: the query's filters and the eligibility gate are inputs; the gate's answer is a function of the candidate.
- Integration.Contact.RunIntegrationWrite: the owner guard's own read is an input, and a POST under a generated id is one of a fresh row.
- Bootstrap.AdmitSoul: entries come in the order the priority sort leaves them, and lengths count characters, not UTF-16 units.
- Bootstrap.Bootstrap: each item's cost is an input; the windows, subject filters and candidate pool that choose the items are not modelled.
- KeyRegister.OneRegistrationWins: a reset counts whenever an outside write makes the row eligible again, which includes setting the key back to pending; the row's commit and the audit row's and event's are one step.
- RetryKey.KeyRoundTrip: the decoder accepts no whitespace and no surrogate escapes, which the encoder never writes.
