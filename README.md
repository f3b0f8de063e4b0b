# Point ledger of the transaction controller

This project models the point ledger behind the transaction endpoints of the
CheckpointSystem back end, in `backend/controllers/transactionController.js`.

Users hold a point balance (`so_diem`). A transaction (`giao_dich`) moves
points from a sender to a receiver. Its type name, from `loai_giao_dich`,
gives it one of four kinds:

- **Direct** (`San điểm`): the points move at once and the record is
  created settled (`da_chot`).
- **Deferred** (`Giao lịch`): the record is created pending (`chua_chot`)
  and moves nothing. Settling it later moves the amount the other way:
  the receiver pays the sender.
- **Cancellation** (`Hủy lịch`): refers to a Deferred counter record. If
  the counter was settled, the Cancellation reverses it.
- **Other**: any other type name. The balances are written back unchanged.

The handlers modelled are:

| handler | model |
|---|---|
| `create` | `Ledger.Create` |
| `createMany` (all items or none) | `Ledger.CreateMany` |
| `update` (reverse the old effect, apply the new one) | `Ledger.Update` |
| `delete` (reverse, then remove) | `Ledger.Delete` |
| `chotGiaoDich` (settle one record) | `Ledger.Settle` |
| `chotTatCaGiaoDich` (settle every eligible record) | `Ledger.SettleAll` |

Every early rollback returns a typed `Error` and leaves the store as it was.
The one exception is the next auto-increment id: it stays past the rows that
a failed `createMany` had inserted.

Layout:

- `ledger_types.dfy` (`LedgerTypes`): records, requests, patches, errors,
  and the books: balances, the transaction table, the log and the next
  auto-increment id.
- `balances.dfy` (`Balances`): the two ways a balance is written.
  - An atomic increment (`updateDiemAtomic`, `so_diem = so_diem ± ?`) is
    `Credit`/`Move`. On a missing row it is assumed to change nothing,
    since `UserModel` is not part of this model; under `Valid()` it never
    happens, because users are never removed.
  - An absolute write of values read earlier (`updateDiem`) is `Overwrite`.
- `rules.dfy` (`Rules`): the gating booleans `canHoanLaiDiemCu`,
  `canApDungDiemMoi` and `canHoanLaiDiem`, and the status choices.
- `steps.dfy` (`Steps`): one pure step function per handler, from the
  books before to the books after or an error. These are the
  specifications.
- `ledger.dfy` (`LedgerEngine`): the `Ledger` class. Its fields are the
  store. Its methods update them step by step as the controller does. Each
  handler method is proved to end in the state its step function gives,
  and to keep the ghost invariant `Valid()`.
- `accounting.dfy` (`Accounting`) and `invariants.dfy` (`Invariants`): the
  invariant "every balance equals its opening value plus the user's share
  of the flows of the stored records", where:
  - a Direct record's flow is on the balances;
  - a settled Deferred record's flow is on the balances;
  - a Cancellation's flow counts only if it reversed a settled counter.

  The invariant also says every stored record has two distinct existing
  parties and an id below the next one. Every handler is proved to keep it.
  The ledger's `Valid()` adds `Typed`: every stored record has a type the
  catalog holds, and a Direct record is settled.
- `properties.dfy` (`Properties`) and `batch.dfy` (`Settlement`): what each
  handler promises, proved for all inputs.
- `pool_reads.dfy` (`PoolReads`): `createMany` as written, with its reads
  answered from the books committed before the batch. It is compared with
  the model's `createMany` (see "## Findings").

Where the code and its description differ, the model follows the code:

- `update` and `delete` write no log entry.
- `delete` does not cascade to a Cancellation that refers to the deleted
  record.
- A Cancellation is always stored pending.
- Single settle does not check for a Cancellation; batch settle does.
- A Cancellation's stored balance-after values and its log entry are the
  request users' balances read before the reversal. They are not the
  counter parties' reversed balances.

## Model

| member | source | states |
|---|---|---|
| LedgerEngine.Ledger.Create | backend/controllers/transactionController.js:81-281 | `create` ends in the state `CreateStep` gives and returns the new id. On any rejection it returns that error with the store unchanged. It keeps the soundness invariant |
| LedgerEngine.Ledger.RecordTransfer | backend/controllers/transactionController.js:137-147 | For a validated non-Cancellation request, the writes end in `CreateStep`'s state: Direct through two atomic increments, Deferred with no balance change, Other with balances written back unchanged. Then insert and log |
| LedgerEngine.Ledger.RecordReversal | backend/controllers/transactionController.js:148-224 | For a validated Cancellation request, the counter checks return `CreateStep`'s error with no change. Otherwise a settled counter is reversed by absolute writes, and the record takes the counter's parties and amount, ending in `CreateStep`'s state |
| LedgerEngine.Ledger.CreateMany | backend/controllers/transactionController.js:284-487 | An empty batch is refused. The items are applied in order, each as `create`. On the first failing item, the error names its index, and the store returns to its state before the batch except that the ids the earlier items took stay used. Otherwise the state is `CreateAll`'s and the ids are consecutive. The soundness invariant is kept either way |
| LedgerEngine.Ledger.Restore | backend/controllers/transactionController.js:469-477 | The rollback of a failed `createMany`: the store returns to the books saved before the batch, except that the next id stays past the ids the batch used. The invariant `Valid()` holds again |
| LedgerEngine.Ledger.Update | backend/controllers/transactionController.js:490-665 | `update` returns `UpdateStep`'s error with no change, or ends in `UpdateStep`'s state and returns the stored record. It keeps the soundness invariant |
| LedgerEngine.Ledger.Rewrite | backend/controllers/transactionController.js:562-635 | Takes back the old effect when `canHoanLaiDiemCu` holds and applies the new one when `canApDungDiemMoi` holds, using atomic increments. Then it stores the merged record with its new status, ending in `UpdateStep`'s state |
| LedgerEngine.Ledger.Delete | backend/controllers/transactionController.js:668-747 | `delete` returns `DeleteStep`'s error with no change, or ends in `DeleteStep`'s state. It keeps the soundness invariant |
| LedgerEngine.Ledger.Remove | backend/controllers/transactionController.js:696-728 | When `canHoanLaiDiem` holds and both users exist, writes back the reversed balances. Then it removes the record, ending in `DeleteStep`'s state |
| LedgerEngine.Ledger.Settle | backend/controllers/transactionController.js:750-853 | `chotGiaoDich` returns `SettleStep`'s error with no change, or ends in `SettleStep`'s state and returns the settled record. It keeps the soundness invariant |
| LedgerEngine.Ledger.MarkSettled | backend/controllers/transactionController.js:808-831 | The sender's balance plus the amount and the receiver's minus it are written, the record is marked settled with those balances, and one log entry is appended; the result is `SettleStep`'s state |
| LedgerEngine.Ledger.SettleEach | backend/controllers/transactionController.js:887-951 | The loop over the selected ids ends in the books, success count and failed ids that `BatchRun` gives |
| LedgerEngine.Ledger.SettleNext | backend/controllers/transactionController.js:890-949 | One loop turn: a record with a missing user is reported as failed with nothing changed; otherwise it is settled via atomic increments and read-back balances, logged and counted, as `BatchStep` gives |
| LedgerEngine.Ledger.SettleAll | backend/controllers/transactionController.js:856-984 | `chotTatCaGiaoDich` ends in `BatchSettle`'s state and result and keeps the soundness invariant |
| LedgerEngine.Ledger.RunBatch | backend/controllers/transactionController.js:862-971 | No eligible record: report zero, no change. Zero successes with some failures: roll back and return the failed ids. Otherwise commit and report successes, total and failures |
| Steps.EligibleBelow | backend/controllers/transactionController.js:862-874 | The selection holds exactly the eligible ids below the bound (Deferred, pending, no Cancellation refers to them), in strictly increasing (creation) order |
| Steps.BatchStep | backend/controllers/transactionController.js:890-949 | One batch item adds exactly one to successes plus failures and keeps the set of records and of users |
| Steps.BatchRun | backend/controllers/transactionController.js:890-951 | Successes plus failures equal the number of selected records. The records, the users and the next id are kept |
| Balances.Overwrite | backend/controllers/transactionController.js:203-214 | Absolute writes of two read balances equal the atomic transfer when the two parties differ |
| Balances.MoveAt | backend/controllers/transactionController.js:145-147 | A transfer shifts each user by exactly that user's share: payee +amount, payer -amount, others unchanged |
| Balances.MoveBack | backend/controllers/transactionController.js:580-606 | Moving points and moving them back restores every balance |
| Balances.MoveTwice | backend/controllers/transactionController.js:700-723 | Two transfers between the same parties add up to one |
| Balances.MoveFlip | backend/controllers/transactionController.js:910-918 | Incrementing the sender and decrementing the receiver is the settle transfer of the opposite amount |
| Rules.UpdateKeepsEffectRule | backend/controllers/transactionController.js:570-625 | `canApDungDiemMoi` holds exactly when the record's new kind and new status say its effect is on the balances |
| Rules.CreateKeepsEffectRule | backend/controllers/transactionController.js:137-147 | For non-Cancellation kinds, create moves points exactly when the created status says the effect is on the balances |
| Properties.CreateRejects | backend/controllers/transactionController.js:89-125 | A missing field, the same sender and receiver, an unknown type and an unknown user are rejected in that order, with that error |
| Properties.CreateAppends | backend/controllers/transactionController.js:245-258 | A committed create stores one record under the next id, keeps all other records, stores the counter id or null, and appends one log entry for it |
| Properties.CreateDirectTransfers | backend/controllers/transactionController.js:141-147 | Direct create moves the amount from sender to receiver. No one else changes. The record is settled and carries both new balances |
| Properties.CreateDeferredHolds | backend/controllers/transactionController.js:137-140 | Deferred create changes no balance, is pending and has null balance-after values |
| Properties.CreateCancellation | backend/controllers/transactionController.js:148-224 | A committed Cancellation has an existing Deferred counter and takes its parties and amount. It is pending. A settled counter is reversed exactly and a pending one moves nothing |
| Properties.CancellationAftersFromRequest | backend/controllers/transactionController.js:241-258 | A Cancellation's balance-after values are the request users' balances read before the reversal |
| Properties.CancellationRejects | backend/controllers/transactionController.js:148-180 | A missing counter id, an unknown counter and a non-Deferred counter are each rejected with their own error |
| Properties.SettleThenCancelRestores | backend/controllers/transactionController.js:188-214 | Settling a Deferred record and then cancelling it restores every balance |
| Properties.CreateSeqFirstFailure | backend/controllers/transactionController.js:301-346 | Once a prefix of the batch fails, the whole batch fails with that error |
| Properties.CreateAllRollsBack | backend/controllers/transactionController.js:301-346 | If item i fails on the books the earlier items left, the batch fails on item i and commits nothing |
| Properties.CreateSeqNext | backend/controllers/transactionController.js:301-467 | The batch over the first i+1 items is the batch over the first i followed by one create |
| Properties.CreateSeqCounts | backend/controllers/transactionController.js:301-467 | A committed batch adds one id and one log entry per item |
| Properties.SettleOutcome | backend/controllers/transactionController.js:768-831 | Settle commits iff the record exists, is pending and Deferred, and both users exist. Then the receiver pays the amount to the sender, the record is settled with the new balances, and one log entry is added |
| Properties.SettleTwiceFails | backend/controllers/transactionController.js:768-775 | A second settle of the same record is refused as already settled |
| Properties.SettleIgnoresCancellation | backend/controllers/transactionController.js:768-783 | A record a Cancellation refers to can still be settled singly, while batch settle never selects it |
| Properties.UpdateRejects | backend/controllers/transactionController.js:500-540 | Update refuses a Cancellation record, an unknown new type and a new sender equal to the new receiver |
| Properties.UpdateMergesFields | backend/controllers/transactionController.js:496-635 | Each patch field that is left out keeps its value, and each one supplied replaces it. The counter and balance-after values are untouched. No other record changes |
| Properties.UpdateKeepsConsistent | backend/controllers/transactionController.js:616-625 | After update a Direct record is settled |
| Properties.CreateKeepsTyped | backend/controllers/transactionController.js:106-125 | `create` stores a record only under a type the catalog holds, and a Direct record settled (239), so every stored record stays typed and consistent |
| Properties.UpdateKeepsTyped | backend/controllers/transactionController.js:518-625 | `update` keeps every record typed: the new type must be in the catalog, and a Direct record ends settled |
| Properties.DeleteKeepsTyped | backend/controllers/transactionController.js:668-747 | `delete` keeps every remaining record typed and consistent |
| Properties.SettleKeepsTyped | backend/controllers/transactionController.js:750-853 | `chotGiaoDich` keeps every record typed and consistent: it changes only the settled record's status and balance-after values |
| Properties.BatchKeepsTyped | backend/controllers/transactionController.js:856-984 | `chotTatCaGiaoDich`, committed or rolled back, keeps every record typed and consistent |
| Properties.UpdateNoChangeWhenTyped | backend/controllers/transactionController.js:518-635 | On books that every handler keeps (well formed and typed), an update with no fields leaves the books exactly as they were, for any record but a Cancellation |
| Properties.UpdateNoChange | backend/controllers/transactionController.js:562-635 | An update with no fields on a consistent record leaves the books exactly as they were |
| Properties.UpdateResubmitNoChange | backend/controllers/transactionController.js:518-635 | An update whose every field is either left out or the stored value (each field is merged with `!== undefined`) leaves valid books exactly as they were, for any record but a Cancellation |
| Properties.DeleteOutcome | backend/controllers/transactionController.js:676-728 | A missing record and a Cancellation are refused. A committed delete removes only that record and writes no log. Balances change only when `canHoanLaiDiem` holds: Direct is taken back to the sender, a settled Deferred back to the receiver |
| Properties.DeleteSkipsMissingParty | backend/controllers/transactionController.js:703-725 | When a party no longer exists the reversal is skipped and the record is still removed |
| Properties.CreateThenDeleteRestores | backend/controllers/transactionController.js:141-147 | Creating a Direct record and deleting it restores the balances and the records |
| Properties.DeleteAfterCancelReversesTwice | backend/controllers/transactionController.js:700-728 | Deleting a settled Deferred record after it was cancelled reverses it a second time and leaves the Cancellation pointing at a removed record |
| Settlement.BatchRunOutcome | backend/controllers/transactionController.js:890-951 | Each selected record is settled, or reported and left as it was, and it is reported exactly when one of its users is missing. Records outside the run are untouched |
| Settlement.BatchRunKeepsRecords | backend/controllers/transactionController.js:933-938 | The batch loop changes only status and balance-after values |
| Settlement.BatchRunNext | backend/controllers/transactionController.js:890-951 | The loop over i+1 ids is the loop over i ids followed by one more item |
| Settlement.BatchCounts | backend/controllers/transactionController.js:953-971 | The report's successes plus failures equal its total, which is the number of selected records |
| Settlement.BatchRollsBackIff | backend/controllers/transactionController.js:953-962 | The batch rolls back iff something was selected and nothing succeeded. Then the books are unchanged and the failures reported are exactly the selected ids, in order |
| Settlement.BatchSkipsCancelled | backend/controllers/transactionController.js:868-874 | A record that a Cancellation refers to is never selected |
| Settlement.CancelledStable | backend/controllers/transactionController.js:933-938 | Settling keeps which records are cancelled |
| Settlement.RerunSelectsFailures | backend/controllers/transactionController.js:862-971 | After a committed run, a second run selects exactly the ids the first run reported as failed |
| Settlement.RerunFindsNothing | backend/controllers/transactionController.js:862-971 | After a committed run with no failures, a rerun finds nothing eligible |
| Settlement.BatchSettlesAll | backend/controllers/transactionController.js:890-951 | When every record's users exist, the batch settles every selected record and reports no failure |
| Invariants.CreateMovesFlow | backend/controllers/transactionController.js:137-258 | Create stores one record with distinct existing parties under a fresh id, and moves each balance by exactly that record's flow |
| Invariants.CreateKeepsSound | backend/controllers/transactionController.js:81-281 | Create keeps balance = opening value + net flow of stored records |
| Invariants.TwoMoves | backend/controllers/transactionController.js:573-608 | A conditional take-back followed by a conditional transfer moves each balance by the difference of the two shares |
| Invariants.RebalancedMovesFlows | backend/controllers/transactionController.js:562-625 | Update's balances lose the old record's flow and gain the revised record's flow |
| Invariants.UpdateMovesFlows | backend/controllers/transactionController.js:490-665 | A committed update moves every balance by the new flow minus the old flow |
| Invariants.UpdateKeepsSound | backend/controllers/transactionController.js:490-665 | Update keeps the soundness invariant |
| Invariants.DeleteMovesFlow | backend/controllers/transactionController.js:696-728 | Delete of a record with distinct existing parties takes back exactly its flow |
| Invariants.DeleteKeepsSound | backend/controllers/transactionController.js:668-747 | Delete keeps the soundness invariant |
| Invariants.SettleMovesFlow | backend/controllers/transactionController.js:808-823 | Settle moves each balance by the settled record's flow |
| Invariants.SettleKeepsSound | backend/controllers/transactionController.js:750-853 | Settle keeps the soundness invariant |
| Invariants.SettleItemMovesFlow | backend/controllers/transactionController.js:907-938 | One batch item moves each balance by the settled record's flow and changes only status and balance-after values |
| Invariants.SettleItemKeepsSound | backend/controllers/transactionController.js:890-949 | One batch item keeps the soundness invariant |
| Invariants.BatchRunKeepsSound | backend/controllers/transactionController.js:890-951 | The batch loop over distinct pending Deferred records keeps the soundness invariant |
| Invariants.BatchKeepsSound | backend/controllers/transactionController.js:856-984 | Batch settle, committed or rolled back, keeps the soundness invariant |
| Steps.CreateStep | backend/controllers/transactionController.js:81-281 | `create` as a function: missing field, same users, unknown type and unknown user are refused in that order. Then it dispatches on the kind: Direct transfers at once and is settled; Deferred moves nothing and is pending; Cancellation checks its counter and reverses a settled one; Other writes the balances back unchanged. One record under the next id and one log entry. Its properties are the `Properties.Create*` lemmas |
| Steps.CreateSeq | backend/controllers/transactionController.js:301-467 | The items of `createMany` in the corrected reading, where every read goes through the open transaction: one after the other on the books the earlier items left. The first failing item gives the error with its index. As written, see `PoolReads.CreateSeqFrom` |
| Steps.CreateAll | backend/controllers/transactionController.js:284-487 | `createMany` in the corrected reading, where every read goes through the open transaction: an empty batch is refused, otherwise `CreateSeq`. As written, see `PoolReads.CreateManyAsWritten` |
| Steps.Insert | backend/controllers/transactionController.js:246-258 | The INSERT of a record under the next auto-increment id and its log row (also 450-462 in `createMany`): the record and the log entry are added, the id advances by one, and the balances are the ones given |
| Steps.Cancelled | backend/controllers/transactionController.js:868-874 | The `NOT EXISTS` subquery: some stored record whose type is Cancellation names `id` as its counter |
| Steps.Eligible | backend/controllers/transactionController.js:863-874 | The batch query's WHERE clause: the record exists, its type is Deferred, it is pending, and no Cancellation refers to it |
| Steps.PartiesKnown | backend/controllers/transactionController.js:893-905 | The per-record user check of batch settle: both the sender and the receiver are rows of the user table |
| LedgerTypes.KindOf | backend/controllers/transactionController.js:863-866 | A stored record's kind is its type's name through the catalog (`LEFT JOIN loai_giao_dich`, also used by `update`, `delete` and `chotGiaoDich`). A type id the catalog lacks gives no name, which matches none of the named kinds, so it acts as Other |
| Steps.IdsTaken | backend/controllers/transactionController.js:450-455 | The number of auto-increment ids a failed batch used: the index of the failing item |
| Steps.UpdateStep | backend/controllers/transactionController.js:490-665 | `update` as a function: not found, Cancellation, unknown type, same users and unknown user are refused in that order. Otherwise the books get `Rebalanced` balances and the `Revised` record. Its properties are the `Properties.Update*` lemmas |
| Steps.Revised | backend/controllers/transactionController.js:562-635 | The record as update stores it: each supplied field replaces the old one, and the status is `StatusAfterUpdate` of the new and old kinds |
| Steps.Rebalanced | backend/controllers/transactionController.js:570-608 | Update's balances: the old effect is taken back when `EffectApplied` holds, then the new effect is applied when `AppliesNew` holds |
| Steps.DeleteStep | backend/controllers/transactionController.js:668-747 | `delete` as a function: not found and Cancellation are refused. The reversal is written only when the effect is applied and both users exist. Then the record is removed |
| Steps.SettleStep | backend/controllers/transactionController.js:750-853 | `chotGiaoDich` as a function: not found, already settled, not Deferred and unknown user are refused in that order. Otherwise the sender gets +amount and the receiver -amount, and the record is settled with both new balances and logged |
| Steps.Selection | backend/controllers/transactionController.js:862-874 | Batch settle's query: the eligible ids in id order, which is creation order |
| Steps.SettleItem | backend/controllers/transactionController.js:893-946 | One batch item: a missing user is an error. Otherwise the sender is incremented and the receiver decremented, the new balances are read back, and the record is settled and logged |
| Steps.BatchSettle | backend/controllers/transactionController.js:856-984 | `chotTatCaGiaoDich` as a function: an empty selection changes nothing. Zero successes with some failures roll back. Otherwise the run commits with its report |
| Rules.EffectApplied | backend/controllers/transactionController.js:570-571 | `canHoanLaiDiemCu` (and `canHoanLaiDiem` at 700-701): a record's effect is on the balances iff it is Direct, or Deferred and settled |
| Rules.AppliesNew | backend/controllers/transactionController.js:595-596 | `canApDungDiemMoi`: update applies the new effect iff the new kind is Direct, or the record was settled, the new kind is Deferred and the old kind was not Direct |
| Rules.CreatedStatus | backend/controllers/transactionController.js:239 | A new record is settled iff it is Direct |
| Rules.StatusAfterUpdate | backend/controllers/transactionController.js:616-625 | After update: Direct is settled, a change from Direct to Deferred is pending, and anything else keeps its status |
| Rules.Signed | backend/controllers/transactionController.js:573-606 | The signed amount a kind moves from sender to receiver: +amount for Direct, -amount for Deferred, 0 otherwise. Whether a Deferred record's status puts it on the balances is decided by `EffectApplied` |
| Balances.Credit | backend/controllers/transactionController.js:146-147 | An atomic increment of one balance. On a missing row it is assumed to change nothing (`UserModel.updateDiemAtomic` is not part of this model) |
| Balances.Move | backend/controllers/transactionController.js:145-147 | Two atomic increments: the payee gains the amount, then the payer loses it. `MoveAt` gives its effect on every user |
| LedgerTypes.KindOfName | backend/controllers/transactionController.js:135-148 | A type name decides the kind: `San điểm` is Direct, `Giao lịch` is Deferred, `Hủy lịch` is Cancellation, any other name is Other |
| LedgerTypes.Present | backend/controllers/transactionController.js:89 | An id field passes `!x` only when it is given and non-zero |
| Steps.StoredCounter | backend/controllers/transactionController.js:248 | The counter id is stored as given, or null when it is missing or 0 |
| Steps.StoredNote | backend/controllers/transactionController.js:248 | The note is stored as given, or null when it is missing or empty |
| Invariants.IdsSkippedKeepSound | backend/controllers/transactionController.js:469-477 | A rollback that leaves the next id higher keeps the books sound |
| PoolReads.CreateFrom | backend/controllers/transactionController.js:301-462 | One `createMany` item as written. Its checks and its balance and counter reads use the books committed before the batch, while its writes go onto the batch's books. The balance keys are kept and the next id rises by one |
| PoolReads.CreateSeqFrom | backend/controllers/transactionController.js:301-467 | The `createMany` items as written, one after the other, all reading the books committed before the batch. On success the balance keys are kept and the next id rises by the number of items |
| PoolReads.CreateManyAsWritten | backend/controllers/transactionController.js:284-487 | `createMany` as written: an empty batch is refused, otherwise `CreateSeqFrom` |
| PoolReads.CreateFromSelf | backend/controllers/transactionController.js:105-125 | When nothing has been written before its reads, an item read from the committed books is exactly `create` |
| PoolReads.SingleItemAgrees | backend/controllers/transactionController.js:301-467 | A batch of one item gives the same result as written and in the model |
| PoolReads.BatchMissesOwnCounter | backend/controllers/transactionController.js:373-380 | A batch of a Deferred record and its Cancellation is refused as written (counter not found), but commits in the model |
| PoolReads.BatchOverwritesTransfer | backend/controllers/transactionController.js:430-437 | A batch of a Direct transfer and an Other item between the same users ends as written with the balances from before the batch while the transfer's record stays. In the model it ends at 90 and 60 |

## Left out

- HTTP handling is not modelled: request parsing, status codes, response
  messages and `console.error`. Each handler returns a typed result or
  error instead.
- `getAll`, `getById` and `getByUserId` are not modelled. They are read-only
  wrappers over `TransactionModel`, which is not part of this model.
- Connections are not modelled: the pool, `beginTransaction`/`commit`/
  `rollback`/`release` and row locks. A rollback is "the store is as
  before", except that the auto-increment ids a failed `createMany` used
  stay used. The lost-update race between a read of `so_diem` and the later
  `updateDiem` is a concurrency matter and is out of scope. Handlers run
  one at a time.
- Steps.CreateSeq: reads through the open transaction, so each item sees the
  items before it. As written, `createMany` reads through the pool; see the
  `LedgerEngine.Ledger.CreateMany` line below and `PoolReads.CreateSeqFrom`.
- Steps.CreateAll: is the same corrected reading of `createMany`. As written,
  the pool reads make it differ; see the `LedgerEngine.Ledger.CreateMany`
  line below and `PoolReads.CreateManyAsWritten`.
- LedgerEngine.Ledger.CreateMany: reads through the open transaction, so each item sees
  the items before it. `createMany` as written reads types, users and the
  counter record through the pool (lines 322, 337-338, 373 and 400-401),
  which sees only the books committed before the batch. As written:
  - a Cancellation of a record created earlier in the same batch is refused;
  - an Other item, and the reversal of a settled counter, write back
    balances read before the batch, over the batch's own transfers.

  `PoolReads.CreateManyAsWritten` models that behaviour and the entry under
  "## Findings" shows both effects. The soundness invariant holds only for
  the model's reading.
- Balances.Credit: the behaviour of `UserModel.updateDiemAtomic` on a missing
  user row is assumed (no change), because `UserModel` is not part of this
  model. Under `Valid()` the case does not arise.
- `parseFloat` and floating point are not modelled. Amounts and balances are
  integers, and a non-numeric amount (NaN) is not modelled.
- `update` fields sent as an explicit null are not modelled. A `Patch`
  field is either absent (`undefined`), which keeps the old value, or a
  value.
- Timestamps (`created_at`) are not modelled. Batch settle's creation order
  is id order, since ids are auto-increment.
- The log is a sequence of (record id, receiver balance, sender balance)
  entries. Its timestamps and any fields `LogModel` adds are not modelled.
- Users are never added or removed, because the user table is not part of
  this model. The opening users and balances are fixed at construction.
  Therefore, under the invariant, the "party no longer exists" paths of
  delete, settle and batch settle are covered only at the step-function
  level (`DeleteSkipsMissingParty`, `BatchRunOutcome`).
- Failures of the store itself are not modelled: the `catch` blocks that
  roll back after an exception and answer 500, and the re-read of the
  created record after commit.
- `createMany`'s check that `transactions` is an array is not modelled. The
  model takes a sequence, and only the empty case is an error.

## Findings

| source | as written | input that shows it | evidently intended | confidence | as-written member | corrected member |
|---|---|---|---|---|---|---|
| backend/controllers/transactionController.js:322-437 | `createMany` reads types, users and the counter record through the pool, outside its own transaction, and writes through the transaction | users 10 and 20 with 100 and 50 points. Batch [Direct 10 to 20 of 10, Other 10 to 20]: ends at 100 and 50 with the transfer's record stored. Batch [Deferred 10 to 20 of 30, Cancellation of record 1]: refused, counter not found | every item sees the earlier items of the batch, as `create` sees the committed books; the balances stay equal to the opening balances plus the stored records' flows | medium, not executed | PoolReads.BatchOverwritesTransfer | LedgerEngine.Ledger.CreateMany |
