# Business registration transaction handler — Dafny model

This project models the handler for the "business registration" ledger
transaction of a custom-transaction plugin. A wallet may hold at most one
`business` attribute `{name, website}`. The handler has five parts, and each
is modelled as pure functions over immutable values:

- **Admission** (`throwIfCannotBeApplied`, module `Admission`). The checks run
  in a fixed order. An absent or empty `name` or `website` fails first. A
  sender that already has `business` fails next. Last come the framework's
  generic checks, whose verdict is a parameter.
- **Pool entry** (`canEnterTransactionPool`, module `PoolEntry`). This is a
  decision over snapshots: a framework flag saying whether the sender already
  has a pending transaction of this type, the processor's batch, and the
  pool. The diagnostics pushed to the processor (`ERR_CONFLICT`,
  `ERR_PENDING`) are returned in a `PoolVerdict`.
- **Apply and revert** (`applyToSender`, `revertForSender`, module
  `SenderState`). Apply sets the sender's `business` attribute and revert
  forgets it. The recipient hooks return the store unchanged.
  `ApplyTransaction` and `RevertTransaction` compose the handler's own sender
  write with the recipient hook; the framework's base-class effects are not
  part of them.
- **Bootstrap** (module `Bootstrap`). This replays the logged registrations,
  page by page, and sets each sender's attribute. `RunBootstrap` has the
  source's two nested loops. `Replay` is the fold it computes.
- **Data model** (module `Wallets`). The store is a `map<PublicKey, Wallet>`.
  The model assumes that looking up an unknown key yields a new, empty
  wallet. `balance` and `nonce` stand for the
  framework-owned part of a wallet, which the handler's own attribute writes
  never touch.

Names are compared by exact, case-sensitive equality. An absent name equals
only another absent name, as JavaScript's `===` on `undefined` does. A
message renders an absent name as `undefined`.

Of two batch transactions with the same name, every copy whose sender has no
pending transaction of this type in the pool is refused with `ERR_CONFLICT`
(a copy whose sender has one stops at lines 70-71 with no diagnostic), because the filter at lines 75-77 counts the candidate
itself; `PoolEntry.BatchCollisionRefusesEveryCopy` states this.

## Model

| member | source | states |
|---|---|---|
| Admission.ThrowIfCannotBeAppliedAsWritten | src/handlers/BusinessRegistrationTransactionHandler.ts:42-59 | as written: an absent or empty name or website gives the asset error whatever the wallet holds; otherwise a wallet already holding `business` gives the already-a-business error; otherwise the check passes, whatever the generic checks said |
| Admission.ThrowIfCannotBeApplied | src/handlers/BusinessRegistrationTransactionHandler.ts:42-59 | as intended: the same two errors in the same order, then the generic checks' verdict; it passes exactly when the asset is well formed, the wallet is not a business and the generic checks pass |
| Admission.MalformedAssetWinsOverDuplicate | src/handlers/BusinessRegistrationTransactionHandler.ts:49-56 | on a wallet that is already a business, both forms of the check give the asset error for a malformed asset and the already-a-business error for a well-formed one, whatever the generic checks said |
| Admission.AsWrittenIsIntendedWithPassingBase | src/handlers/BusinessRegistrationTransactionHandler.ts:42-59 | on every input, the check as written gives what the intended check gives when the generic checks pass, so the two differ only when the generic checks fail |
| Admission.BaseCheckFailureIsLost | src/handlers/BusinessRegistrationTransactionHandler.ts:58 | a concrete registration whose generic check fails is admitted as written and refused as intended |
| PoolEntry.ConflictMessage | src/handlers/BusinessRegistrationTransactionHandler.ts:80-84 | the ERR_CONFLICT message starts with its fixed prefix and holds the name verbatim right after it |
| PoolEntry.PendingMessage | src/handlers/BusinessRegistrationTransactionHandler.ts:95 | the ERR_PENDING message starts with its fixed prefix and holds the name verbatim right after it |
| PoolEntry.CountSameName | src/handlers/BusinessRegistrationTransactionHandler.ts:75-77 | the filtered batch length is at most the batch length, and it is zero exactly when no batch transaction has this type and this name |
| PoolEntry.CountAboveOneIffTwoPositions | src/handlers/BusinessRegistrationTransactionHandler.ts:75-79 | the filtered length exceeds one exactly when two distinct batch positions hold a same-type, same-name transaction |
| PoolEntry.InPoolWithName | src/handlers/BusinessRegistrationTransactionHandler.ts:88-93 | the pool scan finds a match exactly when some pool transaction of this type has the same name |
| PoolEntry.CanEnterTransactionPool | src/handlers/BusinessRegistrationTransactionHandler.ts:65-100 | a sender with a pending transaction of this type is refused with no error and no name check; otherwise a batch conflict gives exactly one ERR_CONFLICT; otherwise a pool match gives exactly one ERR_PENDING; it accepts exactly when none of the three fires, and then pushes nothing |
| PoolEntry.BatchCollisionRefusesEveryCopy | src/handlers/BusinessRegistrationTransactionHandler.ts:74-86 | when two batch transactions share type and name, every batch transaction with that name whose sender has no pending transaction of this type in the pool is refused with exactly one ERR_CONFLICT naming it |
| PoolEntry.PoolCollisionRefuses | src/handlers/BusinessRegistrationTransactionHandler.ts:88-97 | a candidate whose sender has no pending transaction of this type in the pool, whose name is counted at most once in the batch and matches a pool transaction of this type is refused with exactly one ERR_PENDING naming it |
| SenderState.ApplyToSender | src/handlers/BusinessRegistrationTransactionHandler.ts:104-106 | the handler's own write: the sender's wallet exists afterwards, its `business` is the transaction's asset, the write leaves its balance and nonce as they were, and every other wallet is unchanged |
| SenderState.RevertForSender | src/handlers/BusinessRegistrationTransactionHandler.ts:111-113 | the handler's own write: the sender's wallet exists afterwards with no `business`, the write leaves its balance and nonce as they were, and every other wallet is unchanged |
| SenderState.ApplyToRecipient | src/handlers/BusinessRegistrationTransactionHandler.ts:116-118 | returns the store unchanged |
| SenderState.RevertForRecipient | src/handlers/BusinessRegistrationTransactionHandler.ts:120-122 | returns the store unchanged |
| SenderState.RevertUndoesApply | src/handlers/BusinessRegistrationTransactionHandler.ts:104-122 | for a sender without `business`, the handler's apply write followed by its revert write, recipient hooks included, gives every key its original wallet; the store is identical when the sender's wallet existed |
| SenderState.ApplyRedoesRevert | src/handlers/BusinessRegistrationTransactionHandler.ts:104-122 | for a sender holding this transaction's asset, the handler's revert write followed by its apply write, recipient hooks included, gives back the same store |
| SenderState.ApplyIsIdempotent | src/handlers/BusinessRegistrationTransactionHandler.ts:104-106 | the handler's attribute write for the same transaction, done twice, leaves the store as doing it once does |
| SenderState.RegistrationCountInvariant | src/handlers/BusinessRegistrationTransactionHandler.ts:102-114 | in a history where every commit passed admission and every rollback undoes a registration, a wallet's initial registration (0 or 1) plus commits minus rollbacks equals 1 exactly when it holds `business` afterwards, and 0 otherwise |
| SenderState.RegisteredIffNetOne | src/handlers/BusinessRegistrationTransactionHandler.ts:54-56 | starting from a wallet without `business`, such a history leaves it registered exactly when its commits minus rollbacks is one, and that count stays in {0, 1} |
| Bootstrap.RunBootstrap | src/handlers/BusinessRegistrationTransactionHandler.ts:23-40 | the page-by-page loop computes the replay of the concatenated log; every key that sent a logged registration ends up with the wallet it had (or a new one) carrying its last registration's `{name, website}`; every other key keeps its wallet, or stays absent |
| Bootstrap.ReplayWallet | src/handlers/BusinessRegistrationTransactionHandler.ts:29-38 | per key: the replayed wallet is the looked-up wallet with `business` set to the key's last logged registration, or the untouched wallet when the key sent none |
| Bootstrap.LastRegistrationAt | src/handlers/BusinessRegistrationTransactionHandler.ts:29-36 | a logged transaction followed by no other from its sender is that sender's last registration |
| Bootstrap.NoLastRegistration | src/handlers/BusinessRegistrationTransactionHandler.ts:29-36 | a key that sent no logged transaction has no last registration |
| Bootstrap.LastLoggedTransactionWins | src/handlers/BusinessRegistrationTransactionHandler.ts:29-38 | a logged transaction followed by no other from its sender decides that sender's `business`; a key with no logged transaction keeps its wallet or stays absent |
| Bootstrap.ReplayIsIdempotent | src/handlers/BusinessRegistrationTransactionHandler.ts:26-39 | replaying a log on the store it produced changes nothing; for a paged log, that is bootstrapping it twice |
| Bootstrap.FlattenAppend | src/handlers/BusinessRegistrationTransactionHandler.ts:26-29 | reading one more page appends exactly that page's transactions, in order, to what was read before |
| Bootstrap.ReplayConcat | src/handlers/BusinessRegistrationTransactionHandler.ts:26-39 | page boundaries do not matter: replaying `a + b` is replaying `a` and then `b` |
| Bootstrap.ReplayOneIsApply | src/handlers/BusinessRegistrationTransactionHandler.ts:31-36 | the replay's attribute write for one logged registration equals the handler's own apply write (lines 104-106) for the two-field asset |

## Left out

- Framework effects of `super.applyToSender`, `super.revertForSender` and `super.throwIfCannotBeApplied` (fee, balance, nonce): that code is not part of this model. The first two are the identity here. The verdict of the third is a parameter of the admission check.
- `typeFromSenderAlreadyInPool`: an inherited helper that is not part of this model. Line 70 calls it without `await`; the model assumes it is synchronous and takes its answer as the boolean `senderHasPendingOfType`. Any diagnostic it pushes through `processor` is outside the returned `errors`. The pool-entry model holds only under that assumption: were the helper asynchronous, the Promise at line 70 would always be truthy, so every candidate would be refused with no error pushed and the accept case of `PoolEntry.CanEnterTransactionPool` could never occur. The two un-awaited calls are treated differently because their results are used differently: line 70 branches on the returned value, which only makes sense for a plain boolean, while line 58 discards the result of a method that this class itself overrides as `async`.
- The pool and processor queries (`pool.getTransactionsByType`, `processor.getTransactions`): these are sequence snapshots. The by-type query is the pool filtered on the type tag. `processor.pushError` becomes the returned `errors`.
- `TransactionReader`, the database connection and paging I/O: the log is a `seq<seq<Transaction>>` of pages. The reader yields only this handler's transaction type, so the model does not filter the log by type.
- `walletManager.reindex`: it maintains lookup indexes only and changes no wallet content.
- `findByPublicKey`: the wallet manager is not part of this model. The model assumes an unknown key yields a new wallet with zero balance, zero nonce and no attributes. The real lookup goes through the address derived from the key, so the wallet found may already exist and hold a balance; a store keyed by public key cannot express that.
- `emitEvents` (event bus), `isActivated` (milestone configuration), and `getConstructor`, `dependencies`, `walletAttributes` (registration boilerplate). They hold no logic about wallet state. The transaction type tag from `getConstructor().type` is the parameter `ownType`.
- Promises and `async`: every operation is a pure function, except the bootstrap loop, which is a method. Awaited calls are modelled as their results; the un-awaited call at line 58 is listed under Findings.
- A transaction whose `asset.businessRegistration` is missing: every transaction of this type is assumed to carry the asset object. Reading a field of the missing object at lines 32-33, 49, 74, 77 (for a batch transaction of this type) and 92 would throw a `TypeError`, which is neither `BusinessRegistrationAssetError` nor a pool diagnostic, and line 105 would store `undefined` as the attribute; neither path is modelled.
- SenderState.ApplyIsIdempotent: covers only the handler's own attribute write. A second real commit would also run `super.applyToSender` (fee, balance, nonce) again, and the framework's double-apply protection is not part of this model.
- Bootstrap.ReplayOneIsApply: covers only the attribute write. A real commit also runs `super.applyToSender`, which bootstrap never runs; and line 105 stores the transaction's own asset object while lines 31-34 store a fresh `{name, website}` copy, a difference (extra fields, object identity) that the two-field `BusinessAsset` cannot express.

## Findings

| source | as written | input that shows it | evidently intended | confidence | as-written member | corrected member |
|---|---|---|---|---|---|---|
| src/handlers/BusinessRegistrationTransactionHandler.ts:58 | `super.throwIfCannotBeApplied(...)` is called without `await`, so a rejection from the generic checks never reaches the caller, and the handler's check resolves successfully | a well-formed registration `{name: "Acme Corp", website: "acme.example"}` from a wallet without `business` whose generic check fails (for example, insufficient balance) | the generic check's failure is the result of the admission check | medium (the base class is not part of this model; its check being asynchronous is inferred from this override being `async` and from lines 103 and 110 awaiting the sibling base methods); not executed | Admission.ThrowIfCannotBeAppliedAsWritten | Admission.ThrowIfCannotBeApplied |
