# Payments engine ledger, modelled in Dafny

This project models the ledger core of a small payments engine written in
Rust. The engine replays an ordered stream of transactions into a map from
client id to client state. It then projects each entry into one output row
holding available, held and total funds and a lock flag.

The model has six modules:

- `Types` (`types.dfy`) holds the engine's vocabulary:
  - client and transaction ids, as the ranges of `u16` and `u32`;
  - exact monetary amounts, with addition, subtraction and ordering;
  - account activities (deposit, withdrawal) and dispute-management requests (dispute, resolve, chargeback);
  - rejected withdrawals, each with its snapshot of disputed ids;
  - the per-client transaction history and client state, with their field-update helpers (`map_*`, `update_locked`);
  - the output row and the ledger.
- `Utils` (`utils.dfy`) holds the immutable helpers: lookup with a default, `push` and `remove_idx`.
  - `push` and `remove_idx` are specified as sequence functions.
  - They also appear as methods that clone the input into a fresh buffer and then mutate that buffer, as the Rust code does.
- `Transactions` (`transactions.dfy`) holds the five transaction rules. Each is a function from a client state to its next state.
  - Dispute, resolve and chargeback return `None` when they have no effect.
  - The state invariant is: total = available + held; the rejected list holds only withdrawals; each activity is stored under its own id.
- `Backfill` (`backfill.dfy`) holds the retroactive backfill run after a resolve. It is a fold over the client's rejected withdrawals.
  - `Applied` is an independent reference pass. It says which entries a left-to-right pass applies.
  - The fold is proved to agree with it on balances and on the rejected list.
  - The two runtime panics of the backfill are preconditions, and every caller is proved to meet them. The panics are the `panic!` on a non-withdrawal and the `unwrap` of the search.
- `Engine` (`engine.dfy`) holds the ledger. It has the per-transaction dispatch, the fold over the stream and the projection into rows. It also proves:
  - that the invariant is kept;
  - that a locked client is frozen;
  - that clients are independent of each other;
  - that the output rows are balanced and unique per client.
- `Scenarios` (`scenarios.dfy`) holds worked examples: the repository's unit tests, and backfill examples including the causal rule.

Amounts are exact rationals (`real`): the model treats the engine's
decimal arithmetic as exact. The output ledger is a set of rows, because the order of the rows
comes from hash-map iteration and is unspecified.

## Model

| member | source | states |
|---|---|---|
| `Types.MonetaryAmount.Zero` | src/lib/types.rs:28-29 | the default amount is the identity of addition |
| `Types.MonetaryAmount.Add` | src/lib/types.rs:44-50 | the sum is the exact sum of the two values |
| `Types.MonetaryAmount.Sub` | src/lib/types.rs:52-58 | adding the subtrahend back, on either side, gives the minuend |
| `Types.AddSubCancel` | src/lib/types.rs:44-58 | `(a + b) - b == a` and `(a - b) + b == a` |
| `Types.MonetaryAmount.Less` | src/lib/types.rs:28 | `a < b` exactly when `b - a` is positive |
| `Types.MonetaryAmount.LessEq` | src/lib/types.rs:28 | `a <= b` exactly when `b - a` is non-negative |
| `Types.OrderingIsTotal` | src/lib/types.rs:28-29 | the ordering is total and strict; `<=` is `<` or `==` |
| `Types.TransactionHistory.Default` | src/lib/types.rs:103-108 | the default history has empty activity, disputed and rejected collections |
| `Types.TransactionHistory.MapAccountActivity` | src/lib/types.rs:111-121 | only the activity map is replaced, by `f` of it; the other two are copied |
| `Types.TransactionHistory.MapDisputedTx` | src/lib/types.rs:123-131 | only the disputed set is replaced, by `f` of it; the other two are copied |
| `Types.TransactionHistory.MapRejectedActivity` | src/lib/types.rs:133-141 | only the rejected list is replaced, by `f` of it; the other two are copied |
| `Types.ClientState.Default` | src/lib/types.rs:144-151 | zero available, held and total, unlocked, empty history |
| `Types.ClientState.MapAvail` | src/lib/types.rs:154-159 | only `available` changes, to `f` of it |
| `Types.ClientState.MapTotal` | src/lib/types.rs:161-166 | only `total` changes, to `f` of it |
| `Types.ClientState.MapHeld` | src/lib/types.rs:168-173 | only `held` changes, to `f` of it |
| `Types.ClientState.MapHistory` | src/lib/types.rs:175-180 | only `history` changes, to `f` of it |
| `Types.ClientState.UpdateLocked` | src/lib/types.rs:182-187 | only the lock flag changes, to the given value |
| `Types.ClientLedger.FromState` | src/lib/types.rs:199-207 | the row carries the given id and copies available, held, total and the lock flag |
| `Utils.Option.Unwrap` | src/lib/transactions.rs:116 | requires a found index (the `unwrap` panics otherwise); the option holds exactly the value returned |
| `Utils.GetOrDefault` | src/lib/utils.rs:13-18 | the stored value when the key is present, the default when it is absent |
| `Utils.Push` | src/lib/utils.rs:25-29 | one longer; the original is the prefix and the item is last |
| `Utils.PushImmut` | src/lib/utils.rs:25-29 | a fresh buffer one slot longer, filled with the item and then overwritten with a copy of the input in every slot but the last, yields exactly `Push` |
| `Utils.RemoveIdx` | src/lib/utils.rs:36-40 | requires an index in range; one shorter, the same before `idx`, shifted after it, and the same multiset less the removed element |
| `Utils.RemoveImmut` | src/lib/utils.rs:36-40 | cloning and shifting the tail left over `idx` yields exactly `RemoveIdx` |
| `Backfill.FindRejected` | src/lib/transactions.rs:111-116 | the index of the first entry whose activity equals the one sought, or none when no entry holds it |
| `Backfill.WithdrawAmount` | src/lib/transactions.rs:94-99 | requires a withdrawal (anything else is the `panic!`); the activity is a withdrawal of exactly the amount returned |
| `Backfill.ActivitiesRemoveIdx` | src/lib/transactions.rs:117 | removing an entry removes exactly its activity from the multiset of activities |
| `Backfill.BackfillStep` | src/lib/transactions.rs:90-122 | applied only when the resolved id is in the snapshot and the amount fits available; then available and total fall by it, available stays non-negative and one copy of the activity leaves the list; otherwise the state is unchanged |
| `Backfill.BackfillStepRemovesFirst` | src/lib/transactions.rs:108-118 | an applied step removes the first entry holding the activity |
| `Backfill.Applied` | src/lib/transactions.rs:90-103 | reference pass: an entry is marked only when its snapshot holds the resolved id |
| `Backfill.AppliedFitsAvailable` | src/lib/transactions.rs:101-106 | the amounts the pass applies fit, together, in the funds it starts from |
| `Backfill.PendingStaysAvailable` | src/lib/transactions.rs:111-116 | the entry being processed is still in the accumulator's list, so the `unwrap` cannot fail, and this holds for the rest |
| `Backfill.BackfillFold` | src/lib/transactions.rs:81-124 | the fold keeps held, lock, activities, disputed set and total minus available, and only removes entries |
| `Backfill.WithdrawalsInherited` | src/lib/transactions.rs:95-98 | entries drawn from a withdrawals-only list are withdrawals, so the `panic!` stays unreachable |
| `Backfill.BackfillFoldMatchesApplied` | src/lib/transactions.rs:101-106 | available and total fall by the sum of the amounts the reference pass applies |
| `Backfill.BackfillFoldRemovesApplied` | src/lib/transactions.rs:105-119 | exactly the activities the reference pass applies leave the rejected list |
| `Backfill.BackfillNothingApplied` | src/lib/transactions.rs:120-121 | a pass that applies nothing returns its starting state |
| `Backfill.BackfillFoldKeepsOthers` | src/lib/transactions.rs:110-121 | with distinct activities, the list left behind is the entries not applied, in order |
| `Backfill.BackfillKeepsInvariants` | src/lib/transactions.rs:81-124 | the backfill keeps the balance invariant and leaves only withdrawals; after it available is non-negative unless nothing changed |
| `Backfill.ResolvePrevRejected` | src/lib/transactions.rs:81-124 | held, lock, activities, disputed set and total minus available are kept; balanced stays balanced; only withdrawals remain; available is non-negative unless nothing was applied |
| `Backfill.ResolvePrevRejectedMatchesApplied` | src/lib/transactions.rs:81-124 | agrees with the reference pass: balances fall by the applied sum, the applied activities leave, and with distinct activities the unapplied entries stay in order |
| `Backfill.ResolveNothingWaiting` | src/lib/transactions.rs:90-92 | causal rule: when no snapshot holds the resolved id, the backfill changes nothing |
| `Backfill.ResolveKeepsUnrelated` | src/lib/transactions.rs:120-121 | when the rejected activities are pairwise distinct, an entry not waiting on the resolved id stays in the rejected list |
| `Transactions.DefaultIsValid` | src/lib/types.rs:144-151 | the default client state satisfies the state invariant |
| `Transactions.UpdateDeposit` | src/lib/transactions.rs:8-23 | locked: unchanged; otherwise available and total rise by the amount and the activity is stored under its id, all else kept; balance kept |
| `Transactions.UpdateWithdrawal` | src/lib/transactions.rs:25-59 | applied exactly when unlocked and available and total cover the amount, then both fall and the activity is stored; parked when total covers it, available does not and a dispute is open, then only one rejected entry with the current disputed set is appended; otherwise unchanged; balance and withdrawals-only kept |
| `Transactions.ActivityRulesKeepWithdrawalsOnly` | src/lib/transactions.rs:46-50 | deposits and withdrawals add only withdrawals to the rejected list |
| `Transactions.WithdrawalOutcomesExclusive` | src/lib/transactions.rs:32-44 | applied and parked never both hold; applied implies the amount fits available and total |
| `Transactions.LookupActivity` | src/lib/transactions.rs:67 | some exactly when an activity is recorded under the id, and then that activity |
| `Transactions.UpdateDispute` | src/lib/transactions.rs:61-79 | none exactly when locked, already disputed or not a recorded deposit; otherwise the amount moves from available to held, the deposit's id joins the disputed set, all else kept; balance kept |
| `Transactions.Undispute` | src/lib/transactions.rs:133-136 | the deposit's amount moves from held to available and the id stored in the deposit leaves the disputed set; all else is kept |
| `Transactions.UpdateResolve` | src/lib/transactions.rs:126-142 | none exactly when locked, not disputed or not a recorded deposit; otherwise held falls by the amount, the id leaves the disputed set, lock and activities kept, total minus available falls by the amount, only withdrawals remain; balance kept |
| `Transactions.ResolveIsUndisputeThenBackfill` | src/lib/transactions.rs:126-142 | a resolve that takes effect is exactly the undo of the dispute followed by the backfill of the deposit's id |
| `Transactions.ResolveBackfillsApplied` | src/lib/transactions.rs:126-142 | a resolve that takes effect frees the deposit from held; available gains it and, like total, loses the amounts the reference pass applies from the released funds; exactly those withdrawals leave the rejected list |
| `Transactions.UpdateChargeback` | src/lib/transactions.rs:144-160 | none exactly when locked, not disputed or not a recorded deposit; otherwise total and held fall by the amount, available and the whole history are kept, and the account locks; balance kept |
| `Transactions.LockedIsFrozen` | src/lib/transactions.rs:8-160 | on a locked account deposit and withdrawal return the state and the other three rules have no effect |
| `Transactions.DisputeIdempotent` | src/lib/transactions.rs:61-79 | after a dispute takes effect, disputing the same id again has no effect |
| `Transactions.DisputeThenResolve` | src/lib/transactions.rs:61-142 | a resolve after a dispute restores the exact earlier state when no rejected withdrawal waits on the id |
| `Transactions.ResolveWithNothingWaiting` | src/lib/transactions.rs:126-142 | with nothing waiting, a resolve is exactly `Undispute`: the amount moves from held to available and the id leaves the disputed set |
| `Transactions.RulesKeepValid` | src/lib/transactions.rs:8-160 | every rule that takes effect keeps the state invariant |
| `Engine.DefaultHasNoActivity` | src/lib/utils.rs:16 | the default state a new client starts from records no deposit |
| `Engine.ResolveTransaction` | src/lib/transactions.rs:162-202 | only the named client's entry can change; a client is added only by a deposit or a withdrawal; the backfill precondition is kept |
| `Engine.ResolveActivity` | src/lib/transactions.rs:167-176 | the activity's client is always stored; no other entry changes |
| `Engine.ResolveManagement` | src/lib/transactions.rs:177-200 | the clients stay the same; no other entry changes |
| `Engine.LookupKeepsWithdrawalsOnly` | src/lib/transactions.rs:168 | the stored or default state holds only withdrawals in its rejected list |
| `Engine.StoreKeepsWithdrawalsOnly` | src/lib/transactions.rs:170 | storing under a client adds it, leaves the others and keeps the backfill precondition |
| `Engine.ActivityOutcome` | src/lib/transactions.rs:167-176 | the client's entry becomes its rule's result on the stored or default state |
| `Engine.ManagementOutcome` | src/lib/transactions.rs:177-200 | the client's entry becomes the rule's result when the rule takes effect; otherwise the ledger is returned as it was |
| `Engine.ActivityClients` | src/lib/transactions.rs:209-211 | every client named by a deposit or a withdrawal in the stream is included |
| `Engine.FoldTransactions` | src/lib/transactions.rs:209-211 | the clients after the replay are those before it plus those named by a deposit or a withdrawal; the backfill precondition holds throughout |
| `Engine.FoldCons` | src/lib/transactions.rs:209-211 | the replay applies the first transaction, then replays the rest |
| `Engine.CreateLedgerWithInit` | src/lib/transactions.rs:205-216 | every row is the projection of its client's final state; every final client has its row |
| `Engine.CreateLedger` | src/lib/transactions.rs:219-221 | from an empty map, every row belongs to a client named by a deposit or a withdrawal, and every such client has a row |
| `Engine.ResolveTransactionKeepsValid` | src/lib/transactions.rs:162-202 | one transaction keeps every client's state invariant |
| `Engine.FoldKeepsValid` | src/lib/transactions.rs:209-211 | the whole replay keeps every client's state invariant |
| `Engine.LockedClientUntouched` | src/lib/transactions.rs:162-202 | a transaction for a locked client leaves the whole ledger as it was |
| `Engine.LockedClientFrozen` | src/lib/transactions.rs:209-211 | once locked, a client's state survives every later transaction unchanged |
| `Engine.ResolveTransactionLocal` | src/lib/transactions.rs:162-202 | a transaction's outcome for its client depends only on that client's entry |
| `Engine.ForClient` | src/lib/transactions.rs:209-211 | the filtered stream holds only the client's transactions, drops none of them, and is no longer than the stream |
| `Engine.ClientIndependence` | src/lib/transactions.rs:209-211 | a client's final entry is what replaying only its own transactions gives, from any ledger agreeing on it |
| `Engine.ClientSeesOnlyItsOwn` | src/lib/transactions.rs:209-211 | replaying the whole stream or only the client's part gives that client the same entry |
| `Engine.DisputeTwiceIsOnce` | src/lib/transactions.rs:177-184 | at the ledger level, the same dispute twice in a row equals it once |
| `Engine.CreateLedgerRowsSound` | src/lib/transactions.rs:205-216 | from valid states, every row is balanced and no two rows share an id |
| `Engine.CreateLedgerRowsBalanced` | src/lib/transactions.rs:219-221 | the ledger of a fresh replay has balanced rows with distinct ids |
| `Scenarios.WithdrawalUnderAvailableDropped` | src/lib/transactions.rs:234-264 | with 5 of 10 available and no dispute, withdrawing 6 changes nothing |
| `Scenarios.WithdrawalWithinAvailableApplied` | src/lib/transactions.rs:267-297 | withdrawing the 5 available leaves total 5, available 0, held 5 |
| `Scenarios.DepositRaisesTotalAndAvailable` | src/lib/transactions.rs:300-330 | depositing 5 gives total 15, available 10, held 5 |
| `Scenarios.DepositThenWithdrawWithinFunds` | src/lib/transactions.rs:25-59 | a new client's deposit of 5 and withdrawal of 3 leave 2 available and total, unlocked |
| `Scenarios.OverdrawnWithdrawalDropped` | src/lib/transactions.rs:32-38 | withdrawing 20 from 10 with no open dispute leaves the state as it was |
| `Scenarios.DisputeResolveRoundTrip` | src/lib/transactions.rs:544-578 | from 10 available: deposit 5, dispute, resolve; after the dispute 10 available, 5 held, 15 total; the resolve returns exactly the state before the dispute, 15 available and total, nothing held |
| `Scenarios.DisputeChargeback` | src/lib/transactions.rs:654-765 | from 10 available: deposit 5, dispute, chargeback; locked, total 10, held 0, available 10 |
| `Scenarios.DisputeOfWithdrawalIgnored` | src/lib/transactions.rs:435-468 | a dispute of a withdrawal has no effect |
| `Scenarios.DisputeHoldsDeposit` | src/lib/transactions.rs:333-432 | from 10 available: deposit 5 and dispute it; 10 available, 5 held, 15 total |
| `Scenarios.UnknownDisputeIgnored` | src/lib/transactions.rs:471-504 | from 10 available: deposit 5; a dispute of an unknown id has no effect, leaving 15 available and total |
| `Scenarios.UnknownResolveIgnored` | src/lib/transactions.rs:616-651 | from 10 available: deposit 5 and dispute it; a resolve of an unknown id has no effect, leaving 10 available, 5 held, 15 total |
| `Scenarios.UnknownChargebackIgnored` | src/lib/transactions.rs:767-805 | from 10 available: deposit 5 and dispute it; a chargeback of an unknown id has no effect, leaving 10 available, 5 held, 15 total |
| `Scenarios.SecondDisputeIgnored` | src/lib/transactions.rs:507-541 | the second dispute of a deposit has no effect: 10 available, 5 held, 15 total |
| `Scenarios.UndisputedResolveIgnored` | src/lib/transactions.rs:581-614 | from 10 available: deposit 5; a resolve of the undisputed deposit has no effect, leaving 15 available and total |
| `Scenarios.UndisputedChargebackIgnored` | src/lib/transactions.rs:808-845 | from 10 available: deposit 5; a chargeback of the undisputed deposit has no effect, leaving 15 available and total, unlocked |
| `Scenarios.ReachWaitingOnFirst` | src/lib/transactions.rs:41-50 | deposit 100, dispute it, deposit 50, withdraw 80 parks the withdrawal with snapshot {1} |
| `Scenarios.BackfillWaitsForItsOwnDispute` | src/lib/transactions.rs:90-103 | resolving a later dispute does not release a withdrawal waiting on an earlier one, even with funds to cover it |
| `Scenarios.ResolveAppliesSoleWaiting` | src/lib/transactions.rs:126-142 | resolving the one open dispute that a single parked withdrawal waits on applies it when the released funds cover it |
| `Scenarios.BackfillAppliesSoleEntry` | src/lib/transactions.rs:101-119 | a pass over one eligible entry that fits applies it and empties the list |
| `Scenarios.BackfillAppliedOnItsOwnResolve` | src/lib/transactions.rs:126-142 | resolving deposit 1 releases the parked 80: 70 available and total, nothing held, no rejected entry |
| `Scenarios.BackfillAppliesWaitingWithdrawal` | src/lib/transactions.rs:41-50 | 250 and 10, dispute the 10, withdraw 255: parked at 250 available; the resolve applies it, leaving 5 |
| `Scenarios.LedgerChargeback` | src/lib/transactions.rs:654-765 | through the ledger fold: the client ends locked with total 10, available 10, held 0, and is the only client |
| `Scenarios.LedgerDepositStep` | src/lib/transactions.rs:166-170 | the ledger's deposit step stores 15 available and total and records the deposit |
| `Scenarios.LedgerDisputeStep` | src/lib/transactions.rs:176-183 | the ledger's dispute step holds the 5 and marks the deposit disputed |
| `Scenarios.LedgerChargebackStep` | src/lib/transactions.rs:192-199 | the ledger's chargeback step removes the 5 from held and total and locks |

## Left out

- CSV input and output (src/lib/io.rs) are not modelled. This includes the `f64` amount field, the four-decimal formatting and the row-shape check; the `Transaction` datatype already carries an amount exactly for deposits and withdrawals.
- `MonetaryAmount::new` (src/lib/types.rs:32-37) is not modelled. It is floating-point conversion; amounts are exact reals from the start.
- The decimal type's limits are not modelled. It has a 96-bit mantissa and at most 28 decimal places. Arithmetic here is exact and unbounded, so two things do not exist in the model: the overflow panic of the decimal library, and the rounding it applies when a sum or difference needs more significant digits than the mantissa holds.
- The shared test helpers (test_utils/src/lib.rs) and the CSV-driven integration test (tests/lib_integration.rs) are not modelled. The unit tests of src/lib/transactions.rs are modelled in `Scenarios`.
- The command-line entry point and the file wiring (src/main.rs, src/lib/lib.rs) are left out. They are I/O.
- The order of the output rows is not modelled. It follows hash-map iteration and is unspecified, so the ledger is a set of rows.
- The performance of the persistent `im` collections is not modelled. Maps, sets and sequences are Dafny values.
- The stream is a finite sequence rather than a lazy iterator.
- `GetOrDefault` takes the default value as an argument, where the code uses the type's `Default`.
- `Push` and `RemoveIdx` are used as pure functions inside the rules, which are expressions. The clone-and-mutate form exists as `PushImmut` and `RemoveImmut`, but the rules cannot call methods. Nothing is lost, because the clone is never shared.
- The two backfill panics (`panic!` at src/lib/transactions.rs:98, `unwrap` at src/lib/transactions.rs:116) are preconditions rather than aborts. The model proves that every caller meets them: the rejected list only ever holds withdrawals, and the entry being processed is always found.
- BackfillFoldKeepsOthers (`Backfill.BackfillFoldKeepsOthers`) assumes pairwise distinct rejected activities. So does the list-shape part of `Backfill.ResolvePrevRejectedMatchesApplied`.
  - The backfill removes the first entry equal to the withdrawal being applied. With two identical rejected withdrawals it may remove the other copy.
  - The multiset statement holds without this assumption.
- ResolveKeepsUnrelated (`Backfill.ResolveKeepsUnrelated`) requires pairwise distinct rejected activities. With duplicates it is false: for the list `[R(w, {}), R(w, {9})]`, resolving 9 applies the second entry, but the search removes the first, unrelated one. Distinct activities hold whenever transaction ids are unique.
- UpdateResolve (`Transactions.UpdateResolve`): its own ensures do not fix `available` or the rejected list after the backfill. That link is stated by `Transactions.ResolveIsUndisputeThenBackfill` and `Transactions.ResolveBackfillsApplied`. Putting it in the ensures makes every use on a concrete state unfold the whole backfill.
- `Transactions.UpdateResolve` requires only-withdrawals in the rejected list, which the code does not check. This is the backfill's panic freedom, and every reachable state satisfies it (`Engine.FoldTransactions`).
- `Transactions.DisputeThenResolve` requires that no rejected withdrawal waits on the disputed id. When one does, the backfill may apply it; `Transactions.ResolveBackfillsApplied` states that case.
