# Wallet-to-wallet transfer, modelled and verified in Dafny

This project models the transfer endpoint of an e-wallet API, `TransferController::store`.
An authenticated sender sends an amount to another user, named by username or by wallet
card number. The endpoint first runs a fixed chain of guards. Any failing guard returns
early and changes nothing:

1. validation of `amount`, `pin` and `send_to`;
2. the PIN check;
3. receiver lookup;
4. a self-transfer check;
5. a balance check.

Then it opens a database transaction. Inside it, the endpoint:

- writes the sender's "transfer" ledger row;
- debits the sender;
- writes the receiver's "receive" ledger row;
- credits the receiver;
- writes one transfer-history row that links both rows by a shared ten-character code.

It then commits, or rolls back on any exception.

The ledger is a value `Records.State`. Wallets and usernames are maps keyed by user id.
The transaction-type and payment-method catalogs are maps keyed by their `code` column.
The transaction and history tables are append-only sequences.

The model has two layers:

- `TransferSpec.Store` is the endpoint as a function from the ledger before the call to the
  outcome and the ledger after it. The write is all-or-nothing.
- `TransferEngine.Ledger` is a class holding the same tables as fields. Its `Store` method
  runs the guards, saves the tables when the unit of work begins, and makes the writes one at
  a time. If any step faults, it puts the saved tables back. The method is proved to produce
  exactly what `TransferSpec.Store` says.

The properties are lemmas about `TransferSpec.Store` in `TransferProperties`:

- which guard answers which request, in which order;
- every rejection and every fault leaves the whole ledger unchanged;
- a success moves exactly the amount and keeps the total of all balances;
- no balance becomes negative;
- a success writes exactly two rows with one code and one history row;
- the audit invariant "every history row is backed by exactly its two rows" is preserved
  whenever the new code is fresh.

The collaborators the endpoint calls are parameters:

- `pinChecker: string -> bool` is the PIN-hash comparison, an uninterpreted predicate;
- `random` is the string `Str::random(10)` draws, required to be ten ASCII letters or digits;
  the code is `strtoupper` of it;
- `fault: Fault` is whatever the storage layer raises inside the unit of work, either nothing
  or a fault at one named statement (a statement that faults takes no effect).

A missing catalog entry is also a fault inside the unit of work, because the code then reads
`->id` of a null row. Two catalog lookups can fail this way: both transaction types missing, or
no `bwa` payment method.

Where the system's design description says otherwise, this model follows the code:

- The PIN is checked before the receiver lookup is reported, and self-transfer is checked
  only after the receiver has been resolved.
- The design calls for a `ConfigurationMissing` error when either transaction type is
  absent. The code fails only when both are absent. With one of them present, the ordered
  query has one row, which is both its `first()` and its `last()`, so both ledger rows get that
  type (`TransferProperties.SingleTypeTagsBothRows`).
- The balance check runs before the unit of work opens, as in the code.
- There is no separate timeout or configuration outcome: every fault inside the unit of work
  answers `Failed`, as the code's single `catch` does.

## Model

| member | source | states |
|---|---|---|
| `Validation.Passes` | app/Http/Controllers/Api/TransferController.php:23-29 | definition: the validator passes exactly when the amount is an integer of at least 10000, the PIN is a present six-digit string and `send_to` is present and not blank under PHP `trim` |
| `Validation.PinValidIsDigits` | app/Http/Controllers/Api/TransferController.php:25 | the PIN rules `required` and `digits:6` accept exactly a present string of six decimal digits |
| `Catalog.ReceiveSortsFirst` | app/Http/Controllers/Api/TransferController.php:71 | in ascending code order "receive" comes strictly before "transfer" |
| `Catalog.OrderedTypeIds` | app/Http/Controllers/Api/TransferController.php:71 | the ordered type query yields the id of "receive" if present followed by the id of "transfer" if present, and when it yields both, "receive" sorts before "transfer"; no id exactly when neither code exists |
| `Catalog.SelectTypes` | app/Http/Controllers/Api/TransferController.php:71-74 | `first()` is the receive side and `last()` the transfer side; with both codes present they are the "receive" and "transfer" ids; with one present both sides take it; with none the lookup fails |
| `Receiver.Matches` | app/Http/Controllers/Api/TransferController.php:36-39 | definition: a user is a row of the users-wallets join whose username or wallet card number equals the token |
| `Receiver.LeastExists` | app/Http/Controllers/Api/TransferController.php:40 | every non-empty set of matches has a least id, so `first()` has a well-defined answer |
| `Receiver.Least` | app/Http/Controllers/Api/TransferController.php:40 | the chosen match is a member of the set and no larger than any other member |
| `Receiver.Resolve` | app/Http/Controllers/Api/TransferController.php:36-40 | a found receiver matches the token by username or card number; nothing is found exactly when no user matches |
| `Receiver.ResolveUnique` | app/Http/Controllers/Api/TransferController.php:36-40 | when exactly one user matches, that user is the receiver |
| `Receiver.ResolvedHasWallet` | app/Http/Controllers/Api/TransferController.php:36-37 | a found receiver has a wallet and a username, and one of them spells the token |
| `TransactionCode.UpperChar` | app/Http/Controllers/Api/TransferController.php:76 | `strtoupper` maps an ASCII lower-case letter to its upper-case letter and leaves other characters alone |
| `TransactionCode.ToUpper` | app/Http/Controllers/Api/TransferController.php:76 | `strtoupper` keeps the length and upper-cases each character in place |
| `TransactionCode.MintCode` | app/Http/Controllers/Api/TransferController.php:76 | the code minted from a ten-character alphanumeric random string is ten upper-case letters or digits, each letter upper-cased from the random string |
| `TransactionCode.ToUpperIdempotent` | app/Http/Controllers/Api/TransferController.php:76 | upper-casing a code again changes nothing |
| `Balances.TotalSplit` | app/Http/Controllers/Api/TransferController.php:91 | the total of all balances splits at any wallet into that wallet's balance plus the rest |
| `Balances.TotalUpdate` | app/Http/Controllers/Api/TransferController.php:91 | changing one wallet changes the total by exactly that wallet's change |
| `Balances.TotalConservedByMove` | app/Http/Controllers/Api/TransferController.php:91-105 | a debit of one wallet and an equal credit of another leave the total unchanged |
| `Pairing.CodeCount` | app/Http/Controllers/Api/TransferController.php:86 | the number of rows with a code is at most the number of rows |
| `Pairing.CodeCountAppend` | app/Http/Controllers/Api/TransferController.php:81-103 | counting a code over appended rows adds the counts of the two parts |
| `Pairing.CodeCountZero` | app/Http/Controllers/Api/TransferController.php:86 | a code counted zero times is on no row |
| `Pairing.CodeCountNone` | app/Http/Controllers/Api/TransferController.php:86 | a code that is on no row counts zero |
| `Pairing.BackedAfterAppend` | app/Http/Controllers/Api/TransferController.php:81-111 | appending rows with a fresh code keeps every earlier history row backed by exactly its two rows |
| `TransferSpec.TransferRow` | app/Http/Controllers/Api/TransferController.php:81-89 | definition: the sender's row: sender id, the transfer-side type, "Transfer funds to " and the receiver's username, the amount, the code, status "success" and the payment method |
| `TransferSpec.ReceiveRow` | app/Http/Controllers/Api/TransferController.php:95-103 | definition: the receiver's row: receiver id, the receive-side type, "Receive funds from " and the sender's username, the amount, the code, status "success" and the payment method |
| `TransferSpec.Debit` | app/Http/Controllers/Api/TransferController.php:91 | definition: the sender's wallet with its balance lowered by the amount, every other wallet as it was |
| `TransferSpec.Credit` | app/Http/Controllers/Api/TransferController.php:105 | definition: the receiver's wallet with its balance raised by the amount, every other wallet as it was |
| `TransferSpec.Committed` | app/Http/Controllers/Api/TransferController.php:81-111 | definition: the committed ledger: both rows appended in order, the debit then the credit applied, and the history row appended |
| `TransferSpec.Write` | app/Http/Controllers/Api/TransferController.php:69-123 | the unit of work succeeds or fails; it fails exactly when a type lookup or the "bwa" lookup fails or the storage faults; a failure leaves the ledger as it was |
| `TransferSpec.Store` | app/Http/Controllers/Api/TransferController.php:19-124 | any outcome other than success leaves the whole ledger unchanged |
| `TransferProperties.ValidationRejected` | app/Http/Controllers/Api/TransferController.php:23-33 | the answer is a validation error exactly when the request fails the rules, and then nothing changes |
| `TransferProperties.SmallAmountRejected` | app/Http/Controllers/Api/TransferController.php:24 | an amount below 10000 gives a validation error and the ledger unchanged, whatever else the request holds |
| `TransferProperties.PinRejected` | app/Http/Controllers/Api/TransferController.php:42-48 | "invalid pin" is the answer exactly when a valid request has a wrong PIN, whatever its receiver and balance |
| `TransferProperties.ReceiverNotFound` | app/Http/Controllers/Api/TransferController.php:50-54 | "user not found" is the answer exactly when the PIN is right and no user with a wallet has the token as username or card number |
| `TransferProperties.SelfTransferRejected` | app/Http/Controllers/Api/TransferController.php:56-60 | the self-transfer refusal is the answer exactly when the PIN is right and the token resolves to the sender |
| `TransferProperties.BalanceRejected` | app/Http/Controllers/Api/TransferController.php:62-67 | the balance refusal is the answer exactly when all earlier guards pass and the sender's balance is below the amount |
| `TransferProperties.WriteFailed` | app/Http/Controllers/Api/TransferController.php:69-123 | after all guards pass, a missing catalog row or a storage fault answers `Failed` with the ledger unchanged, and nothing else does |
| `TransferProperties.TransferSucceeded` | app/Http/Controllers/Api/TransferController.php:19-117 | a transfer succeeds exactly when every guard passes, both catalog lookups find a row and nothing faults |
| `TransferProperties.ExactBalanceSucceeds` | app/Http/Controllers/Api/TransferController.php:63 | a balance equal to the amount is enough, and it leaves the sender at zero |
| `TransferProperties.SuccessMovesFunds` | app/Http/Controllers/Api/TransferController.php:91-105 | on success the sender loses exactly the amount and the receiver gains exactly the amount; their sum is kept; every other wallet and every card number is unchanged |
| `TransferProperties.TotalConserved` | app/Http/Controllers/Api/TransferController.php:91-105 | the sum of all balances is the same after every call as before |
| `TransferProperties.NonNegativePreserved` | app/Http/Controllers/Api/TransferController.php:63-91 | if no balance was negative before a call, none is after it |
| `TransferProperties.SuccessAppendsRecords` | app/Http/Controllers/Api/TransferController.php:76-111 | on success exactly two rows are appended: the sender's, then the receiver's; they share one upper-case code, the amount, status "success" and the "bwa" method, with the descriptions the code writes; exactly one history row (sender, receiver, code) is appended; users and catalogs are unchanged |
| `TransferProperties.SuccessTypesByCode` | app/Http/Controllers/Api/TransferController.php:71-97 | with both types in the catalog the sender's row is typed "transfer" and the receiver's "receive" |
| `TransferProperties.SingleTypeTagsBothRows` | app/Http/Controllers/Api/TransferController.php:71-74 | with only one of the two types in the catalog both rows get the same type |
| `TransferProperties.SuccessIsPaired` | app/Http/Controllers/Api/TransferController.php:81-111 | with a fresh code, a success leaves exactly two rows with that code, backing the new history row as its sender and receiver sides |
| `TransferProperties.PairedPreserved` | app/Http/Controllers/Api/TransferController.php:69-123 | with a fresh code, every history row stays backed by exactly its two rows after any call |
| `TransferEngine.Ledger.AppendTransaction` | app/Http/Controllers/Api/TransferController.php:81-89 | `Transaction::create` appends the row and changes nothing else |
| `TransferEngine.Ledger.AppendHistory` | app/Http/Controllers/Api/TransferController.php:107-111 | `TransferHistory::create` appends the row and changes nothing else |
| `TransferEngine.Ledger.Decrement` | app/Http/Controllers/Api/TransferController.php:91 | the sender's balance drops by the amount; nothing else changes |
| `TransferEngine.Ledger.Increment` | app/Http/Controllers/Api/TransferController.php:105 | the receiver's balance rises by the amount; nothing else changes |
| `TransferEngine.Ledger.RollBack` | app/Http/Controllers/Api/TransferController.php:119 | `DB::rollBack()` restores exactly the tables saved at `DB::beginTransaction()` |
| `TransferEngine.Ledger.UnitOfWork` | app/Http/Controllers/Api/TransferController.php:69-123 | the step-by-step writes with rollback leave exactly the all-or-nothing result of `TransferSpec.Write`, whichever statement faults |
| `TransferEngine.Ledger.Store` | app/Http/Controllers/Api/TransferController.php:19-124 | the method gives the outcome and ledger of `TransferSpec.Store`; a non-success leaves the ledger unchanged; the total balance is kept; non-negative balances and the pairing invariant (with a fresh code) are preserved |
| `Scenarios.RequestPasses` | app/Http/Controllers/Api/TransferController.php:23-27 | an amount of at least 10000, the PIN 123456 and a token starting with a visible character pass validation |
| `Scenarios.BobResolves` | app/Http/Controllers/Api/TransferController.php:36-40 | on the two-user ledger both bob's username and his card number resolve to bob |
| `Scenarios.RandomCode` | app/Http/Controllers/Api/TransferController.php:76 | the random string "abcdEFGH12" mints the code "ABCDEFGH12" |
| `Scenarios.TransferToBob` | app/Http/Controllers/Api/TransferController.php:19-117 | 20000 from a balance of 50000 to an existing receiver, with the right PIN, succeeds |
| `Scenarios.TransferToBobBalances` | app/Http/Controllers/Api/TransferController.php:91-105 | after it the sender holds 30000 and the receiver 25000 |
| `Scenarios.TransferToBobRecords` | app/Http/Controllers/Api/TransferController.php:81-111 | it writes two transaction rows and exactly one history row, under code "ABCDEFGH12" |
| `Scenarios.TooSmallAmount` | app/Http/Controllers/Api/TransferController.php:24-33 | an amount of 5000 is a validation error and changes nothing |
| `Scenarios.UnknownReceiver` | app/Http/Controllers/Api/TransferController.php:50-54 | a token that is no username and no card number gives "user not found" and changes nothing |
| `Scenarios.FaultRollsBack` | app/Http/Controllers/Api/TransferController.php:105-123 | a fault at the receiver's credit undoes the debit and both rows already written |

## Left out

- Receiver.Resolve: the lookup query has no ORDER BY, so when several users match, the database's row order picks the receiver. The model picks the least user id. `Receiver.ResolveUnique` shows the choice is irrelevant when at most one user matches.
- Receiver.Matches: string comparison is exact. A case-insensitive database collation, or a collation that ignores trailing spaces, would match more tokens.
- Validation.Passes: the amount arrives already classified, as an integer or `None` (absent or not an integer). PHP's integer parsing of request strings, its 64-bit range, and the framework's request trimming middleware are not modelled. A PIN sent as a JSON number is taken in its decimal-string form.
- HTTP plumbing is not modelled: the request object, JSON response bodies and status codes. Each response is one `Outcome` variant instead.
- The exception message returned with the 500 response is not modelled. `Failed` carries no payload.
- The PIN-hash comparison inside `pinChecker` is not modelled. Its code is not part of this model, and it is a parameter here.
- The entropy of `Str::random` is not modelled. The random string is an input. The code is not checked to be fresh, so the pairing invariant is proved only for a fresh code.
- Concurrency and row locking are not modelled. Calls run one after another. The balance check before the unit of work, which under concurrent requests races with the debit, is therefore safe in the model.
- Timestamps from `now()` are not modelled.
- Integer width is not modelled: balances and amounts are unbounded. An overflow the database would reject is one of the storage faults `fault` stands for.
- A sender without a user row or wallet is a precondition (`TransferSpec.SenderKnown`). The code dereferences the sender's wallet outside the `try` block, so a missing wallet would be an uncaught error, not an outcome.
- The seeders `database/seeders/PaymentMethodSeeder.php` and `database/seeders/TipSeeder.php` only insert static rows. The model takes the payment-method catalog as input. A missing `bwa` row (seeded at `PaymentMethodSeeder.php:21`) is a failure inside the unit of work. Tips play no part in transfers.
