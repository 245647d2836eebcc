# Subscrypt refund escrow, modelled in Dafny

Subscrypt is an ink! smart contract for paid subscriptions. Providers publish
plans with a price, a duration and a refund policy. The policy is a permille,
written `p` below.

When a user subscribes, the provider is paid `price * (1000 - p) / 1000` at
once. The refundable part, `price * p / 1000`, is locked in the provider's
ledger under the day the subscription ends.

The ledger is a sparse singly linked list of day buckets:
- a header `LinkedList { head, back, length }`;
- buckets `DailyLockedAmount { amount, next_day }` kept in a table keyed by
  (provider, day);
- the last bucket points to itself.

The operations on it:
- `add_entry` inserts in day order, `remove_entry` takes money out of one
  bucket, and `process` sums the matured buckets from the head.
- `withdraw` pays a provider what `process` found and moves the header past it.
- A user may `refund` a live subscription. The locked money is then split
  between the user and the provider in proportion to the time used.
- A user may `renew` it. This appends a new record that starts where the old
  one ends.

The model covers this escrow core:

| file | content |
|---|---|
| `wrappers.dfy` | `Option` |
| `arithmetic.dfy` | the payout and refund arithmetic as functions, with lemmas on rounding, bounds and monotonicity |
| `ledger.dfy` | the ledger (see below) |
| `records.dfy` | plan constants, subscription records and their maturity day |
| `contract.dfy` | the contract storage as a class, with one method per message |

`ledger.dfy` holds three parts:
- the header and bucket types;
- the invariant linking a header and bucket table to a ghost chain of days;
- the reference definitions every ledger operation is proved against (`InsertEntry`, `Added`, `Released`, `Drain`, `ProcessResult`).

It also holds the imperative `add_entry` walk (`InsertDay`, `WalkInsert`) and the `process` loop (`Walk`).

How the contract's execution is represented:
- **Aborts.** A panic aborts an ink! message as a whole. Each message method therefore returns `ok`, leaves the state unchanged when `ok` is false, and states all of its effects when `ok` is true.
- **Host inputs.** The block time, the caller and the transferred balance are parameters.
- **Transfers.** They are appended to a log. A flag `transferOk` says whether the host accepts the transfers the call makes.
- **Checked arithmetic.** An underflow panics, as with ink!'s overflow checks, and the model treats it as an abort. Examples are `1000 - p` with `p > 1000`, `time - subscription_time` and `length - reduced_length`.

The model reproduces these behaviours of the code as written, each stated as a lemma or a contract:
- **`add_entry` drops an amount at `back`.** With two or more buckets, an amount whose day is `back` is lost: the walk steps onto `back` and stops before comparing. See `Added` and `Ledger.AddedDropsAtBack`.
- **`process` never takes `back` in a pass over two or more buckets** (`Ledger.DrainSkipsBack`).
- **A lone bucket is taken again.** `process` takes a lone self-linked bucket, and a later `withdraw` takes it again. With `length` already 0, that call aborts on the subtraction (`Ledger.DrainedBucketIsTakenAgain`).
- **`process` on a ledger never written to** aborts once the cutoff reaches its head (`Ledger.ProcessOnNewLedgerAborts`).
- **`withdraw` uses a different day origin.** Its cutoff is `block_timestamp / 86400`, while ledger days count from the contract's start. Buckets therefore mature early (`Records.MaturedAtCutoff`, `Records.PaidBeforeEnd`).
- **`renew` pays more than it releases.** It pays the provider the unscaled `price * p` of the old record but releases only `price * p / 1000` from the ledger.
- **`renew` keeps the old characteristic values.** It stores the old record's characteristic values, not the extended list it builds.
- **`refund` returns the scaled value.** It returns the customer portion scaled by 1000; the amount transferred is that portion divided by 1000.

The documentation comment of `refund` (`src/lib.rs:794-797`) gives the day-20 shares as 33.33 and 16.66. The integer code pays 33 and 16, and the model follows the code (`Arithmetic.RefundDocumentedExample`).

## Model

| member | source | states |
|---|---|---|
| Arithmetic.SplitRefund | src/lib.rs:826-853 | the scaled customer portion is capped at `price * p` and is at most the scaled price; the provider is paid a share exactly when the unused part of the scaled price does not exceed `price * p` |
| Arithmetic.UsedAtMostPrice | src/lib.rs:829-831 | while the subscription runs, the used part of the scaled price is at most the scaled price, so `price - used` cannot underflow |
| Arithmetic.PayoutPlusLockedIsPrice | src/lib.rs:535-539 | immediate payout plus locked amount equals the price, or the price minus one when `price * p` is not a multiple of 1000 |
| Arithmetic.RefundWithinLocked | src/lib.rs:828-856 | the customer share, and the customer and provider shares together, never exceed the amount locked at purchase; the two shares together fall short of it by at most one unit |
| Arithmetic.RefundDecaysWithTime | src/lib.rs:781-785 | a later refund never gives the customer more; once the provider receives a share, a later refund gives it a share at least as large |
| Arithmetic.RefundAtStartReturnsLocked | src/lib.rs:833-839 | a refund at elapsed time 0 gives the customer the whole locked amount and the provider nothing |
| Arithmetic.RefundDocumentedExample | src/lib.rs:794-797 | price 100, policy 500, 30 days: 50 to the customer on day 15; 33 to the customer and 16 to the provider on day 20; the returned scaled values are 50000 and 33334 |
| Ledger.EntriesSorted | src/lib.rs:113-138 | a valid chain read as entries has strictly increasing days |
| Ledger.InsertEntryDays | src/lib.rs:1223-1304 | the reference insertion adds exactly the day `d` to the set of days; the length grows by one exactly when `d` was absent |
| Ledger.InsertEntryEnds | src/lib.rs:1239-1260 | after the reference insertion, the first day is the smaller of `d` and the old head, and the last day the larger of `d` and the old back |
| Ledger.InsertEntryKeepsOrder | src/lib.rs:1223-1304 | the reference insertion keeps the days strictly increasing |
| Ledger.InsertEntryAmounts | src/lib.rs:1223-1304 | the reference insertion adds `a` to the amount at `d`, leaves every other day's amount alone, and raises the total by `a` |
| Ledger.AddedDropsAtBack | src/lib.rs:1294-1301 | with two or more buckets and `d == back`, `add_entry` leaves the entries as they were, so the amount at `d` is `a` short of a real insertion |
| Ledger.ReleasedKeepsDays | src/lib.rs:1311-1316 | `remove_entry` keeps every day, in order, and never deletes a bucket |
| Ledger.ReleasedAmounts | src/lib.rs:1311-1316 | `remove_entry` lowers the amount at `d` by `a`, leaves every other day alone, and lowers the total by `a` when `d` is on the chain |
| Ledger.ReleaseUndoesInsert | src/lib.rs:1311-1316 | releasing what an insertion added restores every day's amount |
| Ledger.StartChain | src/lib.rs:1229-1238 | on an empty ledger, one self-linked bucket at `d` with `head == back == d` and length 1 is a valid ledger holding `Added` of the old entries |
| Ledger.PrependChain | src/lib.rs:1239-1247 | a bucket before the head, linked to the old head, with the head moved and length + 1, is a valid chain `[d] + c` holding `Added` of the old entries |
| Ledger.PrependLinks | src/lib.rs:1239-1247 | the prepended table and header satisfy the chain invariant for `[d] + c` |
| Ledger.PrependInserts | src/lib.rs:1239-1247 | the prepend branch meets the `add_entry` contract `InsertsDay` |
| Ledger.PrependEntries | src/lib.rs:1239-1247 | for a day before every day on the chain, `Added` is the new entry followed by the old ones |
| Ledger.AppendLinks | src/lib.rs:1248-1260 | relinking the old back to `d` and adding a self-linked bucket at `d`, with back moved and length + 1, gives a valid chain `c + [d]` |
| Ledger.AppendEntriesOf | src/lib.rs:1248-1260 | the appended chain's entries are `Added` of the old ones |
| Ledger.AppendInserts | src/lib.rs:1248-1260 | the append branch meets `InsertsDay` |
| Ledger.MergeChain | src/lib.rs:1264-1269 | adding into the bucket of an existing day, other than `back` on a longer chain, keeps the chain valid and gives `Added` of the old entries |
| Ledger.MergeEntries | src/lib.rs:1264-1269 | for an existing day, other than the last one on a longer chain, `Added` raises only that entry's amount |
| Ledger.MergeInserts | src/lib.rs:1264-1269 | the merge case meets `InsertsDay` with the header and chain unchanged |
| Ledger.SpliceLinks | src/lib.rs:1270-1292 | a bucket spliced between `cur` and `cur.next_day`, with length + 1, satisfies the chain invariant for the longer chain |
| Ledger.SplicedEntries | src/lib.rs:1270-1292 | the spliced chain's entries are the old ones with the new entry inserted after `cur` |
| Ledger.SpliceEntries | src/lib.rs:1270-1292 | for a day strictly between two neighbours, `Added` inserts the new entry between them |
| Ledger.SpliceEntriesOf | src/lib.rs:1270-1292 | the spliced chain's entries are `Added` of the old ones |
| Ledger.SpliceChain | src/lib.rs:1270-1292 | the splice case meets `InsertsDay` |
| Ledger.SpliceInserts | src/lib.rs:1270-1292 | the splice case yields a chain that meets `InsertsDay` |
| Ledger.WalkStep | src/lib.rs:1294-1301 | a step of the walk moves to the next day on the chain, and stopping short of `back` leaves a bucket after it |
| Ledger.DropChain | src/lib.rs:1299-1301 | when the walk reaches `back` on a chain of two or more buckets, leaving the ledger unchanged meets `InsertsDay` |
| Ledger.ReleaseChain | src/lib.rs:1311-1316 | lowering an existing bucket by at most its amount keeps the chain valid, and its entries become `Released` of the old ones |
| Ledger.InsertDay | src/lib.rs:1223-1304 | `add_entry` on one ledger: the result is a valid ledger whose entries are `Added` of the old ones; no key other than `d` is created; buckets off the new chain are untouched; `d` has a bucket afterwards. Header per branch: an empty ledger becomes `(d, d, 1)`; a prepend moves the head; an append moves the back; each of these raises the length by exactly 1; the walk keeps head and back and raises the length by at most 1 |
| Ledger.WalkInsert | src/lib.rs:1261-1302 | the walk branch (`head <= d <= back`) meets the same contract through its loop invariant, keeps head and back, and raises the length by at most 1 |
| Ledger.Walk | src/lib.rs:1322-1353 | the `process` loop returns exactly `ProcessResult`: the sum of the buckets it steps over, the day it stops on and their count; it aborts exactly when `ProcessResult` is None |
| Ledger.DrainTakesMatured | src/lib.rs:1331-1345 | on two or more buckets, `process` takes exactly the buckets before `back` whose day is at most the cutoff; a lone bucket is taken exactly when its day is at most the cutoff |
| Ledger.DrainSkipsBack | src/lib.rs:1343-1345 | what `process` sums plus what it leaves is the ledger total; with every day matured on two or more buckets, the sum misses exactly the `back` bucket |
| Ledger.DrainBeforeHead | src/lib.rs:1331 | with a cutoff before the head, `process` returns `(0, head, 0)` |
| Ledger.DrainKeepsChain | src/lib.rs:776-777 | after `process` on a non-empty chain, the header moved to the returned head and shortened by the count is valid for the rest of the chain |
| Ledger.DrainedPrefix | src/lib.rs:776-777 | after `process` on a non-empty chain, the remaining chain is the old one without the buckets taken; it is valid for the moved header, and its total is the old total less the sum taken |
| Ledger.DrainedChain | src/lib.rs:766-777 | after any `process` that `withdraw` accepts, the moved header is valid for the rest of the chain, whose entries are the old ones without the taken prefix; paid plus what remains is the old total |
| Ledger.DrainedBucketIsTakenAgain | src/lib.rs:1331-1345 | on a ledger whose length is 0 but whose head bucket is still in the table, `process` takes that bucket again with a count of 1, larger than the length |
| Ledger.ProcessOnNewLedgerAborts | src/lib.rs:1365-1374 | the default header (0, 0, 0) with no bucket at day 0 is a valid empty ledger on which `process` aborts for every cutoff |
| Records.MaturityDay | src/lib.rs:587-591 | the maturity day is the whole number of days from the contract's start to the record's end |
| Records.MaturedAtCutoff | src/lib.rs:766 | once `now` reaches the record's end minus the contract's start, the record's bucket is at or before the `withdraw` cutoff `now / 86400` |
| Records.PaidBeforeEnd | src/lib.rs:766 | with a contract started on day 10, a record ending on day 25 has its bucket at or before the cutoff on day 20 |
| Subscrypt.AppendRecord | src/lib.rs:567-586 | appending a record and pointing the plan's index at its position keeps every index entry inside its record sequence |
| Subscrypt.MarkRefunded | src/lib.rs:857-863 | setting a record's `refunded` flag keeps the record store valid |
| Subscrypt.Subscrypt.constructor | src/lib.rs:212-225 | a new contract has no records, no index entries and no transfers, and an empty valid ledger for every provider |
| Subscrypt.Subscrypt.LatestRecord | src/lib.rs:154-155 | the latest record exists exactly when the index has the (user, provider, plan) key; it is one of the user's records with that provider and is for that provider |
| Subscrypt.Subscrypt.CheckSubscription | src/lib.rs:1129-1158 | true exactly when the latest record for the plan exists, is for that plan index, is not refunded and has not ended before `now` |
| Subscrypt.Subscrypt.RecordPurchase | src/lib.rs:558-591 | the payments are logged; the record is appended to the user's sequence for the provider, which is created when absent; the index points at the record; the ledger holds `Added` of its old entries at the maturity day; no bucket key other than the maturity day appears and every bucket off the new chain keeps its value (`TableFrame`); other providers, their ledgers and the provider's catalogue do not change |
| Subscrypt.Subscrypt.RenewPurchase | src/lib.rs:674-698 | aborts, changing nothing, exactly when the old bucket is missing or holds less than the amount to release; otherwise the ledger holds `Added(Released(old))`, the table differs from the old one with the bucket released (`ReleaseBucket`) only on the new chain and the new maturity day (`TableFrame`), other providers and ledgers do not change, and the record store changes as in `RecordPurchase` |
| Subscrypt.Subscrypt.AddEntry | src/lib.rs:1223-1304 | the provider's ledger stays valid and holds `Added` of its old entries; no bucket key other than the day appears and every bucket off the new chain keeps its value (`TableFrame`); other providers' ledgers and every provider's catalogue do not change |
| Subscrypt.Subscrypt.RemoveEntry | src/lib.rs:1311-1316 | aborts exactly when the bucket is missing or holds less than the amount; otherwise only that bucket's amount drops (`ReleaseBucket`), and the entries become `Released` of the old ones |
| Subscrypt.Subscrypt.Process | src/lib.rs:1322-1353 | changes nothing; aborts exactly when the provider is unregistered or `ProcessResult` is None; otherwise returns `ProcessResult` |
| Subscrypt.Subscrypt.Withdraw | src/lib.rs:759-779 | aborts, changing nothing, unless the caller is a provider, `process` succeeds, the transfer of a positive sum succeeds and the length does not underflow; otherwise it pays the sum, logs a transfer only when the sum is positive, moves the head, shortens the length, drops the taken prefix from the entries and keeps paid plus remaining equal to the old total |
| Subscrypt.Subscrypt.Subscribe | src/lib.rs:484-599 | apart from the username check, which is not modelled, accepted exactly when the plan is not already active, the provider and plan exist, the values match the characteristics, the exact price is paid, the plan is enabled, `p <= 1000` and the payout is made; then the payout is logged, a record with a copy of the plan constants becomes the latest and the plan is active, the ledger holds `Added` of the locked amount at the maturity day, the bucket table changes only on the new chain and the maturity day (`TableFrame`), and other providers, their ledgers and the catalogue do not change |
| Subscrypt.Subscrypt.Renew | src/lib.rs:601-706 | accepted exactly when the latest record is active, the plan exists and is enabled at the paid price, the value count fits, `p <= 1000`, the transfers succeed and the old bucket holds the amount to release; then both payments are logged, a record starting at the old end with the old characteristic values becomes the latest and is active, the ledger holds `Added(Released(old))`, the bucket table differs from the one with the old bucket released (`ReleaseBucket`) only on the new chain and the new maturity day (`TableFrame`), and other providers, their ledgers and the catalogue do not change |
| Subscrypt.Subscrypt.Refund | src/lib.rs:800-865 | accepted exactly when the plan is active, less than its duration has elapsed, the transfers succeed and the bucket holds the locked amount; then the shares of `SplitRefund` are transferred, the scaled customer portion is returned, the record is marked refunded so the plan is no longer active, the ledger holds `Released` of the locked amount, and the bucket table changes only in the amount of that one bucket (`ReleaseBucket`), for that provider alone |

## Left out

- Authentication, usernames and pass hashes (`check_auth*`, `user_check_auth*`, `provider_check_auth*`, the `users`, `username_to_address` and `address_to_username` maps): they depend on a host hash function. Apart from the username-collision check of `subscribe` (see below), they do bookkeeping only.
- `provider_register`, `add_plan`, `edit_plan`, `add_charastristic_for_plan` and `change_disable`: the provider catalogue is an input of the constructor. Records copy the plan constants at purchase, so later catalogue edits could not reach them.
- `retrieve_data`, `retrieve_whole_data` and the other read-only views: they copy storage and decide nothing.
- Event emission: it is informational only.
- `transfer` and `env().transfer`: one flag per call says whether the host accepts every transfer the call makes. Which of several transfers fails does not matter, because any failure aborts the whole call.
- Machine widths: amounts, days and times are unbounded naturals. The u64/u128 narrowing in `try_into` is not modelled, nor overflow on addition or multiplication. Only the subtractions that underflow in reachable states abort.
- `renew` is not marked `#[ink(message)]` in the source, so it is not callable from outside. It is modelled as a message anyway.
- Subscrypt.Subscrypt.Subscribe: the username-collision panic of `subscribe` (src/lib.rs:524-531) is not modelled: a caller that already has a username, subscribing under a username registered to another address, aborts in the source but is accepted by the model. Usernames are left out with authentication.
- Subscrypt.Subscrypt.Subscribe: requires `startTime <= now`, i.e. that the block time is not before deployment. The source relies on this for `time + duration - start_time`.
- Subscrypt.Subscrypt.Refund: aborts when the provider is unregistered in both branches, while the source reads the provider only when the provider share is paid. The case cannot arise, because records exist only for providers, and providers are never removed.
- Subscrypt.Subscrypt.Withdraw: the ledger invariant is stated per provider (`LedgerValid`), as a precondition of each message for the provider it touches. It is not stated as one class invariant over all providers. Every message's frame ensures show that other providers' ledgers are unchanged.
- The order of effects within a message is not modelled, only the state after it completes. Because a panic reverts the whole call, no other state is observable.
