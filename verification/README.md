# TallyKeep, verified

A Dafny model of the parts of TallyKeep, a Bitcoin bookkeeping backend, in which state is updated
step by step by several code paths and must agree with a simple definition of what it should be.
`dafny verify dfyconfig.toml` checks everything.

| module | part of the system |
|---|---|
| `ChainModel`, `ChainRows`, `ChainBalance`, `ChainHistory`, `ChainRuns`, `ChainHeights`, `ChainTotals`, `ChainConfluence`, `ChainDirection`, `ChainLimits`, `ChainStore` | the chain processor: outputs, spends, ledger entries |
| `ScanRows` | the rows the initial scan writes |
| `ReuseIndex` | the "address reused" flag, from live deliveries and from scans |
| `Cascade`, `CascadeColumns` | deleting a holding across fifteen tables |
| `Events` | persist-first emission of critical events and their replay |
| `Payments`, `Invoices` | payment requests, broadcast attempts, reserved receive addresses |
| `Base58`, `Positional`, `Money` | key text, positional notation, BTC to satoshi conversions |
| `Secrets`, `CustodialMirror`, `KrakenLedger`, `EventStream` | the secret store, the custodial mirror, the Kraken normaliser, the client event queue |

Tables are maps from key to row. Code that updates rows is a class whose methods are proved equal to
a function of the old tables; what the system promises is proved about those functions, over whole
runs. Generated ids, clocks, answers of the node, the wallet library and the exchange, and the
iteration order of sets and query results are arguments, and the theorems hold for all of them.

## What the proofs show about the code

- Conservation needs its conditions. `ChainBalance.ConservationExactly` gives the exact condition for
  one delivery, for every watch set. Three families of deliveries break it: a second spender of an
  output, a redelivery after a late parent, and an output that pays two rows of the address table,
  which is unique on descriptor, branch and index but not on the address string
  (`backend/tallykeep/models/descriptor.py:69-74`). Over runs without the first two,
  `ChainRuns.ConservedRunsExactly` gives the exact condition: no output of value pays two rows.
- Under the same run conditions the final tables are determined by the set of transactions if and
  only if no output pays two rows (`ChainConfluence.ConfluenceExactly`); otherwise they depend on
  the order in which the database returns the rows.
- The direction of an entry is Internal as soon as a transaction spends and pays anything of ours.
  The comment at `chain_processing_service.py:418-422` and `specs/concerns/observation.md:92-96` say
  "entirely user-owned"; `ChainDirection.DocumentedExactly` says exactly when the code agrees. The rule
  that an Internal entry links two holdings (`specs/02_domain_model.md:503`) cannot hold of one entry,
  since the code links each entry to one holding; `ChainDirection.InternalLinksTwoExactly` says exactly
  when the entries of a transaction together meet it. `ChainDirection.PaymentBreaksBothRules` is a
  payment with change that meets neither. The model follows the code.
- `delete_cascade` deletes addresses before invoices, so a holding with an invoice on one of its
  addresses, which is every invoice `create_invoice` makes, cannot be deleted. `Cascade.Deletable` is
  the exact condition. Entries shared with another holding survive, but payment requests and mirrored
  entries of the other holding lose their reference to them.
- No code writes `first_seen_height` after insertion, so "neither been seen on-chain nor reserved"
  (`backend/tallykeep/repositories/descriptor.py:222-229`) comes down to "not reserved": the address
  of a paid invoice is handed out again at once (`Invoices.ReleasedAddressReturns`).
- The event stream resets its drop counter after it has sent the announcement. Drops that happen
  while the announcement is being sent are never reported.
- An output row keeps the first height it was given and the transaction row takes the latest, so the two
  differ once a transaction is delivered at two heights.
- The text conversion is exact to 2^52 satoshis and the multiplying one to just below 2^51, both
  beyond the 21 million BTC supply.

## Model

| member | source | states |
|---|---|---|
| `ChainRuns.Conservation` | backend/tallykeep/services/chain_processing_service.py:91-292 | When every address string belongs to one row: over every run of deliveries from empty tables (any repeats, any parent-first order, no outpoint spent by two txids), every holding's linked amounts add up to the value of its unspent outputs, and no (txid, holding) pair has two entries. |
| `ChainRuns.ConservedRunsExactly` | backend/tallykeep/services/chain_processing_service.py:91-292 | For every watch set: after such a run the books balance if and only if no delivered transaction has an output of value that pays two rows of the address table. |
| `ChainRuns.Confluence` | backend/tallykeep/services/chain_processing_service.py:118-292 | Two such runs over the same set of transactions, none with an output that pays two address rows, end in the same outputs, spent flags, spenders, reuse flags and multiset of postings (amount and direction included); only confirmation heights and the order of entries may differ. |
| `ChainConfluence.ConfluenceExactly` | backend/tallykeep/services/chain_processing_service.py:118-292 | For every watch set and every such run: all runs over the same transactions end alike if and only if no delivered output pays two address rows. |
| `ChainConfluence.Twin` | backend/tallykeep/services/chain_processing_service.py:377-407 | Every such run has a twin over the same transactions that records a given output at any address row it pays. |
| `ChainConfluence.AmbiguousRun` | backend/tallykeep/services/chain_processing_service.py:377-407 | A run from empty tables, one payment to an address string in two rows, whose outcome depends on the row order and, for a positive amount, is out of balance. |
| `ChainConfluence.FirstRowWins` | backend/tallykeep/services/chain_processing_service.py:160-189 | Of the address rows an output pays, the one the database returns first gets the output row. |
| `ChainRuns.Idempotence` | backend/tallykeep/services/chain_processing_service.py:238-240 | For every watch set, delivering a transaction again leaves the ledger as it is, entry for entry, and every output row but for its confirmation height. |
| `ChainRuns.TwiceInARow` | backend/tallykeep/services/chain_processing_service.py:91-292 | From any tables with one posting per pair, for any transaction, contested and late ones included: a second delivery right after the first leaves the ledger and every row but for heights; the reuse flags too if they were exact. |
| `ChainRuns.RunIsExact` | backend/tallykeep/services/chain_processing_service.py:91-292 | After every such run the incremental tables equal a definition that mentions only the set of delivered transactions: which outputs exist, who spent them, which postings are owed, which addresses are reused. |
| `ChainRuns.ExactDetermines` | backend/tallykeep/services/chain_processing_service.py:91-292 | Unless an output pays two address rows, that definition leaves no freedom: two tables that satisfy it for the same set of transactions have the same contents. |
| `ChainHistory.ExactStep` | backend/tallykeep/services/chain_processing_service.py:91-292 | One admissible delivery, in whatever order the database and the holding set are iterated, takes tables exact for a set of transactions to tables exact for the set with the new one. |
| `ChainBalance.DriftStep` | backend/tallykeep/services/chain_processing_service.py:91-292 | For every watch set, every state and every transaction that does not spend its own outputs, in any iteration orders: the exact change of (ledger total minus unspent total) of a holding, computed from the tables before the call. |
| `ChainBalance.ConservationExactly` | backend/tallykeep/services/chain_processing_service.py:91-292 | A delivery to balanced books leaves them balanced if and only if that change is zero for every holding, a check a caller could make before the call. |
| `ChainBalance.RepeatsExactly` | backend/tallykeep/services/chain_processing_service.py:392-408 | Some holding is credited twice for an output, in any row order, if and only if an output of value pays two address rows. |
| `ChainLimits.SecondSpenderUnbalances` | backend/tallykeep/services/chain_processing_service.py:329-333 | Conservation fails for every new transaction, with no output at two address rows, that has among anything else an input of value already spent by another txid: it is charged a second time. |
| `ChainLimits.NewTransactionExactly` | backend/tallykeep/services/chain_processing_service.py:313-333 | From exact and balanced tables, a new transaction with no output of value at two address rows keeps the balance if and only if no holding owns an input of value already marked spent. |
| `ChainLimits.RivalChild` | backend/tallykeep/services/chain_processing_service.py:329-333 | From any exact and balanced tables, two transactions that spend the same recorded output: balanced after the first and never after the second. |
| `ChainLimits.SecondSpenderRun` | backend/tallykeep/services/chain_processing_service.py:329-333 | Such a run from empty tables, parent, child and rival child, for every positive parent value and any change amounts. |
| `ChainLimits.LateParentUnbalances` | backend/tallykeep/services/chain_processing_service.py:238-240 | Conservation fails for every redelivery of a posted transaction that finds one of its inputs recorded and unspent: the output is marked spent, but the posting is skipped. |
| `ChainLimits.RedeliveryExactly` | backend/tallykeep/services/chain_processing_service.py:238-240 | From balanced tables, a redelivery whose found outputs are recorded and whose holdings are linked keeps the balance if and only if no holding owns a recorded input of value that is still unspent. |
| `ChainLimits.ChildParentChild` | backend/tallykeep/services/chain_processing_service.py:313-333 | From any exact and balanced tables, child, late parent, child again: balanced after the first two deliveries and never after the third, for every such pair. |
| `ChainLimits.LateParentRun` | backend/tallykeep/services/chain_processing_service.py:313-333 | The smallest such run, from empty tables with one watched address, for every pair of positive amounts. |
| `ChainLimits.SharedAddressUnbalances` | backend/tallykeep/services/chain_processing_service.py:377-407 | For every watch set and any exact and balanced tables, conservation fails for every new transaction with uncontested inputs and an output of value at two address rows, of one holding or of two: it is credited for each row and stored once. |
| `ChainLimits.SharedAddressRun` | backend/tallykeep/services/chain_processing_service.py:377-407 | The smallest such run from empty tables, for every address, amount and iteration order. |
| `ChainHistory.ProcessKeepsOnePerHolding` | backend/tallykeep/services/chain_processing_service.py:435-455 | At most one entry per (txid, holding) after any delivery of any transaction, so the lookup for one linked row never finds two. |
| `ChainHistory.ProcessPosts` | backend/tallykeep/services/chain_processing_service.py:238-279 | A delivery only appends entries, each the one owed to its holding, and afterwards every holding that is owed one is linked. |
| `ChainHistory.ProcessRows` | backend/tallykeep/services/chain_processing_service.py:118-222 | What a delivery does to the output table: old rows keep value and owner, exactly the unspent inputs become spent by this txid, new rows come from found outputs, and every found output has a row. |
| `ChainHeights.ProcessHeights` | backend/tallykeep/services/chain_processing_service.py:215-222 | After a delivery every output row has the height it had if it had one, else the delivered height if it is among the found outputs, else none. |
| `ChainHeights.RecordAllHeights` | backend/tallykeep/services/chain_processing_service.py:160-222 | The same of the output loop by itself. |
| `ChainHeights.RowHeights` | backend/tallykeep/services/chain_processing_service.py:215-222 | Over every such run an output row has the first height its transaction was delivered with. |
| `ChainHeights.ConcernsExactly` | backend/tallykeep/services/chain_processing_service.py:126-139 | The early return is taken exactly when no input is recorded and no output pays a watched address. |
| `ChainHeights.ProcessTxRows` | backend/tallykeep/repositories/onchain_transaction.py:38-73 | A delivery writes the row of its own transaction only, and only if it concerns us; a delivered height replaces the recorded one, no height leaves it. |
| `ChainHeights.TxRows` | backend/tallykeep/repositories/onchain_transaction.py:38-73 | Over every such run the transaction table lists exactly the delivered transactions that concern us, each with the latest height delivered. |
| `ChainRows.SignSafety` | backend/tallykeep/services/chain_processing_service.py:226-279 | Incoming never goes with a negative and Outgoing never with a positive net amount of any holding, for any split of inputs and outputs, so the sign rules of the ledger entry always accept the entry. |
| `ChainRows.DirectionExactly` | backend/tallykeep/services/chain_processing_service.py:410-433 | The direction is Incoming iff nothing of ours is spent, Outgoing iff something is spent and nothing received, Internal iff both: a payment with change is Internal. |
| `ChainDirection.DocumentedExactly` | backend/tallykeep/services/chain_processing_service.py:410-433 | The inferred direction is the documented one (Internal iff every input is recorded and every output pays a watched address, otherwise by the sign of the net) if and only if a transaction entirely ours moves value on both sides, and any other on one side at most. |
| `ChainDirection.PaymentWithChange` | backend/tallykeep/services/chain_processing_service.py:410-433 | Every payment out of our funds with change back to us and an output to a stranger is Internal, against the documented rule. |
| `ChainDirection.FirstPosting` | backend/tallykeep/services/chain_processing_service.py:238-279 | A transaction not posted before ends linked to exactly the holdings it owes, every entry in the one inferred direction. |
| `ChainDirection.InternalLinksTwoExactly` | backend/tallykeep/services/chain_processing_service.py:238-279 | The entries of a transaction delivered for the first time link two holdings wherever one is Internal if and only if it moves value of ours on one side at most or owes an entry to two holdings. |
| `ChainDirection.PaymentBreaksBothRules` | backend/tallykeep/services/chain_processing_service.py:410-433 | From empty tables, one deposit and then a payment with change: Internal although it pays a stranger, with entries for one holding only. |
| `ChainRows.MarkSpentRows` | backend/tallykeep/services/chain_processing_service.py:296-339 | Marking inputs keeps every row and records the spender on exactly the listed rows that were not spent before. |
| `ChainRows.RecordAllAdds` | backend/tallykeep/services/chain_processing_service.py:160-222 | Every found output ends up with a row and every new row is unspent and comes from a found output. |
| `ChainRows.RecordAllKeeps` | backend/tallykeep/services/chain_processing_service.py:160-222 | Recording outputs changes nothing on existing rows but confirmation height and reuse flag, and does not touch the ledger. |
| `ChainRows.DiscoverMember` | backend/tallykeep/services/chain_processing_service.py:392-408 | The discovered outputs are exactly the pairs of an output and a watched address row it pays. |
| `ChainBalance.DiscoverOrderFree` | backend/tallykeep/services/chain_processing_service.py:341-408 | What each holding receives, the total and the touched holdings do not depend on the order in which the address rows come back. |
| `ChainBalance.MarkSpentBalance` | backend/tallykeep/services/chain_processing_service.py:296-339 | Marking inputs lowers the unspent value of a holding by exactly its inputs not recorded as spent before, a repeated input counted once. |
| `ChainBalance.RecordAllBalance` | backend/tallykeep/services/chain_processing_service.py:160-222 | Recording outputs raises the unspent value of a holding by exactly its found outputs that had no row, an output found at two addresses counted once, for the first. |
| `ChainBalance.PostAllTotal` | backend/tallykeep/services/chain_processing_service.py:238-279 | Posting raises the ledger total of a touched holding by received minus spent, unless it was linked to the transaction before. |
| `ChainBalance.PostAllLinks` | backend/tallykeep/services/chain_processing_service.py:238-279 | After posting, a holding is linked iff it was before or it is touched with a non-zero receipt or spend. |
| `ChainStore.ChainStore.ProcessDecodedTransaction` | backend/tallykeep/services/chain_processing_service.py:91-292 | The loops over inputs, outputs and holdings leave exactly the tables specified for one delivery, keep the foreign keys, and report the spent and new outpoints, holdings, direction and net amount; a transaction that concerns nobody changes nothing. |
| `ChainTotals.KnownInputsListed` | backend/tallykeep/services/chain_processing_service.py:321-333 | The spent outpoints reported are exactly the recorded inputs, each once. |
| `ChainTotals.TouchedExactly` | backend/tallykeep/services/chain_processing_service.py:155-163 | The holdings reported are exactly those that own a recorded input or have a watched address paid. |
| `ChainTotals.NetIsSumOfHoldings` | backend/tallykeep/services/chain_processing_service.py:232-233 | The net amount reported is the sum of received minus spent over the touched holdings. |
| `ChainTotals.EntryFields` | backend/tallykeep/services/chain_processing_service.py:238-279 | Every entry added carries its txid, a touched holding, the inferred direction, and received minus spent as net and as link amount. |
| `ChainTotals.PaysSpelled` | backend/tallykeep/services/chain_processing_service.py:377-397 | An output pays an address row iff it names its address string and the row's descriptor has a holding. |
| `ChainStore.ChainStore.MarkInputsSpent` | backend/tallykeep/services/chain_processing_service.py:296-339 | The input loop marks each known unspent input once and returns total, outpoints and holdings of all known inputs. |
| `ChainStore.ChainStore.DiscoverOutputs` | backend/tallykeep/services/chain_processing_service.py:341-408 | Grouping outputs by address string and joining with the address rows finds the specified outputs, in some row order. |
| `ChainStore.ChainStore.GroupByAddress` | backend/tallykeep/services/chain_processing_service.py:354-372 | Every address string maps to its paying outputs in output order, and no other string is a key. |
| `ChainStore.ChainStore.FoundForRow` | backend/tallykeep/services/chain_processing_service.py:393-407 | One address row contributes the outputs that pay it, in output order, and nothing when its descriptor has no holding. |
| `ChainStore.FoundAtGrouped` | backend/tallykeep/services/chain_processing_service.py:354-407 | Looking up the group of an address string gives the same outputs as scanning all outputs. |
| `ChainStore.ChainStore.RecordFound` | backend/tallykeep/services/chain_processing_service.py:160-222 | The output loop inserts or refreshes one row per found output, sums receipts per holding, and lists exactly the inserted rows. |
| `ChainStore.ChainStore.HoldingInputValue` | backend/tallykeep/services/chain_processing_service.py:457-487 | The sum of the inputs that come from outputs of one holding. |
| `ChainStore.ChainStore.PostEntry` | backend/tallykeep/services/chain_processing_service.py:239-279 | Posts received minus spent unless linked already or both are zero; the entry passes the sign rules. |
| `ChainStore.ChainStore.PostEntries` | backend/tallykeep/services/chain_processing_service.py:238-279 | The loop over touched holdings, in any order, produces the specified postings. |
| `ChainStore.ChainStore.Persist` | backend/tallykeep/services/chain_processing_service.py:142-292 | Everything after the early return: transaction row, output rows, direction, postings. |
| `ChainStore.SignsAgreeAfter` | backend/tallykeep/domain/ledger_entry.py:32-54 | Read from the tables as they are when the entries are built, no holding's net amount breaks the constructor's sign rules. |
| `ChainStore.ProcessKeepsForeignKeys` | backend/tallykeep/services/chain_processing_service.py:160-189 | Every output row still points at a known descriptor after a delivery. |
| `ReuseIndex.ReuseIndexIsExact` | backend/tallykeep/services/utxo_hygiene_service.py:141-258 | In every state reached from empty tables by live deliveries and scans, in any mixture and with no condition on the transactions, an output carries ADDRESS_REUSED, and its address is marked, if and only if the address has outputs of two different txids. |
| `ReuseIndex.InsertRowKeepsReuseExact` | backend/tallykeep/services/utxo_hygiene_service.py:168-180 | The flag computed on insertion plus its retroactive propagation keep the index exact. |
| `ReuseIndex.ProcessKeepsReuseExact` | backend/tallykeep/services/utxo_hygiene_service.py:141-162 | Any live delivery keeps the index exact. |
| `ReuseIndex.ScanKeepsReuseExact` | backend/tallykeep/services/chain_scan_service.py:187-226 | Any scan of any branches keeps the index exact. |
| `ChainStore.ChainStore.PropagateReuse` | backend/tallykeep/services/utxo_hygiene_service.py:235-258 | The sibling loop flags exactly the rows of the address and marks the address. |
| `ChainStore.ChainStore.ApplyReuseFlag` | backend/tallykeep/services/utxo_hygiene_service.py:141-180 | The row, its siblings and the address are flagged iff another txid pays the address; otherwise nothing changes. |
| `ChainStore.ChainStore.InsertOutput` | backend/tallykeep/services/chain_processing_service.py:173-213 | One inserted row with its hygiene pass is the specified insertion. |
| `ChainStore.ChainStore.ImportUnspent` | backend/tallykeep/services/chain_scan_service.py:126-150 | One output new to the scan: transaction row, output row, reuse flag, and one more row. |
| `ChainStore.ChainStore.ScanBranch` | backend/tallykeep/services/chain_scan_service.py:113-160 | The loop over the node's list inserts exactly the unknown outputs at known addresses; discovered plus pre-existing are the matched outputs. |
| `ChainStore.ChainStore.InitialScan` | backend/tallykeep/services/chain_scan_service.py:64-183 | Branch by branch the scan leaves the specified rows; the height reported is the highest of any branch and at least 1, and the recorded height never falls. |
| `ScanRows.ScanBranchesRows` | backend/tallykeep/services/chain_scan_service.py:102-160 | After a scan every listed output at an address row of its descriptor and branch has a row; every new row is one of them, at that address row, with the listed value and height, unspent; old rows and the ledger are left alone. |
| `ScanRows.ScanOutputsRows` | backend/tallykeep/services/chain_scan_service.py:113-160 | The same of one branch. |
| `ScanRows.ScanOutputRow` | backend/tallykeep/services/chain_scan_service.py:114-137 | One listed output gets a row at the address row with its branch and index, iff there is one and the outpoint was unknown. |
| `ScanRows.ScanOutputTx` | backend/tallykeep/services/chain_scan_service.py:140-144 | A scanned output writes the row of its own transaction, with its height unless the node said 0. |
| `ScanRows.IndexFinds` | backend/tallykeep/services/chain_scan_service.py:89-91 | The index maps branch and derivation index to the address row that has them. |
| `Cascade.Database.DeleteCascade` | backend/tallykeep/repositories/holding.py:267-413 | Deletion succeeds if and only if the holding exists and is deletable by a condition on the tables before the call; then the tables are the old ones without the holding and every foreign key holds. |
| `Cascade.DeletableInStages` | backend/tallykeep/repositories/holding.py:284-413 | The RESTRICT checks met along the way, each against the tables at that moment, all pass iff that one condition holds at the start. |
| `Cascade.PurgedInStages` | backend/tallykeep/repositories/holding.py:284-413 | The statements, in their order, remove and null exactly what the one-shot definition says, although each reads tables the earlier ones changed. |
| `Cascade.PurgedKeepsForeignKeys` | backend/tallykeep/repositories/holding.py:267-413 | All foreign keys of the fifteen tables hold after removing a deletable holding. |
| `Cascade.OwnInvoiceBlocks` | backend/tallykeep/repositories/holding.py:334-356 | A holding with one address and one invoice on it cannot be deleted, and can once the invoice is gone: addresses are deleted before invoices. |
| `Cascade.InvoiceBlocks` | backend/tallykeep/repositories/holding.py:334-356 | An invoice, of this or any other holding, on any address of the holding makes it undeletable. |
| `Cascade.EntriesRemovedExactly` | backend/tallykeep/repositories/holding.py:388-400 | A ledger entry goes iff it was linked to the holding and to no other; every link to another holding stays. |
| `Cascade.OthersKeepTheirChain` | backend/tallykeep/repositories/holding.py:328-338 | Another holding keeps all its descriptors, addresses and outputs. |
| `Cascade.OthersKeepTheirBooks` | backend/tallykeep/repositories/holding.py:340-408 | Another holding keeps its payment requests, attempts, invoices, ledger entries, provider, mirrored entries, change log and health items. |
| `Cascade.OthersLoseOnlySharedSweeps` | backend/tallykeep/repositories/holding.py:291-326 | Of the sweep policies and executions of another holding exactly those naming the deleted one go. |
| `Cascade.PaymentReferencesKeptExactly` | backend/tallykeep/repositories/holding.py:375-380 | A payment request of another holding stays, and stays unchanged iff it names no entry linked to, and no execution of, the deleted one. |
| `Cascade.MirrorReferencesKeptExactly` | backend/tallykeep/repositories/holding.py:368-374 | A mirrored entry of another provider stays, and stays unchanged iff it names no such entry or execution and not the deleted holding as counterparty. |
| `CascadeColumns.SweepRowsKept` | backend/tallykeep/repositories/holding.py:284-326 | A policy stays iff neither its source nor its destination is the holding, an execution iff its policy does, a log row iff it is another holding's; all unchanged. |
| `CascadeColumns.ChainRowsKept` | backend/tallykeep/repositories/holding.py:328-338 | A descriptor stays iff it is another holding's, an address or output iff its descriptor is; all unchanged. |
| `CascadeColumns.PaymentRowsKept` | backend/tallykeep/repositories/holding.py:340-380 | A payment request or invoice stays iff it is another holding's, an attempt iff its request is; a request loses exactly an entry linked to the holding and an execution of a policy naming it. |
| `CascadeColumns.CustodyRowsKept` | backend/tallykeep/repositories/holding.py:402-413 | A provider stays iff it is another holding's, a mirrored entry iff its provider is, losing exactly such references and the holding as counterparty; health items and holdings by their column. |
| `CascadeColumns.DeletableSpelled` | backend/tallykeep/repositories/holding.py:267-413 | The condition for deletion, on the columns of invoices, links and mirrored entries. |
| `CascadeColumns.ChainFreeSpelled` | backend/tallykeep/repositories/holding.py:334-338 | Its part on outputs, invoice addresses and whitelists, on the columns. |
| `CascadeColumns.NullableKeysSpelled` | backend/tallykeep/models/payment_request.py:61-64 | What the foreign keys say of every nullable column. |
| `Cascade.Database.DeleteSweeps` | backend/tallykeep/repositories/holding.py:284-326 | Audit log, executions and policies go; no RESTRICT check can fail here. |
| `Cascade.Database.ClearExecutions` | backend/tallykeep/repositories/holding.py:303-318 | The mirror's RESTRICT column is nulled before the executions go; the payment column is SET NULL. |
| `Cascade.Database.DeletePolicies` | backend/tallykeep/repositories/holding.py:319-326 | The policies that name the holding as source or destination go. |
| `Cascade.Database.DeleteChain` | backend/tallykeep/repositories/holding.py:328-338 | Outputs, addresses and descriptors go iff nothing outside points at them. |
| `Cascade.Database.DeletePayments` | backend/tallykeep/repositories/holding.py:340-356 | Attempts, payment requests and invoices of the holding go; no check can fail. |
| `Cascade.Database.DeleteLedger` | backend/tallykeep/repositories/holding.py:358-400 | Back-references are nulled, links and orphaned entries go iff no remaining invoice results in an orphan. |
| `Cascade.Database.DeleteRow` | backend/tallykeep/repositories/holding.py:402-413 | Provider with its mirrored entries (CASCADE), then the holding (SET NULL, CASCADE), iff nothing else refers to it. |
| `Events.PublishedWasLogged` | backend/tallykeep/infrastructure/event_emission.py:67-110 | In every state of every run, whatever critical event is on the bus has a row with the same id and topic; the payload is the logged one, on a replay with the marker set and every other key as logged. |
| `Events.UnacknowledgedStaysCandidate` | backend/tallykeep/infrastructure/event_emission.py:171-184 | Until someone acknowledges it, a logged critical event stays a candidate, through any publish failures and crashes. |
| `Events.UnacknowledgedIsRetried` | backend/tallykeep/infrastructure/event_emission.py:171-198 | At least once: every later run past the cutoff that reaches its end tries the event again. |
| `Events.FinishedRunReplaysSelection` | backend/tallykeep/infrastructure/event_emission.py:178-198 | A run that is not cut off replays exactly the rows it selected, each once, whatever else happens meanwhile. |
| `Events.RunWorksThroughSelection` | backend/tallykeep/infrastructure/event_emission.py:186-196 | At every moment of a run, what was replayed followed by what is pending is the selection. |
| `Events.AcknowledgedIsNotReplayed` | backend/tallykeep/infrastructure/event_emission.py:178-184 | An event acknowledged and not in the current selection is never replayed again. |
| `Events.NoReplayFromLaterRuns` | backend/tallykeep/infrastructure/event_emission.py:178-184 | No run that starts after the acknowledgement replays the event. |
| `Events.RowsOnlyGainAcknowledgement` | backend/tallykeep/infrastructure/event_emission.py:114-131 | No step removes a row or changes anything in it but an empty acknowledgement, and only acknowledging that id does. |
| `Events.EphemeralAndCrash` | backend/tallykeep/infrastructure/event_emission.py:63-65 | An ephemeral event is published as given and leaves no row; a crash keeps the log and the bus. |
| `Events.EventLog.EmitCritical` | backend/tallykeep/infrastructure/event_emission.py:67-110 | The row is committed with topic, payload and time, then the same event is published or refused; either way the row is a candidate. |
| `Events.EventLog.AcknowledgeEvent` | backend/tallykeep/infrastructure/event_emission.py:114-131 | True iff an unacknowledged row was found; then it is stamped, no other row changes, and it is no candidate for any cutoff. |
| `Events.EventLog.SelectRows` | backend/tallykeep/infrastructure/event_emission.py:178-184 | Exactly the rows that are critical, unacknowledged and older than the cutoff, each once. |
| `Events.EventLog.ReplayRow` | backend/tallykeep/infrastructure/event_emission.py:187-196 | One replay with the original id, topic and payload plus the marker, or nothing when the bus refuses. |
| `Events.ReplayCarriesPayload` | backend/tallykeep/infrastructure/event_emission.py:187-190 | An accepted replay appends one publication with the logged id and topic, the marker set and every other key of the payload as logged. |
| `Events.ReplaysForExactly` | backend/tallykeep/infrastructure/event_emission.py:186-196 | A finished selection leaves a marked replay for every row the bus did not refuse, and nothing else. |
| `Events.EventLog.ReplaySelected` | backend/tallykeep/infrastructure/event_emission.py:186-196 | The loop replays the whole selection in order, past refusals, and is a run of the protocol. |
| `Events.EventLog.RunOnce` | backend/tallykeep/infrastructure/event_emission.py:171-198 | Attempts exactly the candidates, each once, and returns their number. |
| `Payments.LifecycleSafe` | backend/tallykeep/services/banking_service.py:426-627 | Over every serial run of build, submit, broadcast, confirm and cancel: one request in flight per holding, a txid exactly in BROADCAST or CONFIRMED, signed hex from AWAITING_BROADCAST on, an entry exactly in CONFIRMED, and one accepted attempt exactly when the txid is set, else none. |
| `Payments.BroadcastIsFinal` | backend/tallykeep/services/banking_service.py:572-575 | Once the node has accepted a payment, its txid, signature and one accepted attempt never change and no further attempt is made. |
| `Payments.ApplyKeepsValid` | backend/tallykeep/repositories/payment_request.py:152-266 | Every operation, successful or refused, keeps that invariant. |
| `Payments.ApplyKeepsOneInFlight` | backend/tallykeep/repositories/payment_request.py:107-123 | The in-flight check on building is enough to keep one request in flight per holding. |
| `Payments.AcceptedAfter` | backend/tallykeep/repositories/payment_request.py:250-266 | Only an accepted broadcast adds an accepted attempt, to its own request. |
| `Payments.BuildStores` | backend/tallykeep/services/banking_service.py:209-334 | Refused iff a request of the holding is in one of the four in-flight statuses; a built request is stored as built. |
| `Payments.SubmitStores` | backend/tallykeep/repositories/payment_request.py:152-167 | The submitted hex is stored as signed hex, the PSBT only when one was submitted; nothing else changes. |
| `Payments.SendRecords` | backend/tallykeep/repositories/payment_request.py:224-266 | One attempt with the stored hex and the txid, accepted iff the node sent it, rejected iff it answered with an error; only an acceptance writes the request. |
| `Payments.SendReports` | backend/tallykeep/services/banking_service.py:569-627 | What the caller is told for a missing request, a wrong status, a missing hex and each answer of the node. |
| `Payments.CancelMarks` | backend/tallykeep/repositories/payment_request.py:200-218 | Only the status of a request not yet broadcast changes. |
| `Payments.BankingService.BuildPaymentRequest` | backend/tallykeep/services/banking_service.py:209-334 | Refused iff the holding has a request in flight or nothing could be built; else a new request awaits its signature. |
| `Payments.BankingService.SubmitSigned` | backend/tallykeep/services/banking_service.py:426-553 | Accepted only while awaiting the signature; stores hex and, if given, the signed PSBT. |
| `Payments.BankingService.BroadcastRequest` | backend/tallykeep/services/banking_service.py:556-627 | Guards, outcome and new tables for each answer of the node. |
| `Payments.BankingService.CallNode` | backend/tallykeep/services/banking_service.py:587-621 | The attempt is written before the call; a rejection marks it, an unreachable node leaves it submitted, an acceptance also marks the request. |
| `Payments.BankingService.ConfirmByTxid` | backend/tallykeep/workers/listeners/chain_listener.py:356-368 | Confirms the one request with the txid iff it is in BROADCAST. |
| `Payments.ConfirmOne` | backend/tallykeep/repositories/payment_request.py:57-66 | With one matching request, confirming depends on and changes that request only. |
| `Payments.BankingService.CancelRequest` | backend/tallykeep/repositories/payment_request.py:200-218 | Allowed exactly in DRAFT, AWAITING_SIGNATURE and AWAITING_BROADCAST. |
| `Invoices.ReservationExclusive` | backend/tallykeep/services/banking_service.py:676-731 | In every state of every serial run no two open invoices hold the same address. |
| `Invoices.LowestUnusedUnique` | backend/tallykeep/repositories/descriptor.py:240-250 | The address to reserve is determined: the lowest free index names one row. |
| `Invoices.LowestUnusedSpelled` | backend/tallykeep/repositories/descriptor.py:233-250 | The address chosen is of the descriptor and branch, unseen, held by no open invoice, and every unseen one of the branch with a lower index is held by one. |
| `Invoices.AddressesNeverSeen` | backend/tallykeep/repositories/descriptor.py:225-246 | Over every run no address row changes, so no address ever becomes seen. |
| `Invoices.ReleasedAddressReturns` | backend/tallykeep/repositories/descriptor.py:233-250 | Create, then pay or cancel, then create on the same descriptor: the second invoice gets the address of the first, whenever one was free. |
| `Invoices.StepKeepsExclusive` | backend/tallykeep/repositories/invoice.py:98-124 | Creating, paying and cancelling keep reservations exclusive. |
| `Invoices.InvoiceDesk.NextUnusedAddress` | backend/tallykeep/repositories/descriptor.py:219-252 | The lowest-index address of the branch neither seen nor reserved; none iff every address of the branch is seen or reserved. |
| `Invoices.InvoiceDesk.CreateInvoice` | backend/tallykeep/services/banking_service.py:676-731 | Reserves that address on the external branch and refuses only when there is none. |
| `Invoices.InvoiceDesk.MarkInvoicePaid` | backend/tallykeep/repositories/invoice.py:98-112 | Sets the entry and PAID, or OVERPAID when overpaid, whatever the status was; holding, address and other invoices stay. |
| `Invoices.InvoiceDesk.CancelInvoice` | backend/tallykeep/repositories/invoice.py:115-124 | Cancels iff the invoice is open. |
| `Base58.DecodeEncode` | backend/tallykeep/adapters/descriptor_adapter.py:81-98 | decode(encode(b)) = b for every byte string, with any run of leading zero bytes and the all-zero and empty cases. |
| `Base58.EncodeDecode` | backend/tallykeep/adapters/descriptor_adapter.py:81-98 | encode(decode(s)) = s for every string over the alphabet. |
| `Base58.DecodeDenotes` | backend/tallykeep/adapters/descriptor_adapter.py:81-88 | Text and bytes denote the same number, in base 58 and 256, and have as many leading ones as leading zero bytes. |
| `Base58.ToBytesIsDigits` | backend/tallykeep/adapters/descriptor_adapter.py:88-88 | The byte count computed from the bit length is just enough: the bytes are the base-256 digits, none lost, no zero in front. |
| `Base58.AlphabetSpelled` | backend/tallykeep/adapters/descriptor_adapter.py:74-75 | The character table is the Base58 alphabet. |
| `Base58.B58Decode` | backend/tallykeep/adapters/descriptor_adapter.py:81-88 | The decoding loops compute the specified value and fail iff a character is outside the alphabet. |
| `Base58.B58Encode` | backend/tallykeep/adapters/descriptor_adapter.py:91-98 | The encoding loops compute the specified text. |
| `Base58.SpellNumber` | backend/tallykeep/adapters/descriptor_adapter.py:92-96 | Repeated division with prepending spells the base-58 digits, most significant first. |
| `Base58.RecodeExtendedKeyVersion` | backend/tallykeep/adapters/descriptor_adapter.py:101-108 | Decoding, slicing and encoding compute the specified recoding; a character outside the alphabet and a short key are the two errors. |
| `Base58.RecodeYieldsKey` | backend/tallykeep/adapters/descriptor_adapter.py:101-108 | Recoding succeeds iff the key is over the alphabet and at least 78 bytes; the result decodes to 82 bytes: the new version, bytes 4 to 77 of the key, and the first four bytes of the double hash of these 78. |
| `Base58.RecodeTwice` | backend/tallykeep/adapters/descriptor_adapter.py:101-108 | Recoding twice equals recoding once to the last version. |
| `Base58.RecodeFixpoint` | backend/tallykeep/adapters/descriptor_adapter.py:101-108 | Recoding returns its input iff the input is a valid key that has the version already. |
| `Positional.RecodedInverse` | backend/tallykeep/adapters/descriptor_adapter.py:81-98 | Changing base and back is the identity for every digit string and every two bases. |
| `Money.TextPathExact` | backend/tallykeep/adapters/node_adapter.py:109-120 | Every real within relative error 2^-53 of s/10^8 converts to s if and only if abs(s) <= 2^52 satoshis. |
| `Money.ProductPathExact` | backend/tallykeep/adapters/kraken_adapter.py:51-54 | With the second rounding of the product, the result is always s if and only if abs(s) < 2^51 satoshis. |
| `Money.ConversionsAgree` | backend/tallykeep/adapters/kraken_adapter.py:51-54 | Up to 21 million BTC of either sign both conversions return s, so they agree. |
| `Money.BtcToSatsRounds` | backend/tallykeep/services/chain_processing_service.py:490-497 | The detour through text is rounding to the nearest satoshi, ties to even, of the magnitude, for every real. |
| `Money.SatsRoundTrip` | backend/tallykeep/adapters/node_adapter.py:352-363 | Formatting satoshis and parsing the text returns them, for every amount and sign. |
| `Money.SatsStringShape` | backend/tallykeep/adapters/node_adapter.py:352-363 | The text is a sign exactly for a negative amount, whole BTC without a leading zero, a point and eight digits. |
| `Money.ParseAmountText` | backend/tallykeep/adapters/node_adapter.py:109-120 | Partition, padding, sign and digits undo eight-decimal formatting, negative zero included. |
| `Secrets.StoreRefinesVault` | backend/tallykeep/infrastructure/secrets.py:117-276 | Over every run the store answers exactly as a plain map behind a lock. |
| `Secrets.StepRefines` | backend/tallykeep/infrastructure/secrets.py:158-252 | Each operation keeps one key, the first passphrase's, under the canary and every secret, and corresponds to the same operation on the plain map. |
| `Secrets.LockUnlockRestores` | backend/tallykeep/infrastructure/secrets.py:183-207 | After locking, a wrong passphrase changes nothing and the right one restores every value. |
| `Secrets.LastSetIsRead` | backend/tallykeep/infrastructure/secrets.py:231-244 | A value set is read back after any operations that do not write its reference, locks and unlocks included, whenever the store is unlocked. |
| `Secrets.DeletedIsMissing` | backend/tallykeep/infrastructure/secrets.py:246-252 | A deleted value is missing, and every other value reads as before. |
| `Secrets.LockedRefuses` | backend/tallykeep/infrastructure/secrets.py:135-139 | A locked store refuses to set, get and delete and changes nothing. |
| `Secrets.CanaryIsReserved` | backend/tallykeep/infrastructure/secrets.py:231-249 | The reserved reference is refused by all three. |
| `Secrets.FirstPassphraseRules` | backend/tallykeep/infrastructure/secrets.py:163-227 | After any run the first passphrase and no other unlocks and validates, and a second initialisation is refused. |
| `Secrets.SecretStore.InitializeStore` | backend/tallykeep/infrastructure/secrets.py:163-181 | Once only; stores the canary and keeps the key. |
| `Secrets.SecretStore.UnlockStore` | backend/tallykeep/infrastructure/secrets.py:183-207 | Keeps the derived key iff it opens the canary. |
| `Secrets.SecretStore.Validate` | backend/tallykeep/infrastructure/secrets.py:209-227 | Answers as the plain map would, changing nothing. |
| `Secrets.SecretStore.LockStore` | backend/tallykeep/infrastructure/secrets.py:131-133 | Forgets the key and nothing else. |
| `Secrets.SecretStore.Set` | backend/tallykeep/infrastructure/secrets.py:231-235 | Refused for the canary reference or when locked; else stores the sealed value. |
| `Secrets.SecretStore.Get` | backend/tallykeep/infrastructure/secrets.py:237-244 | Answers as the plain map would. |
| `Secrets.SecretStore.Delete` | backend/tallykeep/infrastructure/secrets.py:246-252 | Refused for the canary reference or when locked; else removes the value. |
| `CustodialMirror.LatestReportWins` | backend/tallykeep/repositories/custodial_ledger_entry.py:36-65 | Over every history of polls and reconciliations a row holds the mutable fields of its latest report. |
| `CustodialMirror.FirstReportStays` | backend/tallykeep/repositories/custodial_ledger_entry.py:45-60 | Owner, asset and timestamp are those of the first report. |
| `CustodialMirror.RowsAreReported` | backend/tallykeep/repositories/custodial_ledger_entry.py:36-52 | There is a row for a key iff it was reported; rows never disappear. |
| `CustodialMirror.PollsKeepLinks` | backend/tallykeep/repositories/custodial_ledger_entry.py:54-65 | No poll touches a reconciliation link. |
| `CustodialMirror.UnreconciledIsUnlinked` | backend/tallykeep/repositories/custodial_ledger_entry.py:50-52 | A row that was never reconciled has no links and no reconciliation time. |
| `CustodialMirror.LatestReconciliationWins` | backend/tallykeep/repositories/custodial_ledger_entry.py:72-102 | The latest reconciliation of a row decides its links; marking it unmatched sets the time only. |
| `CustodialMirror.PollExtendsHistory` | backend/tallykeep/api/v1/internal_custodial.py:109-130 | A poll is the arrival of its reports in order, so the laws over histories apply to it. |
| `CustodialMirror.PolledRows` | backend/tallykeep/api/v1/internal_custodial.py:109-130 | A batch of distinct ids sets exactly the reported rows and leaves the others alone. |
| `CustodialMirror.KindStable` | backend/tallykeep/api/v1/internal_custodial.py:126-130 | Within such a batch earlier reports do not change whether a later one is new, changed or unchanged. |
| `CustodialMirror.RepeatedBatchIsIdle` | backend/tallykeep/api/v1/internal_custodial.py:109-132 | Repeating the latest batch changes nothing and counts every report as unchanged. |
| `CustodialMirror.CopyChanged` | backend/tallykeep/repositories/custodial_ledger_entry.py:54-60 | The column loop ends with the reported fields and lists exactly the columns that differed. |
| `CustodialMirror.Mirror.UpsertReport` | backend/tallykeep/repositories/custodial_ledger_entry.py:36-65 | Inserts a new row, or writes and names exactly the differing columns. |
| `CustodialMirror.Mirror.PersistBatch` | backend/tallykeep/api/v1/internal_custodial.py:105-132 | The table after the batch, and counts of added, updated and unchanged that partition it. |
| `KrakenLedger.NormaliseLedger` | backend/tallykeep/adapters/kraken_adapter.py:386-459 | For every feed: a stable, time-sorted permutation of exactly the BTC non-trades and the BTC trades that are the first BTC item of their reference, and the newest emitted timestamp as cursor. |
| `KrakenLedger.GroupByReference` | backend/tallykeep/adapters/kraken_adapter.py:386-390 | Every reference maps to its items in feed order. |
| `KrakenLedger.MakeEntry` | backend/tallykeep/adapters/kraken_adapter.py:415-454 | One entry; a trade carries all legs of its reference in other currencies. |
| `KrakenLedger.EntryFields` | backend/tallykeep/adapters/kraken_adapter.py:415-454 | Id, status, timestamp and fee with their fallbacks, the amount unchanged or made negative for "out", and for a trade exactly the other-currency items of its reference. |
| `KrakenLedger.KindsSpelled` | backend/tallykeep/adapters/kraken_adapter.py:326-350 | What each raw kind becomes, and "other" for every other. |
| `KrakenLedger.BtcExactly` | backend/tallykeep/adapters/kraken_adapter.py:41-48 | A currency is Bitcoin iff what precedes its first point is BTC, XBT or XXBT in any case. |
| `KrakenLedger.CaseFolding` | backend/tallykeep/adapters/kraken_adapter.py:47 | Letters are folded, everything else stays. |
| `KrakenLedger.KeptInFeedOrder` | backend/tallykeep/adapters/kraken_adapter.py:397-454 | The entries before sorting are those of the kept positions, in feed order. |
| `KrakenLedger.PositionsAreKept` | backend/tallykeep/adapters/kraken_adapter.py:404-413 | A position is kept iff it is a BTC item and, for a trade, the first BTC item of its reference. |
| `KrakenLedger.LegsOfReference` | backend/tallykeep/adapters/kraken_adapter.py:435-441 | The non-BTC part of a reference's group is all its non-BTC items of the whole feed, in order. |
| `KrakenLedger.SortByTimeCorrect` | backend/tallykeep/adapters/kraken_adapter.py:458-459 | The sort orders by time, permutes, keeps the order of equal timestamps and the newest timestamp. |
| `KrakenLedger.KeptBySeen` | backend/tallykeep/adapters/kraken_adapter.py:410-413 | The set of seen references skips a trade iff an earlier BTC item has its reference. |
| `EventStream.StreamInvariants` | backend/tallykeep/api/v1/events_stream.py:67-121 | Over every interleaving the backlog is the tail of what was published, events leave in order, and taken plus dropped plus queued is everything published. |
| `EventStream.ReportedDropsExactly` | backend/tallykeep/api/v1/events_stream.py:106-112 | Reported drops plus the counter equal the drops if and only if no event met a full queue while an announcement was being sent. |
| `EventStream.DropForgotten` | backend/tallykeep/api/v1/events_stream.py:106-112 | For every queue capacity, a run in which a dropped event is never reported. |
| `EventStream.ClientQueue.OnBusEvent` | backend/tallykeep/api/v1/events_stream.py:78-88 | Put, or drop the oldest, count it and put. |
| `EventStream.ClientQueue.TakeNext` | backend/tallykeep/api/v1/events_stream.py:103-111 | Takes the oldest queued event; forwards it or announces the drops first. |
| `EventStream.ClientQueue.ResumeAfterAnnouncement` | backend/tallykeep/api/v1/events_stream.py:112-121 | Resets the counter and forwards the event held back. |

## Left out

- ChainStore.ChainStore.InitialScan: does not model the ledger entries the scan writes, which record only the first output per transaction and holding; conservation is a property of the live path.
- ChainRuns.Confluence: leaves out confirmation heights, which depend on the delivery order by design; `ChainHeights` says which they are.
- ChainRuns.Conservation: runs start from empty tables with a fixed watch set; descriptors added later, reorganisations and replaced transactions are not part of the model.
- Hygiene flags other than ADDRESS_REUSED (dust, round number, suspected consolidation): single-branch tests on one row.
- Raw transaction hex, block times, affected descriptor ids and generated ids in the result of a delivery.
- ChainRows.SignSafety: covers the sign rules of the entry constructor; its other checks concern an empty txid, a fee and a category, which a delivery never sets.
- Malformed transaction dictionaries: an input without a previous output is Coinbase, an output without a value or an address has no address; amounts arrive in satoshis, their conversion is in `Money`.
- Cascade.Database.DeleteCascade: after a violated RESTRICT check the tables are left as they stand; the caller rolls the transaction back.
- Columns that are not foreign keys in the cascade: they move with their rows.
- Money.TextPathExact: quantifies over reals within the rounding error, not over the doubles among them, and leaves out NaN, infinities and amounts given as strings.
- Base58.RecodeExtendedKeyVersion: the digest is any function to 32 bytes, so nothing depends on SHA-256.
- Secrets.StoreRefinesVault: key derivation and authenticated encryption are ideal; the database-backed store, thread locking and passphrase strength are not modelled.
- Payments.BankingService.BuildPaymentRequest: coin selection, fees, address checks and the PSBT itself are one argument, present or absent; the same holds for what the wallet library makes of a signature.
- Payments.LifecycleSafe: runs are serial; two requests that both pass the in-flight check before either is inserted are not modelled, nor is the rollback of an attempt row by the caller after a failed broadcast.
- Payments.BankingService.ConfirmByTxid: which ledger entry the listener picks, and the completion of a linked sweep, are not modelled.
- Invoices.ReservationExclusive: runs are serial; labels, BIP21 links, expiry and the matching of incoming payments to invoices are not modelled.
- CustodialMirror.Mirror.PersistBatch: asks for distinct entry ids within a batch, because an insert is not visible to the lookup before the flush and a repeated id would violate the unique key.
- KrakenLedger.NormaliseLedger: a failed fetch, the 200 item limit, fee dictionaries and the logging loop are not modelled; letters outside ASCII keep their case.
- EventStream.StreamInvariants: one client, any capacity above zero (the code uses 1000); subscription, keep-alive comments and disconnects are not modelled.
- Events.EventLog.RunOnce: one reconciler at a time; a failure to commit a row is a step that does not happen.
- The sweep policy layer, health probes, feature flags, schemas, routers, migrations, the poll's error states and the frontend: plumbing or facts of one branch.
