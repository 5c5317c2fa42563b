# Retriever shop bookkeeping: verified model

A Dafny 4.11 model of the stateful bookkeeping of the shop backend `magazyn`: the places where a loop over outside
data must leave a local table, cache or ledger in a state that can be stated simply. `dafny verify dfyconfig.toml`
checks the whole project.

Objects whose methods change fields are classes; their methods are proved against functions on values (`View() == ...`),
and the promises are lemmas about those functions, over single calls and over whole runs of events. The outside world
(API pages, send results, refused writes, queries that fail, other processes, the clock) is an arbitrary input.

| file | what it models |
|---|---|
| `SettingsStore.dfy` | the settings table, the per-process cache of it, refresh, update with its roll-back |
| `SettingsCoherence.dfy` | coherence of that cache with other processes reading and writing |
| `OfferSync.dfy` | offer table, price history, the upsert, the paging loop with its 401 handling, its transaction |
| `OfferLedger.dfy` | synchronisation refines overwriting; price ledger; links; idempotence |
| `MessageSync.dfy` | message windows, Messenger announcements, automatic replies, delivery over whole runs |
| `MessageThreads.dfy` | what message runs leave in the thread table and in stored messages |
| `PurchaseCost.dfy` | purchase cost of an order from sale records and estimates |
| `PeriodProfit.dfy` | fee decision, profit record cached on an order, period summary |
| `Billing.dfy` | billing entries sorted into buckets, totals, promotion type, fee details |
| `StockValue.dfy` | moving weighted average: deliveries, sales, adjustments, returns |
| `InvoiceImport.dfy` | de-duplicated delivery journal and the stock it moves |
| `Stocktake.dfy` | stocktaking sessions: start, scan, undo, finish, apply |
| `Refunds.dfy` | refund line items and amounts |
| `WooFees.dfy` | commissions of a consumed order |
| `TokenRefresher.dfy` | failure counter, alert and backoff of the token refresher |
| `TitleScan.dfy` | backward scan of an offer title, longest-prefix colours |
| `PagedFetch.dfy` | the paged fetches of orders, threads and issues |
| `Options.dfy`, `Sums.dfy`, `Lists.dfy`, `Money.dfy` | shared definitions |

Money is counted in grosze: whole numbers where the program quantises, reals where it does not. Stamps and clocks are
natural numbers.

## Where the code does not do what one would expect

Each of these is a theorem with the exact condition under which the expected behaviour holds.

- A process that writes or deletes settings without having looked first moves its last seen stamp past rows it never
  read; it is coherent afterwards exactly when those rows already agreed with its cache (`WriterCoherentIffWasFresh`,
  `StaleWriterMissesARow`, `StaleDeleterMissesARow`).
- `SettingsStore.update` that fails in its second write puts the cache back, while the first write stays committed and
  is never seen by this process again (`FailedUpdateCoherentIffNothingCommitted`, `CommittedRowsStayInvisible`). After
  a refresh this is the only way in which an update breaks coherence (`AmendKeepsInvIff`).
- The session of a synchronisation does not see rows it added itself, and the id column is unique: a catalogue that
  lists an id twice which the table does not know yet is refused and rolled back, every time
  (`CommitsIffNoNewIdRepeats`). A second synchronisation of one catalogue is idle exactly when no id is listed twice
  with different contents, or the catalogue is refused (`SecondSyncIdleIffUnambiguous`).
- The paging loop ends exactly when the announced total is served (`LoopEndsIffTotalIsServed`).
- A message is announced at most once exactly when no run announces it again between a rolled-back run that did and the
  first committed one (`AtMostOnceIff`, `RollbackAnnouncesTwice`). A thread gets at most one automatic reply exactly
  when no reply to it was lost from the records or rolled back, or a single one was and none is on record
  (`RepliesAreCounted`, `LostRecordRepliesTwice`).
- Fee details list debits of unknown type twice and list debits the totals ignore; with the line of an estimate among
  them they add up to the total with the estimate exactly when there are no such debits (`DetailsExplainTotalIff`).
- Two equal lines of one invoice count once (`WholeInvoiceArrivesIffAllNew`).
- Two undos take back the last two scans only if both were of one size or the later one started from zero
  (`TwoUndosRestoreIff`). Finishing an applied stocktake, and nothing else, opens it for a second application
  (`AppliedReopensIff`, `AppliedCanBeAppliedAgain`).
- The value column has two places. A sale whose share of the value falls exactly between two grosze rounds both its cost
  and the remaining value up, so a grosz appears (`TakenSplits`, `ValueIsConserved`); the average price survives a sale
  exactly when the share is whole (`TakenKeepsAverageIff`).
- A sale records the wanted pieces; returning it restores the stock exactly when the stock had sufficed and the share
  was no such tie (`ReturnUndoesSaleIff`).
- Each refund item is capped on its own; several items on one line stay within the ordered quantity exactly when
  together they ask for no more (`WithinOrderedIff`).
- A cash-on-delivery line that comes first swallows the fixed payment fee (`FixedChargedIffFirstIsNotCod`).
- Fees taken from a billing summary whose total with the estimate is exactly zero are the total without it
  (`SnapshotIsShownTotalIff`).
- Cached profit records are exact when written; two-place columns can open a gap of up to two grosze per order
  (`ReloadedGap`, `PeriodProfitNearlyAddsUp`), and open none exactly when the rounded parts drifted too little to move
  the rounded profit (`ReloadedAddsUpIff`, `FractionalFeesAddUpIff`, `FractionalCostAddsUpIff`).

The documentation of `get_purchase_cost_for_order` speaks of the newest delivery price; the code estimates by the
average purchase price first. The estimate is a parameter here, so both readings are covered.

## Model

| member | source | states |
|---|---|---|
| SettingsTable.LoadRows | magazyn/domain/settings_persistence.py:90-96 | one pass over the rows yields every value and MAX(updated_at), None only for an empty table |
| SettingsStore.Database.PersistMany | magazyn/domain/settings_persistence.py:178-195 | upserts all rows in one commit, or none; returns the new greatest stamp when the query after the commit answers; nothing for no rows |
| SettingsStore.Database.DeleteKeys | magazyn/domain/settings_persistence.py:197-205 | deletes all named rows in one commit, or none; returns the new greatest stamp; nothing for no keys |
| SettingsStore.SettingsStore.EnsureLoaded | magazyn/settings_store.py:61-92 | loads once: environment values overlaid by the table, stamp unknown if the table could not be read |
| SettingsStore.SettingsStore.RefreshIfStale | magazyn/settings_store.py:273-293 | reloads only when the table's greatest stamp is later than the last seen one, and only if both queries answer |
| SettingsStore.SettingsStore.Reload | magazyn/settings_store.py:295-299 | the cache is what a fresh load gives |
| SettingsStore.SettingsStore.Get | magazyn/settings_store.py:254-271 | cached value after refreshing, else non-empty namespace default, else the caller's default |
| SettingsStore.SettingsStore.ApplyRequest | magazyn/settings_store.py:220-235 | the cache takes the request; exactly the entries that differ are collected for writing, exactly the cached ones for deletion |
| SettingsStore.SettingsStore.WriteBack | magazyn/settings_store.py:240-244 | writes the differences, then deletes, stopping at the first refusal; last seen stamp and table accordingly |
| SettingsStore.SettingsStore.Update | magazyn/settings_store.py:218-251 | cache, stamp, table and error for every outcome of the two writes, with the cached values put back on an error |
| SettingsCoherence.RunKeepsInv | magazyn/settings_store.py:273-293 | over every interleaving of commits, deletions, failed queries and updates of this process after a refresh: each row stamped at or before the last seen stamp agrees with the cache |
| SettingsCoherence.AmendKeepsInvIff | magazyn/settings_store.py:218-251 | an update after a refresh keeps that invariant exactly when it does not fail after committing rows and reading their stamp |
| SettingsCoherence.LookDecides | magazyn/settings_store.py:276-293 | an answered MAX query either asks for a load or shows the cache equal to the table; an answered load makes it equal |
| SettingsCoherence.GetReturnsLastCommitted | magazyn/settings_store.py:254-271 | after any run, a get of a key in the table returns the value last committed to it, read off the commits alone |
| SettingsCoherence.GetReturnsAValueOfItsOwnTime | magazyn/settings_store.py:273-293 | with commits between its two queries, a get returns the value committed at the moment of one of them |
| SettingsCoherence.GetFallsBack | magazyn/settings_store.py:254-271 | after any run that never names a key, a get of it returns the environment value, else the non-empty namespace default, else the default of the caller |
| SettingsCoherence.CachedKeyStays | magazyn/settings_store.py:286-293 | a cached key stays cached through refreshes and the commits and deletions of others |
| SettingsCoherence.EmptyLoadChangesNothing | magazyn/settings_store.py:286-289 | a load that fails or finds no row leaves values and stamp |
| SettingsCoherence.CommitIsSeenIffStampedLater | magazyn/settings_store.py:283-284 | a changing commit reaches the next get exactly when one of its stamps is later than the last seen one |
| SettingsCoherence.FreshWriterStaysFresh | magazyn/settings_store.py:218-251 | an update on a fresh cache leaves cache and table equal, honours every entry, stamps what it writes and touches no other row, nor one that holds the value already |
| SettingsCoherence.WriterCoherentIffWasFresh | magazyn/settings_store.py:105-115 | after an update that read a stamp back, by writing or deleting, the cache is coherent exactly when every row it left alone already agreed |
| SettingsCoherence.StaleWriterMissesARow | magazyn/settings_store.py:105-109 | two workers, one stale writer: a committed row that no later get returns |
| SettingsCoherence.StaleDeleterMissesARow | magazyn/settings_store.py:111-115 | the same with an update that only deletes |
| SettingsCoherence.FailedUpdateCoherentIffNothingCommitted | magazyn/settings_store.py:240-248 | after a failed update the old values are back; coherent exactly when no row was committed with its stamp read back |
| SettingsCoherence.FailedUpdateTable | magazyn/settings_store.py:240-248 | what a failed update leaves in the table: nothing, or every requested difference and no deletion |
| SettingsCoherence.UncachedKeyIsNotDeleted | magazyn/settings_store.py:225-229 | a deletion asked for a key this process does not cache deletes nothing |
| SettingsCoherence.CommittedRowsStayInvisible | magazyn/settings_store.py:240-248 | after such a failure the committed rows are not returned by any get until something else is committed |
| OfferSync.Session.RecordPricePoint | magazyn/domain/allegro_prices.py:27-51 | appends one sample and changes nothing else |
| OfferSync.Session.UpsertOffer | magazyn/domain/allegro_offer_upsert.py:18-106 | adds a row and a first sample for an id the database does not know, however often it was added in this session; writes a known row only on a difference, its link only if it may, a sample only on a price change |
| OfferSync.OfferStore.LinkOffer | magazyn/allegro.py:324-349 | sets, clears or keeps the link of an existing offer; unknown offers and sizes change nothing |
| OfferSync.Session.ApplyPage | magazyn/allegro_sync.py:214-332 | every readable offer of a page is upserted in order; ids and matches are counted, unreadable prices skipped |
| OfferSync.Session.EndStale | magazyn/allegro_sync.py:343-350 | ACTIVE rows not listed become ENDED, unless nothing was synced |
| OfferSync.Session.Flush | magazyn/models/allegro.py:13 | the added rows join the table, unless two of them share an id |
| OfferSync.Session.WalkPages | magazyn/allegro_sync.py:130-341 | for any API answers: what the session holds, the ending, ids and counts are those of the request-by-request walk |
| OfferSync.OfferStore.SyncOffers | magazyn/allegro_sync.py:79-361 | for any API: fails, with both tables as before, exactly when there is no login, a request fails after recovered 401s and pages short of the total, or the flush is refused; finishes exactly when a page reaches the total and the flush is accepted |
| OfferSync.WalkEndsAsMet | magazyn/allegro_sync.py:130-195 | the request-by-request walk ends as the answers it meets say: which requests are asked, which fail, which tokens follow a 401 |
| OfferSync.CountMatchedIs | magazyn/allegro_sync.py:331-332 | the matched count is the number of visited readable offers with a place in the warehouse |
| OfferSync.WalkVisitsRest | magazyn/allegro_sync.py:130-173 | pages and finitely many 401s: lexicographic progress, the rest up to the announced total visited once and in order |
| OfferSync.SyncVisitsCatalogue | magazyn/allegro_sync.py:334-341 | against a stable catalogue the loop ends and visits exactly the catalogue |
| OfferSync.LoopEndsIffTotalIsServed | magazyn/allegro_sync.py:334-341 | with finitely many recoverable 401s, the loop ends exactly when the announced total is served, and then has visited the pages up to it; else it visits everything and keeps asking |
| OfferLedger.CommitsIffNoNewIdRepeats | magazyn/db.py:182-186 | a session that does not see its own rows commits exactly when no id absent from the table has two readable listings, and then leaves what direct upserts would |
| OfferLedger.SyncRefinesOverwrite | magazyn/allegro_sync.py:214-355 | refused and without effect exactly when a new id is listed twice; else every row shows the last readable listing of its id, or is the old row no longer ACTIVE |
| OfferLedger.SyncShowsCatalogue | magazyn/allegro_sync.py:214-350 | distinct ids and readable prices: each offer is shown, nothing else is ACTIVE, no other row appears |
| OfferLedger.StableRunShowsCatalogue | magazyn/allegro_sync.py:79-361 | the same for a whole run through the paging loop with its 401s |
| OfferLedger.UpsertKeepsLedger | magazyn/domain/allegro_offer_upsert.py:35-106 | one upsert keeps: history non-empty, ending at the row's price, without repeats |
| OfferLedger.RunKeepsLedger | magazyn/domain/allegro_offer_upsert.py:35-106 | the same over any run of synchronisations, refused and failed ones and manual edits from empty tables |
| OfferLedger.HistoryOnlyGrows | magazyn/domain/allegro_prices.py:27-51 | a run appends samples of offers it visited, each at its price, matched size and time, and rewrites none |
| OfferLedger.ChangedRowsAreStamped | magazyn/domain/allegro_offer_upsert.py:36-97 | every row a pass adds or changes carries the time of the pass |
| OfferLedger.EditChangesLinkOnly | magazyn/allegro.py:324-349 | a manual edit changes the link of one row and nothing else |
| OfferLedger.ApplyAllLinks | magazyn/domain/allegro_offer_upsert.py:58-96 | after a pass of upserts a link is the last match found, else what it was |
| OfferLedger.RunLinks | magazyn/domain/allegro_offer_upsert.py:58-96 | over any run a link is the last match of a committed synchronisation or manual edit; no synchronisation clears one |
| OfferLedger.SecondSyncIdleIffUnambiguous | magazyn/domain/allegro_offer_upsert.py:67-75 | a later second sync changes no row and adds no sample exactly when no id is listed with two contents or the catalogue is refused; it is refused both times or neither |
| MessageSync.AllegroSyncService.NotifyOnce | magazyn/notifications/messenger_delivery.py:14-39 | sends and flags only a stored, unflagged message whose send succeeds; returns whether it sent |
| MessageSync.AllegroSyncService.SendAutoReply | magazyn/agent/allegro_sync.py:205-226 | replies only to a thread without a recorded reply; records it unless the row is lost |
| MessageSync.AllegroSyncService.ReceiveWindow | magazyn/agent/allegro_sync.py:156-192 | stores unknown messages, announces the buyer's, known or not; latest time, new-message flag and unread mark |
| MessageSync.AllegroSyncService.ProcessThread | magazyn/agent/allegro_sync.py:255-354 | thread upsert, window, last message time, automatic reply after a new buyer message |
| MessageSync.AllegroSyncService.Check | magazyn/agent/allegro_sync.py:228-253 | all threads in one transaction; a run that raises restores the tables but not what was sent |
| MessageDelivery.ReceiveAllStep | magazyn/agent/allegro_sync.py:307-343 | a window keeps sends less flags, stores exactly the seen messages, flags exactly the announced ones, sends no reply |
| MessageDelivery.AnnouncementsAreCounted | magazyn/notifications/messenger_delivery.py:14-39 | over any runs, told from the events alone: one send by the first committed run announcing the message, one by every earlier rolled-back run announcing it, no other |
| MessageDelivery.AtMostOnceIff | magazyn/notifications/messenger_delivery.py:14-39 | at most one send exactly when no run announces the message between a rolled-back run that did and the first committed one |
| MessageDelivery.StoredAndFlaggedExactly | magazyn/agent/allegro_sync.py:320-343 | stored iff fetched by a committed run; flagged iff the buyer's message met a working Messenger in one: failed sends are retried |
| MessageDelivery.StoredOnce | magazyn/agent/allegro_sync.py:320-335 | a stored message keeps thread, text and time over any further runs |
| MessageDelivery.ProcessReplies | magazyn/agent/allegro_sync.py:351-377 | a reply is tried exactly for news of the buyer in a thread without a recorded reply; what it adds to replies sent and recorded |
| MessageDelivery.RepliesAreCounted | magazyn/agent/allegro_sync.py:356-377 | over any runs: replies to a thread are the recorded one, plus those lost or sent in rolled-back runs to this thread; at most one exactly when at most one of these is there |
| MessageDelivery.LostRecordRepliesTwice | magazyn/agent/allegro_sync.py:370-377 | two committed runs, the first losing its record: two replies |
| MessageDelivery.NoReplyWithoutNewMessage | magazyn/agent/allegro_sync.py:174-179 | a window of known messages sends no automatic reply, so a failed reply waits for a new message |
| MessageDelivery.RollbackAnnouncesTwice | magazyn/agent/allegro_sync.py:246-251 | a concrete run rolled back after sending, repeated: two announcements |
| MessageThreads.RunMovesThreads | magazyn/agent/allegro_sync.py:128-197 | over any runs: a rolled-back one moves no thread; a committed one adds threads with the remote mark, leaves a thread unread exactly when it was or news of the buyer was found, and gives it the time of its last dated or newly stored message |
| MessageThreads.CommittedRunStoresFetched | magazyn/agent/allegro_sync.py:332-336 | a message stored first has the thread, text and time of the fetched one |
| MessageThreads.StoredIsKnown | magazyn/agent/allegro_sync.py:320-336 | the stored messages are those of the windows of committed runs |
| PurchaseCost.GroupSales | magazyn/domain/financial.py:220-227 | per key, the summed cost of its sale records |
| PurchaseCost.CostOfLines | magazyn/domain/financial.py:229-255 | each key's records are taken by its first line; exactly the other resolvable lines are estimated |
| PurchaseCost.CostLeftOver | magazyn/domain/financial.py:257-261 | the records no line asked for are added, each once |
| PurchaseCost.PurchaseCostForOrder | magazyn/domain/financial.py:179-265 | total is all sale records once plus the estimates of exactly the lines without an unused record; the flag iff none was estimated and there is a sale or no line |
| PurchaseCost.ActualCostOnly | magazyn/domain/financial.py:246-255 | without an estimated line the cost is the recorded cost |
| PurchaseCost.SaleReplacesEstimate | magazyn/domain/financial.py:220-261 | one more sale raises the cost by exactly its own, less the estimate of the first line of its key if that had no record |
| PurchaseCost.UnsoldOrderIsEstimated | magazyn/domain/financial.py:243-255 | without sales the cost is the estimate, for its quantity, of every line that stands for a key |
| PurchaseCost.ResolvesIff | magazyn/domain/financial.py:233-246 | a line stands for the key it leads to directly, or through its offer if it leads to no size directly |
| PeriodProfit.Order.Refresh | magazyn/domain/financial.py:603-636 | the cached record afterwards is the breakdown, complete and exact: profit is sale less fees, cost, packaging |
| PeriodProfit.FeesAreTakenInOrder | magazyn/domain/financial.py:423-537 | which fees an order is charged: manual, shop, final record, billing handed in, billing fetched, estimate, none; and when they are final |
| PeriodProfit.SnapshotIsShownTotalIff | magazyn/domain/financial.py:411-421 | fees from a billing summary are its total with the estimate exactly when that is not zero, or the total without it is zero too |
| PeriodProfit.Order.Reload | magazyn/models/orders.py:72-76 | reading back rounds each of the five amounts to two places |
| PeriodProfit.PeriodSummary | magazyn/domain/financial.py:860-945 | totals over cached or freshly calculated breakdowns; gross, active fixed costs, net; incomplete and API-fee counts |
| PeriodProfit.UsedIs | magazyn/domain/financial.py:580-601 | a complete cached record is used as it is; else the order is calculated |
| PeriodProfit.PeriodsAdd | magazyn/domain/financial.py:872-921 | sums and counts of a period are those of its parts |
| PeriodProfit.FixedCostsAdd | magazyn/domain/financial.py:923-936 | fixed costs add up, inactive ones count nothing |
| PeriodProfit.PeriodProfitAddsUp | magazyn/domain/financial.py:872-921 | for any mix of cached and fresh orders gross profit is the sum of their profits |
| PeriodProfit.ReloadedGap | magazyn/models/orders.py:72-76 | after rounding, parts and profit differ by a whole number of at most two grosze |
| PeriodProfit.ReloadedGapExists | magazyn/models/orders.py:72-76 | a concrete record one grosz off after rounding |
| PeriodProfit.ReloadedAddsUpIff | magazyn/models/orders.py:72-76 | a reloaded record adds up exactly when its rounded parts drifted by less than half a grosz, or half a grosz in the direction the profit is rounded |
| PeriodProfit.FractionalFeesAddUpIff | magazyn/models/orders.py:72-76 | with only fees in fractions: exactly when they are no half-grosz tie, or are rounded against the profit |
| PeriodProfit.FractionalCostAddsUpIff | magazyn/models/orders.py:72-76 | likewise with only the purchase cost in fractions |
| PeriodProfit.PeriodProfitNearlyAddsUp | magazyn/domain/financial.py:872-921 | over reloaded records gross is the sum of profits to within two grosze per order |
| PeriodProfit.FinalFeesStay | magazyn/domain/financial.py:450-461 | final fees survive any number of refreshes without token and billing |
| Billing.AddEntry | magazyn/allegro_api/billing.py:261-307 | one entry adds its part to each bucket, sets the promotion, lists its details |
| Billing.OrderBillingSummary | magazyn/allegro_api/billing.py:225-354 | every field for any entries, estimate and failure: totals over the entries read, the estimate with its own detail line exactly when no shipping was charged |
| Billing.OneEntry | magazyn/allegro_api/billing.py:140-316 | the summary of one entry: the field its code and sign select |
| Billing.OneEntryLines | magazyn/allegro_api/billing.py:261-307 | the detail lines of one entry |
| Billing.SummariesAdd | magazyn/allegro_api/billing.py:249-316 | summaries of two lists add up field by field |
| Billing.EstimateIsLastLine | magazyn/allegro_api/billing.py:340-354 | an estimate is the last line under its own code and mark, shown exactly when no shipping was charged |
| Billing.BillingConserves | magazyn/allegro_api/billing.py:268-316 | signed sum of the entries is refunds less total fees plus the ignored amounts |
| Billing.NothingIgnored | magazyn/allegro_api/billing.py:268-316 | with no ignored entry it is refunds less fees |
| Billing.SummaryOfPermutation | magazyn/allegro_api/billing.py:249-354 | summaries of the same entries in any order differ only in the order of the detail lines |
| Billing.DetailsExceedTotal | magazyn/allegro_api/billing.py:261-307 | the lines of the entries add up to total fees plus unknown fees once more plus ignored debits |
| Billing.DetailsAgainstTotal | magazyn/allegro_api/billing.py:309-354 | by how much the shown lines, estimate included, exceed the shown total; after a failure by all fees besides |
| Billing.DetailsExplainTotalIff | magazyn/allegro_api/billing.py:261-354 | the shown lines add up to the total with the estimate exactly when no debit is of unknown, bonus or refund type |
| StockValue.ProductSize.Receive | magazyn/services/stock_records.py:51-55 | quantity and value rise by the delivery |
| StockValue.ProductSize.Consume | magazyn/services/stock_records.py:130-189 | takes what there is at its share of the value, the remaining value rounded by its column; consumed pieces and the sale record |
| StockValue.ProductSize.AdjustBy | magazyn/services/stock_adjust.py:50-75 | increase at a price or at the average, decrease at the average down to zero, rounded by the column |
| StockValue.ProductSize.SetTo | magazyn/services/stock_adjust.py:50-75 | the adjustment by the difference to the target |
| StockValue.TakenKeepsAverageIff | magazyn/services/stock_records.py:147-156 | taking pieces out keeps the average price exactly when their share is a whole number of grosze |
| StockValue.AdjustedKeepsSound | magazyn/services/stock_adjust.py:50-75 | adjustments keep the invariant and reach the target quantity, never below zero |
| StockValue.PricedIncrease | magazyn/services/stock_adjust.py:57-64 | pieces added at a price raise the value by that price each, the unit price being rounded first |
| StockValue.DecreaseIsUnrecordedSale | magazyn/services/stock_adjust.py:65-74 | a decrease takes what a sale of so many pieces would, at no price |
| StockValue.UnpricedIncreaseKeepsAverageIff | magazyn/services/stock_adjust.py:57-64 | an unpriced increase keeps the average exactly when it is worth a whole number of grosze, and always to within half a grosz of value |
| StockValue.RunKeepsSound | magazyn/models/products.py:113-117 | over every run of deliveries, sales and adjustments: value non-negative, zero stock has zero value |
| StockValue.TakenSplits | magazyn/models/products.py:117 | what leaves and what stays, both rounded, are the whole value, and one grosz more exactly at a half-grosz tie |
| StockValue.ValueIsConserved | magazyn/services/stock_records.py:130-189 | to the grosz over every run: value is what was booked in less recorded costs and write-offs, plus one grosz for every tie |
| StockValue.ReturnFromSale | magazyn/services/return_stock.py:112-132 | what one sale gives back, at its recorded unit cost, never beyond what was sold |
| StockValue.RestoreForReturn | magazyn/services/return_stock.py:74-144 | exact quantity and value after a return; pieces covered by sales; sales never over-returned; invariant kept |
| StockValue.OldestFirst | magazyn/services/return_stock.py:101-132 | a sale gives pieces back only when all older ones are returned in full |
| StockValue.BackIsGiven | magazyn/services/return_stock.py:119-129 | the value given back, sale by sale, at the recorded unit cost |
| StockValue.RemainderIsUnpricedIncrease | magazyn/services/return_stock.py:134-142 | pieces no sale accounts for come back as an unpriced increase |
| StockValue.ReturnUndoesSaleIff | magazyn/services/return_stock.py:112-132 | returning a whole sale restores the stock exactly when it had sufficed and the share was no tie; quantity and value each exactly |
| InvoiceImport.Warehouse.Import | magazyn/domain/invoice_import.py:787-837 | the rows one after the other: create the size, skip a journalled batch, else journal it and raise quantity and value |
| InvoiceImport.ImportIsUnion | magazyn/domain/invoice_import.py:803-834 | the journal afterwards is the old one united with the set of rows |
| InvoiceImport.AddedAreNew | magazyn/domain/invoice_import.py:803-834 | what is added is new, and once each |
| InvoiceImport.StockMovesWithJournal | magazyn/domain/invoice_import.py:823-837 | quantity less journalled quantity and value less journalled cost never change |
| InvoiceImport.ImportKeepsSound | magazyn/domain/invoice_import.py:835-837 | non-negative rows keep the stock invariant |
| InvoiceImport.ImportIsIdempotent | magazyn/domain/invoice_import.py:803-821 | the same invoice again changes neither journal, quantity nor value |
| InvoiceImport.ImportOrderDoesNotMatter | magazyn/domain/invoice_import.py:803-837 | same set of rows, any order and repetition: same journal entries, same stock |
| InvoiceImport.WholeInvoiceArrivesIffAllNew | magazyn/domain/invoice_import.py:803-821 | all pieces of an invoice are journalled exactly when no row repeats another or an old batch |
| InvoiceImport.RowIsBookedIff | magazyn/domain/invoice_import.py:804-837 | a row appends its own batch, of this date and invoice, and raises its own stock, exactly when that batch is not journalled and no equal row came before |
| InvoiceImport.FreshDeliveryIsBooked | magazyn/domain/invoice_import.py:804-837 | a delivery of which nothing is journalled is booked in full, each distinct row once |
| InvoiceImport.TwoDeliveriesAreBookedTwice | magazyn/domain/invoice_import.py:811-812 | the same rows under another date or invoice number are booked again |
| InvoiceImport.AddedAreRows | magazyn/domain/invoice_import.py:823-834 | what is added are batches of purchase rows under this delivery |
| InvoiceImport.NewSizeStartsEmpty | magazyn/domain/invoice_import.py:792-799 | an unknown size is created empty |
| Stocktake.StocktakeService.Start | magazyn/blueprints/stocktake.py:70-104 | an active session is returned as it is; else a new one with zero counts for every size with a barcode |
| Stocktake.StartLists | magazyn/blueprints/stocktake.py:72-102 | the new session has one item for each size with a barcode, its stock expected and nothing counted, and none else; nothing happens with an active one |
| Stocktake.StocktakeService.Scan | magazyn/blueprints/stocktake.py:142-185 | an accepted scan adds its item if missing, counts one and stamps it; everything else changes nothing |
| Stocktake.ScanAcceptedIff | magazyn/blueprints/stocktake.py:144-162 | a scan changes something exactly with a barcode of some size in a session in progress |
| Stocktake.StocktakeService.Undo | magazyn/blueprints/stocktake.py:248-266 | lowers the item scanned last among those with a count |
| Stocktake.UndoAcceptedIff | magazyn/blueprints/stocktake.py:249-263 | an undo changes something exactly in a session in progress with something counted |
| Stocktake.StocktakeService.Finish | magazyn/blueprints/stocktake.py:319-326 | the session is finished, whatever its status was |
| Stocktake.StocktakeService.Apply | magazyn/blueprints/stocktake.py:394-414 | a finished session's discrepant items adjust their sizes, and their number is returned; status applied |
| Stocktake.RunKeepsInv | magazyn/blueprints/stocktake.py:70-104 | over every run, sizes and barcodes being added too: at most one session in progress, counts non-negative, one item per size, stock soundly valued |
| Stocktake.LateSizeIsCounted | magazyn/blueprints/stocktake.py:172-185 | a size labelled after the start is added by its first scan, with the stock it has then |
| Stocktake.CountsAreScansLessUndos | magazyn/blueprints/stocktake.py:183-185 | the counts of a session add up to accepted scans less accepted undos |
| Stocktake.ScanThenUndoRestores | magazyn/blueprints/stocktake.py:248-266 | a scan directly undone restores every count |
| Stocktake.LastAfterUndo | magazyn/blueprints/stocktake.py:254-265 | which item the next undo would take after a scan directly undone |
| Stocktake.TwoUndosRestoreIff | magazyn/blueprints/stocktake.py:254-265 | two undos restore two scans exactly when they were of one size or the later started from zero |
| Stocktake.ApplySetsDiscrepantStock | magazyn/blueprints/stocktake.py:403-412 | discrepant sizes get their scanned count, all others stay, valuation stays sound |
| Stocktake.StocktakeSetsCounts | magazyn/blueprints/stocktake.py:70-414 | start, any scans and undos, finish, apply: every size with a barcode has as stock its accepted scans less undos, every other is as it was |
| Stocktake.AppliedReopensIff | magazyn/blueprints/stocktake.py:319-326 | an applied session can be applied again after one event exactly if that event finishes it once more |
| Stocktake.AppliedCanBeAppliedAgain | magazyn/blueprints/stocktake.py:325-414 | it then writes its counts again |
| Refunds.LastWith | magazyn/allegro_api/refunds.py:295-303 | the last line under a key, None iff there is none |
| Refunds.MatchesIff | magazyn/allegro_api/refunds.py:308-318 | an item meets the last line of its offer, or with no such offer the last of its name |
| Refunds.MatchedItemIs | magazyn/allegro_api/refunds.py:314-338 | pieces and price of a matched item, missing quantities and own prices included |
| Refunds.ItemValueIs | magazyn/allegro_api/refunds.py:402-407 | what lines are worth, missing prices and quantities included |
| Refunds.IndexLines | magazyn/allegro_api/refunds.py:295-303 | per offer id and per name, the last line with it |
| Refunds.BuildItems | magazyn/allegro_api/refunds.py:305-338 | items and amount of all matched returns, or the first return without a line |
| Refunds.BuildRefundLineItems | magazyn/allegro_api/refunds.py:279-340 | payload and total for all items, or no payload at all with the reason |
| Refunds.BuildPartialRefundDetails | magazyn/allegro_api/refunds.py:343-382 | succeeds iff every item matches; item amount plus covered delivery; partial flag |
| Refunds.CheckoutRefundTotal | magazyn/allegro_api/refunds.py:385-414 | the payment, or with no payment the item value |
| Refunds.QuantityInRangeIff | magazyn/allegro_api/refunds.py:325-326 | a payload quantity is between one and the ordered one exactly when something was ordered |
| Refunds.RefundAtMostOrder | magazyn/allegro_api/refunds.py:305-340 | items of different lines at the order's prices never total more than the order's items |
| Refunds.FullReturnIsItemTotal | magazyn/allegro_api/refunds.py:402-407 | returning every line in full is exactly the item total of the checkout refund, and no partial return |
| Refunds.WithinOrderedIff | magazyn/allegro_api/refunds.py:325-333 | a line's payload stays within the ordered quantity exactly when at most one item meets it or all together ask for no more |
| WooFees.Commissions | magazyn/domain/inventory.py:203-259 | the fee of every consumed line: preset, platform rate, or shop rate with the fixed fee on the first computed line, none on delivery |
| WooFees.LineFeeIs | magazyn/domain/inventory.py:223-259 | the fee of one line to half a grosz: preset, platform percentage, nothing on delivery, shop percentage with the fixed fee on the first computed line |
| WooFees.FeesAreRatesPlusFixed | magazyn/domain/inventory.py:241-253 | for any order, to the grosz: rounded percentages of the charged lines plus the fixed fee once or not at all |
| WooFees.FeesNearExact | magazyn/domain/inventory.py:241-253 | for any order the charged fees are within half a grosz per line of percentage plus fixed fee |
| WooFees.PlainOrderFees | magazyn/domain/inventory.py:241-253 | an order of plain lines pays its rounded percentages and the fixed fee exactly once, within half a grosz per line of the exact amount |
| WooFees.FixedChargedIffFirstIsNotCod | magazyn/domain/inventory.py:247-253 | the fees hold the fixed fee exactly when the first computed line is not paid on delivery |
| TokenRefresher.LongRunsNext | magazyn/allegro_token_refresher.py:224-237 | a pass adds a long failing run exactly when it completes the threshold |
| TokenRefresher.BackoffNext | magazyn/allegro_token_refresher.py:260-261 | doubling and capping step by step is the closed form |
| TokenRefresher.BackoffIsCappedIff | magazyn/allegro_token_refresher.py:240-261 | every wait is min(initial * 2^(j-1), max) exactly when initial is within max |
| TokenRefresher.FailedRefreshesCounted | magazyn/allegro_token_refresher.py:254-261 | the backoff counts the failed refreshes since the last good one, whatever passes fall between |
| TokenRefresher.BackoffIs | magazyn/allegro_token_refresher.py:240-261 | the first wait is the initial one, each later one doubles up to the cap |
| TokenRefresher.WaitIs | magazyn/allegro_token_refresher.py:242-266 | how long each kind of pass waits |
| TokenRefresher.AllegroTokenRefresher.TrackFailure | magazyn/allegro_token_refresher.py:224-232 | counts one failure; one alert per long run over the whole history |
| TokenRefresher.AllegroTokenRefresher.ResetFailures | magazyn/allegro_token_refresher.py:234-237 | clears counter and alert flag, alerts stay one per long run |
| TokenRefresher.AllegroTokenRefresher.Run | magazyn/allegro_token_refresher.py:239-266 | alerts are the maximal runs of three or more failing passes; each wait is the one its history asks for |
| TitleScan.Longest | magazyn/parsing.py:330-335 | the longest known prefix of a word, the first among equally long ones, None iff there is none |
| TitleScan.ColourIs | magazyn/parsing.py:328-337 | the colour of a word is the canonical name of the longest known prefix of its normal form |
| TitleScan.NoColourIff | magazyn/parsing.py:328-337 | a word has no colour exactly when no known colour begins it |
| TitleScan.LongestPrefix | magazyn/parsing.py:330-335 | the inner loop finds exactly that prefix |
| TitleScan.NormalizeColour | magazyn/parsing.py:146-166 | exact pass and prefix pass together are the longest-prefix answer |
| TitleScan.ExactIsLongest | magazyn/parsing.py:151-155 | a word in the table is its own longest prefix |
| TitleScan.ScanTitle | magazyn/parsing.py:313-338 | size, colour and remaining words: the words in order without the rightmost size and the rightmost other colour word |
| TitleScan.PopIsAligned | magazyn/parsing.py:318-338 | popping by index from the shrinking list removes exactly the word looked at |
| TitleScan.ScanIsUnique | magazyn/parsing.py:320-338 | the positions found are determined by what they mean |
| PagedFetch.FetchAllOrders | magazyn/allegro_api/orders.py:195-243 | the first min(n, 10000) orders, the total, and the number of requests |
| PagedFetch.FetchThreads | magazyn/allegro_api/messaging.py:46-75 | the whole list |
| PagedFetch.FetchIssues | magazyn/allegro_api/messaging.py:78-103 | the first min(n, limit) issues |

## Left out

- HTTP calls, OAuth exchange, retry sleeps, metrics and logging: each call is an arbitrary result.
- Flask routes, templates, sockets, PDF output: only the state changes of the stocktake requests are modelled.
- SQL dialects and schema fallbacks: tables are maps and lists, a session is one atomic step; the settings table is
  taken to have its stamp column.
- Reads of `as_ordered_dict`, the typed namespace and the process environment: a get falls back to the non-empty
  string defaults of the namespace, given as a parameter.
- Stamps of concurrent commits out of order: the coherence results assume stamps increasing in commit order, and
  `CommitIsSeenIffStampedLater` says what that assumption is worth.
- Keys deleted by another process stay in this process's cache: no promise is made or modelled for keys absent from
  the table.
- The warehouse lookup of an offer (EAN, title, series) is a parameter, a function of EAN and title; a changed
  warehouse is another function.
- Offers without an id: a missing id is not covered by the unique column and is not modelled.
- A commit refused after an accepted flush, or a failing trend report: both end like a failed run.
- Rounding of values by SQLite, which keeps binary fractions: stored amounts are rounded as PostgreSQL rounds numeric
  columns, half away from zero.
- One time stamp per synchronisation stands for the stamps of its single offers.
- An error while saving refreshed tokens ends a synchronisation like a refused token refresh.
- Trend reports over the price history: grouping and sorting of recorded samples add only easy members.
- Sorting a window of messages by date: the results hold for the messages in any order. Texts, titles and authors of
  threads are not compared by anything and are left out.
- Sale price, packaging cost and the contents of Woo fees enter the profit as given amounts; the profit breakdown is
  modelled from there on.
- Currencies of refunds; amounts are exact grosze instead of floats.
- Creating products and choosing sizes for invoice rows: rows come with product and size resolved.
- Regular expressions, case folding, removal of diacritics and product name detection: the title scan takes its
  lookups as parameters; the default and single-size overrides after the scan are left out.
- Writing a sale record for an unmatched product: it books no commission and moves no stock.
- WalkVisitsRest: assumes the catalogue does not change while it is read.
