# TradeSphere, modelled and proved

TradeSphere is a small exchange. Users hold cash and positions; the order service reserves funds
and inserts orders; the matching engine keeps a book per symbol in memory and commits its trades
to the database; the portfolio service settles the trades it receives. These modules model that
path from the parser of a price to the settled balance and prove what it keeps.

`dafny verify dfyconfig.toml` checks everything.

## What the parts are

- **Vocabulary** (`Model`), **money** (`Money`, `Decimal`), **sums over maps** (`Totals`).
- **Matching.** `Matching` is the reference: a scan over the sorted list of live orders. `Book` and
  `Runs` make it a state machine over the set of live orders and prove the laws of its runs.
  `OrderHeap` and `Orderbook` are the code: two binary heaps of pointers to shared, mutable orders,
  with cancelled orders still queued in them, and a loop that is proved to compute the scan.
- **Engine and consumer.** `Engine` is the order map and the books that share its objects; `Records`
  is what they look like as values. `Consumer` runs one command as one transaction around a change
  in memory, with every failure, rollback and restart.
- **Ledger.** `Ledgers` (in `Ledger.dfy`) says what settlement, release and reservation do to
  balances, `Terms` says it in plain numbers; `Portfolio` is the statement sequence that does it;
  `OrderService` is the saga of reserve, insert and compensate.
- **The exchange.** `Exchange` joins them into one machine, a step per committed transaction.
  `Invariants`, `Solvency`, `Payment` and `Guarantees` prove what holds in all its runs, and
  `Services` that the matching engine's commits are its steps.
- **Protocols.** `Delivery` (repeated and overlapping events), `Locks` (row locks), `Outbox` (one
  relay's pass with retries and dead letters), `Relays` (any number of relays and commits, interleaved).

## Main results

1. The heap with aliasing and cancelled orders behaves like a sorted list of live orders
   (`Orderbook.MatchAgainst`, `Engine.MatchingEngine.ProcessOrder`), trades at the resting price and
   in price-time priority (`Book.ScanIsFair`); the list is unique exactly when no two orders tie
   (`Matching.UniqueListingIff`).
2. Memory and rows agree after every outcome of a create except a race lost to another worker, after
   every outcome of a cancel except one exactly described case, and after a restart exactly when no
   create is queued (`Consumer.MatchingConsumer.ProcessCreateCommand`, `ProcessCancelCommand`,
   `Restart`, `Consumer.CrashInvisible`).
3. What an account has reserved is the sum over its orders and in-flight reservations, and no order
   has too little or, once nothing waits, too much (`Invariants.ReachableHolds`).
4. The naive claim that reservations keep every fill payable is false: `Shortfall` is a run in which
   the ledger refuses a fill. `Payment.ReserveSafeIff` says exactly when one more reservation is
   safe, and `Guarantees.EveryFillSettles` that every fill settles if reservations are taken only then.
5. Deliveries may repeat, overlap and fail: the ledger makes the step of an event exactly once if the
   event has its mark and never otherwise (`Delivery.HistoryRefines`, `Delivery.MarkedIffApplied`).
6. With any number of relays, commits and crashes, the outbox loses and invents nothing
   (`Relays.NothingLost`, `Relays.NothingInvented`), and k relays count at most, and sometimes
   exactly, 9 + k failures of a row (`Relays.AttemptsBounded`, `Relays.BoundIsReached`).
   Cash and units are conserved, no column overflows, the book is never crossed, settlement does not
   deadlock.
7. The price parser accepts exactly its grammar with exactly its meaning, and the printer is its
   inverse on canonical text (`Decimal.ParseIff`, `Decimal.CanonicalIff`).

## Where the code and its documentation differ

The handbook says that reservation before matching "prevents double-spending" and keeps funds that
are committed elsewhere from being spent (`REPOSITORY_HANDBOOK.md:71-74`, also lines 393 and 2879).
Settlement re-reads an order's remaining quantity, so the first settled fill of an order frees the
reservation of its other fills; `Shortfall.UncoveredRunRefusesFill` is the consequence. The model
follows the code. What does hold in every run is that balances stay non-negative and that the ledger
refuses, instead of overdrawing.

The handbook calls ten failed attempts the retry budget (`REPOSITORY_HANDBOOK.md:1507-1514`), and the relay
sends an event to its dead-letter topic from there (services/matching-engine/kafka/producer.go:73-82). A row counts at most ten failures only with one
relay; the deployment runs one replica and foresees up to three (k8s/services.yaml:443-464).

A create whose mark loses a race is answered as a duplicate (services/matching-engine/kafka/consumer.go:197-199),
after the engine was put back to before the match although the winner's match is in the tables;
`Consumer.LostCreateDisagrees` shows that memory is then behind until a restart.

## Reading the model

- A UUID is a number whose order stands for the order of the UUID texts; a fresh one is a
  parameter that is not in use. Order creation times are integers.
- In `Exchange`, obligations are counted in price times quantity (10^-16 units), which exists even
  where a cost is not exact; a reserved amount is multiplied by 10^8 to compare.
- A transaction that fails is modelled at the point of its failure (`Fault`) and rolled back; one
  that commits is a step of the machine.
- A `listing` is a price-time order of the live orders of a side. The book's contract says that the
  result is that of *some* listing, which is all the code promises when orders tie.

## Model

| member | source | states |
|---|---|---|
| Matching.ScanFillsInOrder | services/matching-engine/orderbook/orderbook.go:179-204 | The k-th trade fills the k-th best live order of the other side at that order's price, within the incoming limit and with a positive quantity; only the last trade may be partial; the residual book is the untouched suffix. |
| Matching.TradesOnTerms | services/matching-engine/orderbook/orderbook.go:250-270 | Field by field: trade k has the price and symbol of the k-th resting order, a positive quantity of it, lies within the limit of the incoming order, and names the buying side's user and order as buyer and the selling side's as seller. |
| Matching.FilledInPriority | services/matching-engine/orderbook/orderbook.go:33-63 | If an order traded, every order of its side with a better price, or the same price and an earlier time, was filled completely by an earlier trade of the match. |
| Matching.ScanConserves | services/matching-engine/orderbook/orderbook.go:179-211 | Quantity asked = quantity traded + remainder; a remainder means the best order left does not cross. |
| Matching.RemainderCrossesNothing | services/matching-engine/orderbook/orderbook.go:182-184 | An order that rests crosses no order left on the other side. |
| Matching.ScanKeepsQueue | services/matching-engine/orderbook/orderbook.go:198-203 | Fills keep the book sorted, live and free of duplicates; no resting order grows or appears. |
| Matching.ListingExists | services/matching-engine/orderbook/orderbook.go:33-38 | Every finite set of live orders of one side has a price-time listing. |
| Matching.UniqueListingIff | services/matching-engine/orderbook/orderbook.go:33-63 | Price-time priority determines one listing if and only if no two live orders share price and time. |
| OrderHeap.TopIsBest | services/matching-engine/orderbook/orderbook.go:180-180 | No order of a heap comes before its top. |
| OrderHeap.StepUp | services/matching-engine/orderbook/orderbook.go:40-44 | One sift-up swap moves the only possible violation to the parent. |
| OrderHeap.StepDown | services/matching-engine/orderbook/orderbook.go:46-52 | One sift-down swap with the better child moves the only possible violation to that child. |
| OrderHeap.SiftUp | services/matching-engine/orderbook/orderbook.go:42-44 | `heap.Push`'s climb restores heap order and keeps the multiset of orders. |
| OrderHeap.SiftDown | services/matching-engine/orderbook/orderbook.go:46-52 | `heap.Pop`'s descent restores heap order on the first n slots, keeps the multiset and leaves the last slot alone. |
| OrderHeap.Push | services/matching-engine/orderbook/orderbook.go:42-44 | A heap again, with exactly one occurrence of the new order more. |
| OrderHeap.Pop | services/matching-engine/orderbook/orderbook.go:46-52 | Returns the top; what is left is a heap of exactly the other orders. |
| Orderbook.ScanPrefix | services/matching-engine/orderbook/orderbook.go:179-204 | A scan that can afford a crossing prefix consumes it whole and continues behind it as a scan of the rest. |
| Orderbook.TopIsBestLive | services/matching-engine/orderbook/orderbook.go:180-184 | If the top of a heap is live it is the best live order, wherever cancelled orders sit; if it does not cross, no live order does. |
| Orderbook.TrackTrade | services/matching-engine/orderbook/orderbook.go:195-203 | One trade of the loop keeps the loop in step with the scan of the sorted live orders. |
| Orderbook.TrackStopped | services/matching-engine/orderbook/orderbook.go:182-184 | When the loop stops, the scan of some price-time listing stops there too, with the same trades, remainder and book. |
| Orderbook.PopDead | services/matching-engine/orderbook/orderbook.go:187-191 | Popping an exhausted order changes no live order. |
| Orderbook.Fill | services/matching-engine/orderbook/orderbook.go:198-199 | Updating two shared objects in place changes exactly one record of the live set. |
| Orderbook.MatchAgainst | services/matching-engine/orderbook/orderbook.go:179-204 | The heap loop terminates and equals the reference scan: same trades in the same order, same remainder, same live orders left, although cancelled orders may sit anywhere in the heap; the inner `break` is unreachable. |
| Orderbook.MatchAndRest | services/matching-engine/orderbook/orderbook.go:176-248 | Matching plus resting: both heaps stay heaps, the own side gains exactly the leftover, the other side is the scan's residual book. |
| Orderbook.OrderBook.MatchBuyOrder | services/matching-engine/orderbook/orderbook.go:176-211 | A BUY is matched by the scan of the live asks and rests with what it has left. |
| Orderbook.OrderBook.MatchSellOrder | services/matching-engine/orderbook/orderbook.go:213-248 | A SELL is matched by the scan of the live bids and rests with what it has left. |
| Orderbook.OrderBook.ProcessOrder | services/matching-engine/orderbook/orderbook.go:79-103 | The LIMIT path, with the refill of an order that arrives without a remaining quantity. |
| Orderbook.OrderBook.RestoreOrder | services/matching-engine/orderbook/orderbook.go:105-116 | Puts a live order back on its side's heap and ignores an exhausted one. |
| Book.StepKeepsUncrossed | services/matching-engine/engine/engine.go:44-76 | A create or a cancel keeps every live bid strictly below every live ask of its symbol. |
| Book.CreateKeepsWellFormed | services/matching-engine/engine/engine.go:44-76 | Matching keeps one live record per order id, and only the incoming order is new. |
| Book.ScanIsFair | services/matching-engine/orderbook/orderbook.go:176-248 | Over the set of live orders: price-time priority in terms of prices and times alone, and every trade on the terms of a live order of the other side. |
| Runs.RunKeepsUncrossed | services/matching-engine/orderbook/orderbook.go:176-248 | The book is uncrossed after every run of creates and cancels. |
| Runs.RunAccounts | services/matching-engine/orderbook/orderbook.go:195-203 | Over every run and for every order: quantity created = quantity left + quantity filled + quantity cancelled. |
| Runs.StepAccounts | services/matching-engine/engine/engine.go:153-168 | One command moves an order's quantity only through its trades and its own cancel. |
| Runs.GoneNeverTrades | services/matching-engine/engine/engine.go:153-168 | An order that is filled, cancelled or unknown never appears in a later trade. |
| Runs.StepDeterministic | services/matching-engine/engine/engine.go:44-76 | Without ties a command has one possible response and one possible new book. |
| Runs.SameBookSameFuture | services/matching-engine/engine/engine.go:78-151 | Two engines with the same live orders answer every later command sequence identically, as long as no two orders tie. |
| Records.MatchScansLive | services/matching-engine/engine/engine.go:56-73 | Subtracting traded quantities order by order gives the live set of the scan, with statuses that fit the quantities. |
| Records.RecomputedIsAfterMatch | services/matching-engine/engine/engine.go:56-73 | Filling shared objects first and recomputing the status of the named orders afterwards equals the per-order effect of the trades. |
| Records.CancelRemovesLive | services/matching-engine/engine/engine.go:162-165 | Zeroing an order in place removes exactly its live record. |
| Records.FitIsTelling | services/matching-engine/engine/engine.go:184-198 | Statuses fit exactly if NEW means untouched, PARTIALLY_FILLED strictly between, FILLED and CANCELLED nothing left. |
| Engine.MatchingEngine.ProcessOrder | services/matching-engine/engine/engine.go:44-76 | Trades are those of the reference scan over a listing of the engine's live orders, keep price-time priority among them and carry the resting order's price and parties; exactly the named orders and the new one change; statuses tell the quantities; the changed-order list is exactly those; both heaps of every symbol stay consistent. |
| Engine.MatchingEngine.GetOrCreateOrderBook | services/matching-engine/engine/engine.go:35-42 | Returns the symbol's book or a fresh empty one, and changes no order. |
| Engine.MatchingEngine.CancelOrder | services/matching-engine/engine/engine.go:153-168 | Lazy cancel: the order is emptied where it sits, the books stay consistent, and the previous quantity and status are returned. |
| Engine.MatchingEngine.RestoreOrder | services/matching-engine/engine/engine.go:170-182 | Gives an order any quantity and status; the engine is consistent afterwards if and only if they fit each other and a live order is still in its book. |
| Engine.MatchingEngine.SnapshotSymbol | services/matching-engine/engine/engine.go:110-127 | A copy of exactly the symbol's orders. |
| Engine.MatchingEngine.RestoreSymbol | services/matching-engine/engine/engine.go:129-151 | The symbol's orders are those of the snapshot, every other symbol is untouched, and the books are consistent again. |
| Engine.MatchingEngine.RestoreOrders | services/matching-engine/engine/engine.go:78-97 | After recovery the engine knows exactly the open rows, in consistent books, and counts them. |
| Engine.MatchingEngine.HeapIsSide | services/matching-engine/engine/engine.go:17-21 | The live orders of a heap are the engine's live orders of that symbol and side. |
| Engine.UpdateOrderStatus | services/matching-engine/engine/engine.go:184-198 | A cancelled order keeps its status; any other is FILLED at nothing left, PARTIALLY_FILLED below its quantity, NEW otherwise; a negative remainder becomes zero. |
| Consumer.InsertTrades | services/matching-engine/database/db.go:73-109 | Every trade is inserted, in order, with one outbox event each. |
| Consumer.PersistMatchResultsTx | services/matching-engine/database/db.go:72-148 | Rows of exactly the changed orders take their in-memory quantity and status; the outbox gains the trade events and then the update events; marks are untouched. |
| Consumer.CreateKeepsAgreement | services/matching-engine/kafka/consumer.go:174-208 | After a committed create memory and rows agree again, and the rows are what the match says. |
| Consumer.MatchStaysInSymbol | services/matching-engine/engine/engine.go:129-151 | A match touches only its own symbol, so putting that symbol's snapshot back undoes it. |
| Consumer.MatchingConsumer.ProcessCreateCommand | services/matching-engine/kafka/consumer.go:152-209 | A duplicate and begin, check, persist, mark and commit failures leave rows and memory as they were; success commits the match, and the book makes the step Create with its trades and remainder. An error is reported exactly for those failures, so that only a command with its mark is acknowledged. Memory and rows agree afterwards if and only if no race was lost to another worker. |
| Consumer.LostCreateDisagrees | services/matching-engine/kafka/consumer.go:194-201 | A worker whose mark loses to another worker's commit of the same create goes back to before the match, and then never agrees with the rows that the winner left. |
| Consumer.MatchingConsumer.ProcessCancelCommand | services/matching-engine/kafka/consumer.go:220-292 | What a commit does to rows, outbox, marks and the book, for orders the engine knows or not, and exactly which failures are reported as errors. Memory and rows agree afterwards if and only if it is not so that the engine knew the order, it was open, and the mark failed, the race was lost or the commit failed. |
| Consumer.CancelOutcomes | services/matching-engine/kafka/consumer.go:258-289 | Cancelling row and memory keeps the agreement, cancelling memory alone always breaks it, and cancelling the row of an order the engine does not know keeps it. |
| Consumer.LostCancel | services/matching-engine/database/db.go:451-458 | A worker whose cancel lost finds the row closed under its lock, leaves memory alone, and agrees with the rows if and only if the order was not open or not known to it. |
| Consumer.MatchingConsumer.LoadOpenOrders | services/matching-engine/database/db.go:317-373 | Returns exactly the open rows, each once. |
| Consumer.MatchingConsumer.Restart | services/matching-engine/engine/engine.go:78-97 | A restarted engine holds exactly the open rows; memory and rows agree if and only if no create command is still queued. |
| Consumer.OpenRowsAgreeIff | services/matching-engine/database/db.go:317-327 | The same condition on tables: open rows agree with the booked orders if and only if every open row is booked. |
| Consumer.CrashInvisible | services/matching-engine/engine/engine.go:78-97 | The engine rebuilt from the open rows answers every later sequence of commands exactly as the one that never stopped, given no queued create and no ties. |
| Money.CostForIsExact | pkg/money/money.go:250-264 | `CostFor` returns c if and only if c times 10^8 is the exact product and c fits int64; otherwise the error tells which of the two failed. |
| Money.CostForInexact | pkg/money/money.go:256-258 | The inexact error occurs exactly for products that 10^8 does not divide, with truncating division on negative operands. |
| Money.CostForAdditive | pkg/money/money.go:86-92 | Costs add over a split quantity. |
| Money.CostForRemainder | services/portfolio-service/database/db.go:204-223 | An exact order minus an exact fill is exact, and its cost is the difference. |
| Money.CostForMonotone | services/matching-engine/orderbook/orderbook.go:182-184 | A fill at a better price never costs more than at the limit. |
| Money.GridIsExact | pkg/money/money.go:250-264 | Prices in ticks and quantities in lots with tick times lot divisible by 10^8 never give the inexact error. |
| Money.LotsExactIff | services/order-service/main.go:155-155 | Every fill in lots is exact if and only if one lot is exact, which admission does not check. |
| Money.AdmittedButInexact | services/order-service/main.go:155-155 | An order that passes admission and has a fill whose cost is inexact. |
| Decimal.IsDigits | pkg/money/money.go:266-273 | True exactly for texts of decimal digits. |
| Decimal.ParseDecimal | pkg/money/money.go:173-225 | The parser step by step computes the specification `Parse`, with all four errors. |
| Decimal.TrimSplits | pkg/money/money.go:174-174 | Trimming removes white space at both ends and nothing else. |
| Decimal.SpelledParses | pkg/money/money.go:173-225 | Every well-spelled numeral parses to the number it denotes, or overflows. |
| Decimal.ParseIff | pkg/money/money.go:173-225 | A text parses to v if and only if it is a well-spelled numeral that denotes v and v fits int64; it overflows if and only if it denotes something that does not fit. |
| Decimal.ErrorsIff | pkg/money/money.go:173-212 | Which error: blank text is missing, a numeral with more than eight decimals is too precise, and exactly the other texts that are no numerals are invalid. |
| Decimal.FormatRoundTrip | pkg/money/money.go:233-248 | Printing and parsing gives back every int64, the smallest included. |
| Decimal.CanonicalIff | pkg/money/money.go:233-248 | A text is the printed form of v if and only if it is canonical and parses to v. |
| Decimal.Normalises | pkg/money/money.go:173-248 | Printing what was parsed from any accepted text gives canonical text of the same value. |
| Decimal.SmallestSpelledOut | pkg/money/money.go:234-237 | The literal returned for the smallest int64 is what the general rule would print. |
| Portfolio.Store.ApplyBuyerTrade | services/portfolio-service/database/db.go:200-269 | The statement sequence refuses, in the source's order, or leaves exactly the buyer's leg of the settlement. |
| Portfolio.Store.ApplySellerTrade | services/portfolio-service/database/db.go:271-337 | The same for the seller's leg. |
| Portfolio.Store.ApplyTrade | services/portfolio-service/kafka/consumer.go:230-262 | Accounts are locked in id order, then both legs apply; the result is the settled ledger or the first refusal. |
| Portfolio.Store.ReleaseOrderReservation | services/portfolio-service/database/db.go:112-167 | A cancelled order's whole reservation goes back to its account. |
| Portfolio.Store.MarkEventProcessed | services/portfolio-service/database/db.go:75-96 | Inserts the mark, and says whether it was new. |
| Portfolio.Store.ProcessTrade | services/portfolio-service/kafka/consumer.go:152-189 | All or nothing, and at most once however stale the first check is; an error is reported exactly if the trade is refused, the mark fails or a new mark cannot be committed, so only a message with its mark is acknowledged. |
| Portfolio.Store.ProcessOrderEvent | services/portfolio-service/kafka/consumer.go:191-228 | The same for order events; only a cancellation moves money. |
| Portfolio.Store.ReserveHandler | services/portfolio-service/main.go:330-429 | Reserves exactly the asked amount if it is available, else changes nothing. |
| Portfolio.Store.ReleaseHandler | services/portfolio-service/main.go:465-593 | Gives back what the order's row reserves and empties the row, or without a row exactly what is asked, if that is reserved; else changes nothing. |
| Ledgers.ReleaseRepeatsIff | services/portfolio-service/main.go:569-571 | Releasing an order with a row twice is the same as once if and only if it is a BUY (or asks for nothing): a SELL gives back the requested quantity again. |
| Terms.BuyerTerms | services/portfolio-service/database/db.go:200-269 | The buyer's leg in numbers: cash down by the cost, the reservation down to the remainder's cost, shares up, within the guards; nothing else changes. |
| Terms.SellerTerms | services/portfolio-service/database/db.go:271-337 | The seller's leg in numbers. |
| Terms.SettleTerms | services/portfolio-service/kafka/consumer.go:230-262 | A settled trade user by user, position by position and row by row: the cost goes one way and the shares the other, each order keeps what its remainder needs, and nothing else changes; also for self-trades and first positions. |
| Terms.ReserveFundsTerms | services/portfolio-service/main.go:353-417 | /reserve succeeds exactly if what is asked (or else the exact cost or the quantity) is held and not reserved, and raises exactly one reserved amount by it. |
| Terms.ReleaseFundsTerms | services/portfolio-service/main.go:485-587 | /release without a row succeeds exactly if what is asked is reserved, and gives back exactly that. |
| Terms.ReleaseRequestTerms | services/portfolio-service/main.go:494-587 | /release with a row gives back what the row reserves and empties it; a SELL row with nothing gives back the requested quantity. |
| Terms.ReleaseOrderTerms | services/portfolio-service/database/db.go:112-167 | A cancel event gives the order's account back exactly what its row reserves, exactly if the account has it reserved. |
| Terms.ReserveIff | services/order-service/main.go:146-193 | The exchange can reserve for an order exactly if price and quantity are positive and what is free covers the exact cost of a BUY or the quantity of a SELL. |
| Terms.ReserveTerms | services/order-service/main.go:185-193 | A reservation raises one reserved amount by the cost of a BUY or the quantity of a SELL and holds nothing else. |
| Ledgers.ReserveIsWorth | services/order-service/main.go:365-370 | A computed reservation times 10^8 is the exact worth of the order. |
| OrderService.CreateOrder | services/order-service/main.go:104-201 | Accepts exactly if the exchange can reserve for the order and the world validates, answers and inserts, and then ends in that reservation and its row. A rejection changes nothing, except exactly when a reservation was made that nobody undoes. |
| OrderService.CompensateUndoesReserve | services/order-service/main.go:195-198 | Releasing a reservation that has no row restores the state before it. |
| Invariants.FillKeeps | services/matching-engine/database/db.go:111-119 | Recording one fill keeps every sum and leaves no order with less reserved than its remainder needs. |
| Invariants.MatchKeeps | services/matching-engine/database/db.go:72-148 | A whole match keeps the invariant, with trades that pair a BUY row with a SELL row within both limits. |
| Invariants.CancelKeeps | services/matching-engine/database/db.go:172-179 | A cancel keeps the invariant; the order's reservation now awaits its event. |
| Invariants.SettleKeeps | services/portfolio-service/database/db.go:200-337 | Settling one fill keeps the invariant and makes both orders hold exactly what their remainders need. |
| Invariants.ReleaseKeeps | services/portfolio-service/database/db.go:112-167 | Applying a cancel event keeps the invariant and empties the order's reservation. |
| Invariants.ReserveKeeps | services/portfolio-service/main.go:353-375 | A reservation is taken on an account and counted as in flight. |
| Invariants.InsertKeeps | services/order-service/main.go:195-201 | Inserting the row moves a reservation from in flight to its order. |
| Invariants.NextKeeps | services/portfolio-service/kafka/consumer.go:152-228 | Every step of every service keeps: reserved = sum over orders + in flight, for every account; nothing stranded; rows, trades and cancels fit together. |
| Invariants.ReachableHolds | services/portfolio-service/kafka/consumer.go:152-228 | The invariant holds in every reachable state of every run. |
| Delivery.QuiescentIsExact | services/portfolio-service/database/db.go:216-226 | In every delivery history, once every committed trade and cancel has its mark, every order holds exactly what its remainder needs, and finished orders hold zero. |
| Solvency.FillMargin | services/matching-engine/orderbook/orderbook.go:182-184 | A fill within the limit never raises what the accounts owe: it turns remaining worth into at most as much waiting cost. |
| Solvency.SettleMoves | services/portfolio-service/database/db.go:228-262 | A settlement moves exactly the trade's cost and units between the two users, also when they are one, and changes only reserved amounts of rows. |
| Solvency.NextMargin | services/portfolio-service/database/db.go:200-337 | How every step changes what an account holds beyond what it owes: only a reservation lowers it, by exactly its amount. |
| Payment.ReserveSafeIff | services/portfolio-service/main.go:362-369 | The check of /reserve keeps an account able to pay for every possible request if and only if what is reserved covers what is owed, or nothing is available. |
| Payment.GreedyReserve | services/portfolio-service/main.go:362-375 | There is always an order that reserves everything available. |
| Payment.OrdersCoverAccount | services/portfolio-service/main.go:353-375 | If every order's reservation covers its remainder and its own waiting fills, the account is covered. |
| Payment.ExactIsCoveredIff | services/portfolio-service/database/db.go:216-226 | An order that holds exactly its remainder's worth is covered if and only if none of its fills waits: settling one fill frees the reservation of all. |
| Payment.RunSolvent | services/portfolio-service/database/db.go:228-235 | In every run whose reservations are taken on covered accounts, every account can pay everything it owes. |
| Payment.RunSound | infra/postgres/init.sql:26-78 | Balances and positions are never negative, covered or not. |
| Payment.SettlesIff | services/portfolio-service/database/db.go:200-337 | In every reachable state a waiting trade settles if and only if its costs are representable and both sides hold what it takes; the mismatch, missing-order and invalid-reserved branches are unreachable. |
| Payment.EveryCancelReleases | services/portfolio-service/database/db.go:125-152 | A committed cancel's release is never refused. |
| Payment.EveryReservationCompensates | services/portfolio-service/main.go:516-588 | A release that compensates its own reserve is never refused. |
| Shortfall.UncoveredRunRefusesFill | services/portfolio-service/database/db.go:216-241 | A concrete run of 14 steps, each allowed by the code, after which the ledger refuses a fill the book has made: balance 0, reserved 1. |
| Guarantees.SettleConserves | services/portfolio-service/database/db.go:228-334 | A settlement conserves cash and units of every symbol, including self-trades and a first position. |
| Guarantees.RunConserves | services/portfolio-service/kafka/consumer.go:254-259 | Total cash and total units per symbol are the same in every state of every run. |
| Guarantees.ReservedFits | infra/postgres/init.sql:23-30 | No account ever reserves more than the whole supply, although reserved may exceed held. |
| Guarantees.ColumnsFit | infra/postgres/init.sql:23-121 | If the initial cash and units fit 64 bits, so does every balance, position and reserved amount of accounts and orders in every run. |
| Guarantees.FillAllRows | services/matching-engine/database/db.go:111-119 | Applying trades one by one subtracts from each row exactly what the trades name it for and sets the fitting status. |
| Guarantees.MatchWritesRows | services/matching-engine/database/db.go:111-119 | The exchange's match step, the consumer's commit and the engine's memory are the same change of the same rows. |
| Services.CreateIsMatch | services/matching-engine/kafka/consumer.go:174-208 | A create command that gets its mark, by this worker or by the winner of a race, is a match step of the exchange with the same rows; any other outcome is no step. |
| Services.CancelIsCancel | services/matching-engine/kafka/consumer.go:242-291 | A cancel command that closes an order is a cancel step of the exchange with the same rows. |
| Guarantees.RunUncrossed | services/matching-engine/orderbook/orderbook.go:176-248 | In every reachable state of the whole exchange every open bid is below every open ask. |
| Guarantees.RunOnGrid | services/matching-engine/orderbook/orderbook.go:186-199 | On a grid of ticks and lots every fill and every remainder of every run is on the grid. |
| Guarantees.GridComputable | services/portfolio-service/database/db.go:204-219 | On the grid both costs a settlement computes exist, without overflow. |
| Guarantees.EveryFillSettles | services/portfolio-service/database/db.go:200-337 | End to end: in every run with covered reservations on a grid, the ledger can settle every waiting fill, in any order. |
| Delivery.HistoryRefines | services/portfolio-service/kafka/consumer.go:152-228 | Any history of repeated, overlapping, failing deliveries is a run of the exchange in which the step of each event occurs exactly once if its mark is set and not at all otherwise, and each settled trade is the one that was committed. |
| Delivery.AppliedOnce | services/portfolio-service/kafka/consumer.go:171-182 | No event is applied by two deliveries, even when both passed the first check. |
| Delivery.MarkedIffApplied | services/portfolio-service/database/db.go:75-96 | An event has its mark if and only if some earlier delivery applied it, and then exactly one did. |
| Delivery.HistoryHolds | services/portfolio-service/kafka/consumer.go:152-228 | The ledger invariant holds in every state of every delivery history. |
| Delivery.FinishTrade | services/portfolio-service/kafka/consumer.go:171-188 | The code of `processTrade` commits under the same condition and with the same effect as a finish of the protocol. |
| Delivery.FinishCancel | services/portfolio-service/kafka/consumer.go:210-227 | The same for `processOrderEvent` with a cancellation. |
| Delivery.CheckEvent | services/portfolio-service/database/db.go:57-73 | The code of `IsEventProcessed` is the check of the protocol. |
| Locks.TradeOrdered | services/portfolio-service/kafka/consumer.go:230-262 | Settlement takes accounts in ascending order before any row those accounts own, and the mark last. |
| Locks.CancelOrdered | services/portfolio-service/kafka/consumer.go:264-274 | So does the release of a cancelled order. |
| Locks.ReserveOrdered | services/portfolio-service/main.go:340-392 | A reservation locks one row only. |
| Locks.TradeScriptCovers | services/portfolio-service/database/db.go:169-270 | A settlement has locked every account, position and order row that it changes, both orders and its mark. |
| Locks.CancelScriptCovers | services/portfolio-service/database/db.go:112-167 | So has the release of a cancelled order. |
| Locks.ReserveScriptCovers | services/portfolio-service/main.go:340-417 | So has a reservation. |
| Locks.MovesKeepDiscipline | services/portfolio-service/database/db.go:98-110 | Taking a lock, committing and rolling back keep locks exclusive and scripts ordered. |
| Locks.SomeoneCanStep | services/portfolio-service/kafka/consumer.go:234-252 | Among any number of settlements, cancels and reservations in flight, one can always take its next lock or finish. |
| Locks.NeverDeadlocked | services/portfolio-service/kafka/consumer.go:234-252 | So no reachable state of the lock manager is a deadlock. |
| Locks.UnorderedDeadlocks | services/portfolio-service/kafka/consumer.go:238-252 | Without the id order, any two trades in which two users buy from each other have a run of four steps into a state neither can leave. |
| Outbox.BackoffLaws | services/matching-engine/kafka/producer.go:141-150 | The wait is monotone, within 1 and 32 seconds, doubles up to five failures and is constant from there. |
| Outbox.Relay.Enqueue | services/matching-engine/database/db.go:298-315 | Adds one unpublished row with no attempts. |
| Outbox.Relay.ClaimPending | services/matching-engine/database/db.go:209-260 | Claims the oldest rows that are unpublished, due and not claimed within thirty seconds, at most the limit and all of them if they are fewer; changes only their claims. |
| Outbox.Relay.PublishOne | services/matching-engine/kafka/producer.go:81-121 | One event, however old its claim: in calm weather it is on its topic, or from ten failures on the dead-letter topic, and marked; a failed write counts one attempt, waits by the backoff and ends the pass; safe at every crash point. |
| Outbox.Relay.PublishPending | services/matching-engine/kafka/producer.go:75-124 | With failures and a crash anywhere, and with commits and other relays at work between its steps: rows and messages only move forward, published rows were written; a calm pass publishes all it claimed. |
| Outbox.OneEventSafe | services/matching-engine/kafka/producer.go:105-119 | Writing and recording one claimed event keeps every published row delivered, even if the claim is out of date. |
| Relays.ActsKeep | services/matching-engine/kafka/producer.go:75-124 | Every step of any relay or committing transaction keeps: one row per committed event, published rows delivered, acknowledged writes on the broker, only genuine messages. |
| Relays.NothingLost | services/matching-engine/kafka/producer.go:75-124 | In every later state of every run of any number of relays, each committed trade event is unpublished or on trades or trades-dlq, and each committed order event unpublished or on order-events or order-events-dlq. |
| Relays.CanStillBeDelivered | services/matching-engine/kafka/producer.go:75-124 | No event is stuck: after any run a restarted relay can deliver any unpublished event in four steps. |
| Relays.PublishedAfterWrite | services/matching-engine/kafka/producer.go:105-119 | In every run, a published row had a write of its event acknowledged before. |
| Relays.NothingInvented | services/matching-engine/kafka/producer.go:82-98 | Every message of every run is a committed trade event on trades or order event on order-events, or on the -dlq topic of these after ten failures. |
| Relays.AttemptsBounded | services/matching-engine/database/db.go:277-296 | With k relays no row ever counts more than 9 + k failures; with one relay at most ten. |
| Relays.BoundIsReached | k8s/services.yaml:443-464 | For every k there is a run of k relays in which a row counts 9 + k failures, eleven with two: the bound is exact. |
| Relays.FailureWithinTenIff | services/matching-engine/database/db.go:286-294 | One recorded failure keeps a row within ten if and only if it had fewer or was published meanwhile. |
| Relays.CommitCreate | services/matching-engine/kafka/consumer.go:188-208 | Whatever happens to a create command, what it appends to the outbox is one Commit: if it was processed, one row on trades per trade and one on order-events per changed order, in that order. |
| Relays.CommitCancel | services/matching-engine/kafka/consumer.go:270-291 | The same for a cancel: one row on order-events exactly when it closes an order. |
| Relays.ClaimBatch | services/matching-engine/database/db.go:209-260 | The code of the claim is a Claim of the relay machine. |
| Relays.HandleEvent | services/matching-engine/kafka/producer.go:81-121 | The code for one event is a write and a note of the relay machine, or what comes of them before a crash. |

## Left out

- HTTP, JSON, the Kafka client, SQL text, UUID generation, clocks, telemetry, tokens and rate limits: parameters of the operations or not modelled.
- Market orders: the consumer rejects them before the engine (services/matching-engine/kafka/consumer.go:72-79).
- Heaps are `seq` values that the methods reassign, as the Go slices are, over order objects on the heap; the capacity and sharing of slice arrays are not modelled.
- Engine.MatchingEngine.ProcessOrder: expects an order that is new to the engine, has status NEW, a positive quantity and an untouched or missing remainder, as the order service creates it (services/order-service/main.go:161-173); a create command that arrives for an order the engine already knows is not modelled. The book is looked up before the order enters the map, which the code does in the other order; neither reads what the other writes.
- Consumer.CrashInvisible: needs no queued create command and no ties; with a queued one `Restart` gives the exact condition that fails. Creation times are compared exactly; the microsecond rounding of the timestamp column, which can create ties after a restart, is not modelled.
- The `OPEN`, `PARTIAL` and `CANCELED` spellings of statuses, which the table's constraint excludes (infra/postgres/init.sql:123-131).
- The cloned snapshots served to readers (`Clone`, `Snapshot`, `GetOrderBookSnapshot`), and the mutex that makes engine calls atomic.
- Event and trade ids, execution times and the payload of an update event beyond the order's record; an event's place in the outbox stands for its id.
- `/validate`, a check before the reservation that changes nothing: its answer is a parameter of `OrderService.CreateOrder`.
- Consumer.MatchingConsumer.ProcessCreateCommand: expects a row that waits for its create (New, untouched, not yet booked); a create that arrives after the cancel of its order is not modelled. A winner of the race is taken to have had the same live orders in memory.
- A worker that lost a race, or a cancel whose mark or commit failed, is treated as restarted before its next command; the engine does not restore memory there.
- /release for an order with a row is modelled in `Portfolio.Store.ReleaseHandler`, but is not a step of the exchange or of the lock protocol, because the order service only sends it for an order without a row.
- The order service's own outbox, relay and reconciliation worker: the insert is one step that makes the row and its create command; they are not part of this model otherwise. `Outbox` and `Relays` are the matching engine's.
- Relays.NothingLost: reads, writes and claims are the relays'; manual changes of the outbox table are not modelled, and which due rows a concurrent claim skips is left open.
- OrderService.CreateOrder: the database constraints on reserved amounts and on owners of positions are preconditions; an insert either happens or does not, a lost answer of the insert itself is not modelled.
- Delivery: a worker's transaction is one atomic finish after its check, which the row locks of `Locks` and the unique mark justify; reading a stale order row inside one settlement is not modelled.
- Locks: only the portfolio service's transactions over users, orders, positions and marks. Share locks taken by foreign keys, the matching engine's updates of order rows and /release for an existing row are not included; events name the true owner of their orders.
- Guarantees.EveryFillSettles: needs reservations on covered accounts, which the code does not check, and orders on a grid, which admission does not check; without them it is false (`Shortfall`, `Money.AdmittedButInexact`).
- Liveness: no claim that a message is eventually delivered, nor about the order in which events of one symbol arrive.
- JSON numbers and strings around a decimal (pkg/money/money.go:115-171) and the wrappers that only convert types.
