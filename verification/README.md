# Verified models of the trading engine's cores

This project models the parts of the trading engine where a mistake is silent, and proves what they are for.
Each module is one component. Its functions over plain values say what every step does; its classes and
methods do the same steps in place, as the engine does, and are proved to agree with those functions; its
lemmas prove properties of whole runs. Prices are integer ticks, money and sizes are exact reals, 64-bit and
32-bit counters wrap where the engine's wrap and it matters.

`dafny verify dfyconfig.toml` checks everything.

## What is proved

**From the exchange to the screen.** `MarketData` is the exchange, a log of absolute-size updates, and the
fold of a feed's callbacks that a consumer believes. `BinanceFeed` is the Binance handler: buffer, fetch,
bridge, stream, resync. After any sequence of events the fold is the exchange's book at the handler's sequence
number, also after gaps, overflows, aborted replays and reconnects. The snapshot handoff succeeds on an
unbroken buffer exactly when the snapshot reaches the id before the first buffered one. `BinanceRecovery`
proves what a resync is: from there no message is passed on until a snapshot has been replayed, and then it
streams again. `PriceGrid` is the array book: a recentering window of cells standing for a map; `GridWindow`
says exactly when the window moves. `MarketView` puts the two together: no stale level is ever shown as long
as the latest snapshot is one the grid takes, and an honest run in which it is not shows what happens then.

**The checksum-guarded feed.** `OkxFeed` proves that what the OKX handler accepts is an unbroken chain from
the last snapshot, that the live book is exactly that chain applied, that each carried checksum was the
checksum of the book then installed, and that the consumer saw the same book; conversely a valid chain is
accepted whole. `OkxView` proves that on honest messages that book is the exchange's, also where diffs name no
id before them, and exactly when such a diff keeps it so; `OkxScreen` puts the OKX handler in front of the
grid, and `OkxRecovery` proves what a refused message leads to. `Crc32` proves the bitwise loop equal to the
table-driven form of section 8 of RFC 1952 and that it separates any two payloads differing within four
adjacent bytes.

**Money.** `ShadowLedger` and `ShadowPool` prove that path-dependent average-cost accounting is cash plus
mark-to-market, up to the dust a position throws away when it snaps to flat, and that each order of the pool
has one life and is never overfilled. `ShadowLots` proves that the accounting is that of lots closed in equal
shares, and `ShadowService` exactly when an order is filled, ended, cancelled and at which fee. `ShadowPrices`
proves what fill prices can be: never better than the touch, within a limit exactly when the slippage fits,
and positive, which the accounting needs, exactly when no order can move a bid by its whole price. `Backtest`
proves that the backtest's profit is the sum of its trades and their cash, that its drawdown is the true one,
and that it never looks ahead; `BacktestTrades` accounts for every trade by the ticks and signals it came
from. `SmartRouter` proves the greedy router optimal for any number of venues up to the size of its child
list.

**Limits.** `GlobalRisk` proves what the caps mean after any run of commits, and that the check refuses
nothing it should accept; `RiskAccounts` says both in terms of the orders accepted. `RateLimit` turns
fixed-window counters into a bound on every sliding interval.

**Channels between threads and processes.** `LogRing`, `LobRing` and `Seqlock` are state machines over atomic
steps, with every interleaving allowed; slots and fields are written piece by piece and may hold anything in
between. The log ring is a bounded queue, the order-book ring delivers in order and exactly within a stated
bound, and the seqlock never returns a mixture. `LobBridge` has the ring's two ends as objects and the slot
layout's round trip.

**Text.** `JsonText` is the printer and the recursive-descent parser (RFC 8259 sections 3 to 7), with the
exact condition under which parsing what was printed gives the value back. `JsonGrammar` has the grammar
itself, as derivation trees: every integer-valued text of it is read as what it says, and exactly the values
without stray control characters print to it. `JsonReader` proves the converse: the parser reads nothing else,
but for three named leniencies.

## Where the code is not what one might expect

The models follow the code. These are the places where a natural expectation is false of it; each names the
result that says exactly when it holds.

- Object keys are printed without escaping, so `parse(dump(v))` is `v` exactly when no key in it holds a quote
  or a backslash (`JsonText.RoundTripExactly`).
- A snapshot the order book rejects before touching its arrays (empty side, crossed, too wide, checksum)
  leaves the old levels on display (`PriceGrid.RefreshedIff`), also on honest runs of the feed, whose sequence
  number moves on (`MarketView.RejectionIsStale`, `MarketView.WideMarketLeavesStaleScreen`).
- In a two-cell grid the best ask of an accepted snapshot falls outside the window
  (`PriceGrid.SnapshotQuotes`, `PriceGrid.TwoCellsLoseAsk`), and a one-cell grid is given a window larger than
  its arrays (`PriceGrid.ActiveLevelsFit`); `OrderBook`'s constructor therefore asks for two cells.
- The unit tests in `tests/unit/orderbook_test.cpp` expect an invalid-price error for a delta outside the
  grid; the code drops such a delta and reports success (`PriceGrid.OrderBook.ApplyDelta`). The error return
  after recentering is unreachable (`PriceGrid.RecenterKeepsLevels`).
- The loop's handoff test is stricter than it needs to be: it refetches for a snapshot that ends one id before
  the buffer begins, with which the replay would succeed (`BinanceFeed.HandoffComplete`). The reasons
  `snapshot_handoff_missing_bridge` and `buffered_delta_apply_failed` are never given
  (`BinanceFeed.ResyncReasons`).
- The oldest slot a poll of the order-book ring may take can be overwritten while it is read, in a ring of any
  capacity (`LobRing.OldestSlotCanTear`); every younger one reads exactly (`LobRing.RingDelivers`).
- The OKX checksum text doubles colons when the book has more asks than bids below the first row
  (`OkxFeed.TextIsJoined`).
- An OKX diff that names no previous id is accepted after a missed one (`OkxView.MissedDiffUnnoticed`). The
  book is then the exchange's exactly when every level the diff does not list kept its size
  (`OkxView.TakenExactly`); on streams without such losses it always is (`OkxView.AlwaysTheExchangesBook`).
- A window keeps to its rate limit exactly until its 32-bit counter wraps (`RateLimit.LimitHoldsUntilWrap`,
  `RateLimit.FloodBreaksBound`), and the sliding bound holds exactly where no counter does
  (`RateLimit.SlidingBoundExactly`).
- With an open position, total profit is mark-to-market only if the average entry price is positive
  (`ShadowLedger.TotalIsMarkToMarket`); a large enough price impact on a sell makes it not so
  (`ShadowPrices.MarkToMarketExactly`, `ShadowPrices.SellBelowZero`).
- A limit order of the shadow pool can fill past its limit, because slippage is added after the limit is
  tested (`ShadowPrices.OpenLimit`, `ShadowPrices.CheckLimit`).
- A market order that has to wait for its latency is filled as a resting order and pays the maker fee
  (`ShadowService.FeesByLiquidity`).
- A backtest with a trade size of zero opens trades that never close (`Backtest.TradesCloseExactly`).
- The parser takes more than RFC 8259: leading zeros, raw control characters in strings, and a backslash
  before any letter but `u`; nothing else (`JsonReader.AcceptsExactly`).
- Control characters other than five are printed raw, and so are keys: such a text is outside RFC 8259
  (`JsonGrammar.PrintsGrammarExactly`).
- The order that needs a thirty-third entry of the risk table is refused without the kill switch, and leaves a
  table whose next scan would run past its end. A symbol of sixteen characters is never found again under its
  clipped name, so thirty-three small orders for it alone fill the table, whatever the limits
  (`GlobalRisk.LongSymbolFillsTable`). No run gets there exactly when the symbols number at most thirty-two
  and none is longer than fifteen characters (`GlobalRisk.NeverExhausted`).

## Model

| member | source | states |
|---|---|---|
| `MarketData.ShownAfterDeltas` | core/feeds/binance/binance_feed_handler.cpp:617-643 | after a burst of deltas that agree on a level, the consumer shows that size there and every other level is unchanged |
| `MarketData.CompleteSnapshotLists` | core/feeds/binance/binance_feed_handler.cpp:401-500 | a complete snapshot lists, for every price, exactly the size the exchange has at the snapshot id |
| `BinanceFeed.ApplyKeepsSync` | core/feeds/binance/binance_feed_handler.cpp:617-643 | an honest diff that covers the next id moves the consumer's fold from the book at the old id to the book at the diff's last id |
| `BinanceFeed.ReplayKeepsSync` | core/feeds/binance/binance_feed_handler.cpp:677-690 | a replay keeps the fold equal to the exchange's book also when it stops half way |
| `BinanceFeed.ApplyBufferedKeepsInv` | core/feeds/binance/binance_feed_handler.cpp:645-698 | applying the buffer keeps the fold in step and the buffer honest, whatever snapshot id is passed |
| `BinanceFeed.StepKeepsInv` | core/feeds/binance/binance_feed_handler.cpp:318-393 | every event of the loop (start, stop, message, connect, snapshot reply, replay, go live, service end) keeps the fold equal to the book at `lastSequence` |
| `BinanceFeed.AlwaysInSync` | core/feeds/binance/binance_feed_handler.cpp:545-718 | after any events at all, with honest diffs and complete snapshots, the fold of all callbacks is the exchange's book at `lastSequence` |
| `BinanceFeed.HandoffComplete` | core/feeds/binance/binance_feed_handler.cpp:645-704 | on an unbroken buffer the replay succeeds if and only if the snapshot reaches the id before the first buffered one; it then skips exactly the diffs the snapshot holds and ends at the later of the two |
| `BinanceFeed.StaleCountIsPrefix` | core/feeds/binance/binance_feed_handler.cpp:649-654 | on an unbroken buffer the diffs the snapshot contains are exactly the leading ones skipped |
| `BinanceFeed.BridgeIffReached` | core/feeds/binance/binance_feed_handler.cpp:655-662 | the first diff not skipped covers the next id if and only if the snapshot reaches the buffer |
| `BinanceFeed.HandoffTestSuffices` | core/feeds/binance/binance_feed_handler.cpp:322-354 | the loop's own test, snapshot id at or after the first buffered id, always leads to a replay without a resync |
| `BinanceFeed.ResyncExactlyOnGap` | core/feeds/binance/binance_feed_handler.cpp:602-614 | while streaming a diff forces a resync if and only if it starts after the next id; otherwise the id ends at the larger of the two |
| `BinanceFeed.ResyncReasons` | core/feeds/binance/binance_feed_handler.cpp:645-698 | over any run a resync is only ever given one of five reasons; the missing bridge and the failed delta of a replay are not among them |
| `BinanceFeed.CleanSession` | core/feeds/binance/binance_feed_handler.cpp:318-362 | on an unbroken stream a session buffers, fetches, replays and streams without any resync and ends at the last diff |
| `BinanceRecovery.GapGivesUp` | core/feeds/binance/binance_feed_handler.cpp:585-614 | a diff past the next id is refused whole: buffering, buffer empty, reconnect requested, one resync more, nothing sent and the id unmoved |
| `BinanceRecovery.OverflowGivesUp` | core/feeds/binance/binance_feed_handler.cpp:585-600 | the diff that finds the buffer full does the same |
| `BinanceRecovery.HandoffOrGiveUp` | core/feeds/binance/binance_feed_handler.cpp:645-704 | a replay either goes through with the buffer empty and no resync, or does the same and connects again, what it had sent standing |
| `BinanceRecovery.LostConnectionGivesUp` | core/feeds/binance/binance_feed_handler.cpp:382-393 | a connection lost while streaming gives the book up, without leaving a request; one lost after that counts no second resync |
| `BinanceRecovery.StoppedAndStarted` | core/feeds/binance/binance_feed_handler.cpp:318-393 | a stop is seen at once, the loop idles at its next turn, and a start connects and buffers again |
| `BinanceRecovery.CountedIsGivenUp` | core/feeds/binance/binance_feed_handler.cpp:706-718 | no step counts a resync without giving up the book |
| `BinanceRecovery.ReplyInstalls` | core/feeds/binance/binance_feed_handler.cpp:401-500 | a fetched snapshot is installed and announced if and only if its checksum matches and both sides list something, and handed to the replay if and only if it reaches the first buffered diff |
| `BinanceRecovery.SilentUntilLive` | core/feeds/binance/binance_feed_handler.cpp:318-393 | from any buffering state, until a connection, a usable snapshot, a replay and going live have come in this order, no message reaches the consumer |
| `BinanceRecovery.GapIsRecovered` | core/feeds/binance/binance_feed_handler.cpp:318-393 | from a gap the loop gets back to streaming at the later of snapshot and last diff, with exactly one resync |
| `BinanceRecovery.AbortIsRecovered` | core/feeds/binance/binance_feed_handler.cpp:318-393 | and so from an aborted replay |
| `BinanceFeed.BinanceFeedHandler.TriggerResnapshot` | core/feeds/binance/binance_feed_handler.cpp:706-718 | resync: buffer dropped, buffering again, reconnect requested, reason counted |
| `BinanceFeed.BinanceFeedHandler.EmitLevels` | core/feeds/binance/binance_feed_handler.cpp:622-637 | one callback a level, in order, with the diff's last id |
| `BinanceFeed.BinanceFeedHandler.ApplyDelta` | core/feeds/binance/binance_feed_handler.cpp:617-643 | bids then asks are sent and `lastSequence` becomes the diff's last id |
| `BinanceFeed.BinanceFeedHandler.ProcessDepth` | core/feeds/binance/binance_feed_handler.cpp:585-614 | a depth message is buffered, overflows, is skipped as old, is refused as a gap or is applied, as the state says |
| `BinanceFeed.BinanceFeedHandler.ProcessMessage` | core/feeds/binance/binance_feed_handler.cpp:545-615 | every kind of message, with its result code and the whole new state |
| `BinanceFeed.BinanceFeedHandler.ScanBuffer` | core/feeds/binance/binance_feed_handler.cpp:646-663 | the index of the first buffered diff past the snapshot |
| `BinanceFeed.BinanceFeedHandler.ApplyBufferedDeltas` | core/feeds/binance/binance_feed_handler.cpp:645-698 | the whole state after a replay, successful, refused at the start or aborted inside |
| `BinanceFeed.BinanceFeedHandler.ReplayFrom` | core/feeds/binance/binance_feed_handler.cpp:677-690 | the replay loop from an index on |
| `BinanceFeed.BinanceFeedHandler.ProcessSnapshot` | core/feeds/binance/binance_feed_handler.cpp:401-500 | a reply is refused with its own result code or installed and announced |
| `BinanceFeed.BinanceFeedHandler.Handle` | core/feeds/binance/binance_feed_handler.cpp:318-393 | one event of the loop |
| `BinanceFeed.BinanceFeedHandler.FetchOnce` | core/feeds/binance/binance_feed_handler.cpp:322-343 | one turn of the snapshot loop and its test against the buffer |
| `BinanceFeed.BinanceFeedHandler.EndService` | core/feeds/binance/binance_feed_handler.cpp:382-393 | a lost connection while streaming forces a resync |
| `BinanceFeed.BinanceFeedHandler.HandleAll` | core/feeds/binance/binance_feed_handler.cpp:226-399 | the handler run over any events is the run the theorems are about |
| `PriceGrid.ActiveLevelsFit` | core/orderbook/orderbook.hpp:222-233 | the window chosen for a snapshot fits the arrays if and only if there are two cells or the bid is at most two ticks |
| `PriceGrid.SnapshotKeepsWf` | core/orderbook/orderbook.hpp:24-114 | a snapshot leaves every level inside the window and positive |
| `PriceGrid.DeltaKeepsWf` | core/orderbook/orderbook.hpp:116-161 | so does a delta, recentering or not |
| `PriceGrid.RecenterKeepsLevels` | core/orderbook/orderbook.hpp:344-378 | the price recentred on is inside the new window, so the error return after recentering is unreachable; a kept level keeps price, size and count and none is invented |
| `PriceGrid.SnapshotAgrees` | core/orderbook/orderbook.hpp:52-114 | after an accepted snapshot every price in the window shows what the snapshot lists |
| `PriceGrid.DeltaDisplays` | core/orderbook/orderbook.hpp:116-161 | after a delta each level shows the delta's size, its old size, or nothing outside the window |
| `PriceGrid.NoStaleLevel` | core/orderbook/orderbook.hpp:116-161 | over any calls, after an accepted snapshot and in-order deltas, every shown level is the latest size sent and every price inside the window ever since agrees exactly |
| `PriceGrid.BelievedIsShown` | core/orderbook/orderbook.hpp:24-161 | fed in order by calls whose fold is the exchange's book, a grid that took the latest snapshot shows that book |
| `PriceGrid.RefreshedIff` | core/orderbook/orderbook.hpp:24-52 | a snapshot clears old levels after every sequence of calls if and only if it passes the checks made before the book is touched |
| `PriceGrid.AcceptedIffAcceptable` | core/orderbook/orderbook.hpp:24-103 | whether the latest snapshot was accepted is told by that snapshot alone: the early checks, and at most half its levels outside the window it gets |
| `PriceGrid.TurnedAway` | core/orderbook/orderbook.hpp:24-52 | a snapshot that fails the early checks changes nothing on display |
| `PriceGrid.FollowedWithinStreak` | core/orderbook/orderbook.hpp:320-342 | a market that has left the window is followed: at the latest the delta that completes a streak of breaching ones moves the window to its price |
| `PriceGrid.SnapshotQuotes` | core/orderbook/orderbook.hpp:24-114 | after an accepted sorted snapshot the best bid is the snapshot's; the best ask is if and only if there are three cells or the bid is one tick; they do not cross |
| `PriceGrid.TwoCellsLoseAsk` | core/orderbook/orderbook.hpp:24-114 | at any bid above one tick a two-cell grid accepts a snapshot and shows its bid and no ask |
| `GridWindow.NotTaken` | core/orderbook/orderbook.hpp:116-130 | a delta to a book that is not ready, with a negative size or an older sequence number changes nothing at all |
| `GridWindow.BaseMovesExactly` | core/orderbook/orderbook.hpp:310-340 | an accepted delta moves the window if and only if its price is outside, no positive better level of its side is shown, and it is 0.6 windows out or the fourth breach |
| `GridWindow.PassiveIsDropped` | core/orderbook/orderbook.hpp:310-324 | while a better level of its side is shown, a delta outside the window leaves every level, the base and the best quotes, and ends the streak |
| `GridWindow.BreachIsCounted` | core/orderbook/orderbook.hpp:318-340 | a breach that does not move the window changes only the streak and the sequence number |
| `GridWindow.LandsInWindow` | core/orderbook/orderbook.hpp:116-161 | a delta in the window, or one that moves it, sets its own cell and no other shown one and ends the streak |
| `GridWindow.StreakIsRun` | core/orderbook/orderbook.hpp:318-340 | over any accepted deltas the streak is exactly the number of breaches in a row at the end |
| `GridWindow.WindowMovesExactly` | core/orderbook/orderbook.hpp:318-340 | so over runs the window moves if and only if the price is outside and unbeaten and is 0.6 windows out or the three deltas before it breached too |
| `GridWindow.WindowAround` | core/orderbook/orderbook.hpp:222-256 | the window of a snapshot holds the bid, starts at the first tick if the grid reaches twice the bid, and otherwise is the whole grid with the bid in the middle |
| `GridWindow.PrecheckExactly` | core/orderbook/orderbook.hpp:24-54 | the early checks pass if and only if both sides list something, the ask is above the bid by at most a quarter of the window or one tick, and the checksum matches |
| `GridWindow.ReadyExactly` | core/orderbook/orderbook.hpp:56-114 | the book is ready after such a snapshot if and only if at most half of its levels are outside the window |
| `PriceGrid.ShiftIsRestrict` | core/orderbook/orderbook.hpp:344-378 | shifting the arrays is restricting the map to the new window |
| `PriceGrid.CellsOfPut` | core/orderbook/orderbook.hpp:148-155 | writing one cell of the arrays is one update of the map |
| `PriceGrid.ShiftInto` | core/orderbook/orderbook.hpp:351-366 | each cell of the new array is the old cell at the same price, or zero |
| `PriceGrid.ClearSide` | core/orderbook/orderbook.hpp:58-61 | a cleared side shows no level |
| `PriceGrid.PutCell` | core/orderbook/orderbook.hpp:148-155 | one level written, all others as they were |
| `PriceGrid.ShiftSide` | core/orderbook/orderbook.hpp:344-378 | sizes and counts of one side restricted to the new window |
| `PriceGrid.OrderBook.constructor` | core/orderbook/orderbook.hpp:222-233 | an empty uninitialised book, given at least two cells |
| `PriceGrid.OrderBook.LoadSide` | core/orderbook/orderbook.hpp:74-92 | the levels of one side in the window are set, a later entry over an earlier, and the rest counted as skipped |
| `PriceGrid.OrderBook.Reset` | core/orderbook/orderbook.hpp:56-66 | the window and sequence of a snapshot, all levels gone |
| `PriceGrid.OrderBook.ApplySnapshot` | core/orderbook/orderbook.hpp:24-114 | result code and whole new book, also where early checks or the skip count refuse the snapshot |
| `PriceGrid.OrderBook.GetBestBid` | core/orderbook/orderbook.hpp:163-170 | the highest positive bid, or zero |
| `PriceGrid.OrderBook.GetBestAsk` | core/orderbook/orderbook.hpp:172-179 | the lowest positive ask, or zero |
| `PriceGrid.OrderBook.DeltaImprovesTouch` | core/orderbook/orderbook.hpp:310-318 | whether a delta is at or better than the touch |
| `PriceGrid.OrderBook.ShouldRecenter` | core/orderbook/orderbook.hpp:320-342 | the recenter decision and the streak it leaves |
| `PriceGrid.OrderBook.ShiftIntoScratch` | core/orderbook/orderbook.hpp:344-370 | the scratch grid holds the book restricted to the new window |
| `PriceGrid.OrderBook.RecenterGrid` | core/orderbook/orderbook.hpp:344-378 | the window moves to the price and what falls out is forgotten |
| `PriceGrid.OrderBook.WriteCell` | core/orderbook/orderbook.hpp:148-160 | the level is put and the sequence stamped |
| `PriceGrid.OrderBook.MakeRoom` | core/orderbook/orderbook.hpp:130-146 | a price outside the window either moves it or is dropped |
| `PriceGrid.OrderBook.ApplyDelta` | core/orderbook/orderbook.hpp:116-161 | result code and whole new book for every delta |
| `PriceGrid.OrderBook.PlaceDelta` | core/orderbook/orderbook.hpp:129-161 | a delta past the checks, in the window, recentred or dropped |
| `PriceGrid.OrderBook.GetTopLevels` | core/orderbook/orderbook.hpp:193-209 | the first n positive levels of each side in best-first order, complete and without others |
| `PriceGrid.OrderBook.TopBids` | core/orderbook/orderbook.hpp:193-203 | the bid side of that |
| `PriceGrid.OrderBook.TopAsks` | core/orderbook/orderbook.hpp:204-209 | the ask side of that |
| `MarketView.ApplyOrdered` | core/feeds/binance/binance_feed_handler.cpp:617-643 | a diff's callbacks come in nondecreasing sequence after what was sent before |
| `MarketView.RunOrdered` | core/feeds/binance/binance_feed_handler.cpp:545-718 | over any run the handler only ever sends calls in the order the grid relies on |
| `MarketView.NoStaleLevelEverShown` | core/feeds/binance/binance_feed_handler.cpp:545-718 | exchange log to feed to grid: if the latest snapshot the feed sent is one the grid takes, every level shown has the exchange's size at `lastSequence`, and no level is missing at a price inside the window since |
| `MarketView.RejectedSnapshotLeavesScreen` | core/feeds/common/book_manager.hpp:28-42 | a fetched snapshot that fails the grid's early checks leaves the earlier screen up while the handler's sequence number moves on |
| `MarketView.RejectionIsStale` | core/feeds/common/book_manager.hpp:28-42 | so every level such a complete snapshot changes is stale on a book that says it is ready |
| `MarketView.WideMarketLeavesStaleScreen` | core/orderbook/orderbook.hpp:30-45 | and an honest run does that on a grid of any size: the market widens and the second snapshot is turned away for its spread |
| `MarketView.Deliver` | core/feeds/common/book_manager.hpp:28-58 | the grid after the callbacks are delivered one by one |
| `MarketView.RunPipeline` | core/feeds/common/book_manager.hpp:28-58 | the two objects run on any events show a true screen, both halves, if the grid takes the latest snapshot |
| `JsonText.NumberTokenRoundTrip` | core/common/json.hpp:613-646 | a printed 64-bit integer is read back, non-negative ones as unsigned, and exactly its digits are consumed |
| `JsonText.EscapeRoundTrip` | core/common/json.hpp:363-387 | a printed string is read back byte for byte, and exactly its characters are consumed |
| `JsonText.CleanKeyRoundTrip` | core/common/json.hpp:398-408 | a key without quote or backslash is read back although keys are printed raw |
| `JsonText.DirtyKeyLost` | core/common/json.hpp:398-408 | a key with a quote or a backslash never comes back as itself |
| `JsonText.ValueRoundTrip` | core/common/json.hpp:346-413 | parsing a printed value followed by anything gives the value back and stops exactly at its end |
| `JsonText.DirtyValueLost` | core/common/json.hpp:398-408 | a value with such a key anywhere inside is never read back as it was |
| `JsonText.RoundTripExactly` | core/common/json.hpp:234-258 | `parse(dump(v))` is `v`, non-negative integers as unsigned, if and only if no key in it holds a quote or a backslash |
| `JsonGrammar.TreeParses` | core/common/json.hpp:459-646 | a text derived by the grammar of RFC 8259, with 64-bit integers for numbers, is parsed to what it says and exactly to its end |
| `JsonGrammar.GrammarIsRead` | core/common/json.hpp:234-252 | so every such text, with white space round it, is accepted with exactly its value; so are leading zeros, stray escapes and stray control characters |
| `JsonReader.AcceptsExactly` | core/common/json.hpp:234-252 | conversely: a text is read as a value without floats if and only if it is white space, a text the grammar derives, with leading zeros, stray escapes and stray control characters allowed, that says this value, and white space |
| `JsonReader.ValueTree` | core/common/json.hpp:459-646 | whatever the value parser reads without a float is white space and a derivation that says the value |
| `JsonReader.TrailingRefused` | core/common/json.hpp:234-252 | a value followed by anything but white space is refused |
| `JsonGrammar.PrintsGrammarExactly` | core/common/json.hpp:346-413 | a value prints to a text of that grammar that says it if and only if its strings hold no control character without a two-character escape and its keys none that needs an escape |
| `JsonText.SpaceAround` | core/common/json.hpp:234-252 | white space before and after a printed value changes nothing |
| `JsonText.UnicodeEscapeIsUtf8` | core/common/json.hpp:572-601 | an escape of four hex digits reads as the UTF-8 bytes of that code point and consumes exactly its six characters |
| `JsonText.TextStream.SerializeText` | core/common/json.hpp:363-387 | a string is appended escaped, in quotes |
| `JsonText.TextStream.Serialize` | core/common/json.hpp:346-413 | the printed form of any value is appended |
| `JsonText.TextStream.SerializeArray` | core/common/json.hpp:388-397 | an array is appended |
| `JsonText.TextStream.SerializeObject` | core/common/json.hpp:398-408 | an object is appended |
| `JsonText.TextStream.SerializeItems` | core/common/json.hpp:390-395 | the items are appended with commas between |
| `JsonText.TextStream.SerializeMembers` | core/common/json.hpp:400-406 | the members are appended with commas between |
| `JsonText.Parser.SkipWs` | core/common/json.hpp:447-450 | white space, and only it, is skipped |
| `JsonText.Parser.Peek` | core/common/json.hpp:452-455 | the next character past white space |
| `JsonText.Parser.Consume` | core/common/json.hpp:457-457 | one character, if any |
| `JsonText.Parser.ReadValue` | core/common/json.hpp:459-484 | the value and the rest that the grammar function gives, or a failure |
| `JsonText.Parser.ReadArray` | core/common/json.hpp:515-534 | the same for an array |
| `JsonText.Parser.ReadItems` | core/common/json.hpp:524-533 | the item loop |
| `JsonText.Parser.ReadObject` | core/common/json.hpp:486-513 | the same for an object |
| `JsonText.Parser.ReadMembers` | core/common/json.hpp:495-512 | the member loop |
| `JsonText.Parser.ReadMember` | core/common/json.hpp:496-504 | one key, colon and value |
| `JsonText.Parser.ReadString` | core/common/json.hpp:536-611 | the bytes of a string with all its escapes |
| `JsonText.Parser.ScanNumber` | core/common/json.hpp:613-636 | where the parts of a number token end |
| `JsonText.Parser.ReadNumber` | core/common/json.hpp:613-646 | an integer of the right kind, a float token, or a failure |
| `JsonText.Parser.FinishFloat` | core/common/json.hpp:637-639 | a float token kept whole, or a failure without a mantissa digit |
| `JsonText.Parser.FinishInteger` | core/common/json.hpp:640-645 | a signed or unsigned 64-bit integer, or a failure out of range |
| `JsonText.Parser.ExpectWord` | core/common/json.hpp:648-654 | the whole word or a failure |
| `JsonText.ParseText` | core/common/json.hpp:234-252 | parsing a whole text: one value with white space round it, or nothing |
| `JsonText.PrintAndParse` | core/common/json.hpp:234-258 | the printer and the parser run one after the other return the value if and only if its keys are clean |
| `ShadowLedger.FillResidual` | core/shadow/shadow_engine.hpp:423-458 | one fill changes cash plus inventory at entry price minus profit plus fees by exactly the dust it throws away |
| `ShadowLedger.BooksMatchCash` | core/shadow/shadow_engine.hpp:423-458 | after any fills that difference is within a millionth of the sum of the prices at which a position snapped to flat |
| `ShadowLedger.TotalIsMarkToMarket` | core/shadow/shadow_engine.hpp:352-355 | with a market, total profit is cash plus position at mid less that difference if and only if the book is flat or its entry price positive |
| `ShadowLedger.TotalWithoutMarket` | core/shadow/shadow_engine.hpp:412-421 | without a market the position is valued at its entry price |
| `ShadowLedger.EntryPricePositive` | core/shadow/shadow_engine.hpp:423-458 | fills at positive prices keep the entry price positive |
| `ShadowLots.AddingRealizesNothing` | core/shadow/shadow_engine.hpp:430-440 | a fill that opens or adds realizes nothing and adds what it cost to what the position cost |
| `ShadowLots.ClosingKeepsEntry` | core/shadow/shadow_engine.hpp:442-458 | a fill against the position that does not cross it gains its quantity times the distance from the entry price and leaves that price to the rest |
| `ShadowLots.CrossingReopens` | core/shadow/shadow_engine.hpp:442-462 | one that crosses gains on the whole old position and opens what is left at its own price |
| `ShadowLots.LedgerIsLots` | core/shadow/shadow_engine.hpp:423-462 | after any fills the ledger is that of lots opened at the prices paid and closed in equal shares: position, average entry price, and realized profit lot by lot |
| `ShadowLots.CashIsSpent` | core/shadow/shadow_engine.hpp:525-543 | after any fills the fees are each fill's basis points of its notional, and the cash what the fills cost and the fees |
| `ShadowLedger.AccountIsMarkToMarket` | core/shadow/shadow_engine.hpp:352-355 | so for such fills total profit is cash plus position at mid, up to the dust |
| `ShadowLedger.EngineIsMarkToMarket` | core/shadow/shadow_engine.hpp:775-798 | and the sum over venues is the worth of all accounts, up to all the dust |
| `ShadowPool.FillAtBestIsGood` | core/shadow/shadow_engine.hpp:498-546 | a fill sends at most one update, never past the order's quantity, terminal if and only if the slot closes |
| `ShadowPool.PassiveIsGood` | core/shadow/shadow_engine.hpp:471-496 | so does a passive fill behind a queue |
| `ShadowPool.CheckIsGood` | core/shadow/shadow_engine.hpp:312-330 | and a fill check of any kind of order |
| `ShadowPool.OpenIsGood` | core/shadow/shadow_engine.hpp:218-262 | and a new order filled at once |
| `ShadowPool.QueueServedFirst` | core/shadow/shadow_engine.hpp:471-496 | the queue ahead is gone before the order fills, never goes negative, and queue and fills together take no more than was offered |
| `ShadowPool.OrderLifecycle` | core/shadow/shadow_engine.hpp:218-330 | over any run of submit, cancel, replace, cancel-all and check: at most one terminal update an order and none after it; no order, open or closed, filled or reported past its quantity, each update and all of them added up; the reports of an order called filled add up to its quantity but for one tolerance, those of an open one to what its slot holds; open slots are accepted less terminated, and the ledger is the fold of the fills |
| `ShadowPrices.FillsAreFair` | core/shadow/shadow_engine.hpp:312-330 | a check fills only after the release, only a market order or a limit that reaches the touch, and never at a better price than the touch |
| `ShadowService.ReleaseIsNear` | core/shadow/shadow_engine.hpp:660-668 | an order waits its base latency, moved by at most the jitter |
| `ShadowService.QueueIsShare` | core/shadow/shadow_engine.hpp:669-678 | the queue ahead is six tenths of the size resting at the order's price within eight levels of its side |
| `ShadowService.OpenExactly` | core/shadow/shadow_engine.hpp:218-259 | a new order fills whole, is refused or rests, exactly by its latency, the touch and its limit |
| `ShadowService.CheckFillsExactly` | core/shadow/shadow_engine.hpp:312-330 | a check fills an order if and only if it is released, reaches a priced touch and, as a limit, gets past its queue; then by all that is due |
| `ShadowService.CheckEndsUnfilled` | core/shadow/shadow_engine.hpp:312-330 | it ends an order unfilled in exactly three cases, two rejects and the immediate-or-cancel |
| `ShadowService.FeesByLiquidity` | core/shadow/shadow_engine.hpp:548-562 | after any run an order filled as submitted pays its venue's taker fee and whatever a check fills pays the maker fee of its order's venue |
| `ShadowService.CancelAllExactly` | core/shadow/shadow_engine.hpp:299-307 | a cancel by symbol closes exactly the orders of that symbol, to fifteen characters |
| `ShadowService.CancelExactly` | core/shadow/shadow_engine.hpp:263-273 | a cancel by id closes the first open order of that id and nothing else |
| `ShadowService.SubmitExactly` | core/shadow/shadow_engine.hpp:218-259 | an order is taken if and only if a slot is free, and changes only that slot |
| `ShadowService.ReplaceExactly` | core/shadow/shadow_engine.hpp:275-280 | a replacement of an open order cancels it and always takes the new one; of another, nothing |
| `ShadowPrices.OpenLimit` | core/shadow/shadow_engine.hpp:218-251 | a new order is filled within its limit if and only if the slippage of its whole quantity fits between the touch and the limit, buy or sell |
| `ShadowPrices.CheckLimit` | core/shadow/shadow_engine.hpp:312-330 | and in a fill check if and only if the slippage of the quantity the check fills does |
| `ShadowPrices.LimitAtTouchSlips` | core/shadow/shadow_engine.hpp:689-701 | for one: a buy limit at the best ask fills above its limit whenever there is price impact |
| `ShadowPrices.SlippedPositive` | core/shadow/shadow_engine.hpp:689-701 | a fill has a positive price if and only if the impact of its share of the top level stays below the whole price |
| `ShadowPrices.RunIsPriced` | core/shadow/shadow_engine.hpp:218-330 | if the largest order moves the thinnest bid by less than its price, every fill of every run has a positive price |
| `ShadowPrices.PoolIsMarkToMarket` | core/shadow/shadow_engine.hpp:218-458 | and then the profit reported after any run is cash plus position at mid, up to the dust |
| `ShadowPrices.MarkToMarketExactly` | core/shadow/shadow_engine.hpp:352-421 | exactly: with orders and bids bounded so, profit is mark to market over every run if and only if the largest order moves the thinnest bid by less than its price |
| `ShadowPrices.SellBelowZero` | core/shadow/shadow_engine.hpp:689-701 | for one: an impact of 20000 basis points and a sell of one unit into a bid of one unit at 100 fill at minus 100 |
| `ShadowPool.ShadowConnector.ApplyPositionFill` | core/shadow/shadow_engine.hpp:423-458 | the accounting fields after one fill |
| `ShadowPool.ShadowConnector.ApplyOne` | core/shadow/shadow_engine.hpp:526-540 | cash, fees and position after one fill |
| `ShadowPool.ShadowConnector.CloseSlot` | core/shadow/shadow_engine.hpp:577-592 | the slot freed and its cancel or reject sent out |
| `ShadowPool.ShadowConnector.RecordFill` | core/shadow/shadow_engine.hpp:513-575 | slot, money and update of one fill, complete within the tolerance or not |
| `ShadowPool.ShadowConnector.FillBest` | core/shadow/shadow_engine.hpp:498-511 | a fill at the slipped touch, or a reject without one |
| `ShadowPool.ShadowConnector.FillPassive` | core/shadow/shadow_engine.hpp:471-496 | nothing left, no liquidity, or a share of the offer |
| `ShadowPool.ShadowConnector.FillFromOffer` | core/shadow/shadow_engine.hpp:484-495 | queue ahead served first, then the order |
| `ShadowPool.ShadowConnector.CheckSlot` | core/shadow/shadow_engine.hpp:314-328 | one slot of a fill check |
| `ShadowPool.ShadowConnector.SubmitOrder` | core/shadow/shadow_engine.hpp:218-262 | the pool after a submit, or unchanged when no slot is free |
| `ShadowPool.ShadowConnector.CancelOne` | core/shadow/shadow_engine.hpp:264-274 | the pool after a cancel, or unchanged when the order is not open |
| `ShadowPool.ShadowConnector.CancelAll` | core/shadow/shadow_engine.hpp:300-308 | every open order of the symbol cancelled once |
| `ShadowPool.ShadowConnector.CheckFills` | core/shadow/shadow_engine.hpp:312-330 | every open order checked once, in slot order |
| `ShadowPool.ShadowConnector.Perform` | core/shadow/shadow_engine.hpp:218-330 | one operation of a run |
| `ShadowPool.ShadowConnector.ActiveOrders` | core/shadow/shadow_engine.hpp:377-383 | the number of open slots |
| `SmartRouter.Exchange` | core/execution/router/smart_order_router.cpp:157-198 | moving quantity away from a threshold allocation costs at least the threshold price a unit |
| `SmartRouter.ShortfallMonotone` | core/execution/router/smart_order_router.cpp:82-172 | a venue that is nowhere better never has the lower expected shortfall, for any non-negative regime weights |
| `SmartRouter.BestIsTouch` | core/execution/router/smart_order_router.cpp:17-36 | the best price is the lowest positive ask for a buy and the highest positive bid for a sale, over the healthy venues with depth |
| `SmartRouter.CostDifference` | core/execution/router/smart_order_router.cpp:82-172 | two venues differ in cost by their fees, latency, risk, markout and quality, their weighted misses, queues and toxicity, and the distance of their quotes in basis points of the best price |
| `SmartRouter.TakesPartExactly` | core/execution/router/smart_order_router.cpp:38-63 | a venue takes part with its whole depth if and only if it is healthy, has depth and a price on that side, and costs less than the marker |
| `SmartRouter.ThresholdIsOptimal` | core/execution/router/smart_order_router.cpp:157-198 | a threshold allocation is cheapest among all of the same total |
| `SmartRouter.ProgressIsOptimal` | core/execution/router/smart_order_router.cpp:174-198 | so is what the greedy loop has placed at any moment |
| `SmartRouter.RoutedTotal` | core/execution/router/smart_order_router.cpp:174-198 | what is routed is within 1e-12 of the smaller of the quantity and the eligible depth |
| `SmartRouter.FindBestPrice` | core/execution/router/smart_order_router.cpp:17-36 | the best price over the usable venues, or the marker for none |
| `SmartRouter.FindBestVenue` | core/execution/router/smart_order_router.cpp:38-63 | the unused eligible venue of lowest expected shortfall, the first such on a tie |
| `SmartRouter.AppendChildOrder` | core/execution/router/smart_order_router.cpp:65-79 | the winner gets what it can take of the remainder and is marked used |
| `SmartRouter.PlaceChildren` | core/execution/router/smart_order_router.cpp:174-198 | the routing loop and what it keeps at every turn |
| `SmartRouter.Route` | core/execution/router/smart_order_router.cpp:174-198 | no allocation within the depths and of the same total has a lower sum of quantity times expected shortfall; each buy at its venue's ask and each sale at its bid, the best price the lowest ask or highest bid; each venue once, cheapest first, total within 1e-12 |
| `LogRing.NoSlotReadWhileWritten` | core/common/logging.hpp:101-109 | while the producer fills a slot the writer is reading a different one |
| `LogRing.StepKeepsInv` | core/common/logging.hpp:92-150 | every atomic step of either side keeps the invariant and is a step of a bounded queue or no step of it |
| `LogRing.RingIsQueue` | core/common/logging.hpp:92-150 | under every interleaving what was written is a prefix of what was accepted, at most 2048 wait, and pushes are accepted plus dropped |
| `LogRing.DropsOnlyWhenFull` | core/common/logging.hpp:93-99 | a push drops if and only if the ring was full when it looked |
| `LogRing.StopWritesEverything` | core/common/logging.hpp:114-120 | after a stop with no further push everything accepted has been written |
| `LogRing.AsyncLogger.Push` | core/common/logging.hpp:92-110 | one entry more, clipped, or one drop more |
| `LogRing.AsyncLogger.Drain` | core/common/logging.hpp:137-150 | everything waiting is written, oldest first |
| `LogRing.AsyncLogger.Stop` | core/common/logging.hpp:114-120 | a first stop drains, a second does nothing |
| `LobRing.StepKeepsContents` | core/ipc/lob_publisher.hpp:108-137 | every step of either process keeps: finished slots hold their tick, a copy of a slot not come round yet is its tick so far, and rows finished in time are exact |
| `LobRing.StepKeepsDelivery` | research/neural_alpha/runtime/core_bridge.py:56-107 | every step keeps: numbers read increase, and every number passed was read or given up |
| `LobRing.RingDelivers` | research/neural_alpha/runtime/core_bridge.py:56-107 | over any interleaving of word-level steps: strictly increasing numbers, none missing but those more than a ring old at their poll, and every row that ended while `s > write_seq - capacity` is exactly the tick published |
| `LobRing.OldestSlotCanTear` | research/neural_alpha/runtime/core_bridge.py:66-72 | the bound is exact in a ring of any capacity with slots of two fields or more: a row of `s == write_seq - capacity` can be a mixture of two ticks, never published |
| `LobBridge.SymbolRoundTrip` | research/neural_alpha/runtime/core_bridge.py:88-88 | the reader's cut at the first NUL undoes the publisher's padding of a symbol clipped to fourteen bytes |
| `LobBridge.SlotRoundTrip` | research/neural_alpha/runtime/core_bridge.py:71-105 | reading a slot gives the tick's row: ten levels a side, missing ones zero |
| `LobBridge.RowsAreQuoted` | research/neural_alpha/runtime/core_bridge.py:69-105 | the rows owed are, in order, one for each tick with a positive bid below its ask, with its stamp, names, direction, best prices and ten levels a side |
| `LobBridge.LobPublisher.Fill` | core/ipc/lob_publisher.hpp:117-134 | all 65 fields of one slot, no other slot touched |
| `LobBridge.LobPublisher.Publish` | core/ipc/lob_publisher.hpp:108-137 | one tick more, every slot within the ring holding its tick |
| `LobBridge.CoreBridge.Open` | research/neural_alpha/runtime/core_bridge.py:25-44 | opens if and only if the header is right, and starts at the present counter |
| `LobBridge.CoreBridge.Close` | research/neural_alpha/runtime/core_bridge.py:46-54 | closed, position forgotten |
| `LobBridge.CoreBridge.ReadNewTicks` | research/neural_alpha/runtime/core_bridge.py:56-107 | exactly the rows of the displayable ticks since the last call still in the ring, in order |
| `LobBridge.CoreBridge.ReadSlots` | research/neural_alpha/runtime/core_bridge.py:69-105 | the rows of a range of numbers |
| `LobBridge.PublishAndPoll` | research/neural_alpha/runtime/core_bridge.py:56-107 | a reader polling after every batch no longer than the ring gets a row for every displayable tick once and in order |
| `Seqlock.StepKeepsInv` | research/regime/regime.py:628-642 | every store of the publisher keeps: number even means the fields are the latest publish, and neither number nor history goes back |
| `Seqlock.SameNumberSameFields` | core/ipc/regime_signal.hpp:67-87 | two loads of one even number enclose only loads of one publish |
| `Seqlock.SignalReader.Attempt` | core/ipc/regime_signal.hpp:67-87 | an attempt is accepted if and only if the number was even and the same at both ends, and is then the latest publish |
| `Seqlock.SignalReader.Read` | core/ipc/alpha_signal.hpp:71-99 | against any steps of the publisher: an accepted read is exactly one completed publish or the initial zeros, the latest when it ends; after 16 attempts it returns zeros, stale at every time and threshold; an undisturbed read is accepted |
| `Seqlock.ReadsNeverGoBack` | core/ipc/regime_signal.hpp:62-91 | later reads never return an older publish |
| `Seqlock.SignalPublisher.PackFields` | research/regime/regime.py:631-640 | the five fields, one store after the other |
| `Seqlock.SignalPublisher.Publish` | research/regime/regime.py:628-642 | a publish is a run of the modelled stores that adds its value to the history and two to the number |
| `Seqlock.AlphaSignalReader.WarnUnavailable` | core/ipc/alpha_signal.hpp:144-151 | at most one warning a throttle period |
| `Seqlock.GateMeans` | core/ipc/alpha_signal.hpp:101-131 | which fields of a packed signal a gate reads and what opens it; long and short are never open together |
| `Seqlock.AlphaSignalReader.Allows` | core/ipc/alpha_signal.hpp:101-132 | a trade is refused only on a fresh latest publish that fails the gate; torn, stale or missing signals never refuse |
| `GlobalRisk.CommitKeepsBalance` | core/risk/global_risk_controls.hpp:134-158 | a commit keeps gross equal to both sums and net to its sum |
| `GlobalRisk.CommitKeepsConcentration` | core/risk/global_risk_controls.hpp:85-132 | a commit keeps: an entry over the concentration cap is the first and untouched since a second appeared |
| `GlobalRisk.CommitKeepsCrossVenue` | core/risk/global_risk_controls.hpp:85-132 | a commit keeps: an entry over the cross-venue cap has been committed once |
| `GlobalRisk.AcceptsExactlyAdmissible` | core/risk/global_risk_controls.hpp:85-132 | the check accepts if and only if the order is valid and the totals it would leave are within every cap that applies to it |
| `GlobalRisk.LimitsHold` | core/risk/global_risk_controls.hpp:85-158 | after any commits, also when one finds the symbol table full, all of this holds together, with the gross, net and venue caps |
| `RiskAccounts.TotalsAreSums` | core/risk/global_risk_controls.hpp:134-158 | after any orders gross is the accepted volume, net the accepted buys less sells, each venue's total the volume accepted there, and each symbol's entry those of its own orders |
| `RiskAccounts.CapsHold` | core/risk/global_risk_controls.hpp:85-158 | so whatever is submitted, accepted volume, net and venue volume stay within the caps that are on |
| `RiskAccounts.PassesExactlyAllowed` | core/risk/global_risk_controls.hpp:85-132 | an order passes if and only if each cap that is on is kept, concentration once others hold anything and cross-venue once its own symbol does |
| `RiskAccounts.RefusalIsTrue` | core/risk/global_risk_controls.hpp:85-132 | a refusal names a cap that is on and that the order would break |
| `RiskAccounts.LeverageForIs` | core/risk/global_risk_controls.hpp:299-306 | a symbol's leverage limit is its first own one, or the default |
| `RiskAccounts.GateInFields` | core/risk/global_risk_controls.hpp:308-343 | the gate passes an order if and only if its context makes sense and margin, divergence, leverage and eight-hourly funding are within the caps that are on |
| `RiskAccounts.FuturesPassExactly` | core/risk/global_risk_controls.hpp:160-170 | a futures order passes if and only if the gate lets it and its scaled size is allowed |
| `GlobalRisk.NeverExhausted` | core/risk/global_risk_controls.hpp:262-297 | for every limit configuration and universe of symbols: no run of orders over it ever needs a thirty-third entry if and only if its nonempty names number at most thirty-two and each has at most fifteen characters |
| `GlobalRisk.LongSymbolFillsTable` | core/risk/global_risk_controls.hpp:276-297 | whatever the limits, thirty-three small orders for one symbol of sixteen characters or more fill the table |
| `GlobalRisk.MisfitFillsTable` | core/risk/global_risk_controls.hpp:276-297 | any universe that does not fit has a run of accepted orders that fills the table |
| `GlobalRisk.SmallOrderAccepted` | core/risk/global_risk_controls.hpp:85-132 | a small enough order for a name not in the table passes every check, under any limits |
| `GlobalRisk.ScaleIsLinear` | core/risk/global_risk_controls.hpp:344-359 | the funding scale is the straight line from one to the minimum; no clamp acts on an order within the funding cap |
| `GlobalRisk.GateExactly` | core/risk/global_risk_controls.hpp:308-343 | the gate passes an order if and only if context, margin, divergence, leverage and funding are within their limits, said without division |
| `GlobalRisk.ScaledOrderIsSafe` | core/risk/global_risk_controls.hpp:308-365 | a passed futures order goes on no larger and within the leverage limit, and unless the minimum scale is negative with the same sign and at least its minimum share |
| `GlobalRisk.GlobalRiskControls.FindSymbol` | core/risk/global_risk_controls.hpp:264-274 | the first entry of that name, or none |
| `GlobalRisk.GlobalRiskControls.CheckOrder` | core/risk/global_risk_controls.hpp:85-132 | the verdict of the checks in their order |
| `GlobalRisk.GlobalRiskControls.CheckEntry` | core/risk/global_risk_controls.hpp:109-131 | the two checks on the symbol's entry |
| `GlobalRisk.GlobalRiskControls.GetOrCreateSymbol` | core/risk/global_risk_controls.hpp:276-297 | the entry found or appended with a clipped name, or none when the table is full |
| `GlobalRisk.GlobalRiskControls.AddToEntry` | core/risk/global_risk_controls.hpp:155-156 | one entry moved |
| `GlobalRisk.GlobalRiskControls.CommitOrder` | core/risk/global_risk_controls.hpp:134-158 | verdict, totals and kill switch after a commit, also of an order the table has no room for |
| `GlobalRisk.GlobalRiskControls.MoveTotals` | core/risk/global_risk_controls.hpp:145-157 | every total of an accepted order moved and no other, or none without room |
| `GlobalRisk.GlobalRiskControls.AddToVenue` | core/risk/global_risk_controls.hpp:149-154 | gross, net and one venue moved |
| `GlobalRisk.GlobalRiskControls.LeverageOf` | core/risk/global_risk_controls.hpp:299-306 | the first matching leverage limit or the default |
| `GlobalRisk.GlobalRiskControls.CheckFuturesGate` | core/risk/global_risk_controls.hpp:308-365 | verdict and scaled notional of the gate |
| `GlobalRisk.GlobalRiskControls.CommitFuturesOrder` | core/risk/global_risk_controls.hpp:172-187 | gate, check and commit at the scaled notional, or nothing moved |
| `RateLimit.AtMostTwice` | core/risk/circuit_breaker.hpp:47-60 | a fixed-window counter lets at most twice its limit through in any half-open interval of its length, if no window sees more than 2^31 calls |
| `RateLimit.SlidingBoundExactly` | core/risk/circuit_breaker.hpp:47-60 | that bound holds for every limit if and only if no window sees more than 2^31 calls |
| `RateLimit.CalmUnlessFlooded` | core/risk/circuit_breaker.hpp:44-76 | at most 2^31 calls in any minute keep both order windows below that |
| `RateLimit.OrderRateHolds` | core/risk/circuit_breaker.hpp:44-76 | for any calls on a monotone clock, no second holds more than twice the per-second limit of OKs and no minute more than twice the per-minute limit, if no window of either sees more than 2^31 calls |
| `RateLimit.TwiceIsReached` | core/risk/circuit_breaker.hpp:47-60 | and twice is reached, within two nanoseconds |
| `RateLimit.RefusedOnlyAtLimit` | core/risk/circuit_breaker.hpp:54-60 | a call is refused only if the limit's worth of calls came within the window's length up to it |
| `RateLimit.LimitHoldsUntilWrap` | core/risk/circuit_breaker.hpp:54-60 | for any calls of one window: it keeps to its limit if and only if it sees at most 2^31 calls, and to twice the limit if and only if at most 2^31 and the limit again |
| `RateLimit.FloodBreaksBound` | core/risk/circuit_breaker.hpp:54-60 | so a larger burst in one window breaks the sliding bound |
| `RateLimit.TrailingIsRun` | core/risk/circuit_breaker.hpp:142-159 | the loss counter is the length of the longest run of losses ending now |
| `RateLimit.RateWindow.Admit` | core/risk/circuit_breaker.hpp:47-55 | one call counted in the window it opens or finds |
| `RateLimit.CircuitBreaker.CheckOrderRate` | core/risk/circuit_breaker.hpp:44-76 | verdict and both windows; the minute window counts only what the second window passed |
| `RateLimit.CircuitBreaker.CheckMessageRate` | core/risk/circuit_breaker.hpp:78-94 | verdict and window of the message limit |
| `RateLimit.CircuitBreaker.CheckAll` | core/risk/circuit_breaker.hpp:44-76 | the OKs of any calls are those OrderRateHolds bounds |
| `RateLimit.CircuitBreaker.RecordLegResult` | core/risk/circuit_breaker.hpp:142-159 | the switch is tripped if and only if there have been that many losses in a row |
| `OkxFeed.LevelFacts` | core/feeds/okx/okx_feed_handler.cpp:735-758 | a received level decides its own price and no other, and the side stays sorted |
| `OkxFeed.DeltasShown` | core/feeds/okx/okx_feed_handler.cpp:435-467 | the callbacks of a diff show what applying it leaves in the local book |
| `OkxFeed.AcceptKeepsInv` | core/feeds/okx/okx_feed_handler.cpp:422-470 | an accepted diff keeps chain, checksums, book and the consumer's fold in step |
| `OkxFeed.ReplayKeepsInv` | core/feeds/okx/okx_feed_handler.cpp:594-654 | so does a replay, also one that stops half way |
| `OkxFeed.ChainUnbroken` | core/feeds/okx/okx_feed_handler.cpp:472-658 | after any events the accepted diffs are an unbroken chain from the last snapshot, the live book is that snapshot with the chain applied, every checksum along it was that of the book then installed, and the consumer's fold is that book |
| `OkxView.TakenExactly` | core/feeds/okx/okx_feed_handler.cpp:571-592 | a diff with final sizes that is taken in a state in step with the exchange leaves the book the exchange's at its id if and only if every level it does not list kept its size since the id it was taken at |
| `OkxView.CoveredIsKept` | core/feeds/okx/okx_feed_handler.cpp:656-662 | that is so if the diff lists what was touched since any id up to the one it is taken at |
| `OkxView.AcceptMirrors` | core/feeds/okx/okx_feed_handler.cpp:422-470 | an accepted honest diff moves the live book from the exchange's at one id to the exchange's at the next |
| `OkxView.StepTracks` | core/feeds/okx/okx_feed_handler.cpp:472-592 | every event keeps book and buffer honest on a stream that is, with or without previous ids |
| `OkxView.AlwaysTheExchangesBook` | core/feeds/okx/okx_feed_handler.cpp:472-758 | on an honest stream, in every state since a snapshot the live book and the consumer's fold are both the exchange's book at the last id; a diff without a previous id is honest if it lists what was touched since the message before it and since the snapshot it may be replayed after |
| `OkxView.MissedDiffUnnoticed` | core/feeds/okx/okx_feed_handler.cpp:656-662 | a run on a complete snapshot and an honest diff without a previous id, one message lost between them: the handler streams at the diff's id without a bid of 2.0 the exchange has |
| `OkxRecovery.RefusedGivesUp` | core/feeds/okx/okx_feed_handler.cpp:571-592 | while streaming a diff is taken if and only if it continues from the stored id and fits its checksum; else the handler buffers afresh, asks to reconnect, and book, id and consumer are as they were |
| `OkxRecovery.BrokenGivesUp` | core/feeds/okx/okx_feed_handler.cpp:396-420 | so for errors, bad or one-sided snapshots and a full buffer |
| `OkxRecovery.SnapshotStreams` | core/feeds/okx/okx_feed_handler.cpp:335-420 | a two-sided snapshot is announced, installed and streamed where nothing waits |
| `OkxRecovery.SilentUntilSnapshot` | core/feeds/okx/okx_feed_handler.cpp:472-592 | once given up, no event reaches the consumer until a two-sided snapshot |
| `OkxRecovery.RefusedRecovers` | core/feeds/okx/okx_feed_handler.cpp:472-592 | and a new connection with its snapshot streams again |
| `OkxScreen.RunOrdered` | core/feeds/okx/okx_feed_handler.cpp:472-758 | since a snapshot the OKX handler only sends calls in the order the grid relies on |
| `OkxScreen.NoStaleLevelEverShown` | core/feeds/okx/okx_feed_handler.cpp:472-758 | exchange log to OKX feed to grid: since a snapshot, if the latest one sent is one the grid takes, every level shown has the exchange's size at the last id, and no level is missing at a price inside the window since |
| `OkxFeed.ChainLink` | core/feeds/okx/okx_feed_handler.cpp:656-662 | each link: a nonzero previous id is the id before it, a zero one comes with a larger id |
| `OkxFeed.LiveChecksum` | core/feeds/okx/okx_feed_handler.cpp:664-733 | the live book has the checksum its last diff carried |
| `OkxFeed.ValidChainAccepted` | core/feeds/okx/okx_feed_handler.cpp:571-592 | conversely, a chain with the right checksums is accepted whole, without a resync |
| `OkxFeed.TextIsJoined` | core/feeds/okx/okx_feed_handler.cpp:701-720 | the checksummed text is the fields with one colon between neighbours if and only if no row below the first has an ask and no bid; otherwise colons double |
| `OkxFeed.WrongBookRefused` | core/feeds/okx/okx_feed_handler.cpp:664-733 | a book whose text differs from the venue's only within four adjacent bytes is always refused |
| `OkxFeed.AppendRow` | core/feeds/okx/okx_feed_handler.cpp:704-719 | one row of that text |
| `OkxFeed.ChecksumText` | core/feeds/okx/okx_feed_handler.cpp:701-722 | the whole text, 25 rows at most |
| `OkxFeed.ApplySide` | core/feeds/okx/okx_feed_handler.cpp:736-754 | one side with the levels applied in order |
| `OkxFeed.OkxFeedHandler.TriggerResnapshot` | core/feeds/okx/okx_feed_handler.cpp:760-773 | buffer dropped, buffering again, reconnect requested |
| `OkxFeed.OkxFeedHandler.ValidateDeltaSequence` | core/feeds/okx/okx_feed_handler.cpp:656-662 | the chain test |
| `OkxFeed.OkxFeedHandler.ValidateChecksum` | core/feeds/okx/okx_feed_handler.cpp:664-733 | the checksum of the trial book against the one carried |
| `OkxFeed.OkxFeedHandler.EmitLevels` | core/feeds/okx/okx_feed_handler.cpp:435-467 | one callback a level, in order |
| `OkxFeed.OkxFeedHandler.ProcessDelta` | core/feeds/okx/okx_feed_handler.cpp:422-470 | book, id and callbacks after an accepted diff |
| `OkxFeed.OkxFeedHandler.ApplyBufferedDeltas` | core/feeds/okx/okx_feed_handler.cpp:594-654 | state and result of a replay |
| `OkxFeed.OkxFeedHandler.InstallBook` | core/feeds/okx/okx_feed_handler.cpp:401-408 | the snapshot's book, id and callback |
| `OkxFeed.OkxFeedHandler.ProcessSnapshot` | core/feeds/okx/okx_feed_handler.cpp:335-420 | a snapshot refused, installed and streamed, or refused after its replay |
| `OkxFeed.OkxFeedHandler.ProcessUpdate` | core/feeds/okx/okx_feed_handler.cpp:531-592 | an update buffered, refused or accepted |
| `OkxFeed.OkxFeedHandler.ProcessMessage` | core/feeds/okx/okx_feed_handler.cpp:472-592 | every kind of message |
| `OkxFeed.OkxFeedHandler.Connect` | core/feeds/okx/okx_feed_handler.cpp:299-304 | everything known dropped on a new connection |
| `OkxFeed.OkxFeedHandler.Handle` | core/feeds/okx/okx_feed_handler.cpp:298-420 | one event |
| `OkxFeed.OkxFeedHandler.HandleAll` | core/feeds/okx/okx_feed_handler.cpp:298-592 | any events, with everything ChainUnbroken says |
| `Crc32.BitwiseIsTableDriven` | core/feeds/kraken/kraken_feed_handler.cpp:16-26 | the bit-by-bit CRC is the table-driven CRC-32 of section 8 of RFC 1952 on every payload |
| `Crc32.RegisterInjective` | core/feeds/kraken/kraken_feed_handler.cpp:19-23 | absorbing the same bytes never merges two registers |
| `Crc32.BurstDetected` | core/feeds/okx/okx_feed_handler.cpp:12-22 | two payloads of one length that differ only within four adjacent bytes have different CRCs |
| `Crc32.OneByteDetected` | core/feeds/kraken/kraken_feed_handler.cpp:16-26 | in particular two that differ in exactly one byte |
| `Crc32.ShiftByte` | core/feeds/kraken/kraken_feed_handler.cpp:20-23 | the eight masked shifts of one byte |
| `Crc32.Crc32Bytes` | core/feeds/okx/okx_feed_handler.cpp:12-22 | the loop computes that CRC |
| `Backtest.FinishKeepsInv` | research/neural_alpha/evaluation/backtest.py:127-151 | closing keeps the ledger balanced, at most the last trade open and the drawdown exact |
| `Backtest.LedgerBalances` | research/neural_alpha/evaluation/backtest.py:44-102 | every run with a nonzero size ends flat with every trade closed; profit is the sum of net results; drawdown is the deepest fall of that running sum |
| `Backtest.ProfitIsCash` | research/neural_alpha/evaluation/backtest.py:104-151 | the final profit is the cash of the trades at their own entry and exit prices, less fees |
| `Backtest.NoLookAhead` | research/neural_alpha/evaluation/backtest.py:44-102 | runs whose prices agree through tick t and signals through t less latency are in the same state after t, and the trades closed by then stand unchanged in both results |
| `Backtest.ZeroSizeNeverCloses` | research/neural_alpha/evaluation/backtest.py:104-125 | for every threshold, fee and latency, a trade of size zero once opened is never closed |
| `Backtest.TradesCloseExactly` | research/neural_alpha/evaluation/backtest.py:44-151 | for every configuration: every run ends with all its trades closed if and only if the trade size is not zero |
| `BacktestTrades.HeldTick` | research/neural_alpha/evaluation/backtest.py:61-79 | a tick with a position marks it at mid and closes it at the touch if and only if the loss exceeds the stop or the signal has faded, the stop named first |
| `BacktestTrades.FlatTick` | research/neural_alpha/evaluation/backtest.py:79-93 | a tick without one trades, on one draw, if and only if the signal exceeds the threshold and two fees, in its direction, from bid or ask |
| `BacktestTrades.EveryTradeAccounted` | research/neural_alpha/evaluation/backtest.py:44-151 | over any run every trade was entered from the touch on a strong signal of its direction, late by the latency, and left at the bid if it bought and the ask if it sold, with fees and gain from these prices |
| `Backtest.NeuralAlphaBacktest.OpenPosition` | research/neural_alpha/evaluation/backtest.py:104-125 | state after opening |
| `Backtest.NeuralAlphaBacktest.ClosePosition` | research/neural_alpha/evaluation/backtest.py:127-151 | state after closing, or after finding nothing to close |
| `Backtest.NeuralAlphaBacktest.TryEnter` | research/neural_alpha/evaluation/backtest.py:80-93 | one draw, and an open if it is within the chance |
| `Backtest.NeuralAlphaBacktest.RunTick` | research/neural_alpha/evaluation/backtest.py:58-93 | state after one tick: stop before exit before entry |
| `Backtest.NeuralAlphaBacktest.StopTest` | research/neural_alpha/evaluation/backtest.py:64-68 | the stop test |
| `Backtest.NeuralAlphaBacktest.Reset` | research/neural_alpha/evaluation/backtest.py:35-42 | the empty state |
| `Backtest.NeuralAlphaBacktest.Run` | research/neural_alpha/evaluation/backtest.py:44-97 | the result of a whole run, flat and balanced |

## Left out

- WebSocket and HTTP loops, sleeps, timeouts, threads outside the stepped machines, mapped files, log
  formatting and metrics: input and output. What they deliver is an event or an argument.
- Exchange connectors, signing, the order manager, reconciliation, the position ledger, venue quality, the
  child-order scheduler, the market maker and the main loop.
- The neural model, training, the regime fit and forward-backward recursion: floating point and library
  tensors.
- IEEE rounding everywhere. Off-tick prices, so the rounding of a price to a cell.
- Parsing of exchange messages into fields: a message arrives as the fields the handler reads, or as the kind
  of message it ignores or refuses. Trade callbacks do not touch the books.
- Books deeper than the snapshot limit: a complete snapshot lists every level the exchange has.
- The snapshot checksum of the order book hashes the bytes of doubles; the model takes the hash as given.
- Timestamps of callbacks, the handler's counters' wrap, null callbacks, the ping and backoff timers.
- `PriceGrid.OrderBook.constructor`: a book of no or one cell, which the source builds and whose first
  snapshot then overruns it (`PriceGrid.ActiveLevelsFit`).
- `JsonText.ValueRoundTrip`: values holding a float, because the default stream precision loses digits.
- `JsonText.DirtyValueLost`: values holding a float.
- `JsonText.RoundTripExactly`: values holding a float.
- `JsonText.SpaceAround`: values holding a float.
- `JsonText.TextStream.Serialize`: values holding a float.
- `JsonText.TextStream.SerializeArray`: arrays holding a float.
- `JsonText.TextStream.SerializeObject`: objects holding a float.
- `JsonText.TextStream.SerializeItems`: items holding a float.
- `JsonText.TextStream.SerializeMembers`: members holding a float.
- `JsonText.PrintAndParse`: values holding a float.
- `JsonGrammar.PrintsGrammarExactly`: values holding a float.
- `JsonGrammar.GrammarIsRead`: texts holding a number with a fraction or an exponent.
- `JsonReader.AcceptsExactly`: values holding a float, whose tokens have no derivation here.
- `JsonText.Parser.ReadValue`: the range errors of `std::stod`, for which the source discards the text: a
  float keeps its token.
- `JsonText.Parser.ReadNumber`: the range errors and the value of `std::stod`.
- `JsonText.Parser.FinishFloat`: the range errors and the value of `std::stod`.
- `JsonText.ParseText`: the range errors of `std::stod`.
- In JSON texts besides: recursion depth and allocation failure; an object or array without storage is the
  empty one; lookup and conversion accessors. A surrogate escape is read as its own three bytes, in the
  grammar as in the parser.
- Shadow orders of zero quantity, fill callbacks that call back into the connector (updates are recorded in a
  log instead), intents and markouts, `query_order`, the opened-positions counter, average fill prices of
  updates and inventory age.
- `SmartRouter.Route` covers every value of the regime weights, so `infer_regime` is not modelled;
  `route_with_alpha` is not modelled. The child count, which has no initialiser, starts at zero.
- The log ring has one producer; the order-book ring's counter and the seqlock's number are unbounded, and a
  publisher restart, which zeroes them, is not modelled. Release and acquire accesses are single steps of one
  interleaving; the stores between them are not ordered.
- The stores of the Python publishers to the seqlock's number are single steps.
- UTF-8 decoding of the symbol in a row; opening and mapping of the ring's file beyond its header check.
- `RiskAccounts.TotalsAreSums`: the entries of symbols longer than the table's name field, which are split
  (`GlobalRisk.LongSymbolFillsTable`).
- `BinanceRecovery.SilentUntilLive`: messages handed to a stopped handler, which takes them as if it streamed.
- Calls after the risk table is full: the source then reads past its end. Concurrent commits.
- `GlobalRisk.GlobalRiskControls.CommitOrder`: calls after the table is full.
- `GlobalRisk.GlobalRiskControls.GetOrCreateSymbol`: calls after the table is full.
- `GlobalRisk.GlobalRiskControls.MoveTotals`: calls after the table is full.
- `GlobalRisk.GlobalRiskControls.CommitFuturesOrder`: calls after the table is full.
- `GlobalRisk.ScaleIsLinear`: a minimum funding scale above one, which makes the source's clamp undefined.
- `GlobalRisk.ScaledOrderIsSafe`: a minimum funding scale above one, as before, or below minus one, with which
  an order would go on larger than it was checked.
- `RateLimit.AtMostTwice`: more than 2^31 calls in one window, with which the bound fails for some limit
  (`RateLimit.SlidingBoundExactly`).
- `RateLimit.OrderRateHolds`: more than 2^31 calls in one window, likewise, and two threads in the same call.
- `RateLimit.CircuitBreaker.RecordLegResult`: a loss counter that would pass 2^31, which overflows in the
  source.
- Drawdown, book-age and price-deviation checks of the circuit breaker: one comparison each.
- OKX levels whose text is not a number, where the handler throws half way through a book.
- `OkxView.AlwaysTheExchangesBook`: streams on which a diff without a previous id follows a lost message, for
  which `OkxView.TakenExactly` says what each such diff leaves.
- Kraken's book: it is cut to a depth without telling its consumer, so its consumer's grid need not match it
  and nothing is claimed; its CRC is in `Crc32`. The Coinbase feed is a simpler copy of the OKX one.
- The regime reader's staleness test is that of the alpha reader, `Seqlock.IsStale`; 64-bit overflow of clock
  differences.
- Backtest: the impact function, the exponential in the fill probability and the generator's draws are
  arbitrary; metrics and data frames.
