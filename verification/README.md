# Market-data core of the Vibe HFT dashboard, in Dafny

This project models the sequential core of a small trading dashboard. It proves properties of that model with Dafny. The core has five parts:

- **Wire codec.** The `MarketDataUpdate` record is packed into a fixed 31-byte little-endian message (`SbeMessages`). The browser-side decoder reads the timestamp, side, raw price and raw quantity back out of it (`WasmClient`). Byte-level encoding and two's-complement conversion are in `LittleEndian`.
- **Order book.** An `OrderBook` holds two rows of 1000 price levels (`MarketData`):
  - `apply_update` writes a level into the first slot that holds its price or is empty;
  - `best_bid`/`best_ask` scan a side and memoise the answer in a per-side cache;
  - `total_volume` sums a side;
  - `GlobalOrderBook::on_update` routes an update to one of three exchange books.
- **Order-flow imbalance.** `OFICalculator` turns each move of the best bid and best ask into a signed event (`Ofi`). It keeps the events in two windows of bounded length and reports the bid-event sum minus the ask-event sum.
- **Chart aggregation.** The dashboard folds ticks into one-second OHLC candles and volume bars (`ChartData`). It also keeps a newest-first list of the 20 most recent messages.
- **Reconnect guard.** The dashboard component reads a few flags and refs inside its WebSocket callbacks (`ReconnectGuard`):
  - whether it is mounted;
  - whether it is simulating;
  - the current socket;
  - the pending reconnect timer.

  The load of the decoder, the socket's `onopen`, `onmessage` and `onclose`, the reconnect timer, the simulation interval, the mode toggle and the unmount are each one step of a state machine. For a message, the machine decides whether the update reaches the dashboard; `ChartData.Ingest` is what happens to the dashboard when it does.

Rust structs that are mutated in place are modelled as immutable values. Each operation returns the value it leaves behind. The scanning loops of `best_bid`/`best_ask` are methods with loop invariants. They are proved equal to a declarative reference: the first level with the best price among the levels that qualify.

Three places where the code is modelled as written:
- `best_bid` starts from price 0 and uses a strict `>`, so it never reports a bid at a non-positive price.
- `best_ask` starts from `i64::MAX` and uses a strict `<`, so it never reports an ask priced exactly `i64::MAX`.
- In the chart fold, a tick whose bucket differs from the last candle's bucket starts a new candle. This includes a bucket earlier than the last one (`ChartData.EarlierBucketStartsCandle`).

## Model

| member | source | states |
|---|---|---|
| `LittleEndian.DecodeEncode` | crates/sbe_messages/src/lib.rs:38-43 | reading back a k-byte little-endian encoding gives the encoded number |
| `LittleEndian.EncodeDecode` | crates/wasm_client/src/lib.rs:32-34 | re-encoding the value read from any byte string gives those same bytes, so the read loses nothing |
| `LittleEndian.ToUnsigned64` | crates/sbe_messages/src/lib.rs:42 | the two's-complement bit pattern of a price reads back as that price when read as signed, and lies below 2^63 exactly when the price is non-negative |
| `LittleEndian.UnsignedSigned64` | crates/wasm_client/src/lib.rs:43-45 | reading a 64-bit pattern as signed and converting it back gives the original pattern |
| `LittleEndian.DecodeI64EncodeI64` | crates/wasm_client/src/lib.rs:43-45 | round trip for prices: the signed value read from `i64::to_le_bytes(x)` is x, negative prices included |
| `LittleEndian.DecodeInjective` | crates/wasm_client/src/lib.rs:32-34 | two byte strings of equal length that read as the same number are equal |
| `LittleEndian.DecodeU64` | crates/wasm_client/src/lib.rs:48-50 | the unsigned value read from eight bytes encodes back to those eight bytes |
| `LittleEndian.DecodeI64` | crates/wasm_client/src/lib.rs:43-45 | the signed value read from eight bytes encodes back to those eight bytes |
| `SbeMessages.SideCode` | crates/sbe_messages/src/lib.rs:9-14 | a side is sent as 1 or 2 |
| `SbeMessages.ExchangeCode` | crates/sbe_messages/src/lib.rs:16-22 | an exchange is sent as a code between 1 and 3 |
| `SbeMessages.CodesInjective` | crates/sbe_messages/src/lib.rs:9-22 | Buy=1 and Sell=2 differ, as do Binance=1, Bybit=2 and Coinbase=3 |
| `SbeMessages.ToBytes` | crates/sbe_messages/src/lib.rs:36-46 | the record is exactly 31 bytes. Each field reads back from its own slice: the LE timestamp from 0..8, the exchange code at 8, the LE symbol from 9..13, the side code at 13, the LE two's-complement price from 14..22, the LE quantity from 22..30 and the snapshot flag at 30 |
| `WasmClient.SideName` | crates/wasm_client/src/lib.rs:36-41 | the side string is "Buy" exactly for byte 1 and "Sell" exactly for byte 2. Every other byte gives "Unknown" rather than an error |
| `WasmClient.SideNameOfCode` | crates/wasm_client/src/lib.rs:36-41 | the code the encoder writes for a side reads back as that side's name, never as "Unknown" |
| `SbeMessages.ToBytesInjective` | crates/sbe_messages/src/lib.rs:36-46 | two updates with the same bytes are the same update |
| `WasmClient.DecodeMarketData` | crates/wasm_client/src/lib.rs:24-50 | the reading of the raw integers fails exactly when the input is shorter than 31 bytes, with "Data too short". On success, the timestamp, raw price and raw quantity re-encode to bytes 0..8, 14..22 and 22..30. The side is "Buy" exactly for byte 1, "Sell" exactly for byte 2, and "Unknown" otherwise, and never causes a failure |
| `WasmClient.DecodeIgnoresOtherBytes` | crates/wasm_client/src/lib.rs:29-50 | two inputs of at least 31 bytes that agree on bytes 0..8, 13 and 14..30 decode alike. Bytes 8..13, byte 30 and trailing bytes do not matter |
| `WasmClient.DecodeToBytes` | crates/wasm_client/src/lib.rs:29-60 | round trip: decoding an encoded update, with any trailing bytes, yields its timestamp, its side name, its raw price and its raw quantity |
| `MarketData.NewBook` | crates/market_data/src/lib.rs:35-44 | a new book has every slot on both sides empty (price 0, quantity 0) and both caches empty |
| `MarketData.SlotFrom` | crates/market_data/src/lib.rs:58-72 | the slot the update scan stops at is the first one that holds the price or is empty. There is none exactly when no slot qualifies |
| `MarketData.ApplyUpdate` | crates/market_data/src/lib.rs:46-73 | only the update's side can change. The other side's levels and cache are untouched. The chosen slot gets the update's price and quantity, every other slot is unchanged, and the touched side's cache is emptied. With no slot the book is returned as it was |
| `MarketData.ApplyUpdateMatchingLevel` | crates/market_data/src/lib.rs:58-63 | a level at the update's price met before any empty slot has only its quantity replaced, and the side's cache is invalidated |
| `MarketData.ApplyUpdateEmptySlot` | crates/market_data/src/lib.rs:65-70 | otherwise the first empty slot receives the update's price and quantity, and the side's cache is invalidated |
| `MarketData.ApplyUpdateFullSide` | crates/market_data/src/lib.rs:58-72 | with no level at the price and no empty slot, the whole book, caches included, is unchanged |
| `MarketData.NewBookWellFormed` | crates/market_data/src/lib.rs:35-44 | a new book has both sides well formed: occupied slots form a prefix with pairwise-distinct prices, and empty slots hold no quantity |
| `MarketData.ApplyUpdateWellFormed` | crates/market_data/src/lib.rs:58-72 | an update with a non-zero price keeps both sides well formed |
| `MarketData.WellFormedPricesUnique` | crates/market_data/src/lib.rs:58-72 | in a well-formed side at most one slot carries a given non-zero price |
| `MarketData.BestIndexUpTo` | crates/market_data/src/lib.rs:90-96 | among the first n levels, the scan's choice is a qualifying level that no other qualifying level beats. Every earlier qualifying level is strictly worse, so the first best wins. There is none exactly when nothing qualifies |
| `MarketData.ScanBestBidIsHighest` | crates/market_data/src/lib.rs:90-102 | the bid scan reports a level of the side with the greatest positive price among levels with quantity > 0. It reports nothing exactly when no level has both a positive price and a positive quantity |
| `MarketData.ScanBestAskIsLowest` | crates/market_data/src/lib.rs:112-124 | the ask scan reports a level of the side with the smallest price among levels with quantity > 0 priced below `i64::MAX`. It reports nothing exactly when there is no such level |
| `MarketData.ScanLevels` | crates/market_data/src/lib.rs:90-102 | the one-pass loop with a running best and strict comparison returns exactly the reference scan |
| `MarketData.BestBid` | crates/market_data/src/lib.rs:83-103 | a filled cache is returned and the book is unchanged. Otherwise the fresh scan is returned and cached when found. When the cache is coherent on entry, the answer equals a fresh scan and the cache stays coherent |
| `MarketData.BestAsk` | crates/market_data/src/lib.rs:105-125 | the same for the ask side |
| `MarketData.ApplyUpdateCacheCoherent` | crates/market_data/src/lib.rs:60-81 | after any update, every non-empty cache still equals what a fresh scan of its side returns |
| `MarketData.TotalVolume` | crates/market_data/src/lib.rs:127-133 | a side's volume is zero exactly when no level on it holds any quantity, and no single level holds more than the side's volume |
| `MarketData.SumQuantities` | crates/market_data/src/lib.rs:127-133 | the side total is zero exactly when every level's quantity is zero, and no single quantity exceeds it |
| `MarketData.SumQuantitiesUpdate` | crates/market_data/src/lib.rs:127-133 | replacing one level changes the total by the new quantity minus the old one |
| `MarketData.ApplyUpdateVolume` | crates/market_data/src/lib.rs:127-133 | after an update the touched side's total volume moves from the replaced quantity to the update's quantity. The other side's total is unchanged |
| `MarketData.NewGlobalBook` | crates/market_data/src/lib.rs:143-149 | the three exchange books start as new books |
| `MarketData.OnUpdate` | crates/market_data/src/lib.rs:151-157 | the book named by the update's exchange takes the update. The other two books are unchanged |
| `MarketData.OnUpdateCacheCoherent` | crates/market_data/src/lib.rs:151-157 | routing keeps the caches of all three books coherent |
| `Ofi.New` | crates/market_data/src/ofi.rs:21-29 | a new calculator has empty windows of equal length, no previous quotes, and imbalance 0 |
| `Ofi.BidEvent` | crates/market_data/src/ofi.rs:35-48 | the first bid gives no event. Afterwards the event lies between minus the previous quantity and the new quantity. A positive event never comes from a falling bid, and a negative one never from a rising bid |
| `Ofi.AskEvent` | crates/market_data/src/ofi.rs:51-64 | the mirror image for asks: a positive event never comes from a rising ask, and a negative one never from a falling ask, with the same bounds |
| `Ofi.SumSign` | crates/market_data/src/ofi.rs:88-92 | a window of non-negative events sums to a non-negative value, and one of non-positive events to a non-positive value |
| `Ofi.CalculateOfi` | crates/market_data/src/ofi.rs:88-92 | the imbalance that `calculate_ofi` computes and `get_ofi` returns is 0 for empty windows. It is non-negative when bid events are all non-negative and ask events all non-positive, and non-positive in the opposite case |
| `Ofi.EventDirections` | crates/market_data/src/ofi.rs:35-64 | a rising bid (or falling ask) never counts against its side, and a deteriorating quote never counts for it. An unchanged quote gives event 0 |
| `Ofi.Slide` | crates/market_data/src/ofi.rs:67-76 | a window that fits its size grows by one up to the size, and its newest element is the pushed event |
| `Ofi.Update` | crates/market_data/src/ofi.rs:33-84 | the returned value is the imbalance of the new state, which `get_ofi` reports. The snapshot becomes the last bid and ask. The newest events are the classified bid and ask moves. The windows keep equal length, at most the window size |
| `Ofi.Reset` | crates/market_data/src/ofi.rs:114-119 | a reset calculator equals a new one with the same window size |
| `Ofi.FirstUpdateIsNeutral` | crates/market_data/src/ofi.rs:35-64 | the first update after `new` (or `reset`) records a zero bid event and a zero ask event, and reports 0 |
| `Ofi.SlideLastN` | crates/market_data/src/ofi.rs:67-76 | sliding a window that holds the last n events gives the last n events of the longer history |
| `Ofi.RunWindows` | crates/market_data/src/ofi.rs:33-84 | after any sequence of updates from `new`, each window holds the last min(n, window size) events in arrival order. Both windows have that length, and the last quotes are the last snapshot's |
| `Ofi.UpdateReportsWindowSums` | crates/market_data/src/ofi.rs:83-92 | each update returns the sum of the retained bid events minus the sum of the retained ask events |
| `Ofi.Nobi` | crates/market_data/src/ofi.rs:97-106 | with zero total depth the result is 0. Otherwise the result times the depth is the imbalance |
| `Ofi.FirstTestSnapshot` | crates/market_data/src/ofi.rs:126-148 | in both tests, the first snapshot (bid 100 x 10, ask 101 x 10) records events 0 and 0 and becomes the last quote pair |
| `Ofi.TestRisingBid` | crates/market_data/src/ofi.rs:127-158 | then bid 101 x 15 and ask 102 x 10 give +25. That is the positive result of the price-improvement test, and it normalises to 0.125 over depth 200, inside the [-1, 1] bound of the normalisation test |
| `Ofi.TestFallingBid` | crates/market_data/src/ofi.rs:139-148 | then bid 99 x 10 and ask 100 x 10 give -20 |
| `ChartData.Bucket` | frontend/src/App.tsx:39 | the bucket is the whole second containing the timestamp: bucket·1000 ≤ t < bucket·1000 + 1000 |
| `ChartData.UpdateCandles` | frontend/src/App.tsx:41-61 | the last candle is in the tick's bucket and closes at its price, with low ≤ price ≤ high. Earlier candles are never modified. A new bucket appends a candle with open, high, low and close all equal to the price. The same bucket keeps the last candle's time and open and takes max/min into high/low |
| `ChartData.UpdateVolumes` | frontend/src/App.tsx:63-79 | a new bucket appends a bar holding the tick's quantity, green for "Buy" and red otherwise. The same bucket adds the quantity to the last bar and keeps its colour. Earlier bars are never modified |
| `ChartData.ApplyTick` | frontend/src/App.tsx:38-80 | after a tick, the last candle and the last bar lie in the tick's bucket, and the candle closes at the tick's price. Each series grows by at most one, and every entry before the previous last one is unchanged |
| `ChartData.UpdateCandlesWellFormed` | frontend/src/App.tsx:44-58 | every step keeps low ≤ open ≤ high and low ≤ close ≤ high in every candle |
| `ChartData.ApplyTickAligned` | frontend/src/App.tsx:38-80 | a tick keeps the candle and volume series of equal length with identical times |
| `ChartData.AggregateAligned` | frontend/src/App.tsx:38-80 | from empty, the candle and volume series always have equal length and identical times index by index |
| `ChartData.EarlierBucketStartsCandle` | frontend/src/App.tsx:43-50 | a tick whose bucket is earlier than the last candle's appends a new candle and leaves all existing candles unchanged |
| `ChartData.RunsFlatten` | frontend/src/App.tsx:41-61 | the reference grouping into runs joins back to the tick sequence |
| `ChartData.RunsSingleBucket` | frontend/src/App.tsx:41-61 | every tick of a run lies in the run's bucket |
| `ChartData.RunsNeighboursDiffer` | frontend/src/App.tsx:41-61 | neighbouring runs lie in different buckets, so the runs are the maximal same-bucket stretches |
| `ChartData.CandleOf` | frontend/src/App.tsx:44-58 | the reference candle of a run is well formed |
| `ChartData.AggregateByRuns` | frontend/src/App.tsx:38-80 | folding ticks from empty yields one candle and one bar per maximal run of same-bucket ticks, in order. The candle has the run's first price, highest and lowest price, and last price. The bar has the run's total quantity, coloured by its first tick's side |
| `ChartData.ThreeTickExample` | frontend/src/App.tsx:38-80 | ticks at 1000, 1500 and 2200 ms give candles (1: 100/105/100/105) and (2: 90/90/90/90), with volumes 3 and 1 |
| `ChartData.PushRecent` | frontend/src/App.tsx:155 | the new message comes first, followed by the previous ones in order, truncated to 20 |
| `ChartData.RecentNewestFirst` | frontend/src/App.tsx:206 | from empty, the list holds the last min(n, 20) messages, newest first |
| `ChartData.Ingest` | frontend/src/App.tsx:206-207 | a delivered update goes to the head of the message list. The invariant is preserved: at most 20 messages, aligned series, well-formed candles |
| `ReconnectGuard.Cleanup` | frontend/src/App.tsx:105-125 | after teardown there is no socket and no pending reconnect timer, and the flags are unchanged |
| `ReconnectGuard.Connect` | frontend/src/App.tsx:165-258 | refused (no change) when unmounted, simulating or without the decoder. Otherwise it opens exactly one fresh socket with no timer pending, or, when the constructor throws, schedules exactly one retry. Any socket or timer it attaches has a never-used id |
| `ReconnectGuard.Step` | frontend/src/App.tsx:138-319 | any socket or timer a callback attaches is newly created, never a detached socket or a cleared timer. Nothing remounts the component, and only the toggle changes the mode. An inactive component gains no new socket except by a toggle. Messages and simulation ticks leave the guard unchanged |
| `ReconnectGuard.Delivered` | frontend/src/App.tsx:151-212 | the updates that reach the dashboard during a sequence of callbacks are socket messages and simulation ticks only, never more than the callbacks |
| `ReconnectGuard.InitialQuiet` | frontend/src/App.tsx:15-31 | the freshly mounted component is live and holds neither a socket nor a timer |
| `ReconnectGuard.StepQuiet` | frontend/src/App.tsx:138-319 | every callback keeps this invariant: when unmounted or simulating there is neither a socket nor a pending timer |
| `ReconnectGuard.CloseWhileInactive` | frontend/src/App.tsx:214-219 | a close event changes nothing and schedules nothing when unmounted or simulating |
| `ReconnectGuard.CloseWhileActive` | frontend/src/App.tsx:220-240 | a close of the current socket while active replaces any pending timer with one fresh timer, and reports Disconnected |
| `ReconnectGuard.TimerReconnectsOnlyWhenActive` | frontend/src/App.tsx:231-239 | a timer opens a new socket only if it is the pending timer and the component is mounted and not simulating |
| `ReconnectGuard.NoReconnectWhileSimulating` | frontend/src/App.tsx:197-319 | once simulating, no sequence of callbacks without a toggle back to live opens a socket or schedules a reconnect. Every update that reaches the dashboard meanwhile is a simulation tick, never a socket message |
| `ReconnectGuard.NoReconnectAfterUnmount` | frontend/src/App.tsx:151-305 | after unmounting, no sequence of callbacks opens a socket, schedules a reconnect or delivers any update to the dashboard |
| `ReconnectGuard.ReconnectScenario` | frontend/src/App.tsx:261-319 | a load opens two sockets in turn, one from the initialisation effect and one from the mode-switch effect, and keeps the second. The first socket's open and close are ignored. Open, close and timer of the second give Connected, Disconnected, Connecting, with exactly one new socket. Only the current socket's messages are delivered, and the fired timer cannot fire again |
| `ReconnectGuard.SwitchDuringRetryScenario` | frontend/src/App.tsx:231-239 | switching to simulation while a retry is pending cancels it, and the timer then changes nothing. Simulation ticks are delivered from then on, but socket messages are not |

## Left out

- `WasmClient.DecodeMarketData`: the second error path, a failure of `serde_wasm_bindgen::to_value` at crates/wasm_client/src/lib.rs:60, is not modelled. It converts a plain struct through a foreign JavaScript binding.
- The division of the raw price and quantity by 10^8 into `f64`, `serde_wasm_bindgen`, `JsValue` and `console.log` in the decoder: floating point and foreign calls. The decoder is modelled up to the raw integers.
- `bid_depth`/`ask_depth` in `OrderBook`: set to 0 by `new` and never read or written again.
- `MarketData.SumQuantities`: the sum is unbounded. The source's `u64` sum would panic (debug) or wrap (release) past 2^64.
- `Ofi.Nobi`: exact real division stands for the `f64` division. The `u64` addition of the two depths is taken as unbounded.
- `Ofi.Update`: events are exact integers. The source stores them as `f64`, which is exact only below 2^53.
- `GlobalOrderBook::calculate_nobi` (crates/market_data/src/lib.rs:162-184): weighted `f64` arithmetic.
- `ChartData.UpdateCandles`: prices and quantities are exact reals rather than IEEE doubles, and timestamps are integers of milliseconds.
- `generateMockMarketData` (frontend/src/App.tsx:83-102): driven by `Math.random` and `Date.now`. Its only invariant is the clamp that keeps the price at or above 1000.
- `ReconnectGuard.Step`: one toggle applies the three React effects atomically. In the component, `isSimulatingRef` is updated by an effect after the render, so callbacks may briefly see the old value. Timers and the 3000 ms delay are discrete events. The WASM dynamic import and rendering are not modelled.
- `ReconnectGuard.Step`: a message that fails to decode sets an error string and ingests nothing (frontend/src/App.tsx:208-211). The message events carry no payload, so that path is not modelled.
- `ws.onerror` (frontend/src/App.tsx:242-244) only logs, so it has no event.
- The gateway server loop (services/gateway/src/main.rs), the decoding worker, the strategy crate, the chart and heatmap components and styling: I/O, concurrency, floating point and rendering.
- The timing benchmark test in crates/market_data/src/lib.rs:192-225: wall-clock performance.
