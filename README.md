# Sniper detection and FIFO PnL of the speedrun dashboard

The dashboard reads on-chain swap rows (buys and sells of newly launched
tokens) and does two things with them:

- It flags "sniper" wallets. These are wallets that bought large amounts
  with high gas inside the token's launch window and then sold again soon
  after.
- It computes each wallet's profit and loss per token with first-in,
  first-out cost-basis accounting.

This project models that core in Dafny and proves properties of it. The
code appears twice, once on the global snipers page and once on the
single-token page.

- `trades.dfy` (module `Trades`): the swap row, time order, and row
  selection.
- `chunking.dfy` (module `Chunking`): the large-buy chunker of
  `process_sniper_data`. It works per (maker, token) group on the global
  page and per maker on the token page. Each group's buys are cut into
  chunks. A chunk starts at a trade, and every later trade within
  600 seconds of that first trade joins it. The trades of chunks whose
  summed before-tax amount is strictly above 100000 are kept. The loop is
  an imperative method proved equal to a recursive definition. That
  definition is then shown to be the unique chunking that obeys the
  anchored-window rule.
- `classify.dfy` (module `Classify`): the rest of `process_sniper_data`.
  - The gas filter keeps fees above 0.000002. On the token page it
    applies only when the fee column exists.
  - The launch-window test is `block <= launch + 100` and fails closed
    when the token has no launch block.
  - The quick-exit confirmation asks for a sell 0 to 1200 seconds after a
    sniper buy. The global page confirms by (maker, token), the token page
    by maker.
- `ledger.dfy` (module `Ledger`): the FIFO ledger, with one queue engine
  and three valuation variants.
  - `GlobalSnipers` is `calculate_pnl` of the global page.
  - `TokenSnipers` is `calculate_pnl` of the token page.
  - `TokenAll` is `calculate_pnl_all` of the token page.
  - The deque of open lots is the class `LotQueue`. The replay loop is
    the method `ReplayLedger`, proved against the recursive
    `Settle`/`Step`/`Replay` specification.
- `results.dfy` (module `Results`): per-pair result assembly. This covers
  counts, first and last times, mean prices, tax and fee sums, realized
  and unrealized PnL, and the loop over distinct pairs. It also covers
  the token page's `extract_amount`, `get_total_usd`, "Number of Trades"
  and "Is Sniper".
- `address.dfy` (module `Address`): `shorten` of the token cards.

Amounts and prices are `real`. Times are whole seconds and blocks are
integers. A missing column that the code reads with a default of 0 is
the value 0.0: the ledgers' amount columns, the global ledger's price
and the token page's before-tax field. The other columns are read
without a default, and the model takes every row to carry them (see
"## Left out"). The token launch blocks are a `map` parameter.

## Model

| member | source | states |
|---|---|---|
| Chunking.ChunkGroup | pages/global_snipers.py:237-256 | the per-group loop over `current_chunk`, `current_sum` and `chunk_start_time` returns exactly the trades of the group's large chunks, chunk after chunk, final chunk included; the token page's loop (pages/tokendatatestcopy.py:508-532) is the same, with a missing before-tax field counting 0 |
| Chunking.ChunksAreChunking | pages/global_snipers.py:240-254 | the chunks are non-empty and concatenate back to the group; every trade of a chunk is at most 600 s after the chunk's FIRST trade; every later chunk starts with a trade more than 600 s after the previous chunk's first trade |
| Chunking.ChunkingIsUnique | pages/global_snipers.py:240-254 | any cut of the group with those three properties is the chunker's cut, so the anchored window alone determines the chunks |
| Chunking.ChunksPartition | pages/global_snipers.py:236-254 | the chunks concatenate back to the group (a partition, in order) |
| Chunking.KeptIsSubseq | pages/global_snipers.py:250-256 | what a group keeps is a subsequence of the group, and a trade is kept iff it lies in a chunk whose before-tax sum is strictly above 100000 |
| Chunking.LargeSingleBuyKept | pages/global_snipers.py:244-256 | with non-negative amounts, a single buy above 100000 is always kept |
| Chunking.ChunkBoundaryExample | pages/global_snipers.py:246-256 | buys of 60000 at 0, 540 and 660 s: the first two form a kept chunk of 120000, the third a dropped chunk of 60000 |
| Chunking.BuyKeys | pages/global_snipers.py:236 | the group keys of the buys, each once: (maker, token) on the global page, maker on the token page |
| Chunking.Kept | pages/global_snipers.py:250-256 | what one group contributes to `chunked_buys` is a subsequence of the group |
| Chunking.ChunkLargeBuys | pages/global_snipers.py:231-256 | the loop over the groups returns `LargeBuys`, the concatenation of what every group keeps; the token page groups by maker alone (pages/tokendatatestcopy.py:502-532) |
| Chunking.LargeBuysMembership | pages/global_snipers.py:231-256 | a row is among the chunked large buys iff it is a buy that its own group's chunker keeps |
| Classify.HighGas | pages/global_snipers.py:259 | keeps exactly the rows with fee strictly above 0.000002, in order |
| Classify.HighGasIfPresent | pages/tokendatatestcopy.py:535-539 | with a fee column, the same filter; without one, every row passes unchanged |
| Classify.LaunchWindowBuys | pages/global_snipers.py:261-265 | a row passes iff its token has a launch block and its block is at most launch + 100; the result is a subsequence |
| Classify.LaunchWindowEdge | pages/global_snipers.py:262-263 | launch block 1000: block 1100 passes, 1101 fails, and a token without a launch block yields nothing |
| Classify.UnknownLaunchFailsClosed | pages/global_snipers.py:262-263 | rows whose tokens have no launch block never pass |
| Classify.ConfirmedByPair | pages/global_snipers.py:267-281 | a sniper buy is kept iff some sniper buy of the same maker and token has a sell of that maker and token 0 to 1200 s (both ends included) after it; all buys of a confirmed pair are kept, none of another |
| Classify.ConfirmedByMaker | pages/tokendatatestcopy.py:548-557 | the same existence test keyed by maker alone |
| Classify.SingleTokenConfirmationAgrees | pages/tokendatatestcopy.py:548-557 | on buys of one token, confirmation by maker equals confirmation by (maker, token) |
| Classify.QuickExitIsExistential | pages/global_snipers.py:276-281 | of two buys only the second is followed by a sell within 1200 s, yet both are kept |
| Classify.SniperBuys | pages/global_snipers.py:258-281 | every row of the global page's `potential_sniper_df` is a launch candidate: a buy its group's chunker keeps, with a fee above 0.000002, inside its token's launch window |
| Classify.ProcessSniperData | pages/global_snipers.py:228-283 | the global pipeline (chunking, gas, launch window, quick exit) fails, with `None`, exactly when no group forms a large chunk, because selecting `transactionFee` from the empty frame raises KeyError; otherwise it returns `SniperBuys`. The "exactly" assumes that a row-wise `apply` on an empty frame gives back an empty frame with its columns, as older pandas does |
| Classify.SingleSmallBuyFails | pages/global_snipers.py:244-259 | a lone buy of at most 100000 forms no large chunk, so the pipeline fails on it |
| Classify.CandidateMembership | pages/global_snipers.py:231-265 | a row is a launch candidate iff it is a buy kept by its group's chunker, pays a fee above 0.000002 and lies in its token's launch window |
| Classify.SniperBuyCharacterization | pages/global_snipers.py:228-281 | a row is a sniper buy iff it is a candidate and some candidate of the same maker and token is followed by a quick sell |
| Classify.TokenSniperBuys | pages/tokendatatestcopy.py:533-557 | every row of the token page's `potential_sniper_df` is a token-page launch candidate, the gas test applying only when the rows carry a fee column |
| Classify.ProcessTokenSniperData | pages/tokendatatestcopy.py:501-558 | the token page pipeline fails, with `None`, exactly when no maker forms a large chunk: the empty frame skips the gas filter and selecting `maker` for the merge raises KeyError; otherwise it returns `TokenSniperBuys`. The "exactly" assumes that a row-wise `apply` on an empty frame gives back an empty frame with its columns, as older pandas does |
| Classify.TokenCandidateMembership | pages/tokendatatestcopy.py:503-546 | a row is a launch candidate on the token page iff it is a buy kept by its maker's chunker, pays a fee above 0.000002 when the rows carry a fee column, and lies in its token's launch window |
| Classify.MissingFeeColumnDropsNothing | pages/tokendatatestcopy.py:535-546 | without a fee column, a row is a candidate iff it is a kept buy in the launch window, so no chunked buy is dropped for gas |
| Ledger.EntryOf | pages/global_snipers.py:307-333 | the global page admits a row iff its price is positive and it is a buy with a positive before-tax amount or a sell with a positive after-tax amount; the token page's ledgers (pages/tokendatatestcopy.py:585-604, 837-852) admit every buy and sell; a lot holds the tokens received at the row's price, valued at before-tax tokens times price (global and all-rows ledgers) or received tokens times price (token sniper ledger); a sale holds the net and wallet quantities and the price |
| Ledger.EntriesMembership | pages/global_snipers.py:307-333 | every ledger entry comes from one of the pair's rows, and every row the variant admits gives its entry |
| Ledger.GlobalEntriesAreAdmittedEntries | pages/global_snipers.py:309-333 | the global trade list is `calculate_pnl_all`'s trade list of the rows with positive price, buys with positive before-tax amount and sells with positive after-tax amount |
| Ledger.ReceivingRowsGiveValidEntries | pages/global_snipers.py:354 | rows whose admitted buys received tokens give only lots of positive amount, the divisor of the matching ratio |
| Ledger.Inventory | pages/global_snipers.py:373 | the tokens held in valid lots are non-negative and at least the front lot's amount |
| Ledger.Min | pages/global_snipers.py:353 | the result is one of the two arguments and no larger than either |
| Ledger.Leftover | pages/global_snipers.py:364-371 | the leftover keeps the lot's price, holds amount minus matched, keeps the basis per token, and the matched share plus the leftover basis is the original basis |
| Ledger.Proceeds | pages/global_snipers.py:356-357 | matching nothing gives nothing, and matching the whole wallet quantity gives the net tokens times the price (the token sniper ledger, pages/tokendatatestcopy.py:620-622: the wallet quantity times the price) |
| Ledger.MatchedCost | pages/global_snipers.py:352-358 | matching nothing costs nothing, and matching a whole lot costs its whole recorded value (pages/tokendatatestcopy.py:620-621, 864-866 for the token page) |
| Ledger.Gain | pages/global_snipers.py:352-360 | a match of nothing gains nothing, and a sell that takes exactly one whole lot gains its full proceeds less that lot's value (pages/tokendatatestcopy.py:620-623, 861-866 for the token page) |
| Ledger.Settle | pages/global_snipers.py:346-371 | matching a sell leaves only lots of positive amount in the queue |
| Ledger.SettleConserves | pages/global_snipers.py:351-363 | the tokens matched are min(quantity to match, inventory), the inventory drops by exactly that, nothing goes negative, and a non-positive quantity changes nothing |
| Ledger.SettleGain | pages/global_snipers.py:351-371 | the realized PnL of a sell is the proceeds of the tokens it matched minus the value that left the queue (basis times buy price; on the token page's sniper ledger, pages/tokendatatestcopy.py:617-631, the dollar basis), so splitting a lot creates or loses no value |
| Ledger.StepValue | pages/global_snipers.py:339-371 | realized PnL minus the value of the open lots falls by a buy's lot value and rises by the proceeds of what a sell matched, for any book and any entry |
| Ledger.ReplayValue | pages/global_snipers.py:335-373 | over a whole replay, realized PnL equals the proceeds of every sell's matched tokens, less the value of every bought lot, plus the value of the lots still open |
| Ledger.SettleEmptyQueue | pages/global_snipers.py:351 | a sell against an empty queue changes neither the queue nor realized PnL |
| Ledger.SettleIsFifo | pages/global_snipers.py:351-371 | for some k, the first k lots are consumed whole; at most the next lot is consumed in part and stays at the front with the same price and basis per token; every lot behind it is untouched |
| Ledger.WorkedExample | pages/global_snipers.py:351-371 | lots (10, 10, $10) and (10, 10, $30) and a sell of 15 from the wallet, 15 net, at $20 give realized 50, 15 matched and one lot (5, 5, $30) |
| Ledger.OversellExample | pages/tokendatatestcopy.py:862-874 | selling 25 against 20 held matches 20, empties the queue and drops the excess |
| Ledger.Step | pages/global_snipers.py:339-371 | one entry keeps every open lot at a positive amount |
| Ledger.Replay | pages/global_snipers.py:339-373 | the replay of a trade list keeps every open lot at a positive amount |
| Ledger.ReplayAppend | pages/global_snipers.py:339 | replaying one more entry is one more step after the replay |
| Ledger.StepInventory | pages/global_snipers.py:339-371 | a buy adds its amount to the inventory; a sell removes min(IN_BeforeTax, inventory); a sell with nothing from the wallet, or against an empty queue, changes nothing |
| Ledger.BuysOnly | pages/global_snipers.py:339-345 | with only buys, the queue is the bought lots in order and realized PnL is 0, so remaining tokens are the sum of the received amounts |
| Ledger.LotsDescendFromBuys | pages/global_snipers.py:364-371 | every open lot after a replay is a bought lot or what is left of one: same price, fewer tokens, same basis per token |
| Ledger.SettleSameValuation | pages/tokendatatestcopy.py:861-866 | the global page's and `calculate_pnl_all`'s formulas give the same settlement of every sell |
| Ledger.ReplaySameValuation | pages/tokendatatestcopy.py:854-876 | so they give the same ledger for every trade list |
| Ledger.GlobalLedgerIsTokenAllOnAdmittedRows | pages/global_snipers.py:307-373 | the global ledger of a pair is `calculate_pnl_all`'s ledger of the admitted rows: the two differ only in row admission |
| Ledger.LotQueue.constructor | pages/global_snipers.py:337 | the queue starts empty |
| Ledger.LotQueue.PushBack | pages/global_snipers.py:341-345 | `append` puts a lot at the back |
| Ledger.LotQueue.PushFront | pages/global_snipers.py:367-371 | `appendleft` puts a lot at the front |
| Ledger.LotQueue.PopFront | pages/global_snipers.py:352 | `popleft` returns the front lot and removes it |
| Ledger.LotQueue.Remaining | pages/global_snipers.py:373 | the summing loop returns the inventory of the queue, non-negative for valid lots |
| Ledger.MatchSell | pages/global_snipers.py:346-371 | the inner loop over the deque leaves the queue and returns the realized gain of `Settle` for that sell |
| Ledger.ReplayLedger | pages/global_snipers.py:335-373 | the loop with its deque and running realized PnL returns the realized PnL and the remaining tokens of `Replay`; the token page's two ledgers (pages/tokendatatestcopy.py:605-634 and 854-876) are the same loop with their own valuation |
| Results.ExtractAmount | pages/tokendatatestcopy.py:207-212 | a buy gives (TOKEN_OUT, Virtual_IN), a sell (TOKEN_IN, Virtual_OUT), any other row (None, None) |
| Results.ExtractAmountMatchesLedgerRows | pages/tokendatatestcopy.py:207-212 | a row has an extracted amount iff the token page's ledgers take it as an entry |
| Results.CountOf | pages/global_snipers.py:298-299 | the count is at most the number of rows, and 0 iff no row has that swap type |
| Results.EarliestTime | pages/global_snipers.py:300 | None iff there is no buy; otherwise the time of some buy and no later than any |
| Results.LatestTime | pages/global_snipers.py:301 | None iff there is no sell; otherwise the time of some sell and no earlier than any |
| Results.MeanPrice | pages/global_snipers.py:302-303 | defined iff there is a row of that type; the mean times the count is the price sum |
| Results.StatsOf | pages/global_snipers.py:298-305 | the buy and sell counts add up to at most the pair's rows; the first buy time and the mean buy price exist iff there is a buy, and the last sell time and the mean sell price iff there is a sell |
| Results.MeanWithinBounds | pages/global_snipers.py:302-303 | the mean lies within any bounds of the prices it averages |
| Results.AggregatesAdditive | pages/global_snipers.py:298-305 | counts, price, tax and fee sums add up over a split of the rows |
| Results.RejectedRowStillCounted | pages/global_snipers.py:298-333 | a row the ledger skips adds no entry but is still counted and adds its tax and fee |
| Results.ZeroPriceBuyCountedNotBooked | pages/global_snipers.py:298-311 | a buy at a non-positive price is counted as a buy but never booked |
| Results.NumberOfTrades | pages/tokendatatestcopy.py:942 | "Number of Trades" is at least each count and is 0 iff the pair has neither buys nor sells |
| Results.NumberOfTradesCountsSwaps | pages/tokendatatestcopy.py:942 | buy count plus sell count is the number of rows that are buys or sells, and the length of `calculate_pnl_all`'s trade list |
| Results.IsSniper | pages/tokendatatestcopy.py:905-908 | "Is Sniper" holds iff some sniper buy was made by that wallet |
| Results.TokenSniperFlag | pages/tokendatatestcopy.py:535-559 | on the token page a wallet is flagged by "Is Sniper" (pages/tokendatatestcopy.py:904-908) iff it made a launch candidate that one of its sells follows within the quick-exit window |
| Results.TotalUsd | pages/tokendatatestcopy.py:920-931 | `get_total_usd` is 0.0 when the wallet has no swap of that direction in the token, and never negative when prices and amounts are not |
| Results.TotalBuysIsBookedCost | pages/tokendatatestcopy.py:921-931 | "Total Buys (USD)" of a wallet is the dollar basis the sniper ledger books for its buys |
| Results.TotalSellsIsSoldDollars | pages/tokendatatestcopy.py:921-931 | "Total Sells (USD)" of a wallet is the net tokens times the price of the sells in its `calculate_pnl_all` trade list |
| Results.LatestRow | pages/global_snipers.py:376-380 | None iff the token has no rows; otherwise a row of the token whose time no other row of the token exceeds |
| Results.LatestPrice | pages/global_snipers.py:375-381 | the latest price is 0.0 when the token has no rows, otherwise the price of a row of the token with the greatest time |
| Results.PairTokenHasLatestRow | pages/tokendatatestcopy.py:635 | every pair drawn from the rows has a latest row, so `.values[0]` always finds one |
| Results.DistinctPairs | pages/global_snipers.py:289 | every (maker, token) of the rows exactly once |
| Results.PairRows | pages/global_snipers.py:294-295 | a row is in a pair's rows iff it has that maker and token, and time order is kept |
| Results.PairResult | pages/global_snipers.py:291-381 | the row carries the pair's maker and token, and its remaining tokens are never negative |
| Results.PairPnl | pages/global_snipers.py:291-381 | the body of the per-pair loop computes `PairResult` |
| Results.CalculatePnl | pages/global_snipers.py:286-399 | one result row per distinct pair of the sniper buys, in order, each the pair's `PairResult`; the token page's `calculate_pnl` (pages/tokendatatestcopy.py:561-636) loops the same way, and `calculate_pnl_all` (pages/tokendatatestcopy.py:813-878) over every pair of all rows |
| Address.Shorten | cards2.py:217-220 | a "0x" address longer than ten characters gives 13 characters: its first six, "...", its last four; anything else comes back unchanged |
| Address.ShortenedKeepsPrefix | cards2.py:218-219 | a shortened address still starts with "0x" |
| Address.ShortenIdempotent | cards2.py:217-220 | shortening twice is shortening once |
| Address.TenCharactersUnchanged | cards2.py:218-220 | a ten-character "0x" address is unchanged, and a fourteen-character one is shortened |

## Left out

- Streamlit layout, charts, filters, KPI cards, styling, the top-50
  ranking and "Rank" column, and the wallet-display lambda are
  presentation only.
- MongoDB access (`load_swap_data`, `load_launch_blocks`, `fetch_token_docs`),
  caching and environment loading are I/O. The rows and the launch blocks
  are parameters.
- `round(...)` and `float(f"{...:.4f}")` are presentation rounding and are
  not modelled. Amounts are exact reals.
- Date parsing is not modelled. `timestamp` and `timestampReadable` are one
  integer number of seconds.
- Pandas NaN is not modelled. The mean, the first buy time and the last
  sell time are `None` where pandas gives NaN. A NaN amount, which
  `x or 0` would not replace, is not modelled.
- `Chunking.ChunkLargeBuys`: groups are visited in order of first
  appearance, not pandas' sorted key order. Only the order of the output
  rows differs. Every later stage is a membership test or a selection.
- `Chunking.ChunkLargeBuys`, `Classify.ProcessSniperData`,
  `Classify.ProcessTokenSniperData` and `Results.CalculatePnl`: the input
  must already be in time order
  (`SortedByTime`). This stands for the `sort_values` calls, which do not
  fix the order of equal times.
- `drop_duplicates` of the chunked buys is not modelled. Rows from
  `itertuples` carry their index, so no two are equal.
- The launch-window test uses each row's own block number, as the code
  does (pages/global_snipers.py:261-265). A chunk whose first trade is
  inside the window can therefore lose its later trades to the test.
- The token page sums the before-tax column of the chunk's first row's
  token. The model uses each row's own before-tax amount. These are the
  same column because every row of that page carries the page's token
  (pages/tokendatatestcopy.py:483).
- `Ledger.ReplayLedger`, `Results.PairResult`, `Results.PairPnl` and
  `Results.CalculatePnl`: every buy the ledger admits must have received
  a positive amount of tokens. This is stronger than the code. Python
  raises only when a lot with zero amount is popped for a sell, and it
  runs on with negative amounts.
- `Results.LatestRow`: among rows of the token with equal greatest time,
  the last in input order is taken. Pandas' order for ties is
  unspecified.
- The `st.warning` shown when the fee column is missing is not modelled.
- `Classify.ProcessSniperData`, `Classify.ProcessTokenSniperData`: in
  pandas versions where a row-wise `apply` on an empty frame calls the
  function on the column index, the selection with its result leaves a
  frame with no columns. The code then also fails when the gas filter
  leaves no row (KeyError at pages/global_snipers.py:270 and
  pages/tokendatatestcopy.py:550), and on the global page when the launch
  filter leaves no row (`calculate_pnl` raises KeyError at
  pages/global_snipers.py:289). The model follows the older behaviour and
  does not capture these failures.
- `Results.TaxSum`, `Results.MeanPrice`, `Ledger.EntryOf` and
  `Results.ExtractAmount`: every modelled row carries every column these
  read. The code reads `transactionFee` (pages/global_snipers.py:305,
  pages/tokendatatestcopy.py:583, 835), `Tax_1pct`
  (pages/global_snipers.py:304, pages/tokendatatestcopy.py:582, 834) and
  `genesis_usdc_price` for the mean prices (pages/global_snipers.py:302-303,
  pages/tokendatatestcopy.py:580-581, 832-833) and for the token page's
  ledger prices (pages/tokendatatestcopy.py:594, 603, 844, 851) without a
  default, so it raises KeyError when one is missing. `extract_amount`
  reads its columns with `row.get` and no default
  (pages/tokendatatestcopy.py:209, 211), so a missing column gives None
  there. The model does not capture these failures.
- `shorten` of a value that is not a string is not modelled. It is
  returned unchanged.
- The hard-coded supply percentage and HTML stripping are not modelled.
  They are display helpers.
