/** Per-pair result assembly of the PnL tables: transaction counts, first
    and last times, mean prices and fee and tax totals of a pair's rows,
    the ledger's realized and unrealized PnL, and the extra columns of the
    token page's leaderboard ("Number of Trades", "Is Sniper", dollar
    totals) together with the row-level `extract_amount`. */
module Results {
  import opened Trades
  import opened Ledger
  import Classify

  // ---------------------------------------------------------------------
  // Row-level helpers of the token page

  /** `extract_amount`: the token and Virtual amounts of a swap, taken from
      the raw columns on the side the wallet received (buy) or gave (sell);
      rows of any other type have neither. */
  function ExtractAmount(t: Trade): (r: (Option<real>, Option<real>))
    ensures r.0.Some? <==> r.1.Some?
    ensures r.0.Some? <==> t.swap == Buy || t.swap == Sell
    ensures t.swap == Buy ==> r == (Some(t.tokenOut), Some(t.virtualIn))
    ensures t.swap == Sell ==> r == (Some(t.tokenIn), Some(t.virtualOut))
  {
    match t.swap
    case Buy => (Some(t.tokenOut), Some(t.virtualIn))
    case Sell => (Some(t.tokenIn), Some(t.virtualOut))
    case Other => (None, None)
  }

  /** The rows with an extracted amount are exactly the rows every token
      page ledger turns into an entry. */
  lemma ExtractAmountMatchesLedgerRows(t: Trade)
    ensures ExtractAmount(t).0.Some? <==> EntryOf(TokenAll, t).Some?
    ensures ExtractAmount(t).0.Some? <==> EntryOf(TokenSnipers, t).Some?
  {
  }

  // ---------------------------------------------------------------------
  // Aggregates over a pair's rows

  /** `(df['swapType'] == swap).sum()`. */
  function CountOf(rows: seq<Trade>, swap: SwapType): (n: nat)
    ensures n <= |rows|
    ensures n == 0 <==> forall t :: t in rows ==> t.swap != swap
  {
    if rows == [] then 0
    else
      var init := rows[..|rows| - 1];
      var t := rows[|rows| - 1];
      assert rows == init + [t];
      CountOf(init, swap) + (if t.swap == swap then 1 else 0)
  }

  /** The minimum time of the rows of one swap type (`First Buy Time`);
      None where pandas gives NaN. */
  function EarliestTime(rows: seq<Trade>, swap: SwapType): (r: Option<int>)
    ensures r.None? <==> forall t :: t in rows ==> t.swap != swap
    ensures r.Some? ==> exists t :: t in rows && t.swap == swap && t.time == r.value
    ensures r.Some? ==> forall t :: t in rows && t.swap == swap ==> r.value <= t.time
  {
    if rows == [] then None
    else
      var init := rows[..|rows| - 1];
      var t := rows[|rows| - 1];
      assert rows == init + [t];
      var e := EarliestTime(init, swap);
      if t.swap != swap then e
      else if e.Some? && e.value <= t.time then e
      else Some(t.time)
  }

  /** The maximum time of the rows of one swap type (`Last Sell Time`). */
  function LatestTime(rows: seq<Trade>, swap: SwapType): (r: Option<int>)
    ensures r.None? <==> forall t :: t in rows ==> t.swap != swap
    ensures r.Some? ==> exists t :: t in rows && t.swap == swap && t.time == r.value
    ensures r.Some? ==> forall t :: t in rows && t.swap == swap ==> t.time <= r.value
  {
    if rows == [] then None
    else
      var init := rows[..|rows| - 1];
      var t := rows[|rows| - 1];
      assert rows == init + [t];
      var e := LatestTime(init, swap);
      if t.swap != swap then e
      else if e.Some? && t.time <= e.value then e
      else Some(t.time)
  }

  function PriceSum(rows: seq<Trade>, swap: SwapType): real {
    if rows == [] then 0.0
    else PriceSum(rows[..|rows| - 1], swap) + (if rows[|rows| - 1].swap == swap then rows[|rows| - 1].price else 0.0)
  }

  /** `df.loc[df['swapType'] == swap, 'genesis_usdc_price'].mean()`; None
      where pandas gives NaN (no row of that type). */
  function MeanPrice(rows: seq<Trade>, swap: SwapType): (r: Option<real>)
    ensures r.Some? <==> CountOf(rows, swap) > 0
    ensures r.Some? ==> r.value * (CountOf(rows, swap) as real) == PriceSum(rows, swap)
  {
    var n := CountOf(rows, swap);
    if n == 0 then None else Some(PriceSum(rows, swap) / n as real)
  }

  /** `n` copies of `x` added up. */
  function Times(n: nat, x: real): real {
    if n == 0 then 0.0 else Times(n - 1, x) + x
  }

  lemma {:induction false} TimesIsProduct(n: nat, x: real)
    ensures Times(n, x) == x * (n as real)
  {
    if n > 0 {
      TimesIsProduct(n - 1, x);
      assert x * ((n - 1) as real) + x == x * (n as real);
    }
  }

  lemma {:induction false} PriceSumBounds(rows: seq<Trade>, swap: SwapType, lo: real, hi: real)
    requires forall t :: t in rows && t.swap == swap ==> lo <= t.price <= hi
    ensures Times(CountOf(rows, swap), lo) <= PriceSum(rows, swap) <= Times(CountOf(rows, swap), hi)
  {
    if rows != [] {
      var init := rows[..|rows| - 1];
      var t := rows[|rows| - 1];
      forall u | u in init && u.swap == swap
        ensures lo <= u.price <= hi
      {
        assert u in rows;
      }
      PriceSumBounds(init, swap, lo, hi);
      var c := CountOf(init, swap);
      if t.swap == swap {
        assert CountOf(rows, swap) == c + 1;
        assert Times(c + 1, lo) == Times(c, lo) + lo;
        assert Times(c + 1, hi) == Times(c, hi) + hi;
        assert PriceSum(rows, swap) == PriceSum(init, swap) + t.price;
      } else {
        assert CountOf(rows, swap) == c;
        assert PriceSum(rows, swap) == PriceSum(init, swap);
      }
    }
  }

  lemma QuotientBounds(sum: real, k: nat, lo: real, hi: real)
    requires k > 0 && Times(k, lo) <= sum <= Times(k, hi)
    ensures lo <= sum / (k as real) <= hi
  {
    TimesIsProduct(k, lo);
    TimesIsProduct(k, hi);
    var n := k as real;
    var q := sum / n;
    assert q * n == sum;
    assert (q - lo) * n == sum - lo * n;
    assert (hi - q) * n == hi * n - sum;
    NonNegFactor(q - lo, n);
    NonNegFactor(hi - q, n);
  }

  /** A product with a positive factor is non-negative only if the other
      factor is. */
  lemma NonNegFactor(a: real, n: real)
    requires n > 0.0 && a * n >= 0.0
    ensures a >= 0.0
  {
    assert a == (a * n) / n;
  }

  /** The mean price lies between any bounds of the prices it averages. */
  lemma MeanWithinBounds(rows: seq<Trade>, swap: SwapType, lo: real, hi: real)
    requires forall t :: t in rows && t.swap == swap ==> lo <= t.price <= hi
    ensures MeanPrice(rows, swap).Some? ==> lo <= MeanPrice(rows, swap).value <= hi
  {
    var m := MeanPrice(rows, swap);
    if m.Some? {
      var k := CountOf(rows, swap);
      var sum := PriceSum(rows, swap);
      assert m.value == sum / (k as real);
      PriceSumBounds(rows, swap, lo, hi);
      QuotientBounds(sum, k, lo, hi);
    }
  }

  /** `df['Tax_1pct'].sum()`. */
  function TaxSum(rows: seq<Trade>): real {
    if rows == [] then 0.0 else TaxSum(rows[..|rows| - 1]) + rows[|rows| - 1].tax
  }

  /** `df['transactionFee'].sum()`. */
  function FeeSum(rows: seq<Trade>): real {
    if rows == [] then 0.0 else FeeSum(rows[..|rows| - 1]) + rows[|rows| - 1].fee
  }

  /** Counts and sums are additive over a split of the rows. */
  lemma {:induction false} AggregatesAdditive(a: seq<Trade>, b: seq<Trade>, swap: SwapType)
    ensures CountOf(a + b, swap) == CountOf(a, swap) + CountOf(b, swap)
    ensures PriceSum(a + b, swap) == PriceSum(a, swap) + PriceSum(b, swap)
    ensures TaxSum(a + b) == TaxSum(a) + TaxSum(b)
    ensures FeeSum(a + b) == FeeSum(a) + FeeSum(b)
  {
    if b == [] {
      assert a + b == a;
    } else {
      var init := b[..|b| - 1];
      assert (a + b)[..|a + b| - 1] == a + init;
      assert (a + b)[|a + b| - 1] == b[|b| - 1];
      AggregatesAdditive(a, init, swap);
    }
  }

  /** The statistics columns of one pair. */
  datatype Stats = Stats(
    buys: nat,
    sells: nat,
    firstBuy: Option<int>,
    lastSell: Option<int>,
    meanBuyPrice: Option<real>,
    meanSellPrice: Option<real>,
    taxPaid: real,
    feesPaid: real)

  /** The statistics of one pair's rows. A pair has a first buy time iff
      it has a mean buy price iff it has a buy, and likewise for sells. */
  function StatsOf(rows: seq<Trade>): (r: Stats)
    ensures r.buys + r.sells <= |rows|
    ensures (r.firstBuy.Some? <==> r.buys > 0) && (r.meanBuyPrice.Some? <==> r.buys > 0)
    ensures (r.lastSell.Some? <==> r.sells > 0) && (r.meanSellPrice.Some? <==> r.sells > 0)
  {
    SwapCounts(rows);
    Stats(CountOf(rows, Buy), CountOf(rows, Sell),
          EarliestTime(rows, Buy), LatestTime(rows, Sell),
          MeanPrice(rows, Buy), MeanPrice(rows, Sell),
          TaxSum(rows), FeeSum(rows))
  }

  /** A row a ledger skips still counts: it adds nothing to the trade list,
      but it is counted in its direction and adds its tax and fee. */
  lemma RejectedRowStillCounted(v: Variant, rows: seq<Trade>, t: Trade)
    requires EntryOf(v, t).None?
    ensures Entries(v, rows + [t]) == Entries(v, rows)
    ensures CountOf(rows + [t], t.swap) == CountOf(rows, t.swap) + 1
    ensures TaxSum(rows + [t]) == TaxSum(rows) + t.tax
    ensures FeeSum(rows + [t]) == FeeSum(rows) + t.fee
  {
    EntriesAppend(v, rows, t);
    assert (rows + [t])[..|rows|] == rows;
  }

  /** The global page skips a buy at a non-positive price, yet counts it. */
  lemma ZeroPriceBuyCountedNotBooked(rows: seq<Trade>, t: Trade)
    requires t.swap == Buy && t.price <= 0.0
    ensures Entries(GlobalSnipers, rows + [t]) == Entries(GlobalSnipers, rows)
    ensures StatsOf(rows + [t]).buys == StatsOf(rows).buys + 1
  {
    RejectedRowStillCounted(GlobalSnipers, rows, t);
  }

  /** "Number of Trades": buy count plus sell count. */
  function NumberOfTrades(s: Stats): (r: nat)
    ensures s.buys <= r && s.sells <= r
    ensures r == 0 <==> s.buys == 0 && s.sells == 0
  {
    s.buys + s.sells
  }

  /** "Number of Trades" is the number of the pair's rows that are buys or
      sells, which is the number of entries of the token page's ledgers. */
  lemma {:induction false} NumberOfTradesCountsSwaps(rows: seq<Trade>)
    ensures NumberOfTrades(StatsOf(rows)) == |Filter(rows, (t: Trade) => t.swap != Other)|
    ensures NumberOfTrades(StatsOf(rows)) == |Entries(TokenAll, rows)|
  {
    SwapCounts(rows);
  }

  lemma {:induction false} SwapCounts(rows: seq<Trade>)
    ensures CountOf(rows, Buy) + CountOf(rows, Sell) == |Filter(rows, (t: Trade) => t.swap != Other)|
    ensures CountOf(rows, Buy) + CountOf(rows, Sell) == |Entries(TokenAll, rows)|
  {
    if rows != [] {
      SwapCounts(rows[..|rows| - 1]);
      SwapCountsStep(rows);
    }
  }

  /** The last row adds one to each count when it is a buy or a sell. */
  lemma SwapCountsStep(rows: seq<Trade>)
    requires rows != []
    ensures var init, step := rows[..|rows| - 1], if rows[|rows| - 1].swap != Other then 1 else 0;
      && CountOf(rows, Buy) + CountOf(rows, Sell) == CountOf(init, Buy) + CountOf(init, Sell) + step
      && |Filter(rows, (t: Trade) => t.swap != Other)| == |Filter(init, (t: Trade) => t.swap != Other)| + step
      && |Entries(TokenAll, rows)| == |Entries(TokenAll, init)| + step
  {
    var init := rows[..|rows| - 1];
    var t := rows[|rows| - 1];
    assert rows == init + [t];
    FilterAppend(init, t, (t: Trade) => t.swap != Other);
    EntriesAppend(TokenAll, init, t);
  }

  /** "Is Sniper": the wallet made one of the sniper buys. */
  function IsSniper(wallet: string, sniperBuys: seq<Trade>): (r: bool)
    ensures r <==> exists t :: t in sniperBuys && t.maker == wallet
  {
    wallet in (set t | t in sniperBuys :: t.maker)
  }

  /** On the token page a wallet is flagged a sniper exactly when it made a
      launch candidate (a large chunked buy inside the launch window that
      passed the gas test) followed by one of its sells within the
      quick-exit window. */
  lemma TokenSniperFlag(rows: seq<Trade>, launch: map<string, int>, hasFeeColumn: bool, wallet: string)
    ensures IsSniper(wallet, Classify.TokenSniperBuys(rows, launch, hasFeeColumn)) <==>
      exists b, s :: Classify.IsTokenCandidate(rows, launch, hasFeeColumn, b) && s in rows
        && b.maker == wallet && Classify.QuickSell(b, s)
  {
    forall b { Classify.TokenCandidateMembership(rows, launch, hasFeeColumn, b); }
  }

  /** `get_total_usd`: the dollars of a wallet's swaps of one direction in
      one token, price times the after-tax amount (received on a buy, net
      on a sell); a missing amount column counts as 0. */
  function TotalUsd(rows: seq<Trade>, maker: string, token: string, swap: SwapType): (r: real)
    ensures (forall t :: t in rows ==> !(t.maker == maker && t.token == token && t.swap == swap)) ==> r == 0.0
    ensures (forall t :: t in rows ==> t.price >= 0.0 && t.outAfterTax >= 0.0 && t.inAfterTax >= 0.0) ==> r >= 0.0
  {
    if rows == [] then 0.0
    else
      var t := rows[|rows| - 1];
      TotalUsd(rows[..|rows| - 1], maker, token, swap)
      + (if t.maker == maker && t.token == token && t.swap == swap
         then Dollars(if swap == Buy then t.outAfterTax else t.inAfterTax, t.price)
         else 0.0)
  }

  /** The basis booked for the lots of a trade list. */
  function BookedCost(es: seq<Entry>): real {
    if es == [] then 0.0
    else BookedCost(es[..|es| - 1]) + (if es[|es| - 1].Bought? then es[|es| - 1].lot.cost else 0.0)
  }

  /** "Total Buys (USD)" of a wallet is the dollar basis the token page's
      sniper ledger books for that wallet's buys. */
  lemma {:induction false} TotalBuysIsBookedCost(rows: seq<Trade>, maker: string, token: string)
    ensures TotalUsd(rows, maker, token, Buy) == BookedCost(Entries(TokenSnipers, PairRows(rows, maker, token)))
  {
    if rows != [] {
      TotalBuysIsBookedCost(rows[..|rows| - 1], maker, token);
      TotalBuysStep(rows, maker, token);
    }
  }

  /** The last row adds the same to the dollar total and to the booked basis. */
  lemma TotalBuysStep(rows: seq<Trade>, maker: string, token: string)
    requires rows != []
    ensures TotalUsd(rows, maker, token, Buy) - TotalUsd(rows[..|rows| - 1], maker, token, Buy)
         == BookedCost(Entries(TokenSnipers, PairRows(rows, maker, token)))
          - BookedCost(Entries(TokenSnipers, PairRows(rows[..|rows| - 1], maker, token)))
  {
    var init := rows[..|rows| - 1];
    var t := rows[|rows| - 1];
    assert rows == init + [t];
    var pr := PairRows(init, maker, token);
    FilterAppend(init, t, (t: Trade) => t.maker == maker && t.token == token);
    if t.maker == maker && t.token == token {
      assert PairRows(rows, maker, token) == pr + [t];
      BookedCostStep(pr, t);
    } else {
      assert PairRows(rows, maker, token) == pr;
    }
  }

  /** One more row adds its dollar value to the booked basis when it is a buy. */
  lemma BookedCostStep(rows: seq<Trade>, t: Trade)
    ensures BookedCost(Entries(TokenSnipers, rows + [t]))
         == BookedCost(Entries(TokenSnipers, rows)) + (if t.swap == Buy then Dollars(t.outAfterTax, t.price) else 0.0)
  {
    EntriesAppend(TokenSnipers, rows, t);
    if t.swap == Buy {
      var e := Bought(Lot(t.outAfterTax, Dollars(t.outAfterTax, t.price), t.price));
      assert EntryOf(TokenSnipers, t) == Some(e);
      BookedCostAppend(Entries(TokenSnipers, rows), e);
    } else if t.swap == Sell {
      var e := Sold(Sale(t.inAfterTax, t.inBeforeTax, t.price));
      assert EntryOf(TokenSnipers, t) == Some(e);
      BookedCostAppend(Entries(TokenSnipers, rows), e);
    }
  }

  lemma BookedCostAppend(es: seq<Entry>, e: Entry)
    ensures BookedCost(es + [e]) == BookedCost(es) + (if e.Bought? then e.lot.cost else 0.0)
  {
    assert (es + [e])[..|es|] == es;
  }

  /** The gross dollars of the sells of a trade list: net tokens at the
      sell price. */
  function SoldDollars(es: seq<Entry>): real {
    if es == [] then 0.0
    else SoldDollars(es[..|es| - 1]) + (if es[|es| - 1].Sold? then Dollars(es[|es| - 1].sale.net, es[|es| - 1].sale.price) else 0.0)
  }

  /** "Total Sells (USD)" of a wallet is the gross value of the sells in
      `calculate_pnl_all`'s trade list of that wallet. */
  lemma {:induction false} TotalSellsIsSoldDollars(rows: seq<Trade>, maker: string, token: string)
    ensures TotalUsd(rows, maker, token, Sell) == SoldDollars(Entries(TokenAll, PairRows(rows, maker, token)))
  {
    if rows != [] {
      TotalSellsIsSoldDollars(rows[..|rows| - 1], maker, token);
      TotalSellsStep(rows, maker, token);
    }
  }

  /** The last row adds the same to the dollar total and to the sold dollars. */
  lemma TotalSellsStep(rows: seq<Trade>, maker: string, token: string)
    requires rows != []
    ensures TotalUsd(rows, maker, token, Sell) - TotalUsd(rows[..|rows| - 1], maker, token, Sell)
         == SoldDollars(Entries(TokenAll, PairRows(rows, maker, token)))
          - SoldDollars(Entries(TokenAll, PairRows(rows[..|rows| - 1], maker, token)))
  {
    var init := rows[..|rows| - 1];
    var t := rows[|rows| - 1];
    assert rows == init + [t];
    var pr := PairRows(init, maker, token);
    FilterAppend(init, t, (t: Trade) => t.maker == maker && t.token == token);
    if t.maker == maker && t.token == token {
      assert PairRows(rows, maker, token) == pr + [t];
      SoldDollarsStep(pr, t);
    } else {
      assert PairRows(rows, maker, token) == pr;
    }
  }

  /** One more row adds its gross dollars to the sells of the trade list. */
  lemma SoldDollarsStep(rows: seq<Trade>, t: Trade)
    ensures SoldDollars(Entries(TokenAll, rows + [t]))
         == SoldDollars(Entries(TokenAll, rows)) + (if t.swap == Sell then Dollars(t.inAfterTax, t.price) else 0.0)
  {
    EntriesAppend(TokenAll, rows, t);
    if t.swap == Sell {
      var e := Sold(Sale(t.inAfterTax, t.inBeforeTax, t.price));
      assert EntryOf(TokenAll, t) == Some(e);
      SoldDollarsAppend(Entries(TokenAll, rows), e);
    } else if t.swap == Buy {
      var e := Bought(Lot(t.outAfterTax, t.outBeforeTax, t.price));
      assert EntryOf(TokenAll, t) == Some(e);
      SoldDollarsAppend(Entries(TokenAll, rows), e);
    }
  }

  lemma SoldDollarsAppend(es: seq<Entry>, e: Entry)
    ensures SoldDollars(es + [e]) == SoldDollars(es) + (if e.Sold? then Dollars(e.sale.net, e.sale.price) else 0.0)
  {
    assert (es + [e])[..|es|] == es;
  }

  // ---------------------------------------------------------------------
  // Latest price and the pairs

  /** The token's row with the greatest time (among equals, the last one);
      None when the token has no rows. */
  function LatestRow(rows: seq<Trade>, token: string): (r: Option<Trade>)
    ensures r.None? <==> forall t :: t in rows ==> t.token != token
    ensures r.Some? ==> r.value in rows && r.value.token == token
    ensures r.Some? ==> forall t :: t in rows && t.token == token ==> t.time <= r.value.time
  {
    if rows == [] then None
    else
      var init := rows[..|rows| - 1];
      var t := rows[|rows| - 1];
      assert rows == init + [t];
      var e := LatestRow(init, token);
      if t.token != token then e
      else if e.Some? && t.time < e.value.time then e
      else Some(t)
  }

  /** The price used for unrealized PnL: that of the token's latest row,
      or 0.0 when the token has no rows. */
  function LatestPrice(rows: seq<Trade>, token: string): (r: real)
    ensures (forall t :: t in rows ==> t.token != token) ==> r == 0.0
    ensures (exists t :: t in rows && t.token == token) ==>
      exists t :: t in rows && t.token == token && t.price == r &&
        forall u :: u in rows && u.token == token ==> u.time <= t.time
  {
    match LatestRow(rows, token)
    case None => 0.0
    case Some(t) => t.price
  }

  /** `drop_duplicates()` of the (maker, token) columns: every pair once, in
      order of first appearance. */
  function DistinctPairs(rows: seq<Trade>): (ps: seq<(string, string)>)
    ensures forall p :: p in ps <==> exists t :: t in rows && (t.maker, t.token) == p
    ensures forall i, j :: 0 <= i < j < |ps| ==> ps[i] != ps[j]
  {
    if rows == [] then []
    else
      var init := rows[..|rows| - 1];
      var t := rows[|rows| - 1];
      assert rows == init + [t];
      var ps := DistinctPairs(init);
      if (t.maker, t.token) in ps then ps else ps + [(t.maker, t.token)]
  }

  /** The rows of one pair, in the order of `rows`. */
  function PairRows(rows: seq<Trade>, maker: string, token: string): (r: seq<Trade>)
    ensures forall t :: t in r <==> t in rows && t.maker == maker && t.token == token
    ensures SortedByTime(rows) ==> SortedByTime(r)
  {
    var r := Filter(rows, (t: Trade) => t.maker == maker && t.token == token);
    if SortedByTime(rows) then
      FilterSorted(rows, (t: Trade) => t.maker == maker && t.token == token);
      r
    else r
  }

  /** Every pair taken from the rows has a latest row, so the token page's
      `.values[0]` always finds one. */
  lemma PairTokenHasLatestRow(source: seq<Trade>, rows: seq<Trade>, i: int)
    requires forall t :: t in source ==> t in rows
    requires 0 <= i < |DistinctPairs(source)|
    ensures LatestRow(rows, DistinctPairs(source)[i].1).Some?
  {
    var p := DistinctPairs(source)[i];
    assert p in DistinctPairs(source);
  }

  /** One row of a PnL table. */
  datatype PnlRow = PnlRow(
    maker: string,
    token: string,
    realized: real,
    unrealized: real,
    remaining: real,
    stats: Stats)

  /** The PnL row of one pair: the ledger over the pair's rows, the
      remaining tokens valued at the token's latest price, and the pair's
      statistics. */
  function PairResult(v: Variant, rows: seq<Trade>, maker: string, token: string): (r: PnlRow)
    requires ReceivesTokens(v, PairRows(rows, maker, token))
    ensures r.maker == maker && r.token == token
    ensures r.remaining >= 0.0
  {
    var pr := PairRows(rows, maker, token);
    ReceivingRowsGiveValidEntries(v, pr);
    var book := Replay(v, Entries(v, pr));
    var remaining := Inventory(book.lots);
    PnlRow(maker, token, book.realized, Dollars(remaining, LatestPrice(rows, token)), remaining, StatsOf(pr))
  }

  /** The body of the loop for one pair. */
  method PairPnl(v: Variant, rows: seq<Trade>, maker: string, token: string) returns (row: PnlRow)
    requires ReceivesTokens(v, PairRows(rows, maker, token))
    ensures row == PairResult(v, rows, maker, token)
  {
    var df := PairRows(rows, maker, token);
    var stats := StatsOf(df);
    ReceivingRowsGiveValidEntries(v, df);
    var realized, remaining := ReplayLedger(v, Entries(v, df));
    var unrealized := Dollars(remaining, LatestPrice(rows, token));
    row := PnlRow(maker, token, realized, unrealized, remaining, stats);
  }

  /** The loop over the distinct pairs of `source` (the sniper buys, or all
      rows for `calculate_pnl_all`), one result row per pair. */
  method CalculatePnl(v: Variant, source: seq<Trade>, rows: seq<Trade>) returns (results: seq<PnlRow>)
    requires SortedByTime(rows)
    requires forall i :: 0 <= i < |DistinctPairs(source)| ==>
      ReceivesTokens(v, PairRows(rows, DistinctPairs(source)[i].0, DistinctPairs(source)[i].1))
    ensures |results| == |DistinctPairs(source)|
    ensures forall i :: 0 <= i < |results| ==>
      results[i] == PairResult(v, rows, DistinctPairs(source)[i].0, DistinctPairs(source)[i].1)
  {
    var pairs := DistinctPairs(source);
    results := [];
    for i := 0 to |pairs|
      invariant |results| == i
      invariant forall j :: 0 <= j < i ==> results[j] == PairResult(v, rows, pairs[j].0, pairs[j].1)
    {
      var (maker, token) := pairs[i];
      var row := PairPnl(v, rows, maker, token);
      results := results + [row];
    }
  }
}
