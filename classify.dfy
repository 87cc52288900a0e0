/** The sniper filters of `process_sniper_data` after chunking: the gas
    filter, the launch-window test and the quick-exit confirmation, for the
    global page (groups by maker and token) and for the token page (groups
    and confirms by maker). */
module Classify {
  import opened Trades
  import opened Chunking

  /** Rows must pay a `transactionFee` strictly above this. */
  const GasThreshold: real := 0.000002
  /** Blocks after the launch block that still count as the launch window. */
  const LaunchWindow: int := 100
  /** Seconds after a sniper buy within which a sell confirms the sniper. */
  const QuickExitWindow: int := 1200

  /** `df[df['transactionFee'] > 0.000002]`. */
  function HighGas(rows: seq<Trade>): (r: seq<Trade>)
    ensures forall t :: t in r <==> t in rows && t.fee > GasThreshold
    ensures IsSubseq(r, rows)
  {
    Filter(rows, (t: Trade) => t.fee > GasThreshold)
  }

  /** The token page applies the gas filter only when the frame of chunked
      buys has a `transactionFee` column; without it every row passes (with
      a warning). The frame lacks the column when the swap rows have no fee
      column at all, or when no chunk is large and the frame is empty; the
      second case fails further on (see `ProcessTokenSniperData`). */
  function HighGasIfPresent(rows: seq<Trade>, hasFeeColumn: bool): (r: seq<Trade>)
    ensures hasFeeColumn ==> forall t :: t in r <==> t in rows && t.fee > GasThreshold
    ensures !hasFeeColumn ==> r == rows
  {
    if hasFeeColumn then HighGas(rows) else rows
  }

  /** `is_sniper_buy`: the token has a launch block and the row's own block
      is at most 100 blocks after it. */
  predicate IsLaunchWindowBuy(launch: map<string, int>, t: Trade) {
    t.token in launch && t.block <= launch[t.token] + LaunchWindow
  }

  function LaunchWindowBuys(rows: seq<Trade>, launch: map<string, int>): (r: seq<Trade>)
    ensures forall t :: t in r <==> t in rows && t.token in launch && t.block <= launch[t.token] + LaunchWindow
    ensures IsSubseq(r, rows)
  {
    Filter(rows, (t: Trade) => IsLaunchWindowBuy(launch, t))
  }

  /** Launch block 1000: block 1100 is inside the window, 1101 is not, and
      a token without a launch block yields nothing. */
  lemma LaunchWindowEdge(t: Trade)
    ensures var at1100 := t.(token := "T", block := 1100);
      LaunchWindowBuys([at1100], map["T" := 1000]) == [at1100]
    ensures LaunchWindowBuys([t.(token := "T", block := 1101)], map["T" := 1000]) == []
    ensures LaunchWindowBuys([t], map[]) == []
  {
    var at1100 := t.(token := "T", block := 1100);
    var r := LaunchWindowBuys([at1100], map["T" := 1000]);
    assert at1100 in r;
    assert |r| <= 1;
  }

  /** Unknown launch blocks fail closed: rows of such tokens never pass. */
  lemma {:induction false} UnknownLaunchFailsClosed(rows: seq<Trade>, launch: map<string, int>)
    requires forall t :: t in rows ==> t.token !in launch
    ensures LaunchWindowBuys(rows, launch) == []
  {
    if rows != [] {
      assert forall t :: t in rows[1..] ==> t in rows;
      UnknownLaunchFailsClosed(rows[1..], launch);
    }
  }

  /** A sell of the same maker and token 0 to 1200 seconds (both ends
      included) after the buy. */
  predicate QuickSell(b: Trade, s: Trade) {
    s.swap == Sell && s.maker == b.maker && s.token == b.token
    && 0 <= s.time - b.time <= QuickExitWindow
  }

  /** `quick_sells_pairs`: the (maker, token) pairs of the merge of sniper
      buys with sells that fall in the quick-exit window. */
  function QuickSellPairs(sniperBuys: seq<Trade>, rows: seq<Trade>): set<(string, string)> {
    set b, s | b in sniperBuys && s in rows && QuickSell(b, s) :: (b.maker, b.token)
  }

  /** The global page keeps every sniper buy of a confirmed pair. */
  function ConfirmedByPair(sniperBuys: seq<Trade>, rows: seq<Trade>): (r: seq<Trade>)
    ensures forall b :: b in r <==> (b in sniperBuys &&
      exists b', s :: b' in sniperBuys && s in rows && b'.maker == b.maker && b'.token == b.token && QuickSell(b', s))
    ensures IsSubseq(r, sniperBuys)
  {
    var pairs := QuickSellPairs(sniperBuys, rows);
    forall b | b in sniperBuys && (b.maker, b.token) in pairs
      ensures exists b', s :: b' in sniperBuys && s in rows && b'.maker == b.maker && b'.token == b.token && QuickSell(b', s)
    {
      var b', s :| b' in sniperBuys && s in rows && QuickSell(b', s) && (b'.maker, b'.token) == (b.maker, b.token);
    }
    Filter(sniperBuys, (b: Trade) => (b.maker, b.token) in pairs)
  }

  /** The token page's `quick_sells["maker"]`. */
  function QuickSellMakers(sniperBuys: seq<Trade>, rows: seq<Trade>): set<string> {
    set b, s | b in sniperBuys && s in rows && QuickSell(b, s) :: b.maker
  }

  /** The token page keeps every sniper buy of a confirmed maker. */
  function ConfirmedByMaker(sniperBuys: seq<Trade>, rows: seq<Trade>): (r: seq<Trade>)
    ensures forall b :: b in r <==> (b in sniperBuys &&
      exists b', s :: b' in sniperBuys && s in rows && b'.maker == b.maker && QuickSell(b', s))
    ensures IsSubseq(r, sniperBuys)
  {
    var makers := QuickSellMakers(sniperBuys, rows);
    forall b | b in sniperBuys && b.maker in makers
      ensures exists b', s :: b' in sniperBuys && s in rows && b'.maker == b.maker && QuickSell(b', s)
    {
      var b', s :| b' in sniperBuys && s in rows && QuickSell(b', s) && b'.maker == b.maker;
    }
    Filter(sniperBuys, (b: Trade) => b.maker in makers)
  }

  /** On one token's rows the token page's confirmation by maker is the
      global page's confirmation by (maker, token). */
  lemma SingleTokenConfirmationAgrees(sniperBuys: seq<Trade>, rows: seq<Trade>, token: string)
    requires forall t :: t in sniperBuys ==> t.token == token
    ensures ConfirmedByMaker(sniperBuys, rows) == ConfirmedByPair(sniperBuys, rows)
  {
    var makers := QuickSellMakers(sniperBuys, rows);
    var pairs := QuickSellPairs(sniperBuys, rows);
    forall b | b in sniperBuys ensures (b.maker in makers) == ((b.maker, b.token) in pairs) {
      if b.maker in makers {
        var b', s :| b' in sniperBuys && s in rows && QuickSell(b', s) && b'.maker == b.maker;
        assert (b'.maker, b'.token) in pairs;
      }
    }
    FilterCongruent(sniperBuys, (b: Trade) => b.maker in makers, (b: Trade) => (b.maker, b.token) in pairs);
  }

  lemma {:induction false} FilterCongruent(s: seq<Trade>, p: Trade -> bool, q: Trade -> bool)
    requires forall x :: x in s ==> p(x) == q(x)
    ensures Filter(s, p) == Filter(s, q)
  {
    if s != [] {
      assert forall x :: x in s[1..] ==> x in s;
      FilterCongruent(s[1..], p, q);
    }
  }

  /** Two launch-window buys of one wallet, only the second followed by a
      sell within twenty minutes: the wallet is confirmed and both buys are
      kept (an existence check, not a per-buy one). */
  lemma QuickExitIsExistential(b1: Trade, b2: Trade, s: Trade)
    requires b1.maker == b2.maker == s.maker && b1.token == b2.token == s.token
    requires b1.swap == b2.swap == Buy && s.swap == Sell
    requires b1.time == 0 && b2.time == 100 && s.time == 1250
    ensures !QuickSell(b1, s) && QuickSell(b2, s)
    ensures ConfirmedByPair([b1, b2], [b1, b2, s]) == [b1, b2]
  {
    var r := ConfirmedByPair([b1, b2], [b1, b2, s]);
    assert b2 in [b1, b2] && s in [b1, b2, s];
    assert b1 in r && b2 in r && b1 != b2;
  }

  // ---------------------------------------------------------------------
  // The two pipelines

  /** Rows kept by chunking, gas and launch window on the global page. */
  function LaunchCandidates(rows: seq<Trade>, launch: map<string, int>): seq<Trade> {
    LaunchWindowBuys(HighGas(LargeBuys(ByMakerAndToken, rows)), launch)
  }

  /** `potential_sniper_df` of the global page. */
  function SniperBuys(rows: seq<Trade>, launch: map<string, int>): (r: seq<Trade>)
    ensures forall t :: t in r ==> IsCandidate(rows, launch, t)
  {
    forall t | t in LaunchCandidates(rows, launch) ensures IsCandidate(rows, launch, t) {
      CandidateMembership(rows, launch, t);
    }
    ConfirmedByPair(LaunchCandidates(rows, launch), rows)
  }

  /** The global pipeline. When no group has a large chunk, the frame of
      chunked buys has no columns and selecting `transactionFee` raises
      KeyError: that failure is `None`. A row-wise `apply` on an empty
      frame is taken to return that frame with its columns, as older
      pandas does. */
  method ProcessSniperData(rows: seq<Trade>, launch: map<string, int>) returns (snipers: Option<seq<Trade>>)
    requires SortedByTime(rows)
    ensures snipers.None? <==> LargeBuys(ByMakerAndToken, rows) == []
    ensures snipers.Some? ==> snipers.value == SniperBuys(rows, launch)
  {
    var chunked := ChunkLargeBuys(ByMakerAndToken, rows);
    if chunked == [] {
      return None;
    }
    var highGas := HighGas(chunked);
    var sniperBuys := LaunchWindowBuys(highGas, launch);
    snipers := Some(ConfirmedByPair(sniperBuys, rows));
  }

  /** Every test a row passes to become a launch candidate on the global page. */
  predicate IsCandidate(rows: seq<Trade>, launch: map<string, int>, t: Trade) {
    && t in rows && t.swap == Buy
    && t in Kept(Group(ByMakerAndToken, rows, KeyOf(ByMakerAndToken, t)))
    && t.fee > GasThreshold
    && IsLaunchWindowBuy(launch, t)
  }

  lemma CandidateMembership(rows: seq<Trade>, launch: map<string, int>, t: Trade)
    ensures t in LaunchCandidates(rows, launch) <==> IsCandidate(rows, launch, t)
  {
    LargeBuysMembership(ByMakerAndToken, rows, t);
  }

  /** A row is a sniper buy iff it is a candidate and some candidate of the
      same (maker, token) is followed by a quick sell. */
  lemma SniperBuyCharacterization(rows: seq<Trade>, launch: map<string, int>, t: Trade)
    ensures t in SniperBuys(rows, launch) <==>
      IsCandidate(rows, launch, t) &&
      exists b, s :: IsCandidate(rows, launch, b) && s in rows && b.maker == t.maker && b.token == t.token && QuickSell(b, s)
  {
    forall b { CandidateMembership(rows, launch, b); }
  }

  /** Rows kept by chunking, gas and launch window on the token page. */
  function TokenLaunchCandidates(rows: seq<Trade>, launch: map<string, int>, hasFeeColumn: bool): seq<Trade> {
    LaunchWindowBuys(HighGasIfPresent(LargeBuys(ByMaker, rows), hasFeeColumn), launch)
  }

  /** Every test a row passes to become a launch candidate on the token
      page; the gas test applies only when the rows carry a fee column. */
  predicate IsTokenCandidate(rows: seq<Trade>, launch: map<string, int>, hasFeeColumn: bool, t: Trade) {
    && t in rows && t.swap == Buy
    && t in Kept(Group(ByMaker, rows, KeyOf(ByMaker, t)))
    && (hasFeeColumn ==> t.fee > GasThreshold)
    && IsLaunchWindowBuy(launch, t)
  }

  lemma TokenCandidateMembership(rows: seq<Trade>, launch: map<string, int>, hasFeeColumn: bool, t: Trade)
    ensures t in TokenLaunchCandidates(rows, launch, hasFeeColumn) <==> IsTokenCandidate(rows, launch, hasFeeColumn, t)
  {
    LargeBuysMembership(ByMaker, rows, t);
  }

  /** `potential_sniper_df` of the token page. */
  function TokenSniperBuys(rows: seq<Trade>, launch: map<string, int>, hasFeeColumn: bool): (r: seq<Trade>)
    ensures forall t :: t in r ==> IsTokenCandidate(rows, launch, hasFeeColumn, t)
  {
    forall t | t in TokenLaunchCandidates(rows, launch, hasFeeColumn)
      ensures IsTokenCandidate(rows, launch, hasFeeColumn, t)
    {
      TokenCandidateMembership(rows, launch, hasFeeColumn, t);
    }
    ConfirmedByMaker(TokenLaunchCandidates(rows, launch, hasFeeColumn), rows)
  }

  /** The token page pipeline. `hasFeeColumn` says whether the swap rows
      carry `transactionFee`. When no group has a large chunk, the empty
      frame of chunked buys fails the column test (a warning), and
      selecting its `maker` column for the merge raises KeyError: that
      failure is `None`. A row-wise `apply` on an empty frame is taken to
      return that frame with its columns, as older pandas does. */
  method ProcessTokenSniperData(rows: seq<Trade>, launch: map<string, int>, hasFeeColumn: bool)
    returns (snipers: Option<seq<Trade>>)
    requires SortedByTime(rows)
    ensures snipers.None? <==> LargeBuys(ByMaker, rows) == []
    ensures snipers.Some? ==> snipers.value == TokenSniperBuys(rows, launch, hasFeeColumn)
  {
    var chunked := ChunkLargeBuys(ByMaker, rows);
    if chunked == [] {
      return None;
    }
    var highGas := HighGasIfPresent(chunked, hasFeeColumn);
    var sniperBuys := LaunchWindowBuys(highGas, launch);
    snipers := Some(ConfirmedByMaker(sniperBuys, rows));
  }

  /** A single buy of at most 100000 tokens forms no large chunk, so both
      pipelines fail on it. */
  lemma SingleSmallBuyFails(grouping: Grouping, t: Trade)
    requires t.swap == Buy && t.outBeforeTax <= LargeBuy
    ensures LargeBuys(grouping, [t]) == []
  {
    var k := KeyOf(grouping, t);
    SingleBuyGroup(grouping, t);
    SingleSmallChunkDropped(t);
    assert [k][..0] == [];
    assert KeptOver(grouping, [t], [k]) == KeptOver(grouping, [t], []) + Kept(Group(grouping, [t], k));
  }

  /** A single buy forms one group holding just that buy. */
  lemma SingleBuyGroup(grouping: Grouping, t: Trade)
    requires t.swap == Buy
    ensures BuyKeys(grouping, [t]) == [KeyOf(grouping, t)]
    ensures Group(grouping, [t], KeyOf(grouping, t)) == [t]
  {
    var k := KeyOf(grouping, t);
    assert [t][..0] == [];
    assert [t][1..] == [];
    assert Filter([t][1..], (u: Trade) => u.swap == Buy && KeyOf(grouping, u) == k) == [];
  }

  /** A lone buy at or below the threshold is not a large chunk. */
  lemma SingleSmallChunkDropped(t: Trade)
    requires t.outBeforeTax <= LargeBuy
    ensures Kept([t]) == []
  {
    assert [t][1..] == [];
    assert Close([t], t.time, []) == [[t]];
    assert Chunks([t]) == [[t]];
    assert [t][..0] == [];
    assert BeforeTaxSum([t]) == t.outBeforeTax;
    assert [[t]][1..] == [];
    assert LargeOnly([[t]]) == [];
  }

  /** Without a fee column no chunked buy is dropped for gas. */
  lemma MissingFeeColumnDropsNothing(rows: seq<Trade>, launch: map<string, int>, t: Trade)
    ensures t in TokenLaunchCandidates(rows, launch, false) <==>
      t in rows && t.swap == Buy && t in Kept(Group(ByMaker, rows, KeyOf(ByMaker, t))) && IsLaunchWindowBuy(launch, t)
  {
    LargeBuysMembership(ByMaker, rows, t);
  }
}
