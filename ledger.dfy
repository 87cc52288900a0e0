/** The FIFO cost-basis ledger behind the "Net PnL", "Remaining Tokens" and
    "Unrealized PnL" columns: one lot-queue engine shared by the three PnL
    tables of the dashboard, which differ only in which rows they admit, in
    what a lot's basis is, and in how a match is valued. */
module Ledger {
  import opened Trades

  /** An open buy lot: tokens still held, the basis paid for them, and the
      price of the buy. The basis is tokens before tax on the global page and
      in `calculate_pnl_all`, and dollars in the token page's `calculate_pnl`. */
  datatype Lot = Lot(amount: real, cost: real, price: real)

  /** A sell as the matching loop sees it: tokens that reached the pool,
      tokens that left the wallet (the quantity to match), and the price. */
  datatype Sale = Sale(net: real, fromWallet: real, price: real)

  /** One entry of a pair's trade list. */
  datatype Entry = Bought(lot: Lot) | Sold(sale: Sale)

  /** GlobalSnipers: `calculate_pnl` of the global page;
      TokenSnipers: `calculate_pnl` of the token page;
      TokenAll: `calculate_pnl_all` of the token page. */
  datatype Variant = GlobalSnipers | TokenSnipers | TokenAll

  /** The entry a row contributes to a ledger, if any. The global page skips
      rows without a positive price, buys without a positive before-tax
      amount and sells without a positive after-tax amount; the token page
      admits every buy and sell. */
  function EntryOf(v: Variant, t: Trade): (r: Option<Entry>)
    ensures r.Some? ==> t.swap != Other && (r.value.Bought? <==> t.swap == Buy)
    ensures v != GlobalSnipers ==> (r.Some? <==> (t.swap == Buy || t.swap == Sell))
    ensures v == GlobalSnipers ==> (r.Some? <==>
      (t.price > 0.0 && ((t.swap == Buy && t.outBeforeTax > 0.0) || (t.swap == Sell && t.inAfterTax > 0.0))))
    ensures r.Some? && r.value.Bought? ==>
      && r.value.lot.amount == t.outAfterTax && r.value.lot.price == t.price
      && LotValue(v, r.value.lot) == (if v == TokenSnipers then t.outAfterTax else t.outBeforeTax) * t.price
    ensures r.Some? && r.value.Sold? ==> r.value.sale == Sale(t.inAfterTax, t.inBeforeTax, t.price)
  {
    match v
    case GlobalSnipers =>
      if t.price <= 0.0 then None
      else if t.swap == Buy then
        if t.outBeforeTax <= 0.0 then None
        else Some(Bought(Lot(t.outAfterTax, t.outBeforeTax, t.price)))
      else if t.swap == Sell then
        if t.inAfterTax <= 0.0 then None
        else Some(Sold(Sale(t.inAfterTax, t.inBeforeTax, t.price)))
      else None
    case TokenSnipers =>
      if t.swap == Buy then Some(Bought(Lot(t.outAfterTax, Dollars(t.outAfterTax, t.price), t.price)))
      else if t.swap == Sell then Some(Sold(Sale(t.inAfterTax, t.inBeforeTax, t.price)))
      else None
    case TokenAll =>
      if t.swap == Buy then Some(Bought(Lot(t.outAfterTax, t.outBeforeTax, t.price)))
      else if t.swap == Sell then Some(Sold(Sale(t.inAfterTax, t.inBeforeTax, t.price)))
      else None
  }

  /** Tokens times their price. */
  function Dollars(amount: real, price: real): real {
    amount * price
  }

  /** The trade list of a pair: the entries of its rows, in row order. */
  function Entries(v: Variant, rows: seq<Trade>): (es: seq<Entry>)
    ensures |es| <= |rows|
  {
    if rows == [] then []
    else
      var init := rows[..|rows| - 1];
      var t := rows[|rows| - 1];
      assert rows == init + [t];
      match EntryOf(v, t)
      case None => Entries(v, init)
      case Some(e) => Entries(v, init) + [e]
  }

  /** The code divides by a lot's amount: a buy that enters the queue must
      have received a positive amount of tokens. */
  predicate Positive(e: Entry) {
    e.Bought? ==> e.lot.amount > 0.0
  }

  predicate ValidEntries(es: seq<Entry>) {
    forall i :: 0 <= i < |es| ==> Positive(es[i])
  }

  predicate ValidLots(lots: seq<Lot>) {
    forall i :: 0 <= i < |lots| ==> lots[i].amount > 0.0
  }

  /** Every buy a ledger admits from `rows` has received tokens. */
  predicate ReceivesTokens(v: Variant, rows: seq<Trade>) {
    forall t :: t in rows && EntryOf(v, t).Some? ==> Positive(EntryOf(v, t).value)
  }

  /** Every entry comes from a row, and every row the ledger admits gives one. */
  lemma {:induction false} EntriesMembership(v: Variant, rows: seq<Trade>)
    ensures forall e :: e in Entries(v, rows) <==> exists t :: t in rows && EntryOf(v, t) == Some(e)
  {
    if rows != [] {
      var init := rows[..|rows| - 1];
      var t := rows[|rows| - 1];
      assert rows == init + [t];
      EntriesMembership(v, init);
      EntriesAppend(v, init, t);
    }
  }

  lemma ReceivingRowsGiveValidEntries(v: Variant, rows: seq<Trade>)
    requires ReceivesTokens(v, rows)
    ensures ValidEntries(Entries(v, rows))
  {
    var es := Entries(v, rows);
    EntriesMembership(v, rows);
    forall i | 0 <= i < |es| ensures Positive(es[i]) {
      assert es[i] in es;
    }
  }

  /** `sum(b['amount'] for b in buy_queue)`: tokens still held. */
  function Inventory(lots: seq<Lot>): (r: real)
    ensures ValidLots(lots) ==> r >= 0.0
    ensures ValidLots(lots) && lots != [] ==> r >= lots[0].amount
  {
    if lots == [] then 0.0 else lots[0].amount + Inventory(lots[1..])
  }

  lemma {:induction false} InventoryAppend(lots: seq<Lot>, l: Lot)
    ensures Inventory(lots + [l]) == Inventory(lots) + l.amount
  {
    if lots == [] {
      assert lots + [l] == [l];
    } else {
      assert (lots + [l])[1..] == lots[1..] + [l];
      InventoryAppend(lots[1..], l);
    }
  }

  /** Python's `min(a, b)`. */
  function Min(a: real, b: real): (r: real)
    ensures r <= a && r <= b && (r == a || r == b)
  {
    if b < a then b else a
  }

  /** The part of a lot's basis that `m` of its tokens carry. */
  function BasisShare(l: Lot, m: real): real
    requires l.amount > 0.0
  {
    l.cost * (m / l.amount)
  }

  /** What stays in the queue of lot `l` after `m` of its tokens are
      matched: the basis is scaled by the fraction left, so the basis per
      token is unchanged and the two parts add up to the original basis. */
  function Leftover(l: Lot, m: real): (r: Lot)
    requires l.amount > 0.0
    ensures r.amount == l.amount - m && r.price == l.price
    ensures r.cost * l.amount == l.cost * r.amount
    ensures BasisShare(l, m) + r.cost == l.cost
  {
    var r := Lot(l.amount - m, l.cost * ((l.amount - m) / l.amount), l.price);
    assert m / l.amount + (l.amount - m) / l.amount == 1.0;
    r
  }

  /** Dollars received for `m` matched tokens of sale `s`. */
  function Proceeds(v: Variant, s: Sale, m: real): (r: real)
    requires s.fromWallet > 0.0
    ensures m == 0.0 ==> r == 0.0
    ensures m == s.fromWallet ==> r == (if v == TokenSnipers then s.fromWallet else s.net) * s.price
  {
    assert 0.0 / s.fromWallet == 0.0 && s.fromWallet / s.fromWallet == 1.0;
    if v == TokenSnipers then m * s.price
    else s.net * s.price * (m / s.fromWallet)
  }

  /** Dollars paid for `m` matched tokens of lot `l`. */
  function MatchedCost(v: Variant, l: Lot, m: real): (r: real)
    requires l.amount > 0.0
    ensures m == 0.0 ==> r == 0.0
    ensures m == l.amount ==> r == LotValue(v, l)
  {
    assert 0.0 / l.amount == 0.0 && l.amount / l.amount == 1.0;
    if v == TokenSnipers then BasisShare(l, m)
    else BasisShare(l, m) * l.price
  }

  /** Realized PnL of one match. */
  function Gain(v: Variant, s: Sale, l: Lot, m: real): (r: real)
    requires l.amount > 0.0 && s.fromWallet > 0.0
    ensures m == 0.0 ==> r == 0.0
    ensures m == l.amount && m == s.fromWallet ==>
      r == (if v == TokenSnipers then s.fromWallet else s.net) * s.price - LotValue(v, l)
  {
    Proceeds(v, s, m) - MatchedCost(v, l, m)
  }

  /** The outcome of matching one sell: the queue afterwards, the realized
      PnL of the matches, and the tokens matched. */
  datatype Settlement = Settlement(lots: seq<Lot>, gain: real, matched: real)

  /** The matching loop of one sell: while tokens remain to match and the
      queue is not empty, take the oldest lot, match as much of it as
      possible, and put a partly consumed lot back at the front. */
  function Settle(v: Variant, s: Sale, lots: seq<Lot>, toMatch: real): (r: Settlement)
    requires ValidLots(lots)
    requires toMatch > 0.0 ==> s.fromWallet > 0.0
    ensures ValidLots(r.lots)
    decreases |lots|, if toMatch > 0.0 then 1 else 0
  {
    if toMatch <= 0.0 || lots == [] then Settlement(lots, 0.0, 0.0)
    else
      var l := lots[0];
      var m := Min(toMatch, l.amount);
      var rest := if l.amount - m > 0.0 then [Leftover(l, m)] + lots[1..] else lots[1..];
      var r := Settle(v, s, rest, toMatch - m);
      Settlement(r.lots, Gain(v, s, l, m) + r.gain, m + r.matched)
  }

  /** Inventory is conserved by a sell: the tokens matched are the smaller
      of the quantity to match and the inventory, and exactly that much
      leaves the queue. Overselling is dropped, so nothing goes negative. */
  lemma {:induction false} SettleConserves(v: Variant, s: Sale, lots: seq<Lot>, toMatch: real)
    requires ValidLots(lots)
    requires toMatch > 0.0 ==> s.fromWallet > 0.0
    ensures var r := Settle(v, s, lots, toMatch);
      && (toMatch > 0.0 ==> r.matched == Min(toMatch, Inventory(lots)))
      && (toMatch <= 0.0 ==> r == Settlement(lots, 0.0, 0.0))
      && Inventory(r.lots) == Inventory(lots) - r.matched
      && r.matched >= 0.0
    decreases |lots|, if toMatch > 0.0 then 1 else 0
  {
    if toMatch > 0.0 && lots != [] {
      var m, rest := SettleStep(v, s, lots, toMatch);
      SettleConserves(v, s, rest, toMatch - m);
    }
  }

  /** One round of the matching loop, as far as tokens are concerned. */
  lemma SettleStep(v: Variant, s: Sale, lots: seq<Lot>, toMatch: real) returns (m: real, rest: seq<Lot>)
    requires ValidLots(lots) && lots != [] && toMatch > 0.0 && s.fromWallet > 0.0
    ensures m == Min(toMatch, lots[0].amount) && m <= Inventory(lots)
    ensures ValidLots(rest) && Inventory(rest) == Inventory(lots) - m
    ensures |rest| <= |lots| && (m == toMatch || |rest| < |lots|)
    ensures Settle(v, s, lots, toMatch).lots == Settle(v, s, rest, toMatch - m).lots
    ensures Settle(v, s, lots, toMatch).matched == m + Settle(v, s, rest, toMatch - m).matched
  {
    var l := lots[0];
    m := Min(toMatch, l.amount);
    rest := if l.amount - m > 0.0 then [Leftover(l, m)] + lots[1..] else lots[1..];
    assert Inventory(lots) == l.amount + Inventory(lots[1..]);
    if l.amount - m > 0.0 {
      assert rest[1..] == lots[1..];
    }
  }

  /** What an open lot stands for in realized PnL: its basis, valued at the
      buy price except on the token page's sniper ledger, whose basis is
      already in dollars. */
  function LotValue(v: Variant, l: Lot): real {
    if v == TokenSnipers then l.cost else l.cost * l.price
  }

  /** The value of the open lots. */
  function Valued(v: Variant, lots: seq<Lot>): real {
    if lots == [] then 0.0 else LotValue(v, lots[0]) + Valued(v, lots[1..])
  }

  /** The realized PnL of a sell is the proceeds of the tokens it matched
      minus the value that left the queue: value is neither created nor
      lost by splitting lots. */
  lemma {:induction false} SettleGain(v: Variant, s: Sale, lots: seq<Lot>, toMatch: real)
    requires ValidLots(lots) && toMatch > 0.0 && s.fromWallet > 0.0
    ensures var r := Settle(v, s, lots, toMatch);
      r.gain == Proceeds(v, s, r.matched) - (Valued(v, lots) - Valued(v, r.lots))
    decreases |lots|
  {
    if lots == [] {
      ProceedsOfNothing(v, s);
    } else if toMatch > lots[0].amount {
      var l := lots[0];
      var r' := Settle(v, s, lots[1..], toMatch - l.amount);
      SettleWholeLot(v, s, lots, toMatch);
      SettleGain(v, s, lots[1..], toMatch - l.amount);
      MatchedCostWhole(v, l);
      ProceedsAdditive(v, s, l.amount, r'.matched);
    } else {
      SettleLastLot(v, s, lots, toMatch);
    }
  }

  /** A sell larger than the front lot takes all of it and goes on. */
  lemma SettleWholeLot(v: Variant, s: Sale, lots: seq<Lot>, toMatch: real)
    requires ValidLots(lots) && lots != [] && toMatch > lots[0].amount && s.fromWallet > 0.0
    ensures var l, r' := lots[0], Settle(v, s, lots[1..], toMatch - lots[0].amount);
      && Settle(v, s, lots, toMatch) == Settlement(r'.lots, Gain(v, s, l, l.amount) + r'.gain, l.amount + r'.matched)
      && Valued(v, lots) == LotValue(v, l) + Valued(v, lots[1..])
  {
  }

  /** The front lot covers what is left to match: this is the last match,
      and its gain is its proceeds less the value that left the queue. */
  lemma SettleLastLot(v: Variant, s: Sale, lots: seq<Lot>, toMatch: real)
    requires ValidLots(lots) && lots != [] && 0.0 < toMatch <= lots[0].amount && s.fromWallet > 0.0
    ensures var r := Settle(v, s, lots, toMatch);
      r.gain == Proceeds(v, s, r.matched) - (Valued(v, lots) - Valued(v, r.lots))
  {
    var l := lots[0];
    var rest := if l.amount - toMatch > 0.0 then [Leftover(l, toMatch)] + lots[1..] else lots[1..];
    assert Settle(v, s, rest, 0.0) == Settlement(rest, 0.0, 0.0);
    assert Settle(v, s, lots, toMatch) == Settlement(rest, Gain(v, s, l, toMatch), toMatch);
    assert Valued(v, lots) == LotValue(v, l) + Valued(v, lots[1..]);
    if l.amount - toMatch > 0.0 {
      assert rest[1..] == lots[1..];
      assert Valued(v, rest) == LotValue(v, Leftover(l, toMatch)) + Valued(v, lots[1..]);
      MatchedCostPartial(v, l, toMatch);
    } else {
      MatchedCostWhole(v, l);
    }
  }

  lemma ProceedsOfNothing(v: Variant, s: Sale)
    requires s.fromWallet > 0.0
    ensures Proceeds(v, s, 0.0) == 0.0
  {
    assert 0.0 / s.fromWallet == 0.0;
  }

  /** Proceeds are proportional to the tokens matched. */
  lemma ProceedsAdditive(v: Variant, s: Sale, a: real, b: real)
    requires s.fromWallet > 0.0
    ensures Proceeds(v, s, a) + Proceeds(v, s, b) == Proceeds(v, s, a + b)
  {
    if v == TokenSnipers {
      assert a * s.price + b * s.price == (a + b) * s.price;
    } else {
      var f, k := s.fromWallet, s.net * s.price;
      assert a / f + b / f == (a + b) / f;
      assert k * (a / f) + k * (b / f) == k * (a / f + b / f);
    }
  }

  /** A lot consumed whole costs its full value. */
  lemma MatchedCostWhole(v: Variant, l: Lot)
    requires l.amount > 0.0
    ensures MatchedCost(v, l, l.amount) == LotValue(v, l)
  {
    assert l.amount / l.amount == 1.0;
  }

  /** A lot consumed in part costs its value less the leftover's. */
  lemma MatchedCostPartial(v: Variant, l: Lot, m: real)
    requires l.amount > 0.0
    ensures MatchedCost(v, l, m) + LotValue(v, Leftover(l, m)) == LotValue(v, l)
  {
    var r := Leftover(l, m);
    if v != TokenSnipers {
      assert BasisShare(l, m) * l.price + r.cost * l.price == (BasisShare(l, m) + r.cost) * l.price;
    }
  }

  /** A sell against an empty queue changes nothing. */
  lemma SettleEmptyQueue(v: Variant, s: Sale, toMatch: real)
    requires toMatch > 0.0 ==> s.fromWallet > 0.0
    ensures Settle(v, s, [], toMatch) == Settlement([], 0.0, 0.0)
  {
  }

  /** `part` is what is left of `whole` after a partial fill. */
  predicate PartOf(part: Lot, whole: Lot) {
    && part.price == whole.price
    && 0.0 < part.amount < whole.amount
    && part.cost * whole.amount == whole.cost * part.amount
  }

  /** FIFO shape of a sell: the first `k` lots are consumed whole, at most
      the next one is consumed in part and stays at the front with its basis
      per token unchanged, and every lot behind it is untouched. */
  predicate FifoRemainder(before: seq<Lot>, after: seq<Lot>, k: nat) {
    && k <= |before|
    && (|| after == before[k..]
        || (k < |before| && after != [] && after[1..] == before[k + 1..] && PartOf(after[0], before[k])))
  }

  lemma {:induction false} SettleIsFifo(v: Variant, s: Sale, lots: seq<Lot>, toMatch: real) returns (k: nat)
    requires ValidLots(lots)
    requires toMatch > 0.0 ==> s.fromWallet > 0.0
    ensures FifoRemainder(lots, Settle(v, s, lots, toMatch).lots, k)
    decreases |lots|, if toMatch > 0.0 then 1 else 0
  {
    if toMatch <= 0.0 || lots == [] {
      k := 0;
      assert lots[0..] == lots;
    } else if lots[0].amount > toMatch {
      PartialFillIsFifo(v, s, lots, toMatch);
      k := 0;
    } else {
      WholeLotConsumed(v, s, lots, toMatch);
      var k' := SettleIsFifo(v, s, lots[1..], toMatch - lots[0].amount);
      FifoShift(lots, Settle(v, s, lots, toMatch).lots, k');
      k := k' + 1;
    }
  }

  /** A sell smaller than the front lot leaves what is left of that lot at
      the front and the rest of the queue as it was. */
  lemma PartialFillIsFifo(v: Variant, s: Sale, lots: seq<Lot>, toMatch: real)
    requires ValidLots(lots) && lots != [] && s.fromWallet > 0.0
    requires 0.0 < toMatch < lots[0].amount
    ensures FifoRemainder(lots, Settle(v, s, lots, toMatch).lots, 0)
  {
    var rest := [Leftover(lots[0], toMatch)] + lots[1..];
    assert Settle(v, s, lots, toMatch).lots == Settle(v, s, rest, 0.0).lots;
    assert rest[1..] == lots[1..];
  }

  /** A sell at least as large as the front lot consumes it whole. */
  lemma WholeLotConsumed(v: Variant, s: Sale, lots: seq<Lot>, toMatch: real)
    requires ValidLots(lots) && lots != [] && s.fromWallet > 0.0
    requires toMatch >= lots[0].amount
    ensures ValidLots(lots[1..])
    ensures Settle(v, s, lots, toMatch).lots == Settle(v, s, lots[1..], toMatch - lots[0].amount).lots
  {
  }

  lemma FifoShift(lots: seq<Lot>, after: seq<Lot>, k: nat)
    requires lots != [] && FifoRemainder(lots[1..], after, k)
    ensures FifoRemainder(lots, after, k + 1)
  {
    assert lots[1..][k..] == lots[k + 1..];
    if k < |lots[1..]| {
      assert lots[1..][k] == lots[k + 1];
      assert lots[1..][k + 1..] == lots[k + 2..];
    }
  }

  /** The worked example of the global page: lots of 10 tokens (10 paid)
      at $10 and at $30, then a sell of 15 tokens from the wallet and 15 net
      at $20: realized PnL is 200 - 100 + 100 - 150 = 50, and one lot of 5
      tokens with 5 paid at $30 remains. */
  lemma WorkedExample()
    ensures Settle(GlobalSnipers, Sale(15.0, 15.0, 20.0), [Lot(10.0, 10.0, 10.0), Lot(10.0, 10.0, 30.0)], 15.0)
         == Settlement([Lot(5.0, 5.0, 30.0)], 50.0, 15.0)
  {
    var s := Sale(15.0, 15.0, 20.0);
    var a := Lot(10.0, 10.0, 10.0);
    var b := Lot(10.0, 10.0, 30.0);
    assert [a, b][1..] == [b];
    assert Gain(GlobalSnipers, s, a, 10.0) == 100.0;
    assert Leftover(b, 5.0) == Lot(5.0, 5.0, 30.0);
    assert [Lot(5.0, 5.0, 30.0)] + [b][1..] == [Lot(5.0, 5.0, 30.0)];
    assert Settle(GlobalSnipers, s, [Lot(5.0, 5.0, 30.0)], 0.0) == Settlement([Lot(5.0, 5.0, 30.0)], 0.0, 0.0);
    assert Gain(GlobalSnipers, s, b, 5.0) == -50.0;
    assert Settle(GlobalSnipers, s, [b], 5.0) == Settlement([Lot(5.0, 5.0, 30.0)], -50.0, 5.0);
  }

  /** Selling more than is held: 25 tokens against 20 match 20, empty the
      queue, and the excess is dropped. */
  lemma OversellExample()
    ensures var r := Settle(TokenAll, Sale(25.0, 25.0, 1.0), [Lot(10.0, 10.0, 1.0), Lot(10.0, 10.0, 1.0)], 25.0);
      r.lots == [] && r.matched == 20.0
  {
    var s := Sale(25.0, 25.0, 1.0);
    var a := Lot(10.0, 10.0, 1.0);
    assert [a, a][1..] == [a];
    assert [a][1..] == [];
    var empty := Settle(TokenAll, s, [], 5.0);
    assert empty == Settlement([], 0.0, 0.0);
    var one := Settle(TokenAll, s, [a], 15.0);
    assert Min(15.0, a.amount) == 10.0;
    assert one.lots == empty.lots && one.matched == 10.0 + empty.matched;
    assert Min(25.0, a.amount) == 10.0;
  }

  // ---------------------------------------------------------------------
  // Replaying a pair's trade list

  /** The ledger state: open lots and realized PnL so far. */
  datatype Book = Book(lots: seq<Lot>, realized: real)

  /** One entry: a buy is appended at the back, a sell is matched with
      the quantity that left the wallet. */
  function Step(v: Variant, b: Book, e: Entry): (r: Book)
    requires ValidLots(b.lots) && Positive(e)
    ensures ValidLots(r.lots)
  {
    match e
    case Bought(l) => Book(b.lots + [l], b.realized)
    case Sold(s) =>
      var st := Settle(v, s, b.lots, s.fromWallet);
      Book(st.lots, b.realized + st.gain)
  }

  /** The ledger after every entry of `es`, in order, starting empty. */
  function Replay(v: Variant, es: seq<Entry>): (r: Book)
    requires ValidEntries(es)
    ensures ValidLots(r.lots)
  {
    if es == [] then Book([], 0.0)
    else Step(v, Replay(v, es[..|es| - 1]), es[|es| - 1])
  }

  lemma ReplayAppend(v: Variant, es: seq<Entry>, e: Entry)
    requires ValidEntries(es) && Positive(e)
    ensures ValidEntries(es + [e])
    ensures Replay(v, es + [e]) == Step(v, Replay(v, es), e)
  {
    assert (es + [e])[..|es|] == es;
  }

  /** Realized PnL is proceeds less the value of what was sold: one entry
      moves realized PnL minus the value of the open lots down by a buy's
      lot value, up by the proceeds of the tokens a sell matched, and in no
      other way. */
  lemma StepValue(v: Variant, b: Book, e: Entry)
    requires ValidLots(b.lots) && Positive(e)
    ensures e.Bought? ==>
      Step(v, b, e).realized - Valued(v, Step(v, b, e).lots) == b.realized - Valued(v, b.lots) - LotValue(v, e.lot)
    ensures e.Sold? && e.sale.fromWallet > 0.0 ==>
      Step(v, b, e).realized - Valued(v, Step(v, b, e).lots)
      == b.realized - Valued(v, b.lots) + Proceeds(v, e.sale, Settle(v, e.sale, b.lots, e.sale.fromWallet).matched)
  {
    match e
    case Bought(l) => ValuedAppend(v, b.lots, l);
    case Sold(s) =>
      if s.fromWallet > 0.0 {
        SettleGain(v, s, b.lots, s.fromWallet);
      }
  }

  lemma {:induction false} ValuedAppend(v: Variant, lots: seq<Lot>, l: Lot)
    ensures Valued(v, lots + [l]) == Valued(v, lots) + LotValue(v, l)
  {
    if lots == [] {
      assert lots + [l] == [l];
    } else {
      assert (lots + [l])[1..] == lots[1..] + [l];
      ValuedAppend(v, lots[1..], l);
    }
  }

  /** The proceeds of every sell of a replay, each sell valued at the
      tokens it matched against the queue it found. */
  function SoldProceeds(v: Variant, es: seq<Entry>): real
    requires ValidEntries(es)
  {
    if es == [] then 0.0
    else
      var init, e := es[..|es| - 1], es[|es| - 1];
      SoldProceeds(v, init) +
        (if e.Sold? && e.sale.fromWallet > 0.0
         then Proceeds(v, e.sale, Settle(v, e.sale, Replay(v, init).lots, e.sale.fromWallet).matched)
         else 0.0)
  }

  /** Over a whole replay, realized PnL is the proceeds of all sells less
      the value of all bought lots plus the value of the lots still open. */
  lemma {:induction false} ReplayValue(v: Variant, es: seq<Entry>)
    requires ValidEntries(es)
    ensures Replay(v, es).realized
      == SoldProceeds(v, es) - Valued(v, BoughtLots(es)) + Valued(v, Replay(v, es).lots)
  {
    if es != [] {
      var init, e := es[..|es| - 1], es[|es| - 1];
      assert ValidEntries(init);
      ReplayValue(v, init);
      StepValue(v, Replay(v, init), e);
      if e.Bought? {
        ValuedAppend(v, BoughtLots(init), e.lot);
      } else if e.sale.fromWallet <= 0.0 {
        StepInventory(v, Replay(v, init), e);
      }
    }
  }

  /** How one entry moves the inventory: a buy adds its tokens; a sell
      removes the smaller of its wallet quantity and the inventory, and a
      sell of nothing removes nothing. */
  lemma StepInventory(v: Variant, b: Book, e: Entry)
    requires ValidLots(b.lots) && Positive(e)
    ensures e.Bought? ==> Inventory(Step(v, b, e).lots) == Inventory(b.lots) + e.lot.amount
    ensures e.Sold? && e.sale.fromWallet > 0.0 ==>
      Inventory(Step(v, b, e).lots) == Inventory(b.lots) - Min(e.sale.fromWallet, Inventory(b.lots))
    ensures e.Sold? && e.sale.fromWallet <= 0.0 ==> Step(v, b, e) == b
    ensures e.Sold? && b.lots == [] ==> Step(v, b, e) == b
  {
    match e
    case Bought(l) => InventoryAppend(b.lots, l);
    case Sold(s) => SettleConserves(v, s, b.lots, s.fromWallet);
  }

  /** The lots of the buy entries, in order. */
  function BoughtLots(es: seq<Entry>): (r: seq<Lot>)
    ensures |r| <= |es|
  {
    if es == [] then []
    else if es[|es| - 1].Bought? then BoughtLots(es[..|es| - 1]) + [es[|es| - 1].lot]
    else BoughtLots(es[..|es| - 1])
  }

  /** With only buys, the queue holds every bought lot in order, nothing is
      realized, and the remaining tokens are the sum of the amounts received. */
  lemma {:induction false} BuysOnly(v: Variant, es: seq<Entry>)
    requires ValidEntries(es)
    requires forall i :: 0 <= i < |es| ==> es[i].Bought?
    ensures Replay(v, es) == Book(BoughtLots(es), 0.0)
  {
    if es != [] {
      BuysOnly(v, es[..|es| - 1]);
    }
  }

  /** A lot descends from a bought lot if it is that lot or a part of it. */
  predicate DescendsFrom(l: Lot, origin: Lot) {
    l == origin || PartOf(l, origin)
  }

  lemma PartOfTransitive(a: Lot, b: Lot, c: Lot)
    requires PartOf(a, b) && PartOf(b, c)
    ensures PartOf(a, c)
  {
    assert a.cost * b.amount * c.amount == b.cost * a.amount * c.amount;
    assert b.cost * c.amount * a.amount == c.cost * b.amount * a.amount;
    assert a.cost * c.amount * b.amount == c.cost * a.amount * b.amount;
  }

  /** Every open lot after a replay is a bought lot or what is left of one:
      same price, no more tokens, and the basis per token of the buy. */
  lemma {:induction false} LotsDescendFromBuys(v: Variant, es: seq<Entry>)
    requires ValidEntries(es)
    ensures forall l :: l in Replay(v, es).lots ==>
      exists i :: 0 <= i < |es| && es[i].Bought? && DescendsFrom(l, es[i].lot)
  {
    if es != [] {
      var init := es[..|es| - 1];
      var e := es[|es| - 1];
      var before := Replay(v, init).lots;
      LotsDescendFromBuys(v, init);
      forall l | l in before
        ensures exists i :: 0 <= i < |es| && es[i].Bought? && DescendsFrom(l, es[i].lot)
      {
        var i :| 0 <= i < |init| && init[i].Bought? && DescendsFrom(l, init[i].lot);
        assert es[i] == init[i];
      }
      match e {
      case Bought(lot) =>
        assert Replay(v, es).lots == before + [lot];
        assert es[|es| - 1].Bought? && DescendsFrom(lot, es[|es| - 1].lot);
      case Sold(s) =>
        assert Replay(v, es).lots == Settle(v, s, before, s.fromWallet).lots;
        var k := SettleIsFifo(v, s, before, s.fromWallet);
        SettledLotsDescend(before, Replay(v, es).lots, k, es);
      }
    }
  }

  /** Whatever is left after a FIFO settlement descends from a lot that was
      in the queue before it. */
  lemma SettledLotsDescend(before: seq<Lot>, after: seq<Lot>, k: nat, es: seq<Entry>)
    requires FifoRemainder(before, after, k)
    requires forall l :: l in before ==>
      exists i :: 0 <= i < |es| && es[i].Bought? && DescendsFrom(l, es[i].lot)
    ensures forall l :: l in after ==>
      exists i :: 0 <= i < |es| && es[i].Bought? && DescendsFrom(l, es[i].lot)
  {
    forall l | l in after
      ensures exists i :: 0 <= i < |es| && es[i].Bought? && DescendsFrom(l, es[i].lot)
    {
      if after == before[k..] {
        assert l in before;
      } else if l == after[0] {
        assert before[k] in before;
        var i :| 0 <= i < |es| && es[i].Bought? && DescendsFrom(before[k], es[i].lot);
        if before[k] != es[i].lot {
          PartOfTransitive(l, before[k], es[i].lot);
        }
      } else {
        var j :| 0 <= j < |after| && after[j] == l;
        assert l in after[1..] by { assert after[1..][j - 1] == l; }
        assert l in before;
      }
    }
  }

  /** The global page and `calculate_pnl_all` value a match the same way. */
  lemma {:induction false} SettleSameValuation(s: Sale, lots: seq<Lot>, toMatch: real)
    requires ValidLots(lots)
    requires toMatch > 0.0 ==> s.fromWallet > 0.0
    ensures Settle(GlobalSnipers, s, lots, toMatch) == Settle(TokenAll, s, lots, toMatch)
    decreases |lots|, if toMatch > 0.0 then 1 else 0
  {
    if toMatch > 0.0 && lots != [] {
      var l := lots[0];
      var m := Min(toMatch, l.amount);
      var rest := if l.amount - m > 0.0 then [Leftover(l, m)] + lots[1..] else lots[1..];
      SettleSameValuation(s, rest, toMatch - m);
    }
  }

  lemma {:induction false} ReplaySameValuation(es: seq<Entry>)
    requires ValidEntries(es)
    ensures Replay(GlobalSnipers, es) == Replay(TokenAll, es)
  {
    if es != [] {
      ReplaySameValuation(es[..|es| - 1]);
      var e := es[|es| - 1];
      if e.Sold? {
        SettleSameValuation(e.sale, Replay(TokenAll, es[..|es| - 1]).lots, e.sale.fromWallet);
      }
    }
  }

  /** The rows the global page admits to its ledger. */
  predicate Admitted(t: Trade) {
    && t.price > 0.0
    && (t.swap == Buy ==> t.outBeforeTax > 0.0)
    && (t.swap == Sell ==> t.inAfterTax > 0.0)
  }

  /** The global page's trade list is `calculate_pnl_all`'s trade list of
      the admitted rows. */
  lemma {:induction false} GlobalEntriesAreAdmittedEntries(rows: seq<Trade>)
    ensures Entries(GlobalSnipers, rows) == Entries(TokenAll, Filter(rows, Admitted))
  {
    if rows != [] {
      var init := rows[..|rows| - 1];
      var t := rows[|rows| - 1];
      assert rows == init + [t];
      var kept := Filter(init, Admitted);
      GlobalEntriesAreAdmittedEntries(init);
      FilterAppend(init, t, Admitted);
      AdmittedEntry(t);
      EntriesAppend(GlobalSnipers, init, t);
      if Admitted(t) {
        EntriesAppend(TokenAll, kept, t);
        assert Filter(rows, Admitted) == kept + [t];
      } else {
        assert Filter(rows, Admitted) == kept;
        assert Entries(GlobalSnipers, rows) == Entries(GlobalSnipers, init);
      }
    }
  }

  lemma AdmittedEntry(t: Trade)
    ensures EntryOf(GlobalSnipers, t) == if Admitted(t) then EntryOf(TokenAll, t) else None
  {
  }

  lemma EntriesAppend(v: Variant, rows: seq<Trade>, t: Trade)
    ensures Entries(v, rows + [t]) == Entries(v, rows) + (if EntryOf(v, t).Some? then [EntryOf(v, t).value] else [])
  {
    assert (rows + [t])[..|rows|] == rows;
  }

  /** So the two ledgers agree on the admitted rows: the global page differs
      from `calculate_pnl_all` only in the rows it skips. */
  lemma GlobalLedgerIsTokenAllOnAdmittedRows(rows: seq<Trade>)
    requires ReceivesTokens(GlobalSnipers, rows)
    ensures ValidEntries(Entries(GlobalSnipers, rows))
    ensures ValidEntries(Entries(TokenAll, Filter(rows, Admitted)))
    ensures Replay(GlobalSnipers, Entries(GlobalSnipers, rows))
         == Replay(TokenAll, Entries(TokenAll, Filter(rows, Admitted)))
  {
    ReceivingRowsGiveValidEntries(GlobalSnipers, rows);
    GlobalEntriesAreAdmittedEntries(rows);
    ReplaySameValuation(Entries(GlobalSnipers, rows));
  }

  // ---------------------------------------------------------------------
  // The queue and the loop

  /** The `deque` of open buy lots. */
  class LotQueue {
    var lots: seq<Lot>

    constructor ()
      ensures lots == []
    {
      lots := [];
    }

    /** `append`: a new buy goes to the back. */
    method PushBack(l: Lot)
      modifies this
      ensures lots == old(lots) + [l]
    {
      lots := lots + [l];
    }

    /** `appendleft`: a partly consumed lot goes back to the front. */
    method PushFront(l: Lot)
      modifies this
      ensures lots == [l] + old(lots)
    {
      lots := [l] + lots;
    }

    /** `popleft`: the oldest lot. */
    method PopFront() returns (l: Lot)
      requires lots != []
      modifies this
      ensures l == old(lots)[0] && lots == old(lots)[1..]
    {
      l := lots[0];
      lots := lots[1..];
    }

    /** Tokens still held. */
    method Remaining() returns (total: real)
      ensures total == Inventory(lots)
      ensures ValidLots(lots) ==> total >= 0.0
    {
      total := 0.0;
      for i := 0 to |lots|
        invariant total == Inventory(lots[..i])
      {
        assert lots[..i + 1] == lots[..i] + [lots[i]];
        InventoryAppend(lots[..i], lots[i]);
        total := total + lots[i].amount;
      }
      assert lots[..|lots|] == lots;
    }
  }

  /** The inner loop of the ledger: pops lots from the front of the queue
      until the sell is matched or the queue runs dry, pushing back what is
      left of a partly consumed lot. */
  method MatchSell(queue: LotQueue, v: Variant, s: Sale) returns (gain: real)
    requires ValidLots(queue.lots)
    modifies queue
    ensures queue.lots == Settle(v, s, old(queue.lots), s.fromWallet).lots
    ensures gain == Settle(v, s, old(queue.lots), s.fromWallet).gain
  {
    var toMatch := s.fromWallet;
    ghost var target := Settle(v, s, queue.lots, toMatch);
    gain := 0.0;
    while toMatch > 0.0 && queue.lots != []
      invariant ValidLots(queue.lots)
      invariant toMatch > 0.0 ==> s.fromWallet > 0.0
      invariant Settle(v, s, queue.lots, toMatch).lots == target.lots
      invariant gain + Settle(v, s, queue.lots, toMatch).gain == target.gain
      decreases |queue.lots|, if toMatch > 0.0 then 1 else 0
    {
      var lot := queue.PopFront();
      var m := Min(toMatch, lot.amount);
      gain := gain + Gain(v, s, lot, m);
      toMatch := toMatch - m;
      var leftover := lot.amount - m;
      if leftover > 0.0 {
        queue.PushFront(Leftover(lot, m));
      }
    }
  }

  /** The replay loop of the three PnL functions: returns the realized PnL
      and the remaining tokens. */
  method ReplayLedger(v: Variant, es: seq<Entry>) returns (realized: real, remaining: real)
    requires ValidEntries(es)
    ensures realized == Replay(v, es).realized
    ensures remaining == Inventory(Replay(v, es).lots)
  {
    var queue := new LotQueue();
    realized := 0.0;
    for i := 0 to |es|
      invariant Replay(v, es[..i]) == Book(queue.lots, realized)
    {
      assert es[..i + 1][..i] == es[..i];
      match es[i]
      case Bought(l) =>
        queue.PushBack(l);
      case Sold(s) =>
        var gain := MatchSell(queue, v, s);
        realized := realized + gain;
    }
    assert es[..|es|] == es;
    remaining := queue.Remaining();
  }
}
