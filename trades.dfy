/** Swap rows as the dashboard reads them from its swap collections, and
    the small sequence vocabulary (selection, subsequence, time order) the
    rest of the model is written in. */
module Trades {

  datatype Option<+T> = None | Some(value: T)

  /** The `swapType` column: "buy", "sell", or any other label. */
  datatype SwapType = Buy | Sell | Other

  /** One swap row, with the per-token columns (`<TOKEN>_OUT_BeforeTax`, ...)
      already mapped to one schema. Times are whole seconds. A missing
      column that the code reads with a default of 0 (the ledgers'
      amounts, the global ledger's price, the token page's before-tax
      field) arrives as 0.0; every row carries the other columns. */
  datatype Trade = Trade(
    maker: string,
    token: string,
    swap: SwapType,
    time: int,
    block: int,
    outBeforeTax: real,  // tokens the pool let go on a buy, before tax
    outAfterTax: real,   // tokens the buyer received
    inBeforeTax: real,   // tokens that left the seller's wallet
    inAfterTax: real,    // tokens that reached the pool after tax
    tokenIn: real,       // raw `<TOKEN>_IN`
    tokenOut: real,      // raw `<TOKEN>_OUT`
    virtualIn: real,     // raw `Virtual_IN`
    virtualOut: real,    // raw `Virtual_OUT`
    price: real,         // `genesis_usdc_price`
    fee: real,           // `transactionFee`
    tax: real)           // `Tax_1pct`

  /** Rows in ascending time order: the order every `sort_values` of the
      source puts them in before they are looked at. */
  predicate SortedByTime(rows: seq<Trade>) {
    forall i, j :: 0 <= i < j < |rows| ==> rows[i].time <= rows[j].time
  }

  /** The rows of `s` that satisfy `p`, in their original order (a boolean
      mask selection of a data frame). */
  function Filter<T(!new)>(s: seq<T>, p: T -> bool): (r: seq<T>)
    ensures |r| <= |s|
    ensures forall x :: x in r <==> x in s && p(x)
    ensures IsSubseq(r, s)
  {
    if s == [] then []
    else if p(s[0]) then [s[0]] + Filter(s[1..], p)
    else
      var rest := Filter(s[1..], p);
      assert rest != [] ==> rest[0] != s[0] by {
        if rest != [] { assert rest[0] in rest; }
      }
      rest
  }

  lemma {:induction false} FilterAppend<T(!new)>(s: seq<T>, x: T, p: T -> bool)
    ensures Filter(s + [x], p) == Filter(s, p) + (if p(x) then [x] else [])
  {
    if s == [] {
      assert [] + [x] == [x];
    } else {
      assert (s + [x])[1..] == s[1..] + [x];
      FilterAppend(s[1..], x, p);
    }
  }

  /** Selecting rows keeps them in time order. */
  lemma {:induction false} FilterSorted(rows: seq<Trade>, p: Trade -> bool)
    requires SortedByTime(rows)
    ensures SortedByTime(Filter(rows, p))
  {
    if rows != [] {
      FilterSorted(rows[1..], p);
      var rest := Filter(rows[1..], p);
      forall t | t in rest ensures rows[0].time <= t.time {
        var j :| 0 <= j < |rows[1..]| && rows[1..][j] == t;
        assert rows[1 + j] == t;
      }
    }
  }

  /** `a` is obtained from `b` by deleting elements (matched greedily). */
  predicate IsSubseq<T(==)>(a: seq<T>, b: seq<T>)
    decreases |b|
  {
    if a == [] then true
    else if b == [] then false
    else if a[0] == b[0] then IsSubseq(a[1..], b[1..])
    else IsSubseq(a, b[1..])
  }

  lemma {:induction false} SubseqRefl<T>(a: seq<T>)
    ensures IsSubseq(a, a)
  {
    if a != [] { SubseqRefl(a[1..]); }
  }

  lemma {:induction false} SubseqExtendLeft<T>(a: seq<T>, b: seq<T>, c: seq<T>)
    requires IsSubseq(a, c)
    ensures IsSubseq(a, b + c)
    decreases |b|
  {
    if b == [] {
      assert b + c == c;
    } else if a != [] {
      SubseqExtendLeft(a, b[1..], c);
      assert (b + c)[1..] == b[1..] + c;
      if a[0] == b[0] {
        SubseqDropFirst(a, b[1..] + c);
      }
    }
  }

  /** Dropping the first element of the smaller sequence keeps it a subsequence. */
  lemma {:induction false} SubseqDropFirst<T>(a: seq<T>, b: seq<T>)
    requires a != [] && IsSubseq(a, b)
    ensures IsSubseq(a[1..], b)
    decreases |b|
  {
    if a[0] != b[0] {
      SubseqDropFirst(a, b[1..]);
      if a[1..] != [] && a[1..][0] == b[0] {
        SubseqDropFirst(a[1..], b[1..]);
      }
    } else if a[1..] != [] && a[1..][0] != b[0] {
      assert IsSubseq(a[1..], b[1..]);
    } else if a[1..] != [] {
      SubseqDropFirst(a[1..], b[1..]);
    }
  }

  /** Subsequences concatenate. */
  lemma {:induction false} SubseqConcat<T>(a: seq<T>, b: seq<T>, c: seq<T>, d: seq<T>)
    requires IsSubseq(a, b) && IsSubseq(c, d)
    ensures IsSubseq(a + c, b + d)
    decreases |b|
  {
    if a == [] {
      assert a + c == c;
      SubseqExtendLeft(c, b, d);
    } else {
      assert b != [];
      assert (b + d)[1..] == b[1..] + d;
      if a[0] == b[0] {
        SubseqConcat(a[1..], b[1..], c, d);
        assert (a + c)[1..] == a[1..] + c;
      } else {
        SubseqConcat(a, b[1..], c, d);
      }
    }
  }
}
