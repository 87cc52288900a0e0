/** The large-buy chunker of `process_sniper_data`: the buys of each group,
    in time order, are cut into chunks anchored at their first trade, and
    only the trades of chunks whose summed before-tax amount exceeds the
    large-buy threshold are kept. */
module Chunking {
  import opened Trades

  /** `pd.Timedelta(minutes=10)`, in seconds. */
  const Window: int := 600
  /** A chunk is large when its summed `OUT_BeforeTax` is strictly above this. */
  const LargeBuy: real := 100000.0

  /** `current_sum`: the before-tax amounts of a chunk, added in order. */
  function BeforeTaxSum(c: seq<Trade>): real {
    if c == [] then 0.0 else BeforeTaxSum(c[..|c| - 1]) + c[|c| - 1].outBeforeTax
  }

  predicate IsLarge(c: seq<Trade>) {
    BeforeTaxSum(c) > LargeBuy
  }

  /** The chunks of `rest` when a chunk `open` that started at `start` is
      still open (`open == []` before the first trade of the group). */
  function Close(open: seq<Trade>, start: int, rest: seq<Trade>): seq<seq<Trade>>
    decreases |rest|
  {
    if rest == [] then (if open == [] then [] else [open])
    else if open == [] then Close([rest[0]], rest[0].time, rest[1..])
    else if rest[0].time - start <= Window then Close(open + [rest[0]], start, rest[1..])
    else [open] + Close([rest[0]], rest[0].time, rest[1..])
  }

  /** The chunks of one group of buys. */
  function Chunks(group: seq<Trade>): seq<seq<Trade>> {
    Close([], 0, group)
  }

  function Flatten(cs: seq<seq<Trade>>): seq<Trade> {
    if cs == [] then [] else cs[0] + Flatten(cs[1..])
  }

  /** The trades of the large chunks, chunk after chunk. */
  function LargeOnly(cs: seq<seq<Trade>>): seq<Trade> {
    if cs == [] then [] else (if IsLarge(cs[0]) then cs[0] else []) + LargeOnly(cs[1..])
  }

  /** What one group contributes to `chunked_buys`. */
  function Kept(group: seq<Trade>): (r: seq<Trade>)
    ensures IsSubseq(r, group)
  {
    ChunksPartition(group);
    LargeOnlyIsSubseq(Chunks(group));
    LargeOnly(Chunks(group))
  }

  /** The loop over one group's rows: `current_chunk`, `current_sum` and
      `chunk_start_time` as the source keeps them. */
  method ChunkGroup(group: seq<Trade>) returns (chunked: seq<Trade>)
    ensures chunked == Kept(group)
  {
    chunked := [];
    var current: seq<Trade> := [];
    var currentSum := 0.0;
    var chunkStart := 0;
    for i := 0 to |group|
      invariant currentSum == BeforeTaxSum(current)
      invariant chunked + LargeOnly(Close(current, chunkStart, group[i..])) == Kept(group)
    {
      var row := group[i];
      assert group[i..][1..] == group[i + 1..];
      if current == [] {
        chunkStart := row.time;
        current := [row];
        currentSum := row.outBeforeTax;
        SumAppend([], row);
      } else if row.time - chunkStart <= Window {
        SumAppend(current, row);
        current := current + [row];
        currentSum := currentSum + row.outBeforeTax;
      } else {
        CloseBreaks(current, chunkStart, group[i..]);
        if currentSum > LargeBuy {
          chunked := chunked + current;
        }
        chunkStart := row.time;
        current := [row];
        currentSum := row.outBeforeTax;
        SumAppend([], row);
      }
    }
    assert group[|group|..] == [];
    if currentSum > LargeBuy {
      chunked := chunked + current;
    }
  }

  lemma SumAppend(c: seq<Trade>, t: Trade)
    ensures BeforeTaxSum(c + [t]) == BeforeTaxSum(c) + t.outBeforeTax
  {
    assert (c + [t])[..|c|] == c;
  }

  /** A trade outside the open chunk's window closes it. */
  lemma CloseBreaks(open: seq<Trade>, start: int, rest: seq<Trade>)
    requires open != [] && rest != [] && rest[0].time - start > Window
    ensures LargeOnly(Close(open, start, rest))
         == (if IsLarge(open) then open else []) + LargeOnly(Close([rest[0]], rest[0].time, rest[1..]))
  {
    var tail := Close([rest[0]], rest[0].time, rest[1..]);
    assert Close(open, start, rest) == [open] + tail;
    assert ([open] + tail)[1..] == tail;
  }

  // ---------------------------------------------------------------------
  // The chunking rule, stated independently of the loop

  /** A trade joins a chunk iff it lies within the window of the chunk's
      FIRST trade (not of the previous trade). */
  predicate Joins(c: seq<Trade>, t: Trade)
    requires c != []
  {
    t.time - c[0].time <= Window
  }

  /** Chunk `k` starts with a trade that would not have joined chunk `k - 1`. */
  predicate StartsFresh(cs: seq<seq<Trade>>, k: int) {
    0 < k < |cs| && cs[k - 1] != [] && cs[k] != [] && !Joins(cs[k - 1], cs[k][0])
  }

  /** `cs` cuts `group` into non-empty chunks, every trade of a chunk joins
      it, and every chunk after the first starts with a trade that does not
      join the chunk before it. */
  ghost predicate IsChunking(group: seq<Trade>, cs: seq<seq<Trade>>) {
    && Flatten(cs) == group
    && (forall k :: 0 <= k < |cs| ==> cs[k] != [])
    && (forall k, j :: 0 <= k < |cs| && 0 <= j < |cs[k]| ==> Joins(cs[k], cs[k][j]))
    && (forall k :: 0 < k < |cs| ==> StartsFresh(cs, k))
  }

  /** How many leading trades of `rest` lie within the window of `start`. */
  function Lead(rest: seq<Trade>, start: int): (n: nat)
    ensures n <= |rest|
    ensures forall j :: 0 <= j < n ==> rest[j].time - start <= Window
    ensures n < |rest| ==> rest[n].time - start > Window
  {
    if rest == [] || rest[0].time - start > Window then 0 else 1 + Lead(rest[1..], start)
  }

  lemma {:induction false} LeadExact(rest: seq<Trade>, start: int, m: nat)
    requires m <= |rest|
    requires forall j :: 0 <= j < m ==> rest[j].time - start <= Window
    requires m < |rest| ==> rest[m].time - start > Window
    ensures Lead(rest, start) == m
  {
  }

  /** An open chunk absorbs the run of trades within its window and is
      closed by the first trade outside it. */
  lemma {:induction false} CloseRun(open: seq<Trade>, start: int, rest: seq<Trade>)
    requires open != []
    ensures var n := Lead(rest, start);
      Close(open, start, rest) == [open + rest[..n]] + Chunks(rest[n..])
    decreases |rest|
  {
    var n := Lead(rest, start);
    if rest == [] {
      assert open + rest[..n] == open;
    } else if rest[0].time - start > Window {
      assert n == 0;
      assert open + rest[..0] == open;
    } else {
      CloseRun(open + [rest[0]], start, rest[1..]);
      var n' := Lead(rest[1..], start);
      assert n == n' + 1;
      assert open + [rest[0]] + rest[1..][..n'] == open + rest[..n];
      assert rest[1..][n'..] == rest[n..];
    }
  }

  /** The first chunk of a non-empty group is its leading run. */
  lemma ChunksStep(group: seq<Trade>)
    requires group != []
    ensures var n := 1 + Lead(group[1..], group[0].time);
      n <= |group| && Chunks(group) == [group[..n]] + Chunks(group[n..])
  {
    var n' := Lead(group[1..], group[0].time);
    CloseRun([group[0]], group[0].time, group[1..]);
    assert [group[0]] + group[1..][..n'] == group[..n' + 1];
    assert group[1..][n'..] == group[n' + 1..];
  }

  lemma FlattenCons(c: seq<Trade>, cs: seq<seq<Trade>>)
    ensures Flatten([c] + cs) == c + Flatten(cs)
  {
    assert ([c] + cs)[1..] == cs;
  }

  /** A chunk whose trades all join it, put in front of a chunking whose
      first chunk starts outside its window, gives a chunking. */
  lemma ConsIsChunking(c: seq<Trade>, rest: seq<Trade>, tail: seq<seq<Trade>>)
    requires c != [] && forall j :: 0 <= j < |c| ==> Joins(c, c[j])
    requires IsChunking(rest, tail)
    requires rest != [] ==> !Joins(c, rest[0])
    ensures IsChunking(c + rest, [c] + tail)
  {
    var cs := [c] + tail;
    FlattenCons(c, tail);
    forall k, j | 0 <= k < |cs| && 0 <= j < |cs[k]|
      ensures Joins(cs[k], cs[k][j])
    {
      if k > 0 {
        assert cs[k] == tail[k - 1];
      }
    }
    forall k | 0 < k < |cs|
      ensures StartsFresh(cs, k)
    {
      if k == 1 {
        assert tail[0] != [];
        assert Flatten(tail) == tail[0] + Flatten(tail[1..]);
        assert tail[0][0] == rest[0];
      } else {
        assert StartsFresh(tail, k - 1);
      }
    }
  }

  /** The chunks the loop produces obey the chunking rule. */
  lemma {:induction false} ChunksAreChunking(group: seq<Trade>)
    ensures IsChunking(group, Chunks(group))
    decreases |group|
  {
    if group != [] {
      var n := FirstChunk(group);
      ChunksAreChunking(group[n..]);
      ConsIsChunking(group[..n], group[n..], Chunks(group[n..]));
      assert group[..n] + group[n..] == group;
    }
  }

  /** The first chunk of a non-empty group: every trade in it joins it, and
      the trade after it does not. */
  lemma FirstChunk(group: seq<Trade>) returns (n: nat)
    requires group != []
    ensures 0 < n <= |group|
    ensures Chunks(group) == [group[..n]] + Chunks(group[n..])
    ensures forall j :: 0 <= j < n ==> Joins(group[..n], group[..n][j])
    ensures n < |group| ==> !Joins(group[..n], group[n..][0])
  {
    n := 1 + Lead(group[1..], group[0].time);
    ChunksStep(group);
    var c := group[..n];
    forall j | 0 < j < n
      ensures Joins(c, c[j])
    {
      assert c[j] == group[1..][j - 1];
    }
    if n < |group| {
      assert group[n..][0] == group[1..][n - 1];
    }
  }

  /** The chunking rule admits exactly one chunking: the loop's. */
  lemma {:induction false} ChunkingIsUnique(group: seq<Trade>, cs: seq<seq<Trade>>)
    requires IsChunking(group, cs)
    ensures cs == Chunks(group)
    decreases |group|
  {
    if cs == [] {
      assert group == [];
    } else {
      var c := cs[0];
      assert c != [];
      assert group == c + Flatten(cs[1..]);
      var m := |c| - 1;
      assert group[..|c|] == c && group[|c|..] == Flatten(cs[1..]);
      forall j | 0 <= j < m
        ensures group[1..][j].time - group[0].time <= Window
      {
        assert Joins(cs[0], cs[0][j + 1]);
      }
      if m < |group[1..]| {
        assert StartsFresh(cs, 1);
        assert cs[1] != [];
        assert Flatten(cs[1..]) == cs[1] + Flatten(cs[2..]);
        assert group[1..][m] == cs[1][0];
      }
      LeadExact(group[1..], group[0].time, m);
      ChunksStep(group);
      var rest := cs[1..];
      forall k | 0 < k < |rest|
        ensures StartsFresh(rest, k)
      {
        assert StartsFresh(cs, k + 1);
      }
      forall k, j | 0 <= k < |rest| && 0 <= j < |rest[k]|
        ensures Joins(rest[k], rest[k][j])
      {
        assert Joins(cs[k + 1], cs[k + 1][j]);
      }
      ChunkingIsUnique(group[|c|..], rest);
    }
  }

  // ---------------------------------------------------------------------
  // What survives the threshold

  lemma {:induction false} FlattenMembership(cs: seq<seq<Trade>>, t: Trade)
    ensures t in Flatten(cs) <==> exists k :: 0 <= k < |cs| && t in cs[k]
  {
    if cs != [] {
      FlattenMembership(cs[1..], t);
      if t in Flatten(cs[1..]) {
        var k :| 0 <= k < |cs[1..]| && t in cs[1..][k];
        assert t in cs[k + 1];
      }
      forall k | 0 < k < |cs| && t in cs[k]
        ensures t in Flatten(cs[1..])
      {
        assert cs[1..][k - 1] == cs[k];
      }
    }
  }

  lemma {:induction false} LargeOnlyMembership(cs: seq<seq<Trade>>, t: Trade)
    ensures t in LargeOnly(cs) <==> exists k :: 0 <= k < |cs| && IsLarge(cs[k]) && t in cs[k]
  {
    if cs != [] {
      var rest := cs[1..];
      LargeOnlyMembership(rest, t);
      assert LargeOnly(cs) == (if IsLarge(cs[0]) then cs[0] else []) + LargeOnly(rest);
      if t in LargeOnly(rest) {
        var k :| 0 <= k < |rest| && IsLarge(rest[k]) && t in rest[k];
        assert rest[k] == cs[k + 1];
      }
      forall k | 0 < k < |cs| && IsLarge(cs[k]) && t in cs[k]
        ensures t in LargeOnly(rest)
      {
        assert rest[k - 1] == cs[k];
      }
    }
  }

  lemma {:induction false} LargeOnlyIsSubseq(cs: seq<seq<Trade>>)
    ensures IsSubseq(LargeOnly(cs), Flatten(cs))
  {
    if cs != [] {
      LargeOnlyIsSubseq(cs[1..]);
      if IsLarge(cs[0]) {
        SubseqRefl(cs[0]);
        SubseqConcat(cs[0], cs[0], LargeOnly(cs[1..]), Flatten(cs[1..]));
      } else {
        SubseqConcat([], cs[0], LargeOnly(cs[1..]), Flatten(cs[1..]));
        assert [] + LargeOnly(cs[1..]) == LargeOnly(cs[1..]);
      }
    }
  }

  lemma {:induction false} ClosePartition(open: seq<Trade>, start: int, rest: seq<Trade>)
    ensures Flatten(Close(open, start, rest)) == open + rest
    decreases |rest|
  {
    if rest == [] {
      if open != [] { FlattenCons(open, []); }
    } else if open == [] {
      ClosePartition([rest[0]], rest[0].time, rest[1..]);
    } else if rest[0].time - start <= Window {
      ClosePartition(open + [rest[0]], start, rest[1..]);
    } else {
      ClosePartition([rest[0]], rest[0].time, rest[1..]);
      FlattenCons(open, Close([rest[0]], rest[0].time, rest[1..]));
    }
  }

  /** The chunks concatenate back to the group. */
  lemma ChunksPartition(group: seq<Trade>)
    ensures Flatten(Chunks(group)) == group
  {
    ClosePartition([], 0, group);
  }

  /** What a group keeps is a subsequence of it, made of whole large chunks. */
  lemma KeptIsSubseq(group: seq<Trade>)
    ensures IsSubseq(Kept(group), group)
    ensures forall t :: t in Kept(group) <==>
      exists k :: 0 <= k < |Chunks(group)| && IsLarge(Chunks(group)[k]) && t in Chunks(group)[k]
  {
    ChunksPartition(group);
    LargeOnlyIsSubseq(Chunks(group));
    forall t { LargeOnlyMembership(Chunks(group), t); }
  }

  lemma KeptWithin(group: seq<Trade>, t: Trade)
    requires t in Kept(group)
    ensures t in group
  {
    KeptIsSubseq(group);
    var k :| 0 <= k < |Chunks(group)| && IsLarge(Chunks(group)[k]) && t in Chunks(group)[k];
    ChunksPartition(group);
    FlattenMembership(Chunks(group), t);
  }

  lemma {:induction false} SumAtLeastMember(c: seq<Trade>, t: Trade)
    requires forall u :: u in c ==> u.outBeforeTax >= 0.0
    requires t in c
    ensures BeforeTaxSum(c) >= t.outBeforeTax
  {
    var init := c[..|c| - 1];
    assert forall u :: u in init ==> u in c;
    if t != c[|c| - 1] {
      assert c == init + [c[|c| - 1]];
      SumAtLeastMember(init, t);
    } else if init != [] {
      SumNonNegative(init);
    }
  }

  lemma {:induction false} SumNonNegative(c: seq<Trade>)
    requires forall u :: u in c ==> u.outBeforeTax >= 0.0
    ensures BeforeTaxSum(c) >= 0.0
  {
    if c != [] {
      assert forall u :: u in c[..|c| - 1] ==> u in c;
      SumNonNegative(c[..|c| - 1]);
    }
  }

  /** With non-negative amounts, a single buy above the threshold is always
      kept, whatever chunk it lands in. */
  lemma LargeSingleBuyKept(group: seq<Trade>, i: int)
    requires forall u :: u in group ==> u.outBeforeTax >= 0.0
    requires 0 <= i < |group| && group[i].outBeforeTax > LargeBuy
    ensures group[i] in Kept(group)
  {
    var cs := Chunks(group);
    var t := group[i];
    ChunksPartition(group);
    FlattenMembership(cs, t);
    var k :| 0 <= k < |cs| && t in cs[k];
    forall u: Trade | u in cs[k] ensures u.outBeforeTax >= 0.0 {
      FlattenMembership(cs, u);
    }
    SumAtLeastMember(cs[k], t);
    LargeOnlyMembership(cs, t);
  }

  function BuyAt(time: int, amount: real): Trade {
    Trade("0xmaker", "TOKEN", Buy, time, 0, amount, amount, 0.0, 0.0,
          0.0, 0.0, 0.0, 0.0, 1.0, 0.0, 0.0)
  }

  /** Buys of 60000 at 0, 9 and 11 minutes: the first two form a chunk of
      120000 and are kept; the third starts a chunk of 60000 and is not. */
  lemma ChunkBoundaryExample()
    ensures Kept([BuyAt(0, 60000.0), BuyAt(540, 60000.0), BuyAt(660, 60000.0)])
         == [BuyAt(0, 60000.0), BuyAt(540, 60000.0)]
  {
    var a, b, c := BuyAt(0, 60000.0), BuyAt(540, 60000.0), BuyAt(660, 60000.0);
    var g := [a, b, c];
    assert g[1..] == [b, c] && g[1..][1..] == [c] && g[1..][1..][1..] == [];
    assert Close([a, b], 0, [c]) == [[a, b]] + Close([c], 660, []);
    assert [a] + [b] == [a, b] && [b, c][1..] == [c];
    assert Close([a], 0, [b, c]) == Close([a, b], 0, [c]);
    assert Chunks(g) == [[a, b], [c]];
    assert [a, b][..1] == [a] && [a][..0] == [];
    assert BeforeTaxSum([a]) == 60000.0;
    assert BeforeTaxSum([a, b]) == 120000.0;
    assert [c][..0] == [];
    assert BeforeTaxSum([c]) == 60000.0;
    assert [[a, b], [c]][1..] == [[c]];
  }

  // ---------------------------------------------------------------------
  // Grouping: one chunker run per group of buys

  /** The global page groups by (maker, token); the token page by maker. */
  datatype Grouping = ByMakerAndToken | ByMaker

  datatype Key = Key(maker: string, token: Option<string>)

  function KeyOf(grouping: Grouping, t: Trade): Key {
    match grouping
    case ByMakerAndToken => Key(t.maker, Some(t.token))
    case ByMaker => Key(t.maker, None)
  }

  /** The buys of one group, in input order. */
  function Group(grouping: Grouping, rows: seq<Trade>, k: Key): seq<Trade> {
    Filter(rows, (t: Trade) => t.swap == Buy && KeyOf(grouping, t) == k)
  }

  /** The keys of all buys, each once, in order of first appearance. */
  function BuyKeys(grouping: Grouping, rows: seq<Trade>): (ks: seq<Key>)
    ensures forall k :: k in ks <==> exists t :: t in rows && t.swap == Buy && KeyOf(grouping, t) == k
    ensures forall i, j :: 0 <= i < j < |ks| ==> ks[i] != ks[j]
  {
    if rows == [] then []
    else
      var init := rows[..|rows| - 1];
      var t := rows[|rows| - 1];
      assert rows == init + [t];
      var ks := BuyKeys(grouping, init);
      if t.swap == Buy && KeyOf(grouping, t) !in ks then ks + [KeyOf(grouping, t)] else ks
  }

  /** The concatenation of what the groups `ks` keep. */
  function KeptOver(grouping: Grouping, rows: seq<Trade>, ks: seq<Key>): seq<Trade> {
    if ks == [] then []
    else KeptOver(grouping, rows, ks[..|ks| - 1]) + Kept(Group(grouping, rows, ks[|ks| - 1]))
  }

  /** `chunked_buys` once every group has been chunked. */
  function LargeBuys(grouping: Grouping, rows: seq<Trade>): seq<Trade> {
    KeptOver(grouping, rows, BuyKeys(grouping, rows))
  }

  /** The outer loop over the groups of buys. */
  method ChunkLargeBuys(grouping: Grouping, rows: seq<Trade>) returns (chunked: seq<Trade>)
    requires SortedByTime(rows)
    ensures chunked == LargeBuys(grouping, rows)
  {
    var keys := BuyKeys(grouping, rows);
    chunked := [];
    for i := 0 to |keys|
      invariant chunked == KeptOver(grouping, rows, keys[..i])
    {
      var kept := ChunkGroup(Group(grouping, rows, keys[i]));
      assert keys[..i + 1][..i] == keys[..i];
      assert KeptOver(grouping, rows, keys[..i + 1]) == chunked + Kept(Group(grouping, rows, keys[i]));
      chunked := chunked + kept;
    }
    assert keys[..|keys|] == keys;
  }

  lemma {:induction false} KeptOverMembership(grouping: Grouping, rows: seq<Trade>, ks: seq<Key>, t: Trade)
    ensures t in KeptOver(grouping, rows, ks) <==>
      exists i :: 0 <= i < |ks| && t in Kept(Group(grouping, rows, ks[i]))
  {
    if ks != [] {
      var init, last := ks[..|ks| - 1], ks[|ks| - 1];
      KeptOverMembership(grouping, rows, init, t);
      assert KeptOver(grouping, rows, ks) == KeptOver(grouping, rows, init) + Kept(Group(grouping, rows, last));
      if t in KeptOver(grouping, rows, init) {
        var i :| 0 <= i < |init| && t in Kept(Group(grouping, rows, init[i]));
        assert ks[i] == init[i];
      }
      forall i | 0 <= i < |ks| - 1 && t in Kept(Group(grouping, rows, ks[i]))
        ensures t in KeptOver(grouping, rows, init)
      {
        assert init[i] == ks[i];
      }
    }
  }

  /** A row is among the large buys iff it is a buy that its own group keeps. */
  lemma LargeBuysMembership(grouping: Grouping, rows: seq<Trade>, t: Trade)
    ensures t in LargeBuys(grouping, rows) <==>
      t in rows && t.swap == Buy && t in Kept(Group(grouping, rows, KeyOf(grouping, t)))
  {
    var ks := BuyKeys(grouping, rows);
    KeptOverMembership(grouping, rows, ks, t);
    if t in LargeBuys(grouping, rows) {
      var i :| 0 <= i < |ks| && t in Kept(Group(grouping, rows, ks[i]));
      KeptWithin(Group(grouping, rows, ks[i]), t);
    }
    if t in rows && t.swap == Buy && t in Kept(Group(grouping, rows, KeyOf(grouping, t))) {
      assert KeyOf(grouping, t) in ks;
      var i :| 0 <= i < |ks| && ks[i] == KeyOf(grouping, t);
    }
  }
}
