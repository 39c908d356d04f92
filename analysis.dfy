/** The trade-inference query over the holdings table: each row gets a
    quantity proxy (its share count when it has one, its value otherwise);
    rows are partitioned by manager and ticker and ordered by period inside
    a partition; each row after the first of its partition becomes a trade
    against the row before it, labelled BUY, SELL or HOLD by the sign of the
    change; the trades come out ordered by ticker, manager and period.

    The query is modelled by explicit partitions: the distinct (ticker,
    manager) pairs in increasing order, and for each, its rows sorted by
    period with a stable sort (rows of one partition that share a period keep
    their table order) and paired with their predecessor. */
module TradeInference {
  import opened Wrappers
  import Text
  import Sorting
  import HoldingsDb
  import FirstOccurrence

  datatype QtySource = Shares | ValueK

  datatype Action = Buy | Sell | Hold

  /** A row of the `base` step: the stored columns the query keeps, the
      filing date and the quantity proxy with its source. */
  datatype Observation = Observation(
    manager: string,
    ticker: string,
    quarter: string,
    filedDate: Option<string>,
    shares: Option<int>,
    valueK: real,
    qty: real,
    source: QtySource)

  /** An output row. */
  datatype Trade = Trade(
    manager: string,
    ticker: string,
    quarter: string,
    filedDate: Option<string>,
    shares: Option<int>,
    valueK: real,
    prevQty: real,
    qty: real,
    delta: real,
    action: Action,
    source: QtySource)

  /** SUBSTR(filed_at, 1, 10): NULL stays NULL; otherwise the first ten
      characters, or the whole text when it is shorter. */
  function FiledDate(filedAt: Option<string>): (d: Option<string>)
    ensures d.None? <==> filedAt.None?
    ensures d.Some? ==> d.value <= filedAt.value
    ensures d.Some? ==> |d.value| == (if |filedAt.value| < 10 then |filedAt.value| else 10)
  {
    match filedAt
    case None => None
    case Some(s) => Some(if |s| < 10 then s else s[..10])
  }

  /** The `base` step for one stored row. value_k is never NULL in a stored
      row, so the WHERE value_k IS NOT NULL filter keeps every row. */
  function Base(h: HoldingsDb.Holding): (o: Observation)
    ensures o.source == Shares <==> h.shares.Some?
    ensures o.manager == h.manager && o.ticker == h.ticker && o.quarter == h.quarter
    ensures o.filedDate == FiledDate(h.filedAt) && o.shares == h.shares && o.valueK == h.valueK
  {
    Observation(
      h.manager, h.ticker, h.quarter, FiledDate(h.filedAt), h.shares, h.valueK,
      if h.shares.Some? then h.shares.value as real else h.valueK,
      if h.shares.Some? then Shares else ValueK)
  }

  /** The quantity proxy is the share count whenever there is one, a count of
      zero included, and the value otherwise. */
  lemma ProxyChoice(h: HoldingsDb.Holding)
    ensures h.shares.Some? ==> Base(h).qty == h.shares.value as real && Base(h).source == Shares
    ensures h.shares == Some(0) ==> Base(h).qty == 0.0
    ensures h.shares.None? ==> Base(h).qty == h.valueK && Base(h).source == ValueK
  {
  }

  function Classify(delta: real): (a: Action)
    ensures a == Buy <==> delta > 0.0
    ensures a == Sell <==> delta < 0.0
    ensures a == Hold <==> delta == 0.0
  {
    if delta > 0.0 then Buy else if delta < 0.0 then Sell else Hold
  }

  /** The output row for `o` when the row before it in its partition had
      proxy `prev`. */
  function TradeOf(o: Observation, prev: real): (t: Trade)
    ensures t.delta == o.qty - prev && t.prevQty == prev && t.qty == o.qty && t.action == Classify(t.delta)
    ensures t.manager == o.manager && t.ticker == o.ticker && t.quarter == o.quarter
    ensures t.filedDate == o.filedDate && t.shares == o.shares && t.valueK == o.valueK && t.source == o.source
  {
    var delta := o.qty - prev;
    Trade(o.manager, o.ticker, o.quarter, o.filedDate, o.shares, o.valueK,
          prev, o.qty, delta, Classify(delta), o.source)
  }

  /** LAG over one ordered partition, dropping the row with no predecessor:
      the i-th trade is row i + 1 against row i. */
  function Lagged(g: seq<Observation>): (r: seq<Trade>)
    ensures |r| == if g == [] then 0 else |g| - 1
    ensures forall i :: 0 <= i < |r| ==> r[i] == TradeOf(g[i + 1], g[i].qty)
  {
    if |g| < 2 then [] else [TradeOf(g[1], g[0].qty)] + Lagged(g[1..])
  }

  // ---------------------------------------------------------------------------
  // Partitions

  /** A partition, named in the order the output is sorted by. */
  datatype PartKey = PartKey(ticker: string, manager: string)

  function PartKeyOf(h: HoldingsDb.Holding): PartKey
  {
    PartKey(h.ticker, h.manager)
  }

  function ObsKey(o: Observation): PartKey
  {
    PartKey(o.ticker, o.manager)
  }

  function TradeKey(t: Trade): PartKey
  {
    PartKey(t.ticker, t.manager)
  }

  /** Ticker first, then manager. */
  predicate KeyLt(a: PartKey, b: PartKey)
  {
    Text.LexLt(a.ticker, b.ticker) || (a.ticker == b.ticker && Text.LexLt(a.manager, b.manager))
  }

  lemma KeyLtAsym(a: PartKey, b: PartKey)
    requires KeyLt(a, b)
    ensures !KeyLt(b, a)
  {
    if KeyLt(b, a) {
      if a.ticker != b.ticker {
        Text.LexLeAntisym(a.ticker, b.ticker);
      } else {
        Text.LexLeAntisym(a.manager, b.manager);
      }
    }
  }

  lemma KeyLtTrans(a: PartKey, b: PartKey, c: PartKey)
    requires KeyLt(a, b) && KeyLt(b, c)
    ensures KeyLt(a, c)
  {
    if a.ticker != b.ticker {
      if b.ticker != c.ticker {
        Text.LexLtTrans(a.ticker, b.ticker, c.ticker);
      }
    } else if b.ticker == c.ticker {
      Text.LexLtTrans(a.manager, b.manager, c.manager);
    }
  }

  lemma KeyLtTotal(a: PartKey, b: PartKey)
    requires a != b
    ensures KeyLt(a, b) || KeyLt(b, a)
  {
    Text.LexLeTotal(a.ticker, b.ticker);
    Text.LexLeTotal(a.manager, b.manager);
  }

  ghost predicate StrictlySorted(ks: seq<PartKey>)
  {
    forall i, j :: 0 <= i < j < |ks| ==> KeyLt(ks[i], ks[j])
  }

  /** Insert `k` into an increasing list of keys unless it is there already. */
  function AddKey(k: PartKey, ks: seq<PartKey>): (r: seq<PartKey>)
    ensures forall x :: x in r <==> x == k || x in ks
  {
    if ks == [] then [k]
    else if k == ks[0] then ks
    else if KeyLt(k, ks[0]) then [k] + ks
    else [ks[0]] + AddKey(k, ks[1..])
  }

  lemma {:induction false} AddKeySorted(k: PartKey, ks: seq<PartKey>)
    requires StrictlySorted(ks)
    ensures StrictlySorted(AddKey(k, ks))
  {
    if ks != [] && k != ks[0] {
      if KeyLt(k, ks[0]) {
        var r := [k] + ks;
        forall i, j | 0 <= i < j < |r| ensures KeyLt(r[i], r[j]) {
          if i == 0 && j > 1 {
            KeyLtTrans(k, ks[0], ks[j - 1]);
          }
        }
      } else {
        KeyLtTotal(k, ks[0]);
        assert StrictlySorted(ks[1..]);
        AddKeySorted(k, ks[1..]);
        var rest := AddKey(k, ks[1..]);
        var r := [ks[0]] + rest;
        forall i, j | 0 <= i < j < |r| ensures KeyLt(r[i], r[j]) {
          if i == 0 {
            assert r[j] in rest;
          }
        }
      }
    }
  }

  /** The partitions of the table, in increasing (ticker, manager) order. */
  function Partitions(table: seq<HoldingsDb.Holding>): (ks: seq<PartKey>)
    ensures forall h :: h in table ==> PartKeyOf(h) in ks
    ensures forall x :: x in ks ==> exists h :: h in table && PartKeyOf(h) == x
  {
    if table == [] then []
    else
      var rest := Partitions(table[1..]);
      assert forall h :: h in table[1..] ==> h in table;
      AddKey(PartKeyOf(table[0]), rest)
  }

  lemma {:induction false} PartitionsSorted(table: seq<HoldingsDb.Holding>)
    ensures StrictlySorted(Partitions(table))
  {
    if table != [] {
      PartitionsSorted(table[1..]);
      AddKeySorted(PartKeyOf(table[0]), Partitions(table[1..]));
    }
  }

  /** The `base` rows of partition `k`, in table order. */
  function Group(table: seq<HoldingsDb.Holding>, k: PartKey): (g: seq<Observation>)
    ensures |g| <= |table|
    ensures forall o :: o in g ==> ObsKey(o) == k
    ensures forall o :: o in g ==> exists h :: h in table && PartKeyOf(h) == k && Base(h) == o
  {
    if table == [] then []
    else
      var rest := Group(table[1..], k);
      assert forall h :: h in table[1..] ==> h in table;
      (if PartKeyOf(table[0]) == k then [Base(table[0])] else []) + rest
  }

  predicate QuarterLe(a: Observation, b: Observation)
  {
    Text.LexLe(a.quarter, b.quarter)
  }

  lemma QuarterLeTotalPreorder()
    ensures Sorting.TotalPreorder(QuarterLe)
  {
    forall a: Observation, b: Observation ensures QuarterLe(a, b) || QuarterLe(b, a) {
      Text.LexLeTotal(a.quarter, b.quarter);
    }
    forall a: Observation, b: Observation, c: Observation | QuarterLe(a, b) && QuarterLe(b, c)
      ensures QuarterLe(a, c)
    {
      Text.LexLeTrans(a.quarter, b.quarter, c.quarter);
    }
  }

  /** ORDER BY quarter inside a partition. */
  function SortByQuarter(g: seq<Observation>): seq<Observation>
  {
    Sorting.Sort(QuarterLe, g)
  }

  /** The trades of partition `k`. */
  function Block(table: seq<HoldingsDb.Holding>, k: PartKey): seq<Trade>
  {
    Lagged(SortByQuarter(Group(table, k)))
  }

  function Blocks(table: seq<HoldingsDb.Holding>, ks: seq<PartKey>): seq<Trade>
  {
    if ks == [] then [] else Block(table, ks[0]) + Blocks(table, ks[1..])
  }

  /** `infer_trades_per_manager`: the rows of the query's result, in order. */
  function InferTrades(table: seq<HoldingsDb.Holding>): seq<Trade>
  {
    Blocks(table, Partitions(table))
  }

  // ---------------------------------------------------------------------------
  // What the query promises

  /** The output rows of partition `k`, in output order. */
  function TradesOf(ts: seq<Trade>, k: PartKey): (r: seq<Trade>)
    ensures forall t :: t in r ==> t in ts && TradeKey(t) == k
  {
    if ts == [] then []
    else
      var rest := TradesOf(ts[1..], k);
      assert forall t :: t in ts[1..] ==> t in ts;
      (if TradeKey(ts[0]) == k then [ts[0]] else []) + rest
  }

  lemma {:induction false} TradesOfAppend(a: seq<Trade>, b: seq<Trade>, k: PartKey)
    ensures TradesOf(a + b, k) == TradesOf(a, k) + TradesOf(b, k)
  {
    if a == [] {
      assert a + b == b;
    } else {
      assert (a + b)[0] == a[0] && (a + b)[1..] == a[1..] + b;
      TradesOfAppend(a[1..], b, k);
    }
  }

  lemma {:induction false} TradesOfUniform(ts: seq<Trade>, k0: PartKey, k: PartKey)
    requires forall t :: t in ts ==> TradeKey(t) == k0
    ensures TradesOf(ts, k) == if k0 == k then ts else []
  {
    if ts != [] {
      assert forall t :: t in ts[1..] ==> t in ts;
      TradesOfUniform(ts[1..], k0, k);
      assert ts == [ts[0]] + ts[1..];
    }
  }

  lemma HeadIn<T>(s: seq<T>)
    requires s != []
    ensures s[0] in s
  {
  }

  /** A partition's rows in period order: sorted, the same rows, and all of
      that manager and ticker. */
  lemma SortedGroup(table: seq<HoldingsDb.Holding>, k: PartKey)
    ensures Sorting.Sorted(QuarterLe, SortByQuarter(Group(table, k)))
    ensures multiset(SortByQuarter(Group(table, k))) == multiset(Group(table, k))
    ensures forall o :: o in SortByQuarter(Group(table, k)) ==> ObsKey(o) == k
  {
    var g0 := Group(table, k);
    var g := SortByQuarter(g0);
    QuarterLeTotalPreorder();
    Sorting.SortCorrect(QuarterLe, g0);
    forall o | o in g ensures ObsKey(o) == k {
      assert o in multiset(g);
      assert o in g0;
    }
  }

  lemma LaggedKeys(g: seq<Observation>, k: PartKey)
    requires forall o :: o in g ==> ObsKey(o) == k
    ensures forall t :: t in Lagged(g) ==> TradeKey(t) == k
  {
    var r := Lagged(g);
    forall t | t in r ensures TradeKey(t) == k {
      var i :| 0 <= i < |r| && r[i] == t;
      assert g[i + 1] in g;
    }
  }

  lemma LaggedInOrder(g: seq<Observation>)
    requires Sorting.Sorted(QuarterLe, g)
    ensures forall i, j :: 0 <= i < j < |Lagged(g)| ==> Text.LexLe(Lagged(g)[i].quarter, Lagged(g)[j].quarter)
  {
    var r := Lagged(g);
    forall i, j | 0 <= i < j < |r| ensures Text.LexLe(r[i].quarter, r[j].quarter) {
      assert QuarterLe(g[i + 1], g[j + 1]);
    }
  }

  /** Every trade of a block belongs to its partition, and a block runs in
      period order. */
  lemma BlockFacts(table: seq<HoldingsDb.Holding>, k: PartKey)
    ensures forall t :: t in Block(table, k) ==> TradeKey(t) == k
    ensures forall i, j :: 0 <= i < j < |Block(table, k)| ==>
      Text.LexLe(Block(table, k)[i].quarter, Block(table, k)[j].quarter)
  {
    SortedGroup(table, k);
    LaggedKeys(SortByQuarter(Group(table, k)), k);
    LaggedInOrder(SortByQuarter(Group(table, k)));
  }

  lemma {:induction false} TradesOfBlocks(table: seq<HoldingsDb.Holding>, ks: seq<PartKey>, k: PartKey)
    requires StrictlySorted(ks)
    ensures TradesOf(Blocks(table, ks), k) == if k in ks then Block(table, k) else []
  {
    if ks != [] {
      BlockFacts(table, ks[0]);
      TradesOfAppend(Block(table, ks[0]), Blocks(table, ks[1..]), k);
      TradesOfUniform(Block(table, ks[0]), ks[0], k);
      assert StrictlySorted(ks[1..]);
      TradesOfBlocks(table, ks[1..], k);
      if k == ks[0] {
        assert k !in ks[1..] by {
          forall j | 1 <= j < |ks| ensures ks[j] != k {
            assert KeyLt(ks[0], ks[j]);
          }
        }
      }
    }
  }

  lemma {:induction false} GroupOfAbsent(table: seq<HoldingsDb.Holding>, k: PartKey)
    requires forall h :: h in table ==> PartKeyOf(h) != k
    ensures Group(table, k) == []
  {
    if table != [] {
      assert table[0] in table;
      assert forall h :: h in table[1..] ==> h in table;
      GroupOfAbsent(table[1..], k);
    }
  }

  /** The output restricted to one manager and ticker is exactly LAG over that
      partition's rows in period order, without the row that has no
      predecessor. Partitions do not see each other. */
  lemma TradesPerPartition(table: seq<HoldingsDb.Holding>, k: PartKey)
    ensures TradesOf(InferTrades(table), k) == Lagged(SortByQuarter(Group(table, k)))
  {
    PartitionsSorted(table);
    TradesOfBlocks(table, Partitions(table), k);
    if k !in Partitions(table) {
      GroupOfAbsent(table, k);
    }
  }

  /** The partition's rows are the table's rows of that manager and ticker. */
  lemma {:induction false} GroupComplete(table: seq<HoldingsDb.Holding>, k: PartKey)
    ensures forall h :: h in table && PartKeyOf(h) == k ==> Base(h) in Group(table, k)
  {
    if table != [] {
      GroupComplete(table[1..], k);
      forall h | h in table && PartKeyOf(h) == k ensures Base(h) in Group(table, k) {
        if h != table[0] {
          assert h in table[1..];
        }
      }
    }
  }

  /** The partition holds one observation per table row of its manager and
      ticker, in table order: `idx` lists exactly the positions of those rows,
      increasing, and the p-th observation is the `base` row of the p-th of
      them. Rows that map to equal observations (an original filing and its
      amendment with the same figures) are both kept. */
  lemma {:induction false} GroupPositions(table: seq<HoldingsDb.Holding>, k: PartKey) returns (idx: seq<nat>)
    ensures FirstOccurrence.Increasing(idx)
    ensures |idx| == |Group(table, k)|
    ensures forall p :: 0 <= p < |idx| ==> idx[p] < |table| && Group(table, k)[p] == Base(table[idx[p]])
    ensures forall i :: 0 <= i < |table| ==> (i in idx <==> PartKeyOf(table[i]) == k)
  {
    if table == [] {
      idx := [];
    } else {
      var rest := GroupPositions(table[1..], k);
      FirstOccurrence.ShiftFacts(rest);
      idx := GroupPositionsStep(table, k, rest);
    }
  }

  lemma GroupPositionsStep(table: seq<HoldingsDb.Holding>, k: PartKey, rest: seq<nat>) returns (idx: seq<nat>)
    requires table != []
    requires FirstOccurrence.Increasing(FirstOccurrence.Shift(rest))
    requires FirstOccurrence.Increasing([0] + FirstOccurrence.Shift(rest))
    requires forall i: nat :: i in FirstOccurrence.Shift(rest) <==> i >= 1 && i - 1 in rest
    requires |rest| == |Group(table[1..], k)|
    requires forall p :: 0 <= p < |rest| ==> rest[p] < |table[1..]| && Group(table[1..], k)[p] == Base(table[1..][rest[p]])
    requires forall i :: 0 <= i < |table[1..]| ==> (i in rest <==> PartKeyOf(table[1..][i]) == k)
    ensures FirstOccurrence.Increasing(idx)
    ensures |idx| == |Group(table, k)|
    ensures forall p :: 0 <= p < |idx| ==> idx[p] < |table| && Group(table, k)[p] == Base(table[idx[p]])
    ensures forall i :: 0 <= i < |table| ==> (i in idx <==> PartKeyOf(table[i]) == k)
  {
    var sh := FirstOccurrence.Shift(rest);
    var head := if PartKeyOf(table[0]) == k then [Base(table[0])] else [];
    var g, gr := Group(table, k), Group(table[1..], k);
    assert g == head + gr;
    idx := if PartKeyOf(table[0]) == k then [0] + sh else sh;
    forall p | 0 <= p < |idx| ensures idx[p] < |table| && g[p] == Base(table[idx[p]]) {
      if p >= |head| {
        var q := p - |head|;
        assert idx[p] == rest[q] + 1 && g[p] == gr[q];
        assert table[idx[p]] == table[1..][rest[q]];
      }
    }
    forall i | 0 <= i < |table| ensures (i in idx <==> PartKeyOf(table[i]) == k) {
      if i > 0 {
        assert table[i] == table[1..][i - 1];
        assert i in idx <==> i in sh;
      } else {
        assert 0 !in sh;
      }
    }
  }

  /** The number of table rows of one manager and ticker. */
  function CountRows(table: seq<HoldingsDb.Holding>, k: PartKey): nat
  {
    if table == [] then 0 else (if PartKeyOf(table[0]) == k then 1 else 0) + CountRows(table[1..], k)
  }

  lemma {:induction false} GroupCount(table: seq<HoldingsDb.Holding>, k: PartKey)
    ensures |Group(table, k)| == CountRows(table, k)
  {
    if table != [] {
      GroupCount(table[1..], k);
    }
  }

  /** n stored rows of one manager and ticker give n - 1 trades (none when
      there are no rows). */
  lemma TradeCount(table: seq<HoldingsDb.Holding>, k: PartKey)
    ensures |TradesOf(InferTrades(table), k)| == if CountRows(table, k) == 0 then 0 else CountRows(table, k) - 1
  {
    PartitionTrades(table, k);
    GroupCount(table, k);
  }

  /** A partition of n rows yields n - 1 trades, and each is a row of the
      partition set against the row just before it in period order. */
  lemma PartitionTrades(table: seq<HoldingsDb.Holding>, k: PartKey)
    ensures var g := SortByQuarter(Group(table, k));
      && |TradesOf(InferTrades(table), k)| == (if g == [] then 0 else |g| - 1)
      && forall i :: 0 <= i < |TradesOf(InferTrades(table), k)| ==>
           TradesOf(InferTrades(table), k)[i] == TradeOf(g[i + 1], g[i].qty)
    ensures |SortByQuarter(Group(table, k))| == |Group(table, k)|
  {
    TradesPerPartition(table, k);
  }

  function SumDeltas(ts: seq<Trade>): real
  {
    if ts == [] then 0.0 else ts[0].delta + SumDeltas(ts[1..])
  }

  lemma {:induction false} LaggedTelescopes(g: seq<Observation>)
    requires g != []
    ensures SumDeltas(Lagged(g)) == g[|g| - 1].qty - g[0].qty
  {
    if |g| >= 2 {
      LaggedTelescopes(g[1..]);
      var r := Lagged(g);
      assert r[0] == TradeOf(g[1], g[0].qty);
      assert r[1..] == Lagged(g[1..]);
    }
  }

  /** The deltas of one manager and ticker add up to the last proxy minus the
      first, in period order. */
  lemma PartitionDeltasTelescope(table: seq<HoldingsDb.Holding>, k: PartKey)
    requires Group(table, k) != []
    ensures var g := SortByQuarter(Group(table, k));
      SumDeltas(TradesOf(InferTrades(table), k)) == g[|g| - 1].qty - g[0].qty
  {
    TradesPerPartition(table, k);
    LaggedTelescopes(SortByQuarter(Group(table, k)));
  }

  /** ORDER BY ticker, manager, quarter. */
  predicate TradeLe(a: Trade, b: Trade)
  {
    KeyLt(TradeKey(a), TradeKey(b)) || (TradeKey(a) == TradeKey(b) && Text.LexLe(a.quarter, b.quarter))
  }

  lemma {:induction false} BlocksSorted(table: seq<HoldingsDb.Holding>, ks: seq<PartKey>)
    requires StrictlySorted(ks)
    ensures Sorting.Sorted(TradeLe, Blocks(table, ks))
    ensures forall t :: t in Blocks(table, ks) ==> TradeKey(t) in ks
  {
    if ks != [] {
      var a := Block(table, ks[0]);
      var b := Blocks(table, ks[1..]);
      BlockFacts(table, ks[0]);
      assert StrictlySorted(ks[1..]);
      BlocksSorted(table, ks[1..]);
      forall x, y | x in a && y in b ensures TradeLe(x, y) {
        var j :| 0 <= j < |ks[1..]| && ks[1..][j] == TradeKey(y);
        assert KeyLt(ks[0], ks[j + 1]);
      }
      Sorting.SortedAppend(TradeLe, a, b);
    }
  }

  /** The output is ordered by ticker, then manager, then period. */
  lemma InferTradesSorted(table: seq<HoldingsDb.Holding>)
    ensures Sorting.Sorted(TradeLe, InferTrades(table))
  {
    PartitionsSorted(table);
    BlocksSorted(table, Partitions(table));
  }

  // ---------------------------------------------------------------------------
  // One row per manager, ticker and period

  /** No two rows of one manager and ticker report the same period (an
      amended filing stored beside the original breaks this). */
  ghost predicate OnePeriodPerPartition(table: seq<HoldingsDb.Holding>)
  {
    forall i, j :: 0 <= i < |table| && 0 <= j < |table| && i != j && PartKeyOf(table[i]) == PartKeyOf(table[j]) ==>
      table[i].quarter != table[j].quarter
  }

  ghost predicate DistinctQuarters(g: seq<Observation>)
  {
    forall i, j :: 0 <= i < j < |g| ==> g[i].quarter != g[j].quarter
  }

  lemma {:induction false} GroupDistinctQuarters(table: seq<HoldingsDb.Holding>, k: PartKey)
    requires OnePeriodPerPartition(table)
    ensures DistinctQuarters(Group(table, k))
  {
    if table != [] {
      OnePeriodTail(table);
      GroupDistinctQuarters(table[1..], k);
      if PartKeyOf(table[0]) == k {
        GroupHeadDistinct(table, k);
      }
    }
  }

  lemma OnePeriodTail(table: seq<HoldingsDb.Holding>)
    requires table != [] && OnePeriodPerPartition(table)
    ensures OnePeriodPerPartition(table[1..])
  {
    var rest := table[1..];
    forall i, j | 0 <= i < |rest| && 0 <= j < |rest| && i != j && PartKeyOf(rest[i]) == PartKeyOf(rest[j])
      ensures rest[i].quarter != rest[j].quarter
    {
      assert rest[i] == table[i + 1] && rest[j] == table[j + 1];
    }
  }

  /** The first row of a partition that the table starts with has a period no
      later row of that partition shares. */
  lemma GroupHeadDistinct(table: seq<HoldingsDb.Holding>, k: PartKey)
    requires table != [] && PartKeyOf(table[0]) == k && OnePeriodPerPartition(table)
    requires DistinctQuarters(Group(table[1..], k))
    ensures DistinctQuarters(Group(table, k))
  {
    var rest := table[1..];
    var g := Group(table, k);
    assert g == [Base(table[0])] + Group(rest, k);
    forall j | 1 <= j < |g| ensures g[0].quarter != g[j].quarter {
      assert g[j] in Group(rest, k);
      var h :| h in rest && PartKeyOf(h) == k && Base(h) == g[j];
      var m :| 0 <= m < |rest| && rest[m] == h;
      assert table[m + 1] == h;
    }
    forall i, j | 1 <= i < j < |g| ensures g[i].quarter != g[j].quarter {
      assert g[i] == Group(rest, k)[i - 1] && g[j] == Group(rest, k)[j - 1];
    }
  }

  lemma {:induction false} InsertDistinctQuarters(x: Observation, s: seq<Observation>)
    requires DistinctQuarters(s)
    requires forall o :: o in s ==> o.quarter != x.quarter
    ensures DistinctQuarters(Sorting.Insert(QuarterLe, x, s))
  {
    if s != [] && !QuarterLe(x, s[0]) {
      assert DistinctQuarters(s[1..]);
      InsertDistinctQuarters(x, s[1..]);
      Sorting.InsertPermutes(QuarterLe, x, s[1..]);
      var r := Sorting.Insert(QuarterLe, x, s[1..]);
      forall j | 0 <= j < |r| ensures s[0].quarter != r[j].quarter {
        assert r[j] in multiset(r);
        if r[j] != x {
          assert r[j] in multiset(s[1..]);
          var m :| 0 <= m < |s[1..]| && s[1..][m] == r[j];
          assert s[m + 1] == r[j];
        }
      }
    }
  }

  lemma {:induction false} SortDistinctQuarters(g: seq<Observation>)
    requires DistinctQuarters(g)
    ensures DistinctQuarters(SortByQuarter(g))
  {
    if g != [] {
      assert DistinctQuarters(g[1..]);
      SortDistinctQuarters(g[1..]);
      var s := SortByQuarter(g[1..]);
      QuarterLeTotalPreorder();
      Sorting.SortCorrect(QuarterLe, g[1..]);
      forall o | o in s ensures o.quarter != g[0].quarter {
        assert o in multiset(g[1..]);
        var m :| 0 <= m < |g[1..]| && g[1..][m] == o;
        assert g[m + 1] == o;
      }
      InsertDistinctQuarters(g[0], s);
    }
  }

  lemma SortedHeadFirst(g: seq<Observation>)
    requires g != [] && Sorting.Sorted(QuarterLe, g)
    ensures forall o :: o in g ==> Text.LexLe(g[0].quarter, o.quarter)
  {
    forall o | o in g ensures Text.LexLe(g[0].quarter, o.quarter) {
      var m :| 0 <= m < |g| && g[m] == o;
      if m == 0 {
        Text.LexLeRefl(o.quarter);
      } else {
        assert QuarterLe(g[0], g[m]);
      }
    }
  }

  lemma HeadBefore(g: seq<Observation>, i: nat)
    requires 0 < i < |g| && Sorting.Sorted(QuarterLe, g) && DistinctQuarters(g)
    ensures Text.LexLt(g[0].quarter, g[i].quarter)
  {
    assert QuarterLe(g[0], g[i]);
  }

  lemma LaggedAfterHead(g: seq<Observation>)
    requires g != [] && Sorting.Sorted(QuarterLe, g) && DistinctQuarters(g)
    ensures forall i :: 0 <= i < |Lagged(g)| ==> Text.LexLt(g[0].quarter, Lagged(g)[i].quarter)
  {
    var r := Lagged(g);
    forall i | 0 <= i < |r| ensures Text.LexLt(g[0].quarter, r[i].quarter) {
      HeadBefore(g, i + 1);
      assert r[i].quarter == g[i + 1].quarter;
    }
  }

  /** With one row per period, the first row of a partition in period order is
      strictly earlier than every row that becomes a trade: the earliest row
      never appears as a trade. */
  lemma EarliestRowNeverTraded(table: seq<HoldingsDb.Holding>, k: PartKey)
    requires OnePeriodPerPartition(table)
    requires Group(table, k) != []
    ensures var g := SortByQuarter(Group(table, k));
      && (forall o :: o in Group(table, k) ==> Text.LexLe(g[0].quarter, o.quarter))
      && (forall t :: t in TradesOf(InferTrades(table), k) ==> Text.LexLt(g[0].quarter, t.quarter))
  {
    var g0 := Group(table, k);
    var g := SortByQuarter(g0);
    SortedGroup(table, k);
    GroupDistinctQuarters(table, k);
    SortDistinctQuarters(g0);
    SortedHeadFirst(g);
    forall o | o in g0 ensures o in g {
      assert o in multiset(g0);
    }
    TradesPerPartition(table, k);
    LaggedAfterHead(g);
    var r := Lagged(g);
    forall t | t in r ensures Text.LexLt(g[0].quarter, t.quarter) {
      var i :| 0 <= i < |r| && r[i] == t;
    }
  }

  // ---------------------------------------------------------------------------
  // Independence from the physical order of the table

  lemma {:induction false} GroupAppend(a: seq<HoldingsDb.Holding>, b: seq<HoldingsDb.Holding>, k: PartKey)
    ensures Group(a + b, k) == Group(a, k) + Group(b, k)
  {
    if a == [] {
      assert a + b == b;
    } else {
      assert (a + b)[0] == a[0] && (a + b)[1..] == a[1..] + b;
      GroupAppend(a[1..], b, k);
    }
  }

  lemma MultisetRemove<T>(s: seq<T>, i: nat)
    requires i < |s|
    ensures multiset(s[..i] + s[i + 1..]) == multiset(s) - multiset{s[i]}
  {
    assert s == s[..i] + [s[i]] + s[i + 1..];
  }

  lemma GroupRemove(t: seq<HoldingsDb.Holding>, i: nat, k: PartKey)
    requires i < |t|
    ensures multiset(Group(t, k)) == multiset(Group([t[i]], k)) + multiset(Group(t[..i] + t[i + 1..], k))
  {
    var left, right := t[..i], t[i + 1..];
    assert t == left + ([t[i]] + right);
    GroupAppend(left, [t[i]] + right, k);
    GroupAppend([t[i]], right, k);
    GroupAppend(left, right, k);
  }

  lemma {:induction false} GroupPermutation(t1: seq<HoldingsDb.Holding>, t2: seq<HoldingsDb.Holding>, k: PartKey)
    requires multiset(t1) == multiset(t2)
    ensures multiset(Group(t1, k)) == multiset(Group(t2, k))
    decreases |t1|
  {
    if t1 == [] {
      assert |t2| == |multiset(t2)| == 0;
    } else {
      var i := RemoveMatching(t1, t2);
      var r1, r2 := t1[..0] + t1[1..], t2[..i] + t2[i + 1..];
      GroupPermutation(r1, r2, k);
      GroupRemove(t1, 0, k);
      GroupRemove(t2, i, k);
    }
  }

  /** Taking the first element out of one list and one of its copies out of a
      permutation of it leaves two permutations of each other. */
  lemma RemoveMatching<T>(s1: seq<T>, s2: seq<T>) returns (i: nat)
    requires s1 != [] && multiset(s1) == multiset(s2)
    ensures i < |s2| && s2[i] == s1[0]
    ensures |s1[..0] + s1[1..]| < |s1|
    ensures multiset(s1[..0] + s1[1..]) == multiset(s2[..i] + s2[i + 1..])
  {
    assert s1[0] in multiset(s2);
    i :| 0 <= i < |s2| && s2[i] == s1[0];
    MultisetRemove(s1, 0);
    MultisetRemove(s2, i);
  }

  /** Two increasing lists of keys with the same elements are equal. */
  lemma {:induction false} StrictlySortedUnique(a: seq<PartKey>, b: seq<PartKey>)
    requires StrictlySorted(a) && StrictlySorted(b)
    requires forall x :: x in a <==> x in b
    ensures a == b
  {
    if a == [] {
      if b != [] {
        HeadIn(b);
        assert false;
      }
    } else if b == [] {
      HeadIn(a);
      assert false;
    } else {
      assert a[0] == b[0] by {
        assert a[0] in b && b[0] in a;
        if a[0] != b[0] {
          var i :| 0 <= i < |a| && a[i] == b[0];
          var j :| 0 <= j < |b| && b[j] == a[0];
          assert KeyLt(a[0], a[i]) && KeyLt(b[0], b[j]);
          KeyLtAsym(a[0], b[0]);
        }
      }
      assert StrictlySorted(a[1..]) && StrictlySorted(b[1..]);
      forall x ensures x in a[1..] <==> x in b[1..] {
        if x in a[1..] {
          var i :| 0 <= i < |a[1..]| && a[1..][i] == x;
          assert KeyLt(a[0], a[i + 1]);
          assert x in b;
        }
        if x in b[1..] {
          var j :| 0 <= j < |b[1..]| && b[1..][j] == x;
          assert KeyLt(b[0], b[j + 1]);
          assert x in a;
        }
      }
      StrictlySortedUnique(a[1..], b[1..]);
      assert a == [a[0]] + a[1..] && b == [b[0]] + b[1..];
    }
  }

  lemma {:induction false} BlocksAgree(t1: seq<HoldingsDb.Holding>, t2: seq<HoldingsDb.Holding>, ks: seq<PartKey>)
    requires forall k :: k in ks ==> Block(t1, k) == Block(t2, k)
    ensures Blocks(t1, ks) == Blocks(t2, ks)
  {
    if ks != [] {
      BlocksAgree(t1, t2, ks[1..]);
    }
  }

  lemma PartitionsAgree(t1: seq<HoldingsDb.Holding>, t2: seq<HoldingsDb.Holding>)
    requires multiset(t1) == multiset(t2)
    ensures Partitions(t1) == Partitions(t2)
  {
    PartitionsSorted(t1);
    PartitionsSorted(t2);
    forall x ensures x in Partitions(t1) <==> x in Partitions(t2) {
      if x in Partitions(t1) {
        var h :| h in t1 && PartKeyOf(h) == x;
        assert h in multiset(t2);
      }
      if x in Partitions(t2) {
        var h :| h in t2 && PartKeyOf(h) == x;
        assert h in multiset(t1);
      }
    }
    StrictlySortedUnique(Partitions(t1), Partitions(t2));
  }

  lemma DistinctQuartersNoTies(s: seq<Observation>)
    requires DistinctQuarters(s)
    ensures Sorting.NoTies(QuarterLe, s)
  {
    forall i, j | 0 <= i < |s| && 0 <= j < |s| && QuarterLe(s[i], s[j]) && QuarterLe(s[j], s[i])
      ensures s[i] == s[j]
    {
      Text.LexLeAntisym(s[i].quarter, s[j].quarter);
      assert i == j;
    }
  }

  lemma BlockAgrees(t1: seq<HoldingsDb.Holding>, t2: seq<HoldingsDb.Holding>, k: PartKey)
    requires multiset(t1) == multiset(t2)
    requires OnePeriodPerPartition(t1)
    ensures SortByQuarter(Group(t1, k)) == SortByQuarter(Group(t2, k))
  {
    var g1, g2 := Group(t1, k), Group(t2, k);
    GroupPermutation(t1, t2, k);
    SortedGroup(t1, k);
    SortedGroup(t2, k);
    GroupDistinctQuarters(t1, k);
    SortDistinctQuarters(g1);
    DistinctQuartersNoTies(SortByQuarter(g1));
    Sorting.SortedUnique(QuarterLe, SortByQuarter(g1), SortByQuarter(g2));
  }

  /** When no manager reports a ticker twice for one period, the result does
      not depend on the order in which the table stores its rows. */
  lemma InferTradesOrderIndependent(t1: seq<HoldingsDb.Holding>, t2: seq<HoldingsDb.Holding>)
    requires multiset(t1) == multiset(t2)
    requires OnePeriodPerPartition(t1)
    ensures InferTrades(t1) == InferTrades(t2)
  {
    PartitionsAgree(t1, t2);
    forall k ensures Block(t1, k) == Block(t2, k) {
      BlockAgrees(t1, t2, k);
    }
    BlocksAgree(t1, t2, Partitions(t1));
  }
}
