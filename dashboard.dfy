/**
 * The dashboard's figures, computed from the loaded sales table and the transactions
 * table: the period's overview counts, the rankings, the per-store and per-state views,
 * the promotion split and the daily series with its trailing mean over 14 daily rows.
 */
module Dashboard {
  import opened Wrappers
  import opened Calendar
  import opened Frames
  import opened Archive
  import opened Loader
  import opened DateFilter
  import opened Aggregates
  import opened Transactions

  /** The columns every loaded table has, which the views read without checking. */
  predicate Loaded(t: DataFrame) {
    && "date" in t.columns && "store_nbr" in t.columns && "sales" in t.columns
    && "onpromotion" in t.columns && "year" in t.columns && "month" in t.columns && "week" in t.columns
  }

  /** load_data's table has the columns the views rely on. */
  lemma LoadedColumns(df: DataFrame, p: Parsers)
    requires Normalize(df, p).Ok?
    ensures Loaded(Normalize(df, p).value)
  {
    NormalizeFailure(df, p);
    NormalizedRows(df, p);
    KnownNamesDiffer();
  }

  /** df_f and df_tx_f: the two tables over the chosen days. */
  datatype Period = Period(sales: DataFrame, transactions: DataFrame)

  /**
   * Both tables cut to the chosen days: each keeps its columns, and a row is kept exactly
   * when it is dated on one of those days; the base tables are values and stay as they are.
   */
  function Filtered(df: DataFrame, tx: DataFrame, start: Date, end: Date): (r: Period)
    requires ValidDate(start) && ValidDate(end)
    ensures r.sales.columns == df.columns && r.transactions.columns == tx.columns
    ensures forall x :: x in r.sales.rows <==> x in df.rows && OnDays(x, start, end)
    ensures forall x :: x in r.transactions.rows <==> x in tx.rows && OnDays(x, start, end)
  {
    FilterByDateMembers(df, start, end);
    FilterByDateMembers(tx, start, end);
    Period(FilterByDate(df, start, end), FilterByDate(tx, start, end))
  }

  /** A date's monthly period as text: its year and month, or "NaT" for a missing date. */
  datatype MonthText = YearMonth(year: int, month: int) | NaT

  function PeriodText(v: Option<Value>): MonthText {
    match v
    case Some(Time(m)) => YearMonth(m.date.year, m.date.month)
    case _ => NaT
  }

  /** The distinct month texts of the rows. */
  function MonthTexts(rs: seq<Record>): set<MonthText> {
    set i | 0 <= i < |rs| :: PeriodText(Get(rs[i], "date"))
  }

  /** The four counts at the top of the first tab. */
  datatype Overview = Overview(stores: nat, products: nat, states: nat, months: nat)

  /**
   * Distinct stores, product families (0 without a family column), states (0 without a state
   * column) and months with data, each counted over the period's rows.
   */
  function Kpis(t: DataFrame): (o: Overview)
    requires Loaded(t)
    ensures o.stores == |ValueSet(t.rows, "store_nbr")|
    ensures o.products == if "family" in t.columns then |ValueSet(t.rows, "family")| else 0
    ensures o.states == if "state" in t.columns then |ValueSet(t.rows, "state")| else 0
    ensures o.months == |MonthTexts(t.rows)|
  {
    Overview(
      NUnique(t.rows, "store_nbr"),
      if "family" in t.columns then NUnique(t.rows, "family") else 0,
      if "state" in t.columns then NUnique(t.rows, "state") else 0,
      |MonthTexts(t.rows)|)
  }

  /**
   * Over the filtered period no row lacks a date, so "NaT" is never counted, and a month
   * counts exactly when a row of the base table is dated in it on one of the chosen days.
   */
  lemma MonthsOfPeriod(t: DataFrame, start: Date, end: Date)
    requires ValidDate(start) && ValidDate(end)
    ensures var ms := MonthTexts(FilterByDate(t, start, end).rows);
      && NaT !in ms
      && forall mt :: mt in ms <==> exists x :: x in t.rows && OnDays(x, start, end) && PeriodText(Get(x, "date")) == mt
  {
    var rs := FilterByDate(t, start, end).rows;
    FilterByDateMembers(t, start, end);
    MonthTextsMembers(rs);
  }

  /** A month text is among the rows' exactly when some row's date gives it. */
  lemma MonthTextsMembers(rs: seq<Record>)
    ensures forall mt :: mt in MonthTexts(rs) <==> exists x :: x in rs && PeriodText(Get(x, "date")) == mt
  {
    forall mt ensures mt in MonthTexts(rs) <==> exists x :: x in rs && PeriodText(Get(x, "date")) == mt {
      if exists x :: x in rs && PeriodText(Get(x, "date")) == mt {
        var x :| x in rs && PeriodText(Get(x, "date")) == mt;
        var i :| 0 <= i < |rs| && rs[i] == x;
      }
    }
  }

  /** The ten product families with the most sales over the whole table (not the period). */
  function TopProducts(df: DataFrame): (r: Result<seq<Group>, LoadError>)
    requires Loaded(df)
    ensures r.Err? <==> "family" !in df.columns
    ensures r.Err? ==> r.error == MissingColumn("family")
    ensures r.Ok? ==> IsRanking(df.rows, "family", "sales", 10, r.value)
  {
    if "family" !in df.columns then Err(MissingColumn("family"))
    else
      TopNRanks(df.rows, "family", "sales", 10);
      Ok(TopN(df.rows, "family", "sales", 10))
  }

  /** Every store's sales over the whole table, largest first. */
  function StoreSales(df: DataFrame): (r: seq<Group>)
    requires Loaded(df)
    ensures IsRanking(df.rows, "store_nbr", "sales", NUnique(df.rows, "store_nbr"), r)
  {
    DescendingRanks(df.rows, "store_nbr", "sales");
    Descending(df.rows, "store_nbr", "sales")
  }

  /** The ten stores with the most sales on promoted rows (onpromotion > 0), over the whole table. */
  function PromoStores(df: DataFrame): (r: seq<Group>)
    requires Loaded(df)
    ensures IsRanking(Select(df.rows, Positive("onpromotion")), "store_nbr", "sales", 10, r)
  {
    var promoted := Select(df.rows, Positive("onpromotion"));
    TopNRanks(promoted, "store_nbr", "sales", 10);
    TopN(promoted, "store_nbr", "sales", 10)
  }

  /** The figures of the store tab. */
  datatype StoreSummary = StoreSummary(salesByYear: seq<Group>, sold: real, soldOnPromotion: real, families: nat)

  /**
   * The chosen store's rows of the period: their sales by year in year order, their total,
   * the part on promotion and the number of distinct families; without a family column the
   * tab fails.
   */
  function StoreView(t: DataFrame, store: int): (r: Result<StoreSummary, LoadError>)
    requires Loaded(t)
    ensures r.Err? <==> "family" !in t.columns
    ensures r.Err? ==> r.error == MissingColumn("family")
    ensures r.Ok? ==> var d := Select(t.rows, Equals("store_nbr", Int(store)));
      && IsKeyOrdered(d, "year", "sales", r.value.salesByYear)
      && r.value.sold == GroupSum(t.rows, "store_nbr", Int(store), "sales")
      && r.value.soldOnPromotion == SumBy(Select(d, Positive("onpromotion")), "sales")
      && r.value.families == |ValueSet(d, "family")|
  {
    var d := Select(t.rows, Equals("store_nbr", Int(store)));
    ByKeyOrders(d, "year", "sales");
    var split := Promotions(d);
    if "family" !in t.columns then Err(MissingColumn("family"))
    else Ok(StoreSummary(ByKey(d, "year", "sales"), split.total, split.promoted, NUnique(d, "family")))
  }

  /**
   * The store tab's yearly bars account for the whole of the store's "total sold": they add
   * up to it, less the sales of the store's rows that have no year.
   */
  lemma {:induction false} StoreYearsAddUp(t: DataFrame, store: int)
    requires Loaded(t) && "family" in t.columns
    ensures var d := Select(t.rows, Equals("store_nbr", Int(store)));
      GroupsTotal(StoreView(t, store).value.salesByYear) + SumBy(Select(d, Not(NotNull("year"))), "sales")
        == StoreView(t, store).value.sold
  {
    var d := Select(t.rows, Equals("store_nbr", Int(store)));
    ByKeyAddsUp(d, "year", "sales");
    SumSplits(d, NotNull("year"), "sales");
    assert StoreView(t, store).value.salesByYear == ByKey(d, "year", "sales");
  }

  /**
   * The transactions table built from a loaded table has the columns the state tab reads,
   * and its state column exactly when the loaded table has one.
   */
  lemma TransactionsOfLoaded(df: DataFrame, p: Parsers)
    requires Loaded(df) && BuildTransactions(df, p).Ok?
    ensures var tx := BuildTransactions(df, p).value;
      && "date" in tx.columns && "year" in tx.columns && "transactions" in tx.columns
      && ("state" in tx.columns <==> "state" in df.columns)
  {
    TransactionsRows(df, p);
  }

  /** Whether a row is on the chosen days depends on its date alone. */
  lemma SameDateSameDays(r: Record, s: Record, start: Date, end: Date)
    requires ValidDate(start) && ValidDate(end)
    requires Get(r, "date") == Get(s, "date")
    ensures OnDays(r, start, end) <==> OnDays(s, start, end)
  {
  }

  /**
   * df_tx_f as the program makes it, read through its source rows: the positions of df that
   * are first of their key and dated on the chosen days, in order, each row built from its own.
   */
  lemma FilteredTxSources(df: DataFrame, p: Parsers, start: Date, end: Date) returns (ks: seq<int>)
    requires ValidDate(start) && ValidDate(end) && BuildTransactions(df, p).Ok?
    ensures var r := FilterByDate(BuildTransactions(df, p).value, start, end);
      && Increasing(ks, |df.rows|)
      && (forall k :: 0 <= k < |df.rows| ==> (k in ks <==> k in FirstIndices(df.rows) && OnDays(df.rows[k], start, end)))
      && |r.rows| == |ks|
      && forall q :: 0 <= q < |ks| ==> TxRowOf(r.rows[q], df.rows[ks[q]], p)
  {
    var t := BuildTransactions(df, p).value;
    TransactionsRows(df, p);
    var a := FilterByDateKeeps(t, start, end);
    ks := DatedSources(t.rows, df.rows, FirstIndices(df.rows), a, p, start, end);
  }

  /** The dated rows of a table built row by row from some source rows, traced back to those. */
  lemma DatedSources(t: seq<Record>, src: seq<Record>, fi: seq<int>, a: seq<int>, p: Parsers, start: Date, end: Date)
    returns (ks: seq<int>)
    requires ValidDate(start) && ValidDate(end)
    requires |t| == |fi| && Increasing(fi, |src|)
    requires forall m :: 0 <= m < |fi| ==> TxRowOf(t[m], src[fi[m]], p)
    requires Increasing(a, |t|) && forall m :: 0 <= m < |t| ==> (m in a <==> OnDays(t[m], start, end))
    ensures Increasing(ks, |src|)
    ensures forall k :: 0 <= k < |src| ==> (k in ks <==> k in fi && OnDays(src[k], start, end))
    ensures |Pick(t, a)| == |ks| && forall q :: 0 <= q < |ks| ==> TxRowOf(Pick(t, a)[q], src[ks[q]], p)
  {
    var firsts := set k | k in fi;
    var dated := set k | 0 <= k < |src| && OnDays(src[k], start, end);
    forall m | 0 <= m < |fi| ensures m in a <==> fi[m] in dated {
      assert TxRowOf(t[m], src[fi[m]], p);
      SameDateSameDays(t[m], src[fi[m]], start, end);
    }
    ks := ComposePositions(fi, a, |src|, firsts, dated);
  }

  /** Rows on and off the chosen days carry different dates. */
  lemma DifferentDays(r: Record, s: Record, start: Date, end: Date)
    requires ValidDate(start) && ValidDate(end)
    requires OnDays(r, start, end) && !OnDays(s, start, end)
    ensures Get(r, "date") != Get(s, "date")
  {
  }

  /** Within the period's rows, a row is first of its key exactly when it is first in the whole table. */
  lemma FirstInPeriod(src: seq<Record>, start: Date, end: Date, j: seq<int>, x: int)
    requires ValidDate(start) && ValidDate(end)
    requires Increasing(j, |src|)
    requires forall k :: 0 <= k < |src| ==> (k in j <==> OnDays(src[k], start, end))
    requires 0 <= x < |j|
    ensures IsFirst(Pick(src, j), x) <==> IsFirst(src, j[x])
  {
    if IsFirst(Pick(src, j), x) {
      FirstOfPeriodIsFirst(src, start, end, j, x);
    }
    if IsFirst(src, j[x]) {
      var f := Pick(src, j);
      forall y | 0 <= y < x ensures Key(f[y]) != Key(f[x]) {
        assert j[y] < j[x];
      }
    }
  }

  /** A key's first row within the period's rows has no earlier row of that key in the whole table. */
  lemma FirstOfPeriodIsFirst(src: seq<Record>, start: Date, end: Date, j: seq<int>, x: int)
    requires ValidDate(start) && ValidDate(end)
    requires Increasing(j, |src|)
    requires forall k :: 0 <= k < |src| ==> (k in j <==> OnDays(src[k], start, end))
    requires 0 <= x < |j| && IsFirst(Pick(src, j), x)
    ensures IsFirst(src, j[x])
  {
    var f := Pick(src, j);
    assert j[x] in j;
    forall k | 0 <= k < j[x] ensures Key(src[k]) != Key(src[j[x]]) {
      if OnDays(src[k], start, end) {
        var y :| 0 <= y < |j| && j[y] == k;
        assert y < x;
        assert Key(f[y]) != Key(f[x]);
      } else {
        DifferentDays(src[j[x]], src[k], start, end);
      }
    }
  }

  /**
   * build_transactions_table of the period's rows, read through its source rows: the same
   * positions of df as FilteredTxSources gives.
   */
  lemma PeriodTxSources(df: DataFrame, p: Parsers, start: Date, end: Date) returns (ks: seq<int>)
    requires ValidDate(start) && ValidDate(end) && BuildTransactions(df, p).Ok?
    ensures BuildTransactions(FilterByDate(df, start, end), p).Ok?
    ensures var r := BuildTransactions(FilterByDate(df, start, end), p).value;
      && Increasing(ks, |df.rows|)
      && (forall k :: 0 <= k < |df.rows| ==> (k in ks <==> k in FirstIndices(df.rows) && OnDays(df.rows[k], start, end)))
      && |r.rows| == |ks|
      && forall q :: 0 <= q < |ks| ==> TxRowOf(r.rows[q], df.rows[ks[q]], p)
  {
    var f := FilterByDate(df, start, end);
    var j := FilterByDateKeeps(df, start, end);
    assert Base(f).columns == Base(df).columns;
    TransactionsRows(f, p);
    ks := FirstSources(BuildTransactions(f, p).value.rows, df.rows, j, p, start, end);
  }

  /** A table built row by row from the first rows of the dated source rows, traced back to those. */
  lemma FirstSources(r: seq<Record>, src: seq<Record>, j: seq<int>, p: Parsers, start: Date, end: Date)
    returns (ks: seq<int>)
    requires ValidDate(start) && ValidDate(end)
    requires Increasing(j, |src|) && forall k :: 0 <= k < |src| ==> (k in j <==> OnDays(src[k], start, end))
    requires |r| == |FirstIndices(Pick(src, j))|
    requires forall m :: 0 <= m < |r| ==> TxRowOf(r[m], Pick(src, j)[FirstIndices(Pick(src, j))[m]], p)
    ensures Increasing(ks, |src|)
    ensures forall k :: 0 <= k < |src| ==> (k in ks <==> k in FirstIndices(src) && OnDays(src[k], start, end))
    ensures |r| == |ks| && forall q :: 0 <= q < |ks| ==> TxRowOf(r[q], src[ks[q]], p)
  {
    var ff := FirstIndices(Pick(src, j));
    var firsts := set k | k in FirstIndices(src);
    var dated := set k | 0 <= k < |src| && OnDays(src[k], start, end);
    FirstsInPeriod(src, start, end, j, firsts);
    ks := ComposePositions(j, ff, |src|, dated, firsts);
    TracedRows(r, src, j, ff, ks, p);
  }

  /** Rows built from picked source rows are built from the source rows at the composed positions. */
  lemma TracedRows(r: seq<Record>, src: seq<Record>, j: seq<int>, ff: seq<int>, ks: seq<int>, p: Parsers)
    requires Increasing(j, |src|) && Increasing(ff, |j|)
    requires |r| == |ff| == |ks| && forall m :: 0 <= m < |ks| ==> ks[m] == j[ff[m]]
    requires forall m :: 0 <= m < |r| ==> TxRowOf(r[m], Pick(src, j)[ff[m]], p)
    ensures forall m :: 0 <= m < |ks| ==> TxRowOf(r[m], src[ks[m]], p)
  {
    forall m | 0 <= m < |ks| ensures TxRowOf(r[m], src[ks[m]], p) {
      assert Pick(src, j)[ff[m]] == src[j[ff[m]]];
    }
  }

  /** The first rows within the period's rows are the period's first rows of the whole table. */
  lemma FirstsInPeriod(src: seq<Record>, start: Date, end: Date, j: seq<int>, firsts: set<int>)
    requires ValidDate(start) && ValidDate(end)
    requires Increasing(j, |src|) && forall k :: 0 <= k < |src| ==> (k in j <==> OnDays(src[k], start, end))
    requires firsts == set k | k in FirstIndices(src)
    ensures forall x :: 0 <= x < |j| ==> (x in FirstIndices(Pick(src, j)) <==> j[x] in firsts)
  {
    forall x | 0 <= x < |j| ensures x in FirstIndices(Pick(src, j)) <==> j[x] in firsts {
      FirstInPeriod(src, start, end, j, x);
    }
  }

  /**
   * Cutting the transactions table to the chosen days gives the table build_transactions_table
   * makes of the period's rows: date is part of the deduplication key, so each key lies wholly
   * inside or wholly outside the period, and the deduplication lemmas hold for df_tx_f as well.
   */
  lemma FilterCommutesWithDedup(df: DataFrame, p: Parsers, start: Date, end: Date)
    requires ValidDate(start) && ValidDate(end) && BuildTransactions(df, p).Ok?
    ensures BuildTransactions(FilterByDate(df, start, end), p).Ok?
    ensures FilterByDate(BuildTransactions(df, p).value, start, end) == BuildTransactions(FilterByDate(df, start, end), p).value
  {
    var l := FilterByDate(BuildTransactions(df, p).value, start, end);
    var kl := FilteredTxSources(df, p, start, end);
    var kr := PeriodTxSources(df, p, start, end);
    var r := BuildTransactions(FilterByDate(df, start, end), p).value;
    IncreasingUnique(kl, kr, |df.rows|);
    SameSourcesSameRows(l.rows, r.rows, kl, df.rows, p);
    BuiltColumns(df, p);
    BuiltColumns(FilterByDate(df, start, end), p);
  }

  /** Two tables built row by row from the same source rows are the same rows. */
  lemma SameSourcesSameRows(l: seq<Record>, r: seq<Record>, ks: seq<int>, src: seq<Record>, p: Parsers)
    requires |l| == |ks| == |r| && Increasing(ks, |src|)
    requires forall q :: 0 <= q < |ks| ==> TxRowOf(l[q], src[ks[q]], p)
    requires forall q :: 0 <= q < |ks| ==> TxRowOf(r[q], src[ks[q]], p)
    ensures l == r
  {
    forall q | 0 <= q < |ks| ensures l[q] == r[q] {
      TxRowUnique(l[q], r[q], src[ks[q]], p);
    }
  }

  /** The transactions table has the listed columns the table has. */
  lemma BuiltColumns(df: DataFrame, p: Parsers)
    requires BuildTransactions(df, p).Ok?
    ensures BuildTransactions(df, p).value.columns == Present(TxColumns, df.columns)
  {
    TransactionsRows(df, p);
  }

  /** No double counting on the chosen days: the period's transaction total is at most the undeduplicated one. */
  lemma PeriodDedupSumAtMost(df: DataFrame, p: Parsers, start: Date, end: Date)
    requires ValidDate(start) && ValidDate(end) && BuildTransactions(df, p).Ok?
    requires NonNegative(UndedupedTransactions(FilterByDate(df, start, end), p).rows, "transactions")
    ensures SumBy(Filtered(df, BuildTransactions(df, p).value, start, end).transactions.rows, "transactions")
      <= SumBy(UndedupedTransactions(FilterByDate(df, start, end), p).rows, "transactions")
  {
    FilterCommutesWithDedup(df, p, start, end);
    DedupSumAtMost(FilterByDate(df, start, end), p);
  }

  /** The figures of the state tab. */
  datatype StateSummary = StateSummary(
    transactionsByYear: seq<Group>, storeRanking: seq<Group>, topProduct: Option<Group>, topProducts: seq<Group>)

  /**
   * The chosen state's rows of the period: transactions by year from the deduplicated table,
   * in year order; the ten stores with most sales; the best-selling family, when there is
   * one, and then the ten best. Without a state column the tab shows an error instead.
   */
  function StateView(t: DataFrame, tx: DataFrame, state: string): (r: Result<StateSummary, LoadError>)
    requires Loaded(t) && "year" in tx.columns && "transactions" in tx.columns
    ensures r.Err? <==> "state" !in t.columns || "state" !in tx.columns || "family" !in t.columns
    ensures r.Err? ==> r.error == if "state" !in t.columns || "state" !in tx.columns then MissingColumn("state") else MissingColumn("family")
    ensures r.Ok? ==>
      var d, dt := Select(t.rows, Equals("state", Str(state))), Select(tx.rows, Equals("state", Str(state)));
      && IsKeyOrdered(dt, "year", "transactions", r.value.transactionsByYear)
      && IsRanking(d, "store_nbr", "sales", 10, r.value.storeRanking)
      && (r.value.topProduct.Some? <==> NUnique(d, "family") > 0)
      && (r.value.topProduct.Some? ==>
            IsRanking(d, "family", "sales", 1, [r.value.topProduct.value]) && IsRanking(d, "family", "sales", 10, r.value.topProducts))
      && (r.value.topProduct.None? ==> r.value.topProducts == [])
  {
    if "state" !in t.columns || "state" !in tx.columns then Err(MissingColumn("state"))
    else if "family" !in t.columns then Err(MissingColumn("family"))
    else
      var d, dt := Select(t.rows, Equals("state", Str(state))), Select(tx.rows, Equals("state", Str(state)));
      ByKeyOrders(dt, "year", "transactions");
      TopNRanks(d, "store_nbr", "sales", 10);
      TopNRanks(d, "family", "sales", 1);
      TopNRanks(d, "family", "sales", 10);
      var best := TopN(d, "family", "sales", 1);
      if |best| > 0 then
        assert best == [best[0]];
        Ok(StateSummary(ByKey(dt, "year", "transactions"), TopN(d, "store_nbr", "sales", 10), Some(best[0]), TopN(d, "family", "sales", 10)))
      else
        Ok(StateSummary(ByKey(dt, "year", "transactions"), TopN(d, "store_nbr", "sales", 10), None, []))
  }

  /** The fifteen states with most sales over the period; shown only when there is a state column. */
  function StateRank(t: DataFrame): (r: Option<seq<Group>>)
    requires Loaded(t)
    ensures r.Some? <==> "state" in t.columns
    ensures r.Some? ==> IsRanking(t.rows, "state", "sales", 15, r.value)
  {
    if "state" in t.columns then
      TopNRanks(t.rows, "state", "sales", 15);
      Some(TopN(t.rows, "state", "sales", 15))
    else None
  }

  /** One row of the daily series: its date and that day's summed sales. */
  function DayRow(i: int, g: Group): (r: Record)
    ensures r.index == i && r.cells.Keys == {"date", "sales"}
    ensures Get(r, "date") == Some(g.key) && Get(r, "sales") == Some(Num(g.total))
  {
    Record(i, map["date" := g.key, "sales" := Num(g.total)])
  }

  /** The daily groups as a table labelled 0..n-1. */
  function DayTable(gs: seq<Group>): (d: DataFrame)
    ensures d.columns == ["date", "sales"] && |d.rows| == |gs|
    ensures forall i :: 0 <= i < |gs| ==> d.rows[i] == DayRow(i, gs[i])
  {
    var rows := seq(|gs|, i requires 0 <= i < |gs| => DayRow(i, gs[i]));
    assert forall r :: r in rows ==> r.cells.Keys == {"date", "sales"};
    Table(["date", "sales"], rows)
  }

  /** The daily series: the period's sales summed per date, in date order. */
  function Daily(t: DataFrame): (d: DataFrame)
    requires Loaded(t)
    ensures d.columns == ["date", "sales"] && |d.rows| == NUnique(t.rows, "date")
  {
    ByKeyOrders(t.rows, "date", "sales");
    DayTable(ByKey(t.rows, "date", "sales"))
  }

  /**
   * The daily table has one row per date with data, labelled 0..n-1, dates strictly
   * increasing, each with the total of that date's sales.
   */
  lemma DailyMeaning(t: DataFrame)
    requires Loaded(t)
    ensures var d := Daily(t);
      && (forall i :: 0 <= i < |d.rows| ==> d.rows[i].index == i)
      && (forall i :: 0 <= i < |d.rows| ==>
            Get(d.rows[i], "date").Some? && Occurs(t.rows, "date", Get(d.rows[i], "date").value)
            && Get(d.rows[i], "sales") == Some(Num(GroupSum(t.rows, "date", Get(d.rows[i], "date").value, "sales"))))
      && (forall i, j :: 0 <= i < j < |d.rows| ==>
            Get(d.rows[i], "date") != Get(d.rows[j], "date") && ValueLe(Get(d.rows[i], "date").value, Get(d.rows[j], "date").value))
      && (forall v :: Occurs(t.rows, "date", v) ==> exists i :: 0 <= i < |d.rows| && Get(d.rows[i], "date") == Some(v))
  {
    var gs := ByKey(t.rows, "date", "sales");
    ByKeyOrders(t.rows, "date", "sales");
    var d := Daily(t);
    forall i | 0 <= i < |d.rows|
      ensures d.rows[i].index == i
      ensures Get(d.rows[i], "date").Some? && Occurs(t.rows, "date", Get(d.rows[i], "date").value)
      ensures Get(d.rows[i], "sales") == Some(Num(GroupSum(t.rows, "date", Get(d.rows[i], "date").value, "sales")))
    {
      assert d.rows[i] == DayRow(i, gs[i]);
      assert IsGroupOf(t.rows, "date", "sales", gs[i]) by {
        assert gs[i] in gs;
      }
    }
    forall i, j | 0 <= i < j < |d.rows|
      ensures Get(d.rows[i], "date") != Get(d.rows[j], "date")
      ensures ValueLe(Get(d.rows[i], "date").value, Get(d.rows[j], "date").value)
    {
      assert d.rows[i] == DayRow(i, gs[i]) && d.rows[j] == DayRow(j, gs[j]);
    }
    forall v | Occurs(t.rows, "date", v) ensures exists i :: 0 <= i < |d.rows| && Get(d.rows[i], "date") == Some(v) {
      var k := GroupIndex(t.rows, "date", "sales", gs, v);
      assert d.rows[k] == DayRow(k, gs[k]);
    }
  }

  /** daily["sales"] as numbers. */
  function SalesSeries(d: DataFrame): (xs: seq<real>)
    ensures |xs| == |d.rows| && forall i :: 0 <= i < |d.rows| ==> xs[i] == NumberOf(Get(d.rows[i], "sales"))
  {
    seq(|d.rows|, i requires 0 <= i < |d.rows| => NumberOf(Get(d.rows[i], "sales")))
  }

  /**
   * daily["sales"].rolling(14, min_periods=1).mean() as a column: cell i is the mean of the
   * sales of the up to 14 daily rows ending at row i. The window counts rows, not calendar
   * days: a date without rows has no daily row, so one window may span more than 14 days.
   */
  function RollingColumn(d: DataFrame): (col: seq<Option<Value>>)
    ensures |col| == |d.rows|
    ensures forall i :: 0 <= i < |col| ==>
      && col[i] == Some(Num(RollingMean(SalesSeries(d), 14)[i]))
      && col[i].value.r == Total(Window(SalesSeries(d), i, 14)) / (|Window(SalesSeries(d), i, 14)| as real)
  {
    var means := RollingMean(SalesSeries(d), 14);
    seq(|d.rows|, i requires 0 <= i < |d.rows| => Some(Num(means[i])))
  }

  /** daily["rolling_14"] = ...: the trailing mean is added in place as a new column. */
  method AddRolling(f: Frame)
    requires f.Valid()
    modifies f
    ensures f.Valid() && f.Snapshot() == AssignColumn(old(f.Snapshot()), "rolling_14", RollingColumn(old(f.Snapshot())))
  {
    f.Assign("rolling_14", RollingColumn(f.Snapshot()));
  }

  /** app.py lines 429-430 as the program runs them: the daily table, then its rolling column. */
  method DailyWithRolling(t: DataFrame) returns (d: DataFrame)
    requires Loaded(t)
    ensures d == AssignColumn(Daily(t), "rolling_14", RollingColumn(Daily(t)))
  {
    var f := new Frame(Daily(t));
    AddRolling(f);
    d := f.Snapshot();
  }

  /** When every day's sales lie within [lo, hi], so does every value of the trailing mean. */
  lemma RollingWithinDays(t: DataFrame, lo: real, hi: real)
    requires Loaded(t)
    requires forall i :: 0 <= i < |Daily(t).rows| ==> lo <= NumberOf(Get(Daily(t).rows[i], "sales")) <= hi
    ensures forall i :: 0 <= i < |Daily(t).rows| ==>
      RollingColumn(Daily(t))[i].Some? && RollingColumn(Daily(t))[i].value.Num? && lo <= RollingColumn(Daily(t))[i].value.r <= hi
  {
    var d := Daily(t);
    RollingMeanBounds(SalesSeries(d), 14, lo, hi);
  }
}
