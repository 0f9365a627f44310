/**
 * build_transactions_table: the sales table repeats a store's daily transaction count on
 * every product-family row, so the transactions table keeps one row per (date, store).
 */
module Transactions {
  import opened Wrappers
  import opened Frames
  import opened Archive
  import opened Loader

  /** The columns build_transactions_table keeps, when the table has them. */
  const TxColumns: seq<string> := ["date", "store_nbr", "state", "city", "transactions", "year"]

  lemma TxColumnsDistinct()
    ensures Distinct(TxColumns)
  {
  }

  /** The drop_duplicates subset; two missing values count as equal, as pandas does. */
  function Key(r: Record): (Option<Value>, Option<Value>) {
    (Get(r, "date"), Get(r, "store_nbr"))
  }

  /** No earlier row has the key of row j. */
  predicate IsFirst(rs: seq<Record>, j: int)
    requires 0 <= j < |rs|
  {
    forall k :: 0 <= k < j ==> Key(rs[k]) != Key(rs[j])
  }

  /** The rows drop_duplicates(keep="first") keeps: the first of each key, in order. */
  function FirstIndices(rs: seq<Record>): (idx: seq<int>)
    ensures Increasing(idx, |rs|)
    ensures forall j :: 0 <= j < |rs| ==> (j in idx <==> IsFirst(rs, j))
  {
    if rs == [] then []
    else
      var n := |rs| - 1;
      var front := FirstIndices(rs[..n]);
      assert forall j :: 0 <= j < n ==> (IsFirst(rs, j) <==> IsFirst(rs[..n], j)) by {
        forall j | 0 <= j < n ensures IsFirst(rs, j) <==> IsFirst(rs[..n], j) {
          assert forall k :: 0 <= k <= j ==> rs[..n][k] == rs[k];
        }
      }
      front + (if IsFirst(rs, n) then [n] else [])
  }

  /** The picked rows are first rows, and every first row is picked. */
  lemma FirstRowsPicked(rs: seq<Record>)
    ensures var idx := FirstIndices(rs);
      && |idx| <= |rs|
      && (forall j :: 0 <= j < |idx| ==> IsFirst(rs, idx[j]))
      && (forall k :: 0 <= k < |rs| && IsFirst(rs, k) ==> rs[k] in Pick(rs, idx))
  {
    var idx := FirstIndices(rs);
    IncreasingLength(idx, |rs|);
    forall j | 0 <= j < |idx| ensures IsFirst(rs, idx[j]) {
      assert idx[j] in idx;
    }
    forall k | 0 <= k < |rs| && IsFirst(rs, k) ensures rs[k] in Pick(rs, idx) {
      var j :| 0 <= j < |idx| && idx[j] == k;
      assert Pick(rs, idx)[j] == rs[k];
    }
  }

  /** df.drop_duplicates(subset=["date", "store_nbr"]) */
  function DropDuplicates(t: DataFrame): (r: DataFrame)
    ensures r.columns == t.columns
    ensures r.rows == Pick(t.rows, FirstIndices(t.rows))
  {
    var rows := Pick(t.rows, FirstIndices(t.rows));
    assert forall x :: x in rows ==> x in t.rows;
    Table(t.columns, rows)
  }

  /**
   * keep="first" in full: at most as many rows as the table, row j is the table's row at the
   * j-th position that is the first of its key, and every first row of a key is kept.
   */
  lemma DropDuplicatesKeeps(t: DataFrame)
    ensures var r, idx := DropDuplicates(t), FirstIndices(t.rows);
      && r.columns == t.columns
      && |r.rows| == |idx| <= |t.rows|
      && (forall j :: 0 <= j < |r.rows| ==> IsFirst(t.rows, idx[j]) && r.rows[j] == t.rows[idx[j]])
      && (forall k :: 0 <= k < |t.rows| && IsFirst(t.rows, k) ==> t.rows[k] in r.rows)
  {
    FirstRowsPicked(t.rows);
  }

  /** The projection onto the listed columns, deduplicated on (date, store_nbr): the first row of each key. */
  function Base(df: DataFrame): (b: DataFrame)
    ensures Distinct(TxColumns)
    ensures b.columns == Present(TxColumns, df.columns)
    ensures |b.rows| == |FirstIndices(df.rows)|
    ensures forall j :: 0 <= j < |b.rows| ==> b.rows[j] == Project(df, TxColumns).rows[FirstIndices(df.rows)[j]]
  {
    TxColumnsDistinct();
    KeysProjected(df);
    DropDuplicates(Project(df, TxColumns))
  }

  /** build_transactions_table(df): projection, deduplication, then transactions made numeric. */
  function BuildTransactions(df: DataFrame, p: Parsers): Result<DataFrame, LoadError> {
    var base := Base(df);
    if "date" !in base.columns then Err(MissingColumn("date"))
    else if "store_nbr" !in base.columns then Err(MissingColumn("store_nbr"))
    else if "transactions" !in base.columns then Err(MissingColumn("transactions"))
    else Ok(Retype(base, "transactions", ToRealOrZero, p))
  }

  /** The table fails to build exactly when one of the three columns it names is absent. */
  lemma TransactionsFailure(df: DataFrame, p: Parsers)
    ensures BuildTransactions(df, p).Err? <==>
      "date" !in df.columns || "store_nbr" !in df.columns || "transactions" !in df.columns
    ensures BuildTransactions(df, p).Err? ==>
      (BuildTransactions(df, p).error ==
        if "date" !in df.columns then MissingColumn("date")
        else if "store_nbr" !in df.columns then MissingColumn("store_nbr")
        else MissingColumn("transactions"))
  {
    TxColumnsDistinct();
  }

  /**
   * Row r of the transactions table stems from the sales row src: same label, the listed
   * cells copied (the others absent), transactions made numeric with 0.0 for a missing value.
   */
  ghost predicate TxRowOf(r: Record, src: Record, p: Parsers) {
    && r.index == src.index
    && Key(r) == Key(src)
    && (forall c :: c != "transactions" ==> Get(r, c) == if c in TxColumns then Get(src, c) else None)
    && Get(r, "transactions") == Some(Num(Numeric(Get(src, "transactions"), p).GetOr(0.0)))
  }

  /** A transactions row is determined by the input row it comes from. */
  lemma TxRowUnique(r: Record, r': Record, src: Record, p: Parsers)
    requires TxRowOf(r, src, p) && TxRowOf(r', src, p)
    ensures r == r'
  {
    forall c ensures Get(r, c) == Get(r', c) {
      if c != "transactions" {
        assert Get(r, c) == if c in TxColumns then Get(src, c) else None;
      }
    }
    RecordsEqual(r, r');
  }

  /** Row j of the deduplicated projection is the j-th first row, projected. */
  lemma BaseRow(df: DataFrame, j: int)
    requires 0 <= j < |FirstIndices(df.rows)|
    ensures var b, src := Base(df), df.rows[FirstIndices(df.rows)[j]];
      && b.rows[j].index == src.index
      && forall c :: Get(b.rows[j], c) == if c in TxColumns then Get(src, c) else None
  {
    var idx := FirstIndices(df.rows);
    assert Base(df).rows[j] == Project(df, TxColumns).rows[idx[j]];
  }

  /** Row j of the transactions table comes from the j-th first row of its key. */
  lemma TransactionsRow(df: DataFrame, p: Parsers, j: int)
    requires BuildTransactions(df, p).Ok? && 0 <= j < |FirstIndices(df.rows)|
    ensures |BuildTransactions(df, p).value.rows| == |FirstIndices(df.rows)|
    ensures TxRowOf(BuildTransactions(df, p).value.rows[j], df.rows[FirstIndices(df.rows)[j]], p)
  {
    var b, src := Base(df), df.rows[FirstIndices(df.rows)[j]];
    var t := Retype(b, "transactions", ToRealOrZero, p);
    BaseRow(df, j);
    var r := t.rows[j];
    assert Get(r, "transactions") == Coerce(ToRealOrZero, Get(b.rows[j], "transactions"), p);
    assert Get(b.rows[j], "transactions") == Get(src, "transactions");
    assert Key(r) == Key(src) by {
      assert Get(r, "date") == Get(b.rows[j], "date") == Get(src, "date");
      assert Get(r, "store_nbr") == Get(b.rows[j], "store_nbr") == Get(src, "store_nbr");
    }
  }

  /**
   * The transactions table: the listed columns the table has, and for each (date, store) key
   * the first row carrying it, in order, with transactions made numeric (0.0 when missing).
   */
  lemma TransactionsRows(df: DataFrame, p: Parsers)
    requires BuildTransactions(df, p).Ok?
    ensures var t, idx := BuildTransactions(df, p).value, FirstIndices(df.rows);
      && t.columns == Present(TxColumns, df.columns)
      && |t.rows| == |idx|
      && forall j :: 0 <= j < |idx| ==> TxRowOf(t.rows[j], df.rows[idx[j]], p)
  {
    TxColumnsDistinct();
    var t, idx := BuildTransactions(df, p).value, FirstIndices(df.rows);
    forall j | 0 <= j < |idx| ensures TxRowOf(t.rows[j], df.rows[idx[j]], p) {
      TransactionsRow(df, p, j);
    }
  }

  /** Projecting onto the listed columns keeps every row's key, hence the same first rows. */
  lemma KeysProjected(df: DataFrame)
    ensures Distinct(TxColumns)
    ensures forall i :: 0 <= i < |df.rows| ==> Key(Project(df, TxColumns).rows[i]) == Key(df.rows[i])
    ensures FirstIndices(Project(df, TxColumns).rows) == FirstIndices(df.rows)
  {
    TxColumnsDistinct();
    var proj := Project(df, TxColumns);
    SameKeysSameFirsts(proj.rows, df.rows);
  }

  /** Which rows are first depends on the keys alone. */
  lemma {:induction false} SameKeysSameFirsts(xs: seq<Record>, ys: seq<Record>)
    requires |xs| == |ys|
    requires forall i :: 0 <= i < |xs| ==> Key(xs[i]) == Key(ys[i])
    ensures FirstIndices(xs) == FirstIndices(ys)
  {
    if xs != [] {
      var n := |xs| - 1;
      SameKeysSameFirsts(xs[..n], ys[..n]);
      assert IsFirst(xs, n) <==> IsFirst(ys, n);
    }
  }

  /** No key occurs twice among the kept rows. */
  lemma KeysDistinct(rs: seq<Record>)
    ensures var idx := FirstIndices(rs);
      forall j, k :: 0 <= j < k < |idx| ==> Key(rs[idx[j]]) != Key(rs[idx[k]])
  {
    var idx := FirstIndices(rs);
    forall j, k | 0 <= j < k < |idx| ensures Key(rs[idx[j]]) != Key(rs[idx[k]]) {
      assert idx[k] in idx;
      assert IsFirst(rs, idx[k]);
    }
  }

  /** Every key of the input is kept, by the first row that carries it. */
  lemma KeyKept(rs: seq<Record>, i: int) returns (j: int)
    requires 0 <= i < |rs|
    ensures 0 <= j < |FirstIndices(rs)|
    ensures var k := FirstIndices(rs)[j];
      k <= i && Key(rs[k]) == Key(rs[i]) && forall m :: 0 <= m < k ==> Key(rs[m]) != Key(rs[i])
    decreases i
  {
    var idx := FirstIndices(rs);
    if IsFirst(rs, i) {
      assert i in idx;
      j :| 0 <= j < |idx| && idx[j] == i;
    } else {
      var m :| 0 <= m < i && Key(rs[m]) == Key(rs[i]);
      j := KeyKept(rs, m);
    }
  }

  /**
   * The table built without dropping duplicates: what summing transactions over the sales
   * rows directly would add up.
   */
  function UndedupedTransactions(df: DataFrame, p: Parsers): DataFrame {
    TxColumnsDistinct();
    Retype(Project(df, TxColumns), "transactions", ToRealOrZero, p)
  }

  /** The kept rows are the undeduplicated rows at the first positions, as far as transactions go. */
  lemma KeptAreFirstRows(df: DataFrame, p: Parsers)
    requires BuildTransactions(df, p).Ok?
    ensures var full, idx := UndedupedTransactions(df, p), FirstIndices(df.rows);
      && Increasing(idx, |full.rows|)
      && SumBy(BuildTransactions(df, p).value.rows, "transactions") == SumBy(Pick(full.rows, idx), "transactions")
  {
    TxColumnsDistinct();
    var full, idx := UndedupedTransactions(df, p), FirstIndices(df.rows);
    var t := BuildTransactions(df, p).value;
    var picked := Pick(full.rows, idx);
    TransactionsRows(df, p);
    var proj := Project(df, TxColumns);
    forall j | 0 <= j < |idx| ensures Get(t.rows[j], "transactions") == Get(picked[j], "transactions") {
      var k := idx[j];
      assert TxRowOf(t.rows[j], df.rows[k], p);
      assert picked[j] == full.rows[k];
      assert Get(full.rows[k], "transactions") == Coerce(ToRealOrZero, Get(proj.rows[k], "transactions"), p);
      assert Get(proj.rows[k], "transactions") == Get(df.rows[k], "transactions");
    }
    SumByAgree(t.rows, picked, "transactions");
  }

  /** Dropping the duplicated rows never raises the transaction total. */
  lemma DedupSumAtMost(df: DataFrame, p: Parsers)
    requires BuildTransactions(df, p).Ok?
    requires NonNegative(UndedupedTransactions(df, p).rows, "transactions")
    ensures SumBy(BuildTransactions(df, p).value.rows, "transactions")
      <= SumBy(UndedupedTransactions(df, p).rows, "transactions")
  {
    KeptAreFirstRows(df, p);
    SumOfPickAtMost(UndedupedTransactions(df, p).rows, FirstIndices(df.rows), "transactions");
  }

  /**
   * A repeated (date, store) key carrying positive transactions is counted once: the
   * total falls strictly below the undeduplicated one.
   */
  lemma DedupSumBelow(df: DataFrame, p: Parsers, i: int, j: int)
    requires BuildTransactions(df, p).Ok?
    requires NonNegative(UndedupedTransactions(df, p).rows, "transactions")
    requires 0 <= i < j < |df.rows| && Key(df.rows[i]) == Key(df.rows[j])
    requires NumberOf(Get(UndedupedTransactions(df, p).rows[j], "transactions")) > 0.0
    ensures SumBy(BuildTransactions(df, p).value.rows, "transactions")
      < SumBy(UndedupedTransactions(df, p).rows, "transactions")
  {
    KeptAreFirstRows(df, p);
    assert j !in FirstIndices(df.rows) by {
      assert !IsFirst(df.rows, j);
    }
    SumOfPickBelow(UndedupedTransactions(df, p).rows, FirstIndices(df.rows), "transactions", j);
  }

  /** When no key repeats, nothing is dropped and the totals agree. */
  lemma DedupSumUnique(df: DataFrame, p: Parsers)
    requires BuildTransactions(df, p).Ok?
    requires forall i, j :: 0 <= i < j < |df.rows| ==> Key(df.rows[i]) != Key(df.rows[j])
    ensures SumBy(BuildTransactions(df, p).value.rows, "transactions")
      == SumBy(UndedupedTransactions(df, p).rows, "transactions")
  {
    KeptAreFirstRows(df, p);
    var full := UndedupedTransactions(df, p);
    AllFirst(df.rows);
    assert |full.rows| == |df.rows|;
    PickEvery(full.rows, FirstIndices(df.rows));
  }

  /** Picking every position in order gives the rows back. */
  lemma PickEvery(rs: seq<Record>, idx: seq<int>)
    requires idx == seq(|rs|, i => i)
    ensures Pick(rs, idx) == rs
  {
  }

  /** With no repeated key every row is first. */
  lemma {:induction false} AllFirst(rs: seq<Record>)
    requires forall i, j :: 0 <= i < j < |rs| ==> Key(rs[i]) != Key(rs[j])
    ensures FirstIndices(rs) == seq(|rs|, i => i)
  {
    if rs != [] {
      var n := |rs| - 1;
      AllFirst(rs[..n]);
      assert IsFirst(rs, n);
      assert seq(|rs|, i => i) == seq(n, i => i) + [n];
    }
  }

  /** build_transactions_table as the program runs it: base["transactions"] is overwritten in place. */
  method BuildTransactionsTable(df: DataFrame, p: Parsers) returns (r: Result<DataFrame, LoadError>)
    ensures r == BuildTransactions(df, p)
  {
    var f := new Frame(Base(df));
    if "date" !in f.columns {
      return Err(MissingColumn("date"));
    }
    if "store_nbr" !in f.columns {
      return Err(MissingColumn("store_nbr"));
    }
    if "transactions" !in f.columns {
      return Err(MissingColumn("transactions"));
    }
    f.Assign("transactions", CoerceColumn(ToRealOrZero, Column(f.Snapshot(), "transactions"), p));
    return Ok(f.Snapshot());
  }
}
