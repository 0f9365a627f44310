/**
 * The dataframe the pipeline works on: named columns and labelled rows. A cell that
 * pandas holds as NaN, NaT or <NA> is a column name missing from the row's cells.
 */
module Frames {
  import opened Wrappers
  import opened Calendar

  /** A cell value: text, an integer, a real number standing in for a float, or a timestamp. */
  datatype Value = Str(s: string) | Int(i: int) | Num(r: real) | Time(t: Moment)

  /** One row: its index label and its non-missing cells. */
  datatype Record = Record(index: int, cells: map<string, Value>)

  datatype Table = Table(columns: seq<string>, rows: seq<Record>)

  predicate Distinct<T(==)>(s: seq<T>) {
    forall i, j :: 0 <= i < j < |s| ==> s[i] != s[j]
  }

  /** Column names are unique and every cell belongs to a column. */
  predicate WellFormed(t: Table) {
    && Distinct(t.columns)
    && forall r :: r in t.rows ==> forall c :: c in r.cells ==> c in t.columns
  }

  type DataFrame = t: Table | WellFormed(t) witness Table([], [])

  /** The cell of row r in column c; None is pandas' missing value. */
  function Get(r: Record, c: string): Option<Value> {
    if c in r.cells then Some(r.cells[c]) else None
  }

  /** df[c] as a sequence of cells. */
  function Column(t: Table, c: string): (col: seq<Option<Value>>)
    ensures |col| == |t.rows|
  {
    seq(|t.rows|, i requires 0 <= i < |t.rows| => Get(t.rows[i], c))
  }

  function SetCell(r: Record, c: string, v: Option<Value>): Record {
    match v
    case Some(x) => r.(cells := r.cells[c := x])
    case None => r.(cells := r.cells - {c})
  }

  lemma GetSetCell(r: Record, c: string, v: Option<Value>, c': string)
    ensures Get(SetCell(r, c, v), c') == if c' == c then v else Get(r, c')
  {
  }

  /** df[c] = col: replaces column c, or appends it when it is new; nothing else changes. */
  function AssignColumn(t: DataFrame, c: string, col: seq<Option<Value>>): (r: DataFrame)
    requires |col| == |t.rows|
    ensures r.columns == if c in t.columns then t.columns else t.columns + [c]
    ensures |r.rows| == |t.rows|
    ensures forall i :: 0 <= i < |t.rows| ==> r.rows[i].index == t.rows[i].index
    ensures forall i, c' :: 0 <= i < |t.rows| ==> Get(r.rows[i], c') == if c' == c then col[i] else Get(t.rows[i], c')
  {
    var columns := if c in t.columns then t.columns else t.columns + [c];
    var rows := seq(|t.rows|, i requires 0 <= i < |t.rows| => SetCell(t.rows[i], c, col[i]));
    forall i, c' | 0 <= i < |t.rows|
      ensures Get(rows[i], c') == if c' == c then col[i] else Get(t.rows[i], c')
      ensures c' in rows[i].cells ==> c' in columns
    {
      GetSetCell(t.rows[i], c, col[i], c');
      assert t.rows[i] in t.rows;
    }
    Table(columns, rows)
  }

  /** The names of xs that are not in ys, in the order of xs. */
  function Without(xs: seq<string>, ys: seq<string>): (r: seq<string>)
    ensures forall c :: c in r <==> c in xs && c !in ys
    ensures Distinct(xs) ==> Distinct(r)
  {
    if xs == [] then []
    else (if xs[0] in ys then [] else [xs[0]]) + Without(xs[1..], ys)
  }

  /** Taking away a name the list does not have changes nothing. */
  lemma WithoutAbsent(xs: seq<string>, c: string)
    requires c !in xs
    ensures Without(xs, [c]) == xs
  {
    if xs != [] {
      assert xs[0] !in [c];
      WithoutAbsent(xs[1..], c);
      assert xs == [xs[0]] + xs[1..];
    }
  }

  /** The names of xs that are in ys, in the order of xs: [c for c in xs if c in ys]. */
  function Present(xs: seq<string>, ys: seq<string>): (r: seq<string>)
    ensures forall c :: c in r <==> c in xs && c in ys
    ensures Distinct(xs) ==> Distinct(r)
  {
    if xs == [] then []
    else (if xs[0] in ys then [xs[0]] else []) + Present(xs[1..], ys)
  }

  lemma DistinctAppend(xs: seq<string>, ys: seq<string>)
    requires Distinct(xs) && Distinct(ys)
    requires forall c :: c in ys ==> c !in xs
    ensures Distinct(xs + ys)
  {
    forall i, j | 0 <= i < j < |xs + ys| ensures (xs + ys)[i] != (xs + ys)[j] {
      if i < |xs| && j >= |xs| {
        assert (xs + ys)[j] == ys[j - |xs|];
        assert ys[j - |xs|] in ys;
      }
    }
  }

  /**
   * pd.concat([a, b], ignore_index=True): the rows of a, then the rows of b, labelled
   * 0..n-1; the columns of a, then those of b that a lacks.
   */
  function Concat(a: DataFrame, b: DataFrame): (r: DataFrame)
    ensures r.columns == a.columns + Without(b.columns, a.columns)
    ensures |r.rows| == |a.rows| + |b.rows|
    ensures forall i :: 0 <= i < |r.rows| ==> r.rows[i].index == i
    ensures forall i, c :: 0 <= i < |a.rows| ==> Get(r.rows[i], c) == Get(a.rows[i], c)
    ensures forall i, c :: |a.rows| <= i < |r.rows| ==> Get(r.rows[i], c) == Get(b.rows[i - |a.rows|], c)
  {
    var columns := a.columns + Without(b.columns, a.columns);
    var all := a.rows + b.rows;
    var rows := seq(|all|, i requires 0 <= i < |all| => Record(i, all[i].cells));
    assert forall i :: 0 <= i < |a.rows| ==> all[i] == a.rows[i] && a.rows[i] in a.rows;
    assert forall i :: |a.rows| <= i < |all| ==> all[i] == b.rows[i - |a.rows|] && b.rows[i - |a.rows|] in b.rows;
    assert forall i, c :: 0 <= i < |rows| && c in rows[i].cells ==> c in columns;
    DistinctAppend(a.columns, Without(b.columns, a.columns));
    Table(columns, rows)
  }

  /** df.drop(columns=[c]): the column and its cells go, everything else stays as it was. */
  function DropColumn(t: DataFrame, c: string): (r: DataFrame)
    ensures r.columns == Without(t.columns, [c])
    ensures |r.rows| == |t.rows|
    ensures forall i :: 0 <= i < |t.rows| ==> r.rows[i].index == t.rows[i].index
    ensures forall i, c' :: 0 <= i < |t.rows| ==> Get(r.rows[i], c') == if c' == c then None else Get(t.rows[i], c')
  {
    var columns := Without(t.columns, [c]);
    var rows := seq(|t.rows|, i requires 0 <= i < |t.rows| => t.rows[i].(cells := t.rows[i].cells - {c}));
    forall i, c' | 0 <= i < |t.rows|
      ensures Get(rows[i], c') == if c' == c then None else Get(t.rows[i], c')
      ensures c' in rows[i].cells ==> c' in columns
    {
      assert t.rows[i] in t.rows;
    }
    Table(columns, rows)
  }

  /** df[cols] for the names of cols that df has: the other cells go, the rows and labels stay. */
  function Project(t: DataFrame, cols: seq<string>): (r: DataFrame)
    requires Distinct(cols)
    ensures r.columns == Present(cols, t.columns)
    ensures |r.rows| == |t.rows|
    ensures forall i :: 0 <= i < |t.rows| ==> r.rows[i].index == t.rows[i].index
    ensures forall i, c :: 0 <= i < |t.rows| ==> Get(r.rows[i], c) == if c in cols then Get(t.rows[i], c) else None
  {
    var columns := Present(cols, t.columns);
    var rows := seq(|t.rows|, i requires 0 <= i < |t.rows| =>
      t.rows[i].(cells := map c | c in t.rows[i].cells && c in cols :: t.rows[i].cells[c]));
    assert forall i :: 0 <= i < |t.rows| ==> t.rows[i] in t.rows;
    assert forall r :: r in rows ==> forall c :: c in r.cells ==> c in columns;
    Table(columns, rows)
  }

  /** idx lists positions of a sequence of length n, strictly increasing. */
  predicate Increasing(idx: seq<int>, n: int) {
    && (forall i :: 0 <= i < |idx| ==> 0 <= idx[i] < n)
    && (forall i, j :: 0 <= i < j < |idx| ==> idx[i] < idx[j])
  }

  /** Two strictly increasing lists of positions holding the same positions are the same list. */
  lemma {:induction false} IncreasingUnique(a: seq<int>, b: seq<int>, n: int)
    requires Increasing(a, n) && Increasing(b, n)
    requires forall k :: 0 <= k < n ==> (k in a <==> k in b)
    ensures a == b
  {
    if a != [] {
      assert a[0] in b;
    }
    if b != [] {
      assert b[0] in a;
    }
    if a != [] && b != [] {
      var x, y := a[|a| - 1], b[|b| - 1];
      IncreasingLast(b, n, x);
      IncreasingLast(a, n, y);
      var a', b' := a[..|a| - 1], b[..|b| - 1];
      forall k | 0 <= k < n ensures k in a' <==> k in b' {
        IncreasingFront(a, n, k);
        IncreasingFront(b, n, k);
      }
      IncreasingUnique(a', b', n);
      assert a == a' + [x] && b == b' + [y];
    }
  }

  /** Every position of a strictly increasing list is at most its last one. */
  lemma IncreasingLast(a: seq<int>, n: int, k: int)
    requires Increasing(a, n) && k in a
    ensures k <= a[|a| - 1]
  {
    var i :| 0 <= i < |a| && a[i] == k;
    if i < |a| - 1 {
      assert a[i] < a[|a| - 1];
    }
  }

  /** Without its last entry, a strictly increasing list holds exactly its smaller entries. */
  lemma IncreasingFront(a: seq<int>, n: int, k: int)
    requires Increasing(a, n) && a != []
    ensures k in a[..|a| - 1] <==> k in a && k < a[|a| - 1]
  {
    var a' := a[..|a| - 1];
    if k in a' {
      var i :| 0 <= i < |a'| && a'[i] == k;
      assert a[i] == k;
    }
    if k in a && k < a[|a| - 1] {
      var i :| 0 <= i < |a| && a[i] == k;
      assert i != |a| - 1;
      assert a'[i] == k;
    }
  }

  /**
   * Selecting, from the positions in outer that lie in s, the entries at the positions in
   * inner that point into t gives the positions in both s and t, in order.
   */
  lemma ComposePositions(outer: seq<int>, inner: seq<int>, n: int, s: set<int>, t: set<int>) returns (ks: seq<int>)
    requires Increasing(outer, n) && Increasing(inner, |outer|)
    requires forall k :: 0 <= k < n ==> (k in outer <==> k in s)
    requires forall m :: 0 <= m < |outer| ==> (m in inner <==> outer[m] in t)
    ensures |ks| == |inner| && forall q :: 0 <= q < |inner| ==> ks[q] == outer[inner[q]]
    ensures Increasing(ks, n)
    ensures forall k :: 0 <= k < n ==> (k in ks <==> k in s && k in t)
  {
    ks := seq(|inner|, q requires 0 <= q < |inner| => outer[inner[q]]);
    forall q | 0 <= q < |ks| ensures ks[q] in s && ks[q] in t {
      assert inner[q] in inner;
      assert outer[inner[q]] in outer;
    }
    forall k | 0 <= k < n && k in s && k in t ensures k in ks {
      var m :| 0 <= m < |outer| && outer[m] == k;
      assert m in inner;
      var q :| 0 <= q < |inner| && inner[q] == m;
      assert ks[q] == k;
    }
  }

  /** Records with the same label and the same cells are the same record. */
  lemma RecordsEqual(r: Record, s: Record)
    requires r.index == s.index
    requires forall c :: Get(r, c) == Get(s, c)
    ensures r == s
  {
    forall c ensures c in r.cells <==> c in s.cells {
      assert Get(r, c) == Get(s, c);
    }
    forall c | c in r.cells ensures r.cells[c] == s.cells[c] {
      assert Get(r, c) == Get(s, c);
    }
    assert r.cells == s.cells;
  }

  /** A strictly increasing list of positions of n elements has at most n entries. */
  lemma {:induction false} IncreasingLength(idx: seq<int>, n: int)
    requires 0 <= n && Increasing(idx, n)
    ensures |idx| <= n
  {
    if idx != [] {
      var m := |idx| - 1;
      assert Increasing(idx[..m], idx[m]);
      IncreasingLength(idx[..m], idx[m]);
      assert m <= idx[m] < n;
    }
  }

  /** The rows at the given positions, in that order. */
  function Pick(rs: seq<Record>, idx: seq<int>): (r: seq<Record>)
    requires forall i :: 0 <= i < |idx| ==> 0 <= idx[i] < |rs|
    ensures |r| == |idx|
  {
    seq(|idx|, i requires 0 <= i < |idx| => rs[idx[i]])
  }

  /** Boolean masks used to filter rows. */
  datatype Cond =
    | DateWithin(lo: int, hi: int)  // (df["date"] >= lo) & (df["date"] <= hi), instants in nanoseconds
    | Equals(column: string, v: Value)  // df[column] == v
    | Positive(column: string)  // df[column] > 0
    | NotNull(column: string)  // df[column].notna()
    | Not(c: Cond)

  /** Whether a mask is true on a row; comparisons with a missing value are false. */
  predicate Holds(cond: Cond, r: Record) {
    match cond
    case DateWithin(lo, hi) =>
      (match Get(r, "date")
       case Some(Time(t)) => lo <= Instant(t) <= hi
       case _ => false)
    case Equals(c, v) => Get(r, c) == Some(v)
    case Positive(c) =>
      (match Get(r, c)
       case Some(Int(i)) => i > 0
       case Some(Num(x)) => x > 0.0
       case _ => false)
    case NotNull(c) => Get(r, c).Some?
    case Not(c) => !Holds(c, r)
  }

  lemma HoldsNot(cond: Cond, r: Record)
    ensures Holds(Not(cond), r) == !Holds(cond, r)
  {
  }

  /** The positions of the rows on which the mask holds. */
  function WhereIndices(rs: seq<Record>, cond: Cond): (idx: seq<int>)
    ensures Increasing(idx, |rs|)
    ensures forall j :: 0 <= j < |rs| ==> (j in idx <==> Holds(cond, rs[j]))
  {
    if rs == [] then []
    else
      var n := |rs| - 1;
      WhereIndices(rs[..n], cond) + (if Holds(cond, rs[n]) then [n] else [])
  }

  /** df[mask]: the rows on which the mask holds, in their order and with their labels. */
  function Select(rs: seq<Record>, cond: Cond): seq<Record> {
    Pick(rs, WhereIndices(rs, cond))
  }

  /** df[mask] on a table: the same columns, and the rows on which the mask holds. */
  function Where(t: DataFrame, cond: Cond): (r: DataFrame)
    ensures r.columns == t.columns
    ensures forall x :: x in r.rows ==> x in t.rows
  {
    Table(t.columns, Select(t.rows, cond))
  }

  /** A mask keeps a subsequence of the rows: exactly those it holds on, in order, with their labels. */
  lemma WhereKeeps(t: DataFrame, cond: Cond) returns (idx: seq<int>)
    ensures Where(t, cond).columns == t.columns
    ensures Increasing(idx, |t.rows|) && Where(t, cond).rows == Pick(t.rows, idx)
    ensures forall j :: 0 <= j < |t.rows| ==> (j in idx <==> Holds(cond, t.rows[j]))
  {
    idx := WhereIndices(t.rows, cond);
  }

  /** Selecting is compatible with appending a row. */
  lemma SelectSnoc(rs: seq<Record>, cond: Cond)
    requires rs != []
    ensures var n := |rs| - 1;
      Select(rs, cond) == Select(rs[..n], cond) + (if Holds(cond, rs[n]) then [rs[n]] else [])
  {
    var n := |rs| - 1;
    var prefix := WhereIndices(rs[..n], cond);
    assert Pick(rs, prefix) == Pick(rs[..n], prefix);
  }

  /** The number a cell contributes to a pandas sum: NaN is skipped, i.e. counts 0. */
  function NumberOf(v: Option<Value>): real {
    match v
    case Some(Int(i)) => i as real
    case Some(Num(x)) => x
    case _ => 0.0
  }

  /** df[c].sum() over the given rows. */
  function SumBy(rs: seq<Record>, c: string): real {
    if rs == [] then 0.0 else SumBy(rs[..|rs| - 1], c) + NumberOf(Get(rs[|rs| - 1], c))
  }

  lemma SumBySnoc(rs: seq<Record>, x: Record, c: string)
    ensures SumBy(rs + [x], c) == SumBy(rs, c) + NumberOf(Get(x, c))
  {
    assert (rs + [x])[..|rs|] == rs;
  }

  /** A sum depends only on the summed column. */
  lemma {:induction false} SumByAgree(xs: seq<Record>, ys: seq<Record>, c: string)
    requires |xs| == |ys|
    requires forall i :: 0 <= i < |xs| ==> Get(xs[i], c) == Get(ys[i], c)
    ensures SumBy(xs, c) == SumBy(ys, c)
  {
    if xs != [] {
      var n := |xs| - 1;
      SumByAgree(xs[..n], ys[..n], c);
    }
  }

  /** A mask and its negation split a sum in two. */
  lemma {:induction false} SumSplits(rs: seq<Record>, cond: Cond, c: string)
    ensures SumBy(Select(rs, cond), c) + SumBy(Select(rs, Not(cond)), c) == SumBy(rs, c)
  {
    if rs != [] {
      var n := |rs| - 1;
      var yes, no := Select(rs[..n], cond), Select(rs[..n], Not(cond));
      SelectSnoc(rs, cond);
      SelectSnoc(rs, Not(cond));
      SumSplits(rs[..n], cond, c);
      assert SumBy(rs, c) == SumBy(rs[..n], c) + NumberOf(Get(rs[n], c));
      var v := NumberOf(Get(rs[n], c));
      if Holds(cond, rs[n]) {
        assert Select(rs, cond) == yes + [rs[n]];
        HoldsNot(cond, rs[n]);
        assert Select(rs, Not(cond)) == no;
        SumBySnoc(yes, rs[n], c);
        assert SumBy(Select(rs, cond), c) == SumBy(yes, c) + v;
      } else {
        assert Select(rs, cond) == yes;
        HoldsNot(cond, rs[n]);
        assert Select(rs, Not(cond)) == no + [rs[n]];
        SumBySnoc(no, rs[n], c);
        assert SumBy(Select(rs, Not(cond)), c) == SumBy(no, c) + v;
      }
    }
  }

  predicate NonNegative(rs: seq<Record>, c: string) {
    forall i :: 0 <= i < |rs| ==> NumberOf(Get(rs[i], c)) >= 0.0
  }

  /** Picking from a sequence with one more row: whether its last position is picked decides the shape. */
  lemma PickLast(rs: seq<Record>, idx: seq<int>)
    requires rs != [] && Increasing(idx, |rs|)
    ensures var n := |rs| - 1;
      if |idx| > 0 && idx[|idx| - 1] == n then
        Increasing(idx[..|idx| - 1], n) && Pick(rs, idx) == Pick(rs[..n], idx[..|idx| - 1]) + [rs[n]]
      else
        Increasing(idx, n) && Pick(rs, idx) == Pick(rs[..n], idx)
  {
    var n := |rs| - 1;
    if |idx| > 0 && idx[|idx| - 1] == n {
      var front := idx[..|idx| - 1];
      assert Pick(rs, idx) == Pick(rs[..n], front) + [rs[n]];
    } else {
      forall i | 0 <= i < |idx| ensures idx[i] < n {
        if i < |idx| - 1 {
          assert idx[i] < idx[|idx| - 1];
        }
      }
      assert Pick(rs, idx) == Pick(rs[..n], idx);
    }
  }

  /** Keeping some of the rows of a non-negative column never raises its sum. */
  lemma {:induction false} SumOfPickAtMost(rs: seq<Record>, idx: seq<int>, c: string)
    requires Increasing(idx, |rs|)
    requires NonNegative(rs, c)
    ensures SumBy(Pick(rs, idx), c) <= SumBy(rs, c)
  {
    if rs != [] {
      var n := |rs| - 1;
      assert NonNegative(rs[..n], c);
      PickLast(rs, idx);
      if |idx| > 0 && idx[|idx| - 1] == n {
        var front := idx[..|idx| - 1];
        SumOfPickAtMost(rs[..n], front, c);
        SumBySnoc(Pick(rs[..n], front), rs[n], c);
      } else {
        SumOfPickAtMost(rs[..n], idx, c);
      }
    }
  }

  /** Leaving out a row whose value is positive makes the sum strictly smaller. */
  lemma {:induction false} SumOfPickBelow(rs: seq<Record>, idx: seq<int>, c: string, j: int)
    requires Increasing(idx, |rs|)
    requires NonNegative(rs, c)
    requires 0 <= j < |rs| && j !in idx && NumberOf(Get(rs[j], c)) > 0.0
    ensures SumBy(Pick(rs, idx), c) < SumBy(rs, c)
  {
    var n := |rs| - 1;
    assert NonNegative(rs[..n], c);
    PickLast(rs, idx);
    if |idx| > 0 && idx[|idx| - 1] == n {
      var front := idx[..|idx| - 1];
      assert j < n && j !in front && rs[..n][j] == rs[j];
      SumOfPickBelow(rs[..n], front, c, j);
      SumBySnoc(Pick(rs[..n], front), rs[n], c);
    } else if j == n {
      SumOfPickAtMost(rs[..n], idx, c);
    } else {
      assert rs[..n][j] == rs[j];
      SumOfPickBelow(rs[..n], idx, c, j);
    }
  }

  /** A dataframe that pandas code updates column by column (df[c] = ..., df = df.drop(...)). */
  class Frame {
    var columns: seq<string>
    var rows: seq<Record>

    ghost predicate Valid()
      reads this
    {
      WellFormed(Table(columns, rows))
    }

    /** The frame's current contents as a value. */
    function Snapshot(): DataFrame
      reads this
      requires Valid()
    {
      Table(columns, rows)
    }

    constructor (t: DataFrame)
      ensures Valid() && Snapshot() == t
    {
      columns := t.columns;
      rows := t.rows;
    }

    /** df = df.drop(columns=[c]) */
    method Drop(c: string)
      requires Valid()
      modifies this
      ensures Valid() && Snapshot() == DropColumn(old(Snapshot()), c)
    {
      columns := Without(columns, [c]);
      var rs := rows;
      rows := seq(|rs|, i requires 0 <= i < |rs| => rs[i].(cells := rs[i].cells - {c}));
    }

    /** df[c] = col */
    method Assign(c: string, col: seq<Option<Value>>)
      requires Valid() && |col| == |rows|
      modifies this
      ensures Valid() && Snapshot() == AssignColumn(old(Snapshot()), c, col)
    {
      if c !in columns {
        columns := columns + [c];
      }
      var rs := rows;
      rows := seq(|rs|, i requires 0 <= i < |rs| => SetCell(rs[i], c, col[i]));
    }
  }
}
