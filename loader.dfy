/**
 * load_data: the two archives' tables stacked into one, the accidental index column
 * dropped, each known column coerced to its type, and year, month and week derived from
 * the date when the data does not carry them.
 */
module Loader {
  import opened Wrappers
  import opened Calendar
  import opened Frames
  import opened Archive
  import opened CalendarExamples

  /**
   * pd.to_numeric and pd.to_datetime with errors="coerce", applied to one cell; they are
   * left abstract, and None is the NaN or NaT that a value which does not parse becomes.
   */
  datatype Parsers = Parsers(toNumeric: Value -> Option<real>, toDatetime: Value -> Option<Moment>)

  /** The column pandas names after an index that was written to the CSV by mistake. */
  const Unnamed: string := "Unnamed: 0"

  /** The per-cell conversions load_data applies. */
  datatype Coercion =
    | ToDate        // pd.to_datetime(..., errors="coerce")
    | ToInt64       // pd.to_numeric(..., errors="coerce").astype("Int64")
    | ToRealOrZero  // pd.to_numeric(..., errors="coerce").fillna(0)
    | ToIntOrZero   // pd.to_numeric(..., errors="coerce").fillna(0).astype(int)
    | YearOf        // df["date"].dt.year
    | MonthOf       // df["date"].dt.month
    | WeekOf        // df["date"].dt.isocalendar().week.astype(int)

  /** pd.to_numeric(..., errors="coerce") on one cell; a missing cell stays missing. */
  function Numeric(v: Option<Value>, p: Parsers): Option<real> {
    match v
    case None => None
    case Some(x) => p.toNumeric(x)
  }

  /** astype(int) on a float: the fraction is cut off, towards zero. */
  function Truncate(x: real): (n: int)
    ensures x >= 0.0 ==> 0 <= n && n as real <= x < n as real + 1.0
    ensures x < 0.0 ==> n <= 0 && n as real - 1.0 < x <= n as real
  {
    if x >= 0.0 then x.Floor else -((-x).Floor)
  }

  /** astype("Int64") accepts a missing value or a whole number and raises on a fraction. */
  predicate IntegralOrMissing(v: Option<real>) {
    v.None? || v.value == v.value.Floor as real
  }

  /** What to_datetime, to_numeric, fillna, astype and the .dt accessors make of one cell. */
  function Coerce(k: Coercion, v: Option<Value>, p: Parsers): (r: Option<Value>)
    requires k == ToInt64 ==> IntegralOrMissing(Numeric(v, p))
    ensures k == ToDate ==> r.None? || r.value.Time?
  {
    match k
    case ToDate =>
      (match v
       case None => None
       case Some(x) => (match p.toDatetime(x) case Some(t) => Some(Time(t)) case None => None))
    case ToInt64 =>
      (match Numeric(v, p) case Some(x) => Some(Int(x.Floor)) case None => None)
    case ToRealOrZero => Some(Num(Numeric(v, p).GetOr(0.0)))
    case ToIntOrZero => Some(Int(Truncate(Numeric(v, p).GetOr(0.0))))
    case YearOf => (match v case Some(Time(t)) => Some(Int(t.date.year)) case _ => None)
    case MonthOf => (match v case Some(Time(t)) => Some(Int(t.date.month)) case _ => None)
    case WeekOf => (match v case Some(Time(t)) => Some(Int(IsoWeek(t.date))) case _ => None)
  }

  /** Row-level failures never abort: missing or unparseable sales become 0.0. */
  lemma SalesDefault(v: Option<Value>, p: Parsers)
    ensures Coerce(ToRealOrZero, v, p).Some? && Coerce(ToRealOrZero, v, p).value.Num?
    ensures Numeric(v, p).None? ==> Coerce(ToRealOrZero, v, p) == Some(Num(0.0))
    ensures Numeric(v, p).Some? ==> Coerce(ToRealOrZero, v, p) == Some(Num(Numeric(v, p).value))
  {
  }

  /** Missing or unparseable promotion counts become 0, parsed ones are cut to whole numbers. */
  lemma PromotionDefault(v: Option<Value>, p: Parsers)
    ensures Coerce(ToIntOrZero, v, p).Some? && Coerce(ToIntOrZero, v, p).value.Int?
    ensures Numeric(v, p).None? ==> Coerce(ToIntOrZero, v, p) == Some(Int(0))
    ensures Numeric(v, p) == Some(3.0) ==> Coerce(ToIntOrZero, v, p) == Some(Int(3))
    ensures Numeric(v, p) == Some(2.5) ==> Coerce(ToIntOrZero, v, p) == Some(Int(2))
    ensures Numeric(v, p) == Some(-2.5) ==> Coerce(ToIntOrZero, v, p) == Some(Int(-2))
  {
  }

  /** An unparseable store number or date becomes missing instead of raising. */
  lemma UnparseableBecomesMissing(v: Option<Value>, p: Parsers)
    ensures Numeric(v, p).None? ==> Coerce(ToInt64, v, p).None?
    ensures (v.None? || p.toDatetime(v.value).None?) ==> Coerce(ToDate, v, p).None?
    ensures Numeric(v, p) == Some(7.0) ==> Coerce(ToInt64, v, p) == Some(Int(7))
  {
  }

  /** The derived calendar columns: year and month of the date, and its ISO week, in 1..53. */
  lemma DerivedCalendarFields(t: Moment, p: Parsers)
    ensures Coerce(YearOf, Some(Time(t)), p) == Some(Int(t.date.year))
    ensures Coerce(MonthOf, Some(Time(t)), p) == Some(Int(t.date.month))
    ensures 1 <= t.date.month <= 12
    ensures Coerce(WeekOf, Some(Time(t)), p) == Some(Int(IsoWeek(t.date)))
    ensures 1 <= IsoWeek(t.date) <= 53
    ensures t.date == Date(2023, 1, 2) ==> Coerce(WeekOf, Some(Time(t)), p) == Some(Int(1))
  {
    if t.date == Date(2023, 1, 2) {
      IsoWeekOfJanuarySecond2023();
    }
  }

  /** astype("Int64") succeeds on column c: no cell of it parses to a fractional number. */
  predicate Castable(rs: seq<Record>, c: string, p: Parsers) {
    forall i :: 0 <= i < |rs| ==> IntegralOrMissing(Numeric(Get(rs[i], c), p))
  }

  /** Every cell of column c holds a timestamp; .dt.isocalendar().week.astype(int) raises on NaT otherwise. */
  predicate AllTimes(rs: seq<Record>, c: string) {
    forall i :: 0 <= i < |rs| ==> Get(rs[i], c).Some? && Get(rs[i], c).value.Time?
  }

  /** pd.Series.map of a cell conversion over a column. */
  function CoerceColumn(k: Coercion, col: seq<Option<Value>>, p: Parsers): (r: seq<Option<Value>>)
    requires k == ToInt64 ==> forall i :: 0 <= i < |col| ==> IntegralOrMissing(Numeric(col[i], p))
    ensures |r| == |col|
    ensures forall i :: 0 <= i < |col| ==> r[i] == Coerce(k, col[i], p)
  {
    seq(|col|, i requires 0 <= i < |col| => Coerce(k, col[i], p))
  }

  /** df[c] = conversion(df[c]): column c converted cell by cell, nothing else changes. */
  function Retype(t: DataFrame, c: string, k: Coercion, p: Parsers): (r: DataFrame)
    requires k == ToInt64 ==> Castable(t.rows, c, p)
    ensures r.columns == if c in t.columns then t.columns else t.columns + [c]
    ensures |r.rows| == |t.rows|
    ensures forall i :: 0 <= i < |t.rows| ==> r.rows[i].index == t.rows[i].index
    ensures forall i, c' :: 0 <= i < |t.rows| ==>
      Get(r.rows[i], c') == if c' == c then Coerce(k, Get(t.rows[i], c), p) else Get(t.rows[i], c')
  {
    AssignColumn(t, c, CoerceColumn(k, Column(t, c), p))
  }

  /** if c not in df.columns: df[c] = conversion(df["date"]) */
  function Derive(t: DataFrame, c: string, k: Coercion, p: Parsers): (r: DataFrame)
    requires k != ToInt64
    ensures r.columns == if c in t.columns then t.columns else t.columns + [c]
    ensures |r.rows| == |t.rows|
    ensures forall i :: 0 <= i < |t.rows| ==> r.rows[i].index == t.rows[i].index
    ensures forall i, c' :: 0 <= i < |t.rows| ==>
      Get(r.rows[i], c') == if c' == c && c !in t.columns then Coerce(k, Get(t.rows[i], "date"), p) else Get(t.rows[i], c')
  {
    if c in t.columns then t else AssignColumn(t, c, CoerceColumn(k, Column(t, "date"), p))
  }

  /** if "Unnamed: 0" in df.columns: df = df.drop(columns=["Unnamed: 0"]) */
  function Dropped(df: DataFrame): (d: DataFrame)
    ensures d.columns == Without(df.columns, [Unnamed])
    ensures |d.rows| == |df.rows|
    ensures forall i :: 0 <= i < |df.rows| ==> d.rows[i].index == df.rows[i].index
    ensures forall i, c :: 0 <= i < |df.rows| ==> Get(d.rows[i], c) == if c == Unnamed then None else Get(df.rows[i], c)
  {
    if Unnamed in df.columns then DropColumn(df, Unnamed)
    else
      assert forall i :: 0 <= i < |df.rows| ==> Unnamed !in df.rows[i].cells by {
        forall i | 0 <= i < |df.rows| ensures Unnamed !in df.rows[i].cells {
          assert df.rows[i] in df.rows;
        }
      }
      WithoutAbsent(df.columns, Unnamed);
      df
  }

  /** The body of load_data after pd.concat (app.py lines 59-77), one statement group per function. */
  function Normalize(df: DataFrame, p: Parsers): Result<DataFrame, LoadError> {
    ParseDates(Dropped(df), p)
  }

  function ParseDates(d: DataFrame, p: Parsers): Result<DataFrame, LoadError> {
    if "date" !in d.columns then Err(MissingColumn("date"))
    else ParseStores(Retype(d, "date", ToDate, p), p)
  }

  function ParseStores(d: DataFrame, p: Parsers): Result<DataFrame, LoadError> {
    if "store_nbr" !in d.columns then Err(MissingColumn("store_nbr"))
    else if !Castable(d.rows, "store_nbr", p) then Err(CastError("store_nbr"))
    else ParseSales(Retype(d, "store_nbr", ToInt64, p), p)
  }

  function ParseSales(d: DataFrame, p: Parsers): Result<DataFrame, LoadError> {
    if "sales" !in d.columns then Err(MissingColumn("sales"))
    else ParsePromotions(Retype(d, "sales", ToRealOrZero, p), p)
  }

  function ParsePromotions(d: DataFrame, p: Parsers): Result<DataFrame, LoadError> {
    if "onpromotion" !in d.columns then Err(MissingColumn("onpromotion"))
    else AddCalendar(Retype(d, "onpromotion", ToIntOrZero, p), p)
  }

  function AddCalendar(d: DataFrame, p: Parsers): Result<DataFrame, LoadError> {
    var d' := Derive(Derive(d, "year", YearOf, p), "month", MonthOf, p);
    if "week" !in d'.columns && !AllTimes(d'.rows, "date") then Err(CastError("week"))
    else Ok(Derive(d', "week", WeekOf, p))
  }

  /**
   * load_data: read both archives (the first failure stops the load), stack them, normalize.
   * read1 and read2 stand for pd.read_csv on the chosen member of each archive, so the two
   * archives may hold different tables under the same member name and size.
   */
  function Load(zip1: Option<seq<Entry>>, zip2: Option<seq<Entry>>, read1: Entry -> DataFrame, read2: Entry -> DataFrame, p: Parsers)
    : Result<DataFrame, LoadError>
  {
    match ReadCsvFromZip(zip1, read1)
    case Err(e) => Err(e)
    case Ok(a) =>
      match ReadCsvFromZip(zip2, read2)
      case Err(e) => Err(e)
      case Ok(b) => Normalize(Concat(a, b), p)
  }

  // ---------------------------------------------------------------------------------------
  // What load_data means, stated on the stacked table it starts from.

  /** Every date of the table parses. */
  predicate DatesParse(df: DataFrame, p: Parsers) {
    forall i :: 0 <= i < |df.rows| ==> Coerce(ToDate, Get(df.rows[i], "date"), p).Some?
  }

  /**
   * Why load_data stops on the stacked table df, if it does: the first check, in program
   * order, that fails among those of group `from` onwards (1: all of them).
   */
  function Failure(df: DataFrame, p: Parsers, from: nat): Option<LoadError> {
    if from <= 1 && "date" !in df.columns then Some(MissingColumn("date"))
    else if from <= 2 && "store_nbr" !in df.columns then Some(MissingColumn("store_nbr"))
    else if from <= 2 && !Castable(df.rows, "store_nbr", p) then Some(CastError("store_nbr"))
    else if from <= 3 && "sales" !in df.columns then Some(MissingColumn("sales"))
    else if from <= 4 && "onpromotion" !in df.columns then Some(MissingColumn("onpromotion"))
    else if "week" !in df.columns && !DatesParse(df, p) then Some(CastError("week"))
    else None
  }

  /** The derived columns load_data appends, in the order it appends them. */
  function AddedColumns(cols: seq<string>): seq<string> {
    (if "year" in cols then [] else ["year"])
    + (if "month" in cols then [] else ["month"])
    + (if "week" in cols then [] else ["week"])
  }

  /** Which of the calendar columns the stacked table already carried. */
  datatype Carried = Carried(year: bool, month: bool, week: bool)

  function CarriedBy(cols: seq<string>): Carried {
    Carried("year" in cols, "month" in cols, "week" in cols)
  }

  /*
   * The statement groups of load_data after the drop, numbered 1 to 7: group k writes
   * column StageColumn(k) by applying StageKind(k) to column StageSource(k), and the
   * calendar groups 5-7 do so only when the column was not read.
   */

  function StageColumn(k: nat): string {
    if k == 1 then "date" else if k == 2 then "store_nbr" else if k == 3 then "sales"
    else if k == 4 then "onpromotion" else if k == 5 then "year" else if k == 6 then "month" else "week"
  }

  function StageKind(k: nat): Coercion {
    if k == 1 then ToDate else if k == 2 then ToInt64 else if k == 3 then ToRealOrZero
    else if k == 4 then ToIntOrZero else if k == 5 then YearOf else if k == 6 then MonthOf else WeekOf
  }

  function StageSource(k: nat): string {
    if k <= 4 then StageColumn(k) else "date"
  }

  predicate StageApplies(k: nat, has: Carried) {
    if k == 5 then !has.year else if k == 6 then !has.month else if k == 7 then !has.week else true
  }

  /** The columns after the first k groups (0: only the drop). */
  function ColumnsAt(cols: seq<string>, k: nat): seq<string> {
    Without(cols, [Unnamed])
    + (if k >= 5 && "year" !in cols then ["year"] else [])
    + (if k >= 6 && "month" !in cols then ["month"] else [])
    + (if k >= 7 && "week" !in cols then ["week"] else [])
  }

  /**
   * What the first k groups of load_data put in column c of a row that came from `src`,
   * when the stacked table carried the calendar columns `has`.
   */
  function CellAt(src: Record, c: string, has: Carried, p: Parsers, k: nat): Option<Value>
    requires k >= 2 ==> IntegralOrMissing(Numeric(Get(src, "store_nbr"), p))
    decreases k
  {
    if k == 0 then (if c == Unnamed then None else Get(src, c))
    else if 1 <= k <= 7 && c == StageColumn(k) && StageApplies(k, has) then
      assert k == 2 ==> CellAt(src, "store_nbr", has, p, 1) == Get(src, "store_nbr");
      Coerce(StageKind(k), CellAt(src, StageSource(k), has, p, k - 1), p)
    else CellAt(src, c, has, p, k - 1)
  }

  /** The cell load_data produces, which the pipeline is proved against. */
  function ExpectedCell(src: Record, c: string, cols: seq<string>, p: Parsers): Option<Value>
    requires IntegralOrMissing(Numeric(Get(src, "store_nbr"), p))
  {
    CellAt(src, c, CarriedBy(cols), p, 7)
  }

  /** Row r is what the first k groups make of the stacked row src. */
  ghost predicate RowMatches(r: Record, src: Record, has: Carried, p: Parsers, k: nat)
    requires k >= 2 ==> IntegralOrMissing(Numeric(Get(src, "store_nbr"), p))
  {
    && r.index == src.index
    && forall c :: Get(r, c) == CellAt(src, c, has, p, k)
  }

  /** d is what the first k groups make of the stacked table df. */
  ghost predicate Matches(d: DataFrame, df: DataFrame, p: Parsers, k: nat) {
    && d.columns == ColumnsAt(df.columns, k)
    && |d.rows| == |df.rows|
    && (k >= 2 ==> Castable(df.rows, "store_nbr", p))
    && (forall i :: 0 <= i < |d.rows| ==> RowMatches(d.rows[i], df.rows[i], CarriedBy(df.columns), p, k))
  }

  /** The names load_data treats specially are pairwise different. */
  lemma KnownNamesDiffer()
    ensures Unnamed != "date" && Unnamed != "store_nbr" && Unnamed != "sales" && Unnamed != "onpromotion"
    ensures Unnamed != "year" && Unnamed != "month" && Unnamed != "week"
    ensures "date" != "store_nbr" && "date" != "sales" && "date" != "onpromotion"
    ensures "date" != "year" && "date" != "month" && "date" != "week"
    ensures "store_nbr" != "sales" && "store_nbr" != "onpromotion" && "sales" != "onpromotion"
    ensures "year" != "month" && "year" != "week" && "month" != "week"
  {
  }

  /** Before the calendar columns are added, the columns are the stacked ones minus "Unnamed: 0". */
  lemma ColumnsEarly(cols: seq<string>, k: nat)
    requires k <= 4
    ensures ColumnsAt(cols, k) == Without(cols, [Unnamed])
  {
    assert ColumnsAt(cols, k) == Without(cols, [Unnamed]) + [] + [] + [];
  }

  lemma DroppedMatches(df: DataFrame, p: Parsers)
    ensures Matches(Dropped(df), df, p, 0)
  {
    ColumnsEarly(df.columns, 0);
  }

  /** One cell through group k = 1..4, df[c] = conversion(df[c]). */
  lemma RetypeCell(d: DataFrame, df: DataFrame, p: Parsers, k: nat, i: int, c: string)
    requires 1 <= k <= 4 && Matches(d, df, p, k - 1) && 0 <= i < |d.rows|
    requires k == 2 ==> Castable(df.rows, "store_nbr", p) && Castable(d.rows, "store_nbr", p)
    ensures Get(Retype(d, StageColumn(k), StageKind(k), p).rows[i], c) == CellAt(df.rows[i], c, CarriedBy(df.columns), p, k)
  {
  }

  /** Group k = 1..4 on the table of the groups before it. */
  lemma RetypeStep(d: DataFrame, df: DataFrame, p: Parsers, k: nat)
    requires 1 <= k <= 4 && Matches(d, df, p, k - 1) && StageColumn(k) in d.columns
    requires k == 2 ==> Castable(d.rows, "store_nbr", p)
    ensures k == 2 ==> Castable(df.rows, "store_nbr", p)
    ensures Matches(Retype(d, StageColumn(k), StageKind(k), p), df, p, k)
  {
    if k == 2 {
      StoresAsRead(d, df, p);
    }
    var r := Retype(d, StageColumn(k), StageKind(k), p);
    ColumnsEarly(df.columns, k - 1);
    ColumnsEarly(df.columns, k);
    assert r.columns == ColumnsAt(df.columns, k);
    forall i, c | 0 <= i < |d.rows|
      ensures Get(Retype(d, StageColumn(k), StageKind(k), p).rows[i], c) == CellAt(df.rows[i], c, CarriedBy(df.columns), p, k)
    {
      RetypeCell(d, df, p, k, i, c);
    }
  }

  /** The store numbers are still as read when they are cast. */
  lemma StoresAsRead(d: DataFrame, df: DataFrame, p: Parsers)
    requires Matches(d, df, p, 1)
    ensures Castable(d.rows, "store_nbr", p) <==> Castable(df.rows, "store_nbr", p)
  {
    KnownNamesDiffer();
    forall i | 0 <= i < |d.rows| ensures Get(d.rows[i], "store_nbr") == Get(df.rows[i], "store_nbr") {
      assert Get(d.rows[i], "store_nbr") == CellAt(df.rows[i], "store_nbr", CarriedBy(df.columns), p, 1);
    }
  }

  /** A calendar column is in the table before its group exactly when it was read. */
  lemma CalendarPresent(d: DataFrame, df: DataFrame, p: Parsers, k: nat)
    requires 5 <= k <= 7 && Matches(d, df, p, k - 1)
    ensures StageColumn(k) in d.columns <==> !StageApplies(k, CarriedBy(df.columns))
  {
    KnownNamesDiffer();
  }

  /** One cell through group k = 5..7, if c not in df.columns: df[c] = conversion(df["date"]). */
  lemma DeriveCell(d: DataFrame, df: DataFrame, p: Parsers, k: nat, i: int, c: string)
    requires 5 <= k <= 7 && Matches(d, df, p, k - 1) && 0 <= i < |d.rows|
    requires StageColumn(k) in d.columns <==> !StageApplies(k, CarriedBy(df.columns))
    ensures Get(Derive(d, StageColumn(k), StageKind(k), p).rows[i], c) == CellAt(df.rows[i], c, CarriedBy(df.columns), p, k)
  {
  }

  /** Group k = 5..7 on the table of the groups before it. */
  lemma DeriveStep(d: DataFrame, df: DataFrame, p: Parsers, k: nat)
    requires 5 <= k <= 7 && Matches(d, df, p, k - 1)
    ensures Matches(Derive(d, StageColumn(k), StageKind(k), p), df, p, k)
  {
    CalendarPresent(d, df, p, k);
    forall i, c | 0 <= i < |d.rows|
      ensures Get(Derive(d, StageColumn(k), StageKind(k), p).rows[i], c) == CellAt(df.rows[i], c, CarriedBy(df.columns), p, k)
    {
      DeriveCell(d, df, p, k, i, c);
    }
  }

  /** After group 1 the date column holds the parsed dates, and no later group writes it. */
  lemma {:induction false} DateParsed(src: Record, has: Carried, p: Parsers, k: nat)
    requires 1 <= k <= 7
    requires k >= 2 ==> IntegralOrMissing(Numeric(Get(src, "store_nbr"), p))
    ensures CellAt(src, "date", has, p, k) == Coerce(ToDate, Get(src, "date"), p)
  {
    KnownNamesDiffer();
    if k > 1 {
      DateParsed(src, has, p, k - 1);
    }
  }

  /** The week cast sees the parsed dates. */
  lemma WeekCheck(d: DataFrame, df: DataFrame, p: Parsers)
    requires Matches(d, df, p, 6)
    ensures AllTimes(d.rows, "date") <==> DatesParse(df, p)
  {
    forall i | 0 <= i < |d.rows| ensures Get(d.rows[i], "date") == Coerce(ToDate, Get(df.rows[i], "date"), p) {
      DateParsed(df.rows[i], CarriedBy(df.columns), p, 6);
    }
  }

  /**
   * An outcome of the groups from `from` on agrees with the reference: it is the first
   * failing check if there is one, and otherwise the table the groups describe.
   */
  ghost predicate Describes(r: Result<DataFrame, LoadError>, df: DataFrame, p: Parsers, from: nat) {
    match r
    case Err(e) => Failure(df, p, from) == Some(e)
    case Ok(t) => Failure(df, p, from).None? && Matches(t, df, p, 7)
  }

  /** Groups 5 and 6 never fail. */
  lemma YearAndMonth(d: DataFrame, df: DataFrame, p: Parsers)
    requires Matches(d, df, p, 4)
    ensures Matches(Derive(Derive(d, "year", YearOf, p), "month", MonthOf, p), df, p, 6)
  {
    assert StageColumn(5) == "year" && StageKind(5) == YearOf;
    assert StageColumn(6) == "month" && StageKind(6) == MonthOf;
    var d5 := Derive(d, "year", YearOf, p);
    DeriveStep(d, df, p, 5);
    DeriveStep(d5, df, p, 6);
  }

  /** Groups 5-7: the calendar columns, and the week cast that fails on a missing date. */
  lemma CalendarMeaning(d: DataFrame, df: DataFrame, p: Parsers)
    requires Matches(d, df, p, 4)
    ensures Describes(AddCalendar(d, p), df, p, 5)
  {
    var d6 := Derive(Derive(d, "year", YearOf, p), "month", MonthOf, p);
    YearAndMonth(d, df, p);
    WeekGuard(d6, df, p);
    if "week" in df.columns || DatesParse(df, p) {
      assert AddCalendar(d, p) == Ok(Derive(d6, "week", WeekOf, p));
      DeriveStep(d6, df, p, 7);
    } else {
      assert AddCalendar(d, p) == Err(CastError("week"));
    }
  }

  /** The week group's check on the table of groups 1-6 is the reference's last check. */
  lemma WeekGuard(d6: DataFrame, df: DataFrame, p: Parsers)
    requires Matches(d6, df, p, 6)
    ensures ("week" !in d6.columns && !AllTimes(d6.rows, "date")) <==> ("week" !in df.columns && !DatesParse(df, p))
    ensures Failure(df, p, 5) == if "week" !in df.columns && !DatesParse(df, p) then Some(CastError("week")) else None
  {
    WeekCheck(d6, df, p);
    CalendarPresent(d6, df, p, 7);
  }

  lemma PromotionsMeaning(d: DataFrame, df: DataFrame, p: Parsers)
    requires Matches(d, df, p, 3)
    ensures Describes(ParsePromotions(d, p), df, p, 4)
  {
    ColumnsEarly(df.columns, 3);
    if "onpromotion" in df.columns {
      KnownNamesDiffer();
      RetypeStep(d, df, p, 4);
      CalendarMeaning(Retype(d, "onpromotion", ToIntOrZero, p), df, p);
    }
  }

  lemma SalesMeaning(d: DataFrame, df: DataFrame, p: Parsers)
    requires Matches(d, df, p, 2)
    ensures Describes(ParseSales(d, p), df, p, 3)
  {
    ColumnsEarly(df.columns, 2);
    if "sales" in df.columns {
      KnownNamesDiffer();
      RetypeStep(d, df, p, 3);
      PromotionsMeaning(Retype(d, "sales", ToRealOrZero, p), df, p);
    }
  }

  lemma StoresMeaning(d: DataFrame, df: DataFrame, p: Parsers)
    requires Matches(d, df, p, 1)
    ensures Describes(ParseStores(d, p), df, p, 2)
  {
    ColumnsEarly(df.columns, 1);
    KnownNamesDiffer();
    StoresAsRead(d, df, p);
    if "store_nbr" in df.columns && Castable(df.rows, "store_nbr", p) {
      StoresPass(d, df, p);
    }
  }

  /** Group 2 passing its checks, the outcome is that of the groups after it. */
  lemma StoresPass(d: DataFrame, df: DataFrame, p: Parsers)
    requires Matches(d, df, p, 1) && "store_nbr" in d.columns && Castable(d.rows, "store_nbr", p)
    ensures Describes(ParseStores(d, p), df, p, 2)
  {
    var d2 := Retype(d, "store_nbr", ToInt64, p);
    RetypeStep(d, df, p, 2);
    SalesMeaning(d2, df, p);
    DescribesEarlier(ParseSales(d2, p), df, p, 2);
  }

  /** Group `from` passing its checks, an outcome that agrees from the next group on agrees from this one. */
  lemma DescribesEarlier(r: Result<DataFrame, LoadError>, df: DataFrame, p: Parsers, from: nat)
    requires Failure(df, p, from) == Failure(df, p, from + 1) && Describes(r, df, p, from + 1)
    ensures Describes(r, df, p, from)
  {
  }

  lemma NormalizeMeaning(df: DataFrame, p: Parsers)
    ensures Describes(Normalize(df, p), df, p, 1)
  {
    DroppedMatches(df, p);
    ColumnsEarly(df.columns, 0);
    KnownNamesDiffer();
    if "date" in df.columns {
      RetypeStep(Dropped(df), df, p, 1);
      StoresMeaning(Retype(Dropped(df), "date", ToDate, p), df, p);
    }
  }

  /** The columns after all seven groups: the stacked ones without "Unnamed: 0", then the derived ones. */
  lemma ColumnsAtEnd(cols: seq<string>)
    ensures ColumnsAt(cols, 7) == Without(cols, [Unnamed]) + AddedColumns(cols)
  {
  }

  /** load_data stops exactly when one of its checks fails, and with the first failing one. */
  lemma NormalizeFailure(df: DataFrame, p: Parsers)
    ensures Normalize(df, p).Err? <==> Failure(df, p, 1).Some?
    ensures Normalize(df, p).Err? ==> Normalize(df, p).error == Failure(df, p, 1).value
  {
    NormalizeMeaning(df, p);
  }

  /**
   * A successful normalization keeps every row in place, drops "Unnamed: 0", coerces the
   * four typed columns, derives only the calendar columns that were absent, and leaves every
   * other cell as it was.
   */
  lemma NormalizedRows(df: DataFrame, p: Parsers)
    requires Normalize(df, p).Ok?
    ensures var t := Normalize(df, p).value;
      && t.columns == Without(df.columns, [Unnamed]) + AddedColumns(df.columns)
      && |t.rows| == |df.rows|
      && Castable(df.rows, "store_nbr", p)
      && (forall i :: 0 <= i < |t.rows| ==> t.rows[i].index == df.rows[i].index)
      && (forall i, c :: 0 <= i < |t.rows| ==> Get(t.rows[i], c) == ExpectedCell(df.rows[i], c, df.columns, p))
  {
    NormalizeMeaning(df, p);
    ColumnsAtEnd(df.columns);
    var t := Normalize(df, p).value;
    forall i | 0 <= i < |t.rows|
      ensures t.rows[i].index == df.rows[i].index
      ensures forall c :: Get(t.rows[i], c) == ExpectedCell(df.rows[i], c, df.columns, p)
    {
      assert RowMatches(t.rows[i], df.rows[i], CarriedBy(df.columns), p, 7);
    }
  }

  /** What each column named in load_data holds afterwards. */
  lemma ExpectedTypedCells(src: Record, cols: seq<string>, p: Parsers)
    requires IntegralOrMissing(Numeric(Get(src, "store_nbr"), p))
    ensures ExpectedCell(src, Unnamed, cols, p) == None
    ensures ExpectedCell(src, "date", cols, p) == Coerce(ToDate, Get(src, "date"), p)
    ensures ExpectedCell(src, "store_nbr", cols, p) == Coerce(ToInt64, Get(src, "store_nbr"), p)
    ensures ExpectedCell(src, "sales", cols, p) == Coerce(ToRealOrZero, Get(src, "sales"), p)
    ensures ExpectedCell(src, "onpromotion", cols, p) == Coerce(ToIntOrZero, Get(src, "onpromotion"), p)
  {
    KnownNamesDiffer();
  }

  /** The calendar columns: kept when read, derived from the parsed date otherwise. */
  lemma ExpectedCalendarCells(src: Record, cols: seq<string>, p: Parsers)
    requires IntegralOrMissing(Numeric(Get(src, "store_nbr"), p))
    ensures var date := Coerce(ToDate, Get(src, "date"), p);
      && ExpectedCell(src, "year", cols, p) == (if "year" in cols then Get(src, "year") else Coerce(YearOf, date, p))
      && ExpectedCell(src, "month", cols, p) == (if "month" in cols then Get(src, "month") else Coerce(MonthOf, date, p))
      && ExpectedCell(src, "week", cols, p) == (if "week" in cols then Get(src, "week") else Coerce(WeekOf, date, p))
  {
    KnownNamesDiffer();
    DateParsed(src, CarriedBy(cols), p, 4);
    DateParsed(src, CarriedBy(cols), p, 5);
    DateParsed(src, CarriedBy(cols), p, 6);
  }

  /** Every column load_data does not name is passed through unchanged. */
  lemma {:induction false} ExpectedOtherCell(src: Record, c: string, has: Carried, p: Parsers, k: nat)
    requires k >= 2 ==> IntegralOrMissing(Numeric(Get(src, "store_nbr"), p))
    requires c != Unnamed && c != "date" && c != "store_nbr" && c != "sales" && c != "onpromotion"
    requires c != "year" && c != "month" && c != "week"
    ensures CellAt(src, c, has, p, k) == Get(src, c)
  {
    if k > 0 {
      ExpectedOtherCell(src, c, has, p, k - 1);
    }
  }

  /** Two rows with the same cells fare the same in every group. */
  lemma {:induction false} CellAtCells(x: Record, y: Record, c: string, has: Carried, p: Parsers, k: nat)
    requires x.cells == y.cells
    requires k >= 2 ==> IntegralOrMissing(Numeric(Get(x, "store_nbr"), p))
    ensures CellAt(x, c, has, p, k) == CellAt(y, c, has, p, k)
    decreases k
  {
    if k > 0 {
      CellAtCells(x, y, c, has, p, k - 1);
      if 1 <= k <= 7 {
        CellAtCells(x, y, StageSource(k), has, p, k - 1);
      }
    }
  }

  /** Row i of the stacked table: row i of the first table, or a row of the second after it. */
  function SourceRow(a: DataFrame, b: DataFrame, i: int): (r: Record)
    requires 0 <= i < |a.rows| + |b.rows|
    ensures r.cells == Concat(a, b).rows[i].cells
  {
    var t := Concat(a, b);
    var r := if i < |a.rows| then a.rows[i] else b.rows[i - |a.rows|];
    assert forall c :: Get(r, c) == Get(t.rows[i], c);
    assert forall c :: c in r.cells <==> c in t.rows[i].cells by {
      forall c ensures c in r.cells <==> c in t.rows[i].cells {
        assert Get(r, c) == Get(t.rows[i], c);
      }
    }
    r
  }

  /**
   * A successful load holds one row per row of the two tables read, the first archive's
   * first, labelled 0..n-1, with the cells load_data makes of them.
   */
  lemma LoadedRows(zip1: Option<seq<Entry>>, zip2: Option<seq<Entry>>, read1: Entry -> DataFrame, read2: Entry -> DataFrame, p: Parsers)
    requires Load(zip1, zip2, read1, read2, p).Ok?
    ensures SelectEntry(zip1).Ok? && SelectEntry(zip2).Ok?
    ensures var a, b := read1(SelectEntry(zip1).value), read2(SelectEntry(zip2).value);
      var cols := a.columns + Without(b.columns, a.columns);
      var t := Load(zip1, zip2, read1, read2, p).value;
      && t.columns == Without(cols, [Unnamed]) + AddedColumns(cols)
      && |t.rows| == |a.rows| + |b.rows|
      && (forall i :: 0 <= i < |t.rows| ==> t.rows[i].index == i)
      && (forall i :: 0 <= i < |t.rows| ==> IntegralOrMissing(Numeric(Get(SourceRow(a, b, i), "store_nbr"), p)))
      && (forall i, c :: 0 <= i < |t.rows| ==> Get(t.rows[i], c) == ExpectedCell(SourceRow(a, b, i), c, cols, p))
  {
    var a, b := read1(SelectEntry(zip1).value), read2(SelectEntry(zip2).value);
    assert Load(zip1, zip2, read1, read2, p) == Normalize(Concat(a, b), p);
    StackedShape(a, b, p);
    StackedCells(a, b, p);
  }

  /** The stacked tables normalized: the columns, one row per source row, labelled 0..n-1. */
  lemma StackedShape(a: DataFrame, b: DataFrame, p: Parsers)
    requires Normalize(Concat(a, b), p).Ok?
    ensures var cols := a.columns + Without(b.columns, a.columns);
      var t := Normalize(Concat(a, b), p).value;
      && t.columns == Without(cols, [Unnamed]) + AddedColumns(cols)
      && |t.rows| == |a.rows| + |b.rows|
      && (forall i :: 0 <= i < |t.rows| ==> t.rows[i].index == i)
  {
    NormalizedRows(Concat(a, b), p);
  }

  /** The stacked tables normalized: every cell as the reference describes it from its source row. */
  lemma StackedCells(a: DataFrame, b: DataFrame, p: Parsers)
    requires Normalize(Concat(a, b), p).Ok?
    ensures var cols := a.columns + Without(b.columns, a.columns);
      var t := Normalize(Concat(a, b), p).value;
      && |t.rows| == |a.rows| + |b.rows|
      && (forall i :: 0 <= i < |t.rows| ==> IntegralOrMissing(Numeric(Get(SourceRow(a, b, i), "store_nbr"), p)))
      && (forall i, c :: 0 <= i < |t.rows| ==> Get(t.rows[i], c) == ExpectedCell(SourceRow(a, b, i), c, cols, p))
  {
    NormalizedRows(Concat(a, b), p);
    StackedRowsAll(a, b, p, Normalize(Concat(a, b), p).value.rows);
  }

  /** Rows described from the stacked table are described from the source tables as well. */
  lemma StackedRowsAll(a: DataFrame, b: DataFrame, p: Parsers, rs: seq<Record>)
    requires |rs| == |a.rows| + |b.rows|
    requires Castable(Concat(a, b).rows, "store_nbr", p)
    requires forall i, c :: 0 <= i < |rs| ==> Get(rs[i], c) == ExpectedCell(Concat(a, b).rows[i], c, Concat(a, b).columns, p)
    ensures forall i :: 0 <= i < |rs| ==> IntegralOrMissing(Numeric(Get(SourceRow(a, b, i), "store_nbr"), p))
    ensures forall i, c :: 0 <= i < |rs| ==> Get(rs[i], c) == ExpectedCell(SourceRow(a, b, i), c, Concat(a, b).columns, p)
  {
    var df := Concat(a, b);
    forall i | 0 <= i < |rs|
      ensures IntegralOrMissing(Numeric(Get(SourceRow(a, b, i), "store_nbr"), p))
      ensures forall c :: Get(rs[i], c) == ExpectedCell(SourceRow(a, b, i), c, df.columns, p)
    {
      assert IntegralOrMissing(Numeric(Get(df.rows[i], "store_nbr"), p));
      StackedRow(a, b, p, i, rs[i]);
    }
  }

  /** One normalized row described through the stacked row is described through its source row. */
  lemma StackedRow(a: DataFrame, b: DataFrame, p: Parsers, i: int, r: Record)
    requires 0 <= i < |a.rows| + |b.rows|
    requires IntegralOrMissing(Numeric(Get(Concat(a, b).rows[i], "store_nbr"), p))
    requires forall c :: Get(r, c) == ExpectedCell(Concat(a, b).rows[i], c, Concat(a, b).columns, p)
    ensures IntegralOrMissing(Numeric(Get(SourceRow(a, b, i), "store_nbr"), p))
    ensures forall c :: Get(r, c) == ExpectedCell(SourceRow(a, b, i), c, Concat(a, b).columns, p)
  {
    var df := Concat(a, b);
    var src := SourceRow(a, b, i);
    assert Get(src, "store_nbr") == Get(df.rows[i], "store_nbr");
    forall c ensures Get(r, c) == ExpectedCell(src, c, df.columns, p) {
      CellAtCells(df.rows[i], src, c, CarriedBy(df.columns), p, 7);
    }
  }



  /**
   * The calendar columns are derived only when the stacked table lacks them: when the first
   * archive has a year column and the second has none, the second archive's rows keep no year.
   */
  lemma YearOnlyFromFirstArchive(zip1: Option<seq<Entry>>, zip2: Option<seq<Entry>>, read1: Entry -> DataFrame, read2: Entry -> DataFrame, p: Parsers, i: int)
    requires Load(zip1, zip2, read1, read2, p).Ok?
    requires SelectEntry(zip1).Ok? && SelectEntry(zip2).Ok?
    requires "year" in read1(SelectEntry(zip1).value).columns && "year" !in read2(SelectEntry(zip2).value).columns
    requires |read1(SelectEntry(zip1).value).rows| <= i < |Load(zip1, zip2, read1, read2, p).value.rows|
    ensures Get(Load(zip1, zip2, read1, read2, p).value.rows[i], "year") == None
  {
    var a, b := read1(SelectEntry(zip1).value), read2(SelectEntry(zip2).value);
    var df := Concat(a, b);
    assert Load(zip1, zip2, read1, read2, p) == Normalize(df, p);
    NormalizedRows(df, p);
    var src := df.rows[i];
    ExpectedCalendarCells(src, df.columns, p);
    assert "year" in df.columns;
    assert b.rows[i - |a.rows|] in b.rows;
    assert Get(src, "year") == Get(b.rows[i - |a.rows|], "year");
  }

  /** load_data as the program runs it: read, stack, then update one table statement by statement. */
  method LoadData(zip1: Option<seq<Entry>>, zip2: Option<seq<Entry>>, read1: Entry -> DataFrame, read2: Entry -> DataFrame, p: Parsers)
    returns (r: Result<DataFrame, LoadError>)
    ensures r == Load(zip1, zip2, read1, read2, p)
  {
    var first := ReadCsvFromZip(zip1, read1);
    if first.Err? {
      return Err(first.error);
    }
    var second := ReadCsvFromZip(zip2, read2);
    if second.Err? {
      return Err(second.error);
    }
    var f := new Frame(Concat(first.value, second.value));
    r := NormalizeFrame(f, p);
  }

  /** app.py lines 59-67: the drop and the four typed columns, each assigned in place. */
  method NormalizeFrame(f: Frame, p: Parsers) returns (r: Result<DataFrame, LoadError>)
    requires f.Valid()
    modifies f
    ensures r == Normalize(old(f.Snapshot()), p)
    ensures f.Valid() && (r.Ok? ==> f.Snapshot() == r.value)
  {
    if Unnamed in f.columns {
      f.Drop(Unnamed);
    }
    ghost var d0 := f.Snapshot();
    assert d0 == Dropped(old(f.Snapshot()));
    if "date" !in f.columns {
      return Err(MissingColumn("date"));
    }
    f.Assign("date", CoerceColumn(ToDate, Column(f.Snapshot(), "date"), p));
    ghost var d1 := f.Snapshot();
    assert d1 == Retype(d0, "date", ToDate, p);
    if "store_nbr" !in f.columns {
      return Err(MissingColumn("store_nbr"));
    }
    if !Castable(f.rows, "store_nbr", p) {
      return Err(CastError("store_nbr"));
    }
    f.Assign("store_nbr", CoerceColumn(ToInt64, Column(f.Snapshot(), "store_nbr"), p));
    ghost var d2 := f.Snapshot();
    assert d2 == Retype(d1, "store_nbr", ToInt64, p);
    if "sales" !in f.columns {
      return Err(MissingColumn("sales"));
    }
    f.Assign("sales", CoerceColumn(ToRealOrZero, Column(f.Snapshot(), "sales"), p));
    ghost var d3 := f.Snapshot();
    assert d3 == Retype(d2, "sales", ToRealOrZero, p);
    if "onpromotion" !in f.columns {
      return Err(MissingColumn("onpromotion"));
    }
    f.Assign("onpromotion", CoerceColumn(ToIntOrZero, Column(f.Snapshot(), "onpromotion"), p));
    assert f.Snapshot() == Retype(d3, "onpromotion", ToIntOrZero, p);
    r := AddCalendarFrame(f, p);
  }

  /** app.py lines 69-74: the calendar columns the table lacks. */
  method AddCalendarFrame(f: Frame, p: Parsers) returns (r: Result<DataFrame, LoadError>)
    requires f.Valid()
    modifies f
    ensures r == AddCalendar(old(f.Snapshot()), p)
    ensures f.Valid() && (r.Ok? ==> f.Snapshot() == r.value)
  {
    ghost var d4 := f.Snapshot();
    if "year" !in f.columns {
      f.Assign("year", CoerceColumn(YearOf, Column(f.Snapshot(), "date"), p));
    }
    ghost var d5 := f.Snapshot();
    assert d5 == Derive(d4, "year", YearOf, p);
    if "month" !in f.columns {
      f.Assign("month", CoerceColumn(MonthOf, Column(f.Snapshot(), "date"), p));
    }
    ghost var d6 := f.Snapshot();
    assert d6 == Derive(d5, "month", MonthOf, p);
    if "week" !in f.columns {
      if !AllTimes(f.rows, "date") {
        return Err(CastError("week"));
      }
      f.Assign("week", CoerceColumn(WeekOf, Column(f.Snapshot(), "date"), p));
    }
    assert f.Snapshot() == Derive(d6, "week", WeekOf, p);
    return Ok(f.Snapshot());
  }
}
