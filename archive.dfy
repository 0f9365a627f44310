/**
 * Choosing the data file inside a zip archive (read_csv_from_zip): the archive is
 * reduced to its entries' names and uncompressed sizes.
 */
module Archive {
  import opened Wrappers
  import opened Frames

  /** One member of a zip archive: its file name and its uncompressed size in bytes. */
  datatype Entry = Entry(name: string, size: nat)

  /** The failures that stop the dashboard while loading (st.error followed by st.stop, or an exception). */
  datatype LoadError =
    | MissingFile  // the archive path does not exist
    | NoCsvEntry  // no member name ends in .csv
    | EmptyCsv  // the largest .csv member is empty
    | MissingColumn(name: string)  // df[name] on a column the table lacks (KeyError)
    | CastError(column: string)  // a cast that pandas refuses (astype on a missing or fractional value)

  /** str.lower on the ASCII letters. */
  function LowerChar(ch: char): (r: char)
    ensures 'A' <= ch <= 'Z' ==> r as int == ch as int + 32
    ensures !('A' <= ch <= 'Z') ==> r == ch
  {
    if 'A' <= ch <= 'Z' then (ch as int + 32) as char else ch
  }

  function Lower(s: string): (r: string)
    ensures |r| == |s|
  {
    seq(|s|, i requires 0 <= i < |s| => LowerChar(s[i]))
  }

  /** name.lower().endswith(".csv") */
  predicate IsCsvName(name: string) {
    var l := Lower(name);
    |l| >= 4 && l[|l| - 4..] == ".csv"
  }

  /** The name test ignores the case of the extension, and only the last four characters matter. */
  lemma CsvNameCaseInsensitive(stem: string)
    ensures IsCsvName(stem + ".csv") && IsCsvName(stem + ".CSV") && IsCsvName(stem + ".Csv")
    ensures !IsCsvName(stem + ".csv.zip")
  {
    var a, b, c, d := stem + ".csv", stem + ".CSV", stem + ".Csv", stem + ".csv.zip";
    assert Lower(a)[|a| - 4..] == ".csv";
    assert Lower(b)[|b| - 4..] == ".csv";
    assert Lower(c)[|c| - 4..] == ".csv";
    assert Lower(d)[|d| - 4..][1] == 'z';
  }

  /** The positions of the archive's members whose name ends in .csv, in the archive's order. */
  function CsvPositions(es: seq<Entry>): (idx: seq<int>)
    ensures Increasing(idx, |es|)
    ensures forall k :: 0 <= k < |es| ==> (k in idx <==> IsCsvName(es[k].name))
  {
    if es == [] then []
    else
      var n := |es| - 1;
      CsvPositions(es[..n]) + (if IsCsvName(es[n].name) then [n] else [])
  }

  /**
   * [i for i in z.infolist() if i.filename.lower().endswith(".csv")]: the .csv members,
   * in the archive's order, each as often as it appears.
   */
  function CsvEntries(es: seq<Entry>): (r: seq<Entry>)
    ensures |r| == |CsvPositions(es)|
    ensures forall j :: 0 <= j < |r| ==> r[j] == es[CsvPositions(es)[j]]
    ensures forall e :: e in r <==> e in es && IsCsvName(e.name)
  {
    var idx := CsvPositions(es);
    var r := seq(|idx|, j requires 0 <= j < |idx| => es[idx[j]]);
    assert forall e :: e in es && IsCsvName(e.name) ==> e in r by {
      forall e | e in es && IsCsvName(e.name) ensures e in r {
        var k :| 0 <= k < |es| && es[k] == e;
        var j :| 0 <= j < |idx| && idx[j] == k;
        assert r[j] == e;
      }
    }
    r
  }

  /**
   * max(es, key=size) as Python computes it: the position of the first entry of largest size
   * (a later entry replaces the current best only when it is strictly larger).
   */
  function FirstMax(es: seq<Entry>): (k: nat)
    requires |es| > 0
    ensures k < |es|
    ensures forall j :: 0 <= j < |es| ==> es[j].size <= es[k].size
    ensures forall j :: 0 <= j < k ==> es[j].size < es[k].size
  {
    if |es| == 1 then 0
    else
      var n := |es| - 1;
      var best := FirstMax(es[..n]);
      assert forall j :: 0 <= j < n ==> es[..n][j] == es[j];
      if es[n].size > es[best].size then n else best
  }

  /**
   * The entry read_csv_from_zip reads from an archive (None: the path does not exist), or the
   * reason it stops.
   */
  function SelectEntry(zip: Option<seq<Entry>>): (r: Result<Entry, LoadError>)
    ensures r == Err(MissingFile) <==> zip.None?
    ensures r == Err(NoCsvEntry) <==> zip.Some? && forall e :: e in zip.value ==> !IsCsvName(e.name)
    ensures r == Err(EmptyCsv) <==>
      && zip.Some?
      && (exists e :: e in zip.value && IsCsvName(e.name))
      && (forall e :: e in zip.value && IsCsvName(e.name) ==> e.size == 0)
    ensures r.Err? ==> r.error in {MissingFile, NoCsvEntry, EmptyCsv}
    ensures r.Ok? ==>
      && zip.Some? && r.value in zip.value && IsCsvName(r.value.name) && r.value.size > 0
      && (forall e :: e in zip.value && IsCsvName(e.name) ==> e.size <= r.value.size)
    ensures r.Ok? ==> CsvEntries(zip.value) != [] && r.value == zip.value[LargestCsvPosition(zip.value)]
  {
    match zip
    case None => Err(MissingFile)
    case Some(es) =>
      NoCsvEntries(es);
      if CsvEntries(es) == [] then Err(NoCsvEntry)
      else
        var i := LargestCsvPosition(es);
        LargestEmpty(es);
        if es[i].size == 0 then Err(EmptyCsv) else Ok(es[i])
  }

  /** The list of .csv members is empty exactly when no member's name ends in .csv. */
  lemma NoCsvEntries(es: seq<Entry>)
    ensures CsvEntries(es) == [] <==> forall e :: e in es ==> !IsCsvName(e.name)
  {
    if CsvEntries(es) != [] {
      assert CsvEntries(es)[0] in CsvEntries(es);
    }
  }

  /** The largest .csv member is empty exactly when every .csv member is. */
  lemma LargestEmpty(es: seq<Entry>)
    requires CsvEntries(es) != []
    ensures var i := LargestCsvPosition(es);
      && es[i] in es && IsCsvName(es[i].name)
      && (es[i].size == 0 <==> forall e :: e in es && IsCsvName(e.name) ==> e.size == 0)
  {
  }

  /**
   * When several .csv members share the largest size, the first of them in the archive's
   * order is read: the position in the archive of the member max(infos, key=file_size)
   * returns; every .csv member before it is strictly smaller.
   */
  function LargestCsvPosition(es: seq<Entry>): (i: int)
    requires CsvEntries(es) != []
    ensures 0 <= i < |es| && IsCsvName(es[i].name) && es[i] == CsvEntries(es)[FirstMax(CsvEntries(es))]
    ensures forall e :: e in es && IsCsvName(e.name) ==> e.size <= es[i].size
    ensures forall j :: 0 <= j < i && IsCsvName(es[j].name) ==> es[j].size < es[i].size
  {
    var csv, idx := CsvEntries(es), CsvPositions(es);
    var k := FirstMax(csv);
    assert csv[k] in csv;
    assert forall j :: 0 <= j < idx[k] && IsCsvName(es[j].name) ==> es[j].size < es[idx[k]].size by {
      forall j | 0 <= j < idx[k] && IsCsvName(es[j].name) ensures es[j].size < es[idx[k]].size {
        var m :| 0 <= m < |idx| && idx[m] == j;
        assert csv[m] == es[j];
      }
    }
    idx[k]
  }

  /** read_csv_from_zip: the table parsed from the chosen entry; `read` stands for pd.read_csv on it. */
  function ReadCsvFromZip(zip: Option<seq<Entry>>, read: Entry -> DataFrame): (r: Result<DataFrame, LoadError>)
    ensures r.Ok? <==> SelectEntry(zip).Ok?
    ensures r.Ok? ==> r.value == read(SelectEntry(zip).value)
    ensures r.Err? ==> r.error == SelectEntry(zip).error
  {
    match SelectEntry(zip)
    case Ok(e) => Ok(read(e))
    case Err(err) => Err(err)
  }
}
