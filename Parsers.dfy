/**
 * The import preview (backend/importer/parsers.py): the first rows of an uploaded file as column
 * names and one dict per row. The pandas reader is a parameter (None when it raises), as is the csv
 * module's tokenizer, given as the records it yields.
 */
module Parsers {
  import opened Wrappers
  import opened Strs
  import opened SeqUtil
  import opened Entries
  import opened Detector

  /** `cells[j] if cells[j] != '' else None` after padding with None: a missing or empty cell is None. */
  function CsvCell(r: seq<string>, j: nat): (v: Option<string>)
    ensures v.Some? <==> j < |r| && r[j] != ""
    ensures v.Some? ==> v.value == r[j]
  {
    if j < |r| && r[j] != "" then Some(r[j]) else None
  }

  /** The dict comprehension over the columns, in order: a repeated column name keeps its last cell. */
  function CsvRow(cols: seq<string>, r: seq<string>): Table<string, Option<string>>
  {
    if cols == [] then []
    else Put(CsvRow(cols[..|cols| - 1], r), cols[|cols| - 1], CsvCell(r, |cols| - 1))
  }

  /** Every row holds exactly the column names as keys, and never an empty string as a value. */
  lemma CsvRowKeys(cols: seq<string>, r: seq<string>)
    ensures forall k :: HasKey(CsvRow(cols, r), k) <==> k in cols
    ensures DistinctKeys(CsvRow(cols, r))
    ensures forall i :: 0 <= i < |CsvRow(cols, r)| ==> CsvRow(cols, r)[i].1 != Some("")
  {
    CsvRowHasKey(cols, r);
    CsvRowDistinct(cols, r);
    CsvRowNoEmpty(cols, r);
  }

  lemma {:induction false} CsvRowHasKey(cols: seq<string>, r: seq<string>)
    ensures forall k :: HasKey(CsvRow(cols, r), k) <==> k in cols
  {
    if cols != [] {
      var n := |cols| - 1;
      var init := CsvRow(cols[..n], r);
      CsvRowHasKey(cols[..n], r);
      assert cols == cols[..n] + [cols[n]];
      forall k ensures HasKey(CsvRow(cols, r), k) <==> k in cols {
        GetPut(init, cols[n], CsvCell(r, n), k);
        assert k in cols <==> k in cols[..n] || k == cols[n];
      }
    }
  }

  lemma {:induction false} CsvRowDistinct(cols: seq<string>, r: seq<string>)
    ensures DistinctKeys(CsvRow(cols, r))
  {
    if cols != [] {
      var n := |cols| - 1;
      CsvRowDistinct(cols[..n], r);
      PutDistinct(CsvRow(cols[..n], r), cols[n], CsvCell(r, n));
    }
  }

  lemma {:induction false} CsvRowNoEmpty(cols: seq<string>, r: seq<string>)
    ensures forall i :: 0 <= i < |CsvRow(cols, r)| ==> CsvRow(cols, r)[i].1 != Some("")
  {
    if cols != [] {
      var n := |cols| - 1;
      CsvRowNoEmpty(cols[..n], r);
      PutValues(CsvRow(cols[..n], r), cols[n], CsvCell(r, n));
    }
  }

  /** Every value of a Put is the new value or one of the old values. */
  lemma {:induction false} PutValues<K, V>(t: Table<K, V>, k: K, v: V)
    ensures forall i :: 0 <= i < |Put(t, k, v)| ==> Put(t, k, v)[i].1 == v || exists j :: 0 <= j < |t| && Put(t, k, v)[i].1 == t[j].1
  {
    if t != [] && t[0].0 != k {
      PutValues(t[1..], k, v);
      var r := Put(t, k, v);
      forall i | 0 <= i < |r|
        ensures r[i].1 == v || exists j :: 0 <= j < |t| && r[i].1 == t[j].1
      {
        if i > 0 {
          assert r[i] == Put(t[1..], k, v)[i - 1];
          if r[i].1 != v {
            var j :| 0 <= j < |t[1..]| && r[i].1 == t[1..][j].1;
            assert t[1..][j] == t[j + 1];
          }
        }
      }
    }
  }

  /** With distinct column names, each column maps to the cell under it. */
  lemma {:induction false} CsvRowOfDistinct(cols: seq<string>, r: seq<string>)
    requires forall i, j :: 0 <= i < j < |cols| ==> cols[i] != cols[j]
    ensures |CsvRow(cols, r)| == |cols|
    ensures forall i :: 0 <= i < |cols| ==> CsvRow(cols, r)[i] == (cols[i], CsvCell(r, i))
  {
    if cols != [] {
      var n := |cols| - 1;
      var init := CsvRow(cols[..n], r);
      CsvRowOfDistinct(cols[..n], r);
      assert !HasKey(init, cols[n]) by {
        forall i | 0 <= i < |init| ensures Keys(init)[i] != cols[n] {
          assert init[i] == (cols[i], CsvCell(r, i));
        }
      }
      PutFresh(init, cols[n], CsvCell(r, n));
    }
  }

  /** The number of data rows kept: the loop breaks at index `rows`, so none for `rows <= 0`. */
  function DataCount(available: nat, rows: int): (n: nat)
    ensures n <= available && (rows >= 0 ==> n <= rows) && (rows <= 0 ==> n == 0)
    ensures n < available ==> n == if rows < 0 then 0 else rows
  {
    if rows <= 0 then 0 else if available <= rows then available else rows
  }

  /**
   * `_preview_with_csv` on the records the csv reader yields: no record gives the empty preview,
   * else the stripped header and at most `rows` data rows.
   */
  function CsvPreview(records: seq<seq<string>>, rows: int): Preview
  {
    if records == [] then Preview([], [])
    else
      var cols := MapSeq(records[0], Strip);
      var data := records[1..][..DataCount(|records| - 1, rows)];
      Preview(cols, MapSeq(data, r => CsvRow(cols, r)))
  }

  /** The row loop of `_preview_with_csv`, with its break at index `rows`. */
  method ReadCsvPreview(records: seq<seq<string>>, rows: int) returns (p: Preview)
    ensures p == CsvPreview(records, rows)
  {
    if records == [] {
      return Preview([], []);
    }
    var cols := MapSeq(records[0], Strip);
    var out: seq<Table<string, Option<string>>> := [];
    var i := 0;
    while i < |records| - 1
      invariant 0 <= i <= |records| - 1 && i <= DataCount(|records| - 1, rows)
      invariant out == MapSeq(records[1..][..i], r => CsvRow(cols, r))
    {
      if i >= rows {
        break;
      }
      var r := records[i + 1];
      assert records[1..][..i + 1] == records[1..][..i] + [r];
      MapSeqSnoc(records[1..][..i], r, r => CsvRow(cols, r));
      out := out + [CsvRow(cols, r)];
      i := i + 1;
    }
    p := Preview(cols, out);
  }

  /**
   * The csv preview holds the stripped header, at most `rows` rows (all of them when there are fewer),
   * and every row has exactly the columns as keys and no empty-string value.
   */
  lemma CsvPreviewShape(records: seq<seq<string>>, rows: int)
    ensures var p := CsvPreview(records, rows);
            (records == [] ==> p == Preview([], []))
            && (records != [] ==>
                  |p.columns| == |records[0]|
                  && (forall j :: 0 <= j < |p.columns| ==> p.columns[j] == Strip(records[0][j]))
                  && |p.rows| == DataCount(|records| - 1, rows)
                  && forall i :: 0 <= i < |p.rows| ==>
                       (forall k :: HasKey(p.rows[i], k) <==> k in p.columns)
                       && forall e :: 0 <= e < |p.rows[i]| ==> p.rows[i][e].1 != Some(""))
  {
    if records != [] {
      var p := CsvPreview(records, rows);
      forall i | 0 <= i < |p.rows|
        ensures (forall k :: HasKey(p.rows[i], k) <==> k in p.columns)
                && forall e :: 0 <= e < |p.rows[i]| ==> p.rows[i][e].1 != Some("")
      {
        var data := records[1..][..DataCount(|records| - 1, rows)];
        CsvRowKeys(p.columns, data[i]);
      }
    }
  }

  /** With distinct column names, row `i` of the preview is record `i + 1` cell by cell. */
  lemma CsvPreviewCells(records: seq<seq<string>>, rows: int, i: nat, j: nat)
    requires records != [] && i < DataCount(|records| - 1, rows) && j < |records[0]|
    requires var cols := MapSeq(records[0], Strip); forall a, b :: 0 <= a < b < |cols| ==> cols[a] != cols[b]
    ensures var p := CsvPreview(records, rows);
            Get(p.rows[i], p.columns[j]) == Some(CsvCell(records[i + 1], j))
  {
    var p := CsvPreview(records, rows);
    var r := records[1..][..DataCount(|records| - 1, rows)][i];
    assert r == records[i + 1];
    CsvRowOfDistinct(p.columns, r);
    CsvRowKeys(p.columns, r);
    GetAt(p.rows[i], j);
  }

  datatype PreviewError = FileNotFound(path: string) | ReadFailed

  /**
   * `parse_preview`: a missing path raises; otherwise the pandas preview, and when pandas raises, the
   * csv preview (`csvRecords` None when opening the file raises, which propagates).
   */
  function ParsePreview(path: string, exists_: bool, pandas: Option<Preview>, csvRecords: Option<seq<seq<string>>>, rows: int): (r: Result<Preview, PreviewError>)
    ensures !exists_ <==> r == Err(FileNotFound(path))
    ensures exists_ && pandas.Some? ==> r == Ok(pandas.value)
    ensures exists_ && pandas.None? && csvRecords.Some? ==> r == Ok(CsvPreview(csvRecords.value, rows))
    ensures r == Err(ReadFailed) <==> exists_ && pandas.None? && csvRecords.None?
  {
    if !exists_ then Err(FileNotFound(path))
    else if pandas.Some? then Ok(pandas.value)
    else if csvRecords.None? then Err(ReadFailed)
    else Ok(CsvPreview(csvRecords.value, rows))
  }
}
