/**
 * The Google Sheets helpers of the web API (ui/web/api/sheets_client.py): which credentials are used,
 * how a sheet's value grid becomes row dicts, the column letters of a range, and how a row is merged
 * before it is written back. The Sheets API itself is a parameter: each call's answer (or its failure)
 * is an input.
 */
module SheetsClient {
  import opened Wrappers
  import opened Strs
  import opened SeqUtil
  import opened Entries
  import opened Json
  import Storage

  // ---------------------------------------------------------------------------------------------
  // Credentials

  datatype Credentials = FromInfo(info: Json) | FromFile(path: string)

  /**
   * `_get_credentials`: the cached service-account info when it is truthy, else the key file named by
   * GOOGLE_SA_JSON_PATH, else by GOOGLE_APPLICATION_CREDENTIALS, else none.
   */
  function CredentialsOf(info: Option<Json>, env: Storage.Env): (r: Option<Credentials>)
    ensures info.Some? && Truthy(info.value) ==> r == Some(FromInfo(info.value))
    ensures !(info.Some? && Truthy(info.value)) ==>
              (r.None? <==> !Storage.EnvSet(env, "GOOGLE_SA_JSON_PATH") && !Storage.EnvSet(env, "GOOGLE_APPLICATION_CREDENTIALS"))
    ensures r.Some? && r.value.FromFile? ==>
              r.value.path == (if Storage.EnvSet(env, "GOOGLE_SA_JSON_PATH") then env["GOOGLE_SA_JSON_PATH"] else env["GOOGLE_APPLICATION_CREDENTIALS"])
  {
    if info.Some? && Truthy(info.value) then Some(FromInfo(info.value))
    else if Storage.EnvSet(env, "GOOGLE_SA_JSON_PATH") then Some(FromFile(env["GOOGLE_SA_JSON_PATH"]))
    else if Storage.EnvSet(env, "GOOGLE_APPLICATION_CREDENTIALS") then Some(FromFile(env["GOOGLE_APPLICATION_CREDENTIALS"]))
    else None
  }

  // ---------------------------------------------------------------------------------------------
  // Column letters

  predicate IsColumnName(s: string)
  {
    forall i :: 0 <= i < |s| ==> 'A' <= s[i] <= 'Z'
  }

  /** Bijective base 26: 1 is "A", 26 is "Z", 27 is "AA"; zero and negative numbers have no letters. */
  function ColLetter(n: int): (r: string)
    ensures IsColumnName(r)
    ensures r == "" <==> n <= 0
    decreases n
  {
    if n <= 0 then "" else ColLetter((n - 1) / 26) + [(65 + (n - 1) % 26) as char]
  }

  /** The column number a name of letters stands for: the inverse of `ColLetter`. */
  function ColumnNumber(s: string): (r: nat)
    requires IsColumnName(s)
    ensures r == 0 <==> s == ""
  {
    if s == [] then 0 else ColumnNumber(s[..|s| - 1]) * 26 + (s[|s| - 1] as int - 64)
  }

  /** `_col_index_to_letter`: `divmod(n - 1, 26)` peels off the last letter until n is no longer positive. */
  method ColIndexToLetter(n: int) returns (letters: string)
    ensures letters == ColLetter(n)
  {
    letters := "";
    var k := n;
    while k > 0
      invariant ColLetter(n) == ColLetter(k) + letters
      decreases k
    {
      var rem := (k - 1) % 26;
      k := (k - 1) / 26;
      letters := [(65 + rem) as char] + letters;
    }
  }

  lemma ColLetterExamples()
    ensures ColLetter(1) == "A" && ColLetter(26) == "Z" && ColLetter(27) == "AA" && ColLetter(52) == "AZ"
    ensures ColLetter(53) == "BA" && ColLetter(702) == "ZZ" && ColLetter(703) == "AAA"
  {
    ColLetterSingle();
    ColLetterDouble();
    assert ColLetter(703) == ColLetter(27) + "A";
  }

  lemma ColLetterSingle()
    ensures ColLetter(1) == "A" && ColLetter(2) == "B" && ColLetter(26) == "Z"
  {
    assert ColLetter(1) == "A";
    assert ColLetter(2) == "B";
    assert ColLetter(26) == "Z";
  }

  lemma ColLetterDouble()
    ensures ColLetter(27) == "AA" && ColLetter(52) == "AZ" && ColLetter(53) == "BA" && ColLetter(702) == "ZZ"
  {
    ColLetterSingle();
    assert ColLetter(27) == ColLetter(1) + "A";
    assert ColLetter(52) == ColLetter(1) + "Z";
    assert ColLetter(53) == ColLetter(2) + "A";
    assert ColLetter(702) == ColLetter(26) + "Z";
  }

  /** Decoding the letters of a column gives its number back. */
  lemma {:induction false} ColumnNumberOfLetter(n: nat)
    ensures ColumnNumber(ColLetter(n)) == n
    decreases n
  {
    if n > 0 {
      var q, d := (n - 1) / 26, (n - 1) % 26;
      ColumnNumberOfLetter(q);
      var s := ColLetter(n);
      assert s[..|s| - 1] == ColLetter(q);
      assert s[|s| - 1] as int - 64 == d + 1;
    }
  }

  /** Every non-empty name of letters is the name of exactly the column it decodes to. */
  lemma {:induction false} LetterOfColumnNumber(s: string)
    requires IsColumnName(s)
    ensures ColLetter(ColumnNumber(s)) == s
    decreases |s|
  {
    if s != [] {
      var init := s[..|s| - 1];
      var d := s[|s| - 1] as int - 65;
      LetterOfColumnNumber(init);
      var n := ColumnNumber(s);
      assert n - 1 == ColumnNumber(init) * 26 + d && 0 <= d < 26;
      assert (n - 1) / 26 == ColumnNumber(init);
      assert (n - 1) % 26 == d;
      assert s == init + [s[|s| - 1]];
    }
  }

  /** Different positive columns never share letters. */
  lemma ColLetterInjective(a: int, b: int)
    requires a > 0 && b > 0 && ColLetter(a) == ColLetter(b)
    ensures a == b
  {
    ColumnNumberOfLetter(a);
    ColumnNumberOfLetter(b);
  }

  // ---------------------------------------------------------------------------------------------
  // Reading rows

  /** `row_values[i] if i < len(row_values) else ''`. */
  function CellOr(cells: seq<string>, i: nat): string
  {
    if i < |cells| then cells[i] else ""
  }

  /**
   * The dict `read_sheet_rows` builds for one row: header i is set to cell i (or ''), in header order, so
   * that of two equal headers the later one's cell is kept.
   */
  function RowOf(headers: seq<string>, cells: seq<string>): (r: Table<string, string>)
    ensures forall k :: HasKey(r, k) <==> k in headers
    decreases |headers|
  {
    if headers == [] then []
    else
      var init := headers[..|headers| - 1];
      assert headers == init + [headers[|headers| - 1]];
      Put(RowOf(init, cells), headers[|headers| - 1], CellOr(cells, |headers| - 1))
  }

  /** The index of the last occurrence of `h`. */
  function LastAt(hs: seq<string>, h: string): (r: nat)
    requires h in hs
    ensures r < |hs| && hs[r] == h && forall j :: r < j < |hs| ==> hs[j] != h
    decreases |hs|
  {
    if hs[|hs| - 1] == h then |hs| - 1
    else
      assert h in hs[..|hs| - 1] by {
        var i :| 0 <= i < |hs| && hs[i] == h;
        assert hs[..|hs| - 1][i] == h;
      }
      LastAt(hs[..|hs| - 1], h)
  }

  /** A row maps exactly the headers, each to the cell under its last occurrence (or '' past the row's end). */
  lemma {:induction false} RowOfGet(hs: seq<string>, cells: seq<string>, h: string)
    ensures Get(RowOf(hs, cells), h) == if h in hs then Some(CellOr(cells, LastAt(hs, h))) else None
    decreases |hs|
  {
    if hs != [] {
      var init, last := hs[..|hs| - 1], hs[|hs| - 1];
      RowOfGet(init, cells, h);
      GetPut(RowOf(init, cells), last, CellOr(cells, |hs| - 1), h);
      assert RowOf(hs, cells) == Put(RowOf(init, cells), last, CellOr(cells, |hs| - 1));
      if h == last {
        assert LastAt(hs, h) == |hs| - 1;
      } else if h in init {
        assert h in hs by {
          var i :| 0 <= i < |init| && init[i] == h;
          assert hs[i] == h;
        }
        assert LastAt(hs, h) == LastAt(init, h);
        assert Get(RowOf(hs, cells), h) == Some(CellOr(cells, LastAt(init, h)));
      } else {
        assert h !in hs by {
          assert forall i :: 0 <= i < |init| ==> hs[i] == init[i];
        }
        assert Get(RowOf(hs, cells), h) == None;
      }
    }
  }

  /** With distinct headers, header i maps to cell i. */
  lemma RowOfDistinct(hs: seq<string>, cells: seq<string>, i: nat)
    requires i < |hs| && forall j, k :: 0 <= j < k < |hs| ==> hs[j] != hs[k]
    ensures Get(RowOf(hs, cells), hs[i]) == Some(CellOr(cells, i))
  {
    RowOfGet(hs, cells, hs[i]);
  }

  /** Only the first |headers| cells matter, and a missing cell reads as '': extra cells are dropped. */
  lemma {:induction false} RowOfOnlyHeaderCells(hs: seq<string>, cells: seq<string>, other: seq<string>)
    requires forall i :: 0 <= i < |hs| ==> CellOr(cells, i) == CellOr(other, i)
    ensures RowOf(hs, cells) == RowOf(hs, other)
    decreases |hs|
  {
    if hs != [] {
      RowOfOnlyHeaderCells(hs[..|hs| - 1], cells, other);
    }
  }

  /** A row dict has one key per distinct header. */
  lemma {:induction false} RowOfDistinctKeys(hs: seq<string>, cells: seq<string>)
    ensures DistinctKeys(RowOf(hs, cells))
    decreases |hs|
  {
    if hs != [] {
      RowOfDistinctKeys(hs[..|hs| - 1], cells);
      PutDistinct(RowOf(hs[..|hs| - 1], cells), hs[|hs| - 1], CellOr(cells, |hs| - 1));
    }
  }

  /** The inner loop of `read_sheet_rows`: `row[h] = ...` for every header in turn. */
  method BuildRow(headers: seq<string>, cells: seq<string>) returns (row: Table<string, string>)
    ensures row == RowOf(headers, cells)
  {
    row := [];
    for i := 0 to |headers|
      invariant row == RowOf(headers[..i], cells)
    {
      assert headers[..i + 1][..i] == headers[..i];
      row := Put(row, headers[i], CellOr(cells, i));
    }
    assert headers[..|headers|] == headers;
  }

  function RowIn(headers: seq<string>): seq<string> -> Table<string, string>
  {
    cells => RowOf(headers, cells)
  }

  /** The rows of a value grid: the first line, stripped, is the header; each later line is one row. */
  function SheetRows(values: seq<seq<string>>): seq<Table<string, string>>
  {
    if values == [] then [] else MapSeq(values[1..], RowIn(MapSeq(values[0], Strip)))
  }

  /**
   * `read_sheet_rows`: `creds` is what `_get_credentials` found, `grid` the `values` of the API answer
   * ([] when it has none) or None when the call raised.
   */
  method ReadSheetRows(sheetId: string, creds: Option<Credentials>, grid: Option<seq<seq<string>>>)
    returns (r: Option<seq<Table<string, string>>>)
    ensures r.Some? <==> sheetId != "" && creds.Some? && grid.Some?
    ensures r.Some? ==> r.value == SheetRows(grid.value)
  {
    if sheetId == "" {
      return None;
    }
    if creds.None? {
      return None;
    }
    if grid.None? {
      return None;
    }
    var values := grid.value;
    if values == [] {
      return Some([]);
    }
    var headers := MapSeq(values[0], Strip);
    var rows := BuildRows(headers, values[1..]);
    r := Some(rows);
  }

  /** The outer loop of `read_sheet_rows`: one row dict per line after the header, in order. */
  method BuildRows(headers: seq<string>, lines: seq<seq<string>>) returns (rows: seq<Table<string, string>>)
    ensures rows == MapSeq(lines, RowIn(headers))
  {
    rows := [];
    for j := 0 to |lines|
      invariant rows == MapSeq(lines[..j], RowIn(headers))
    {
      var row := BuildRow(headers, lines[j]);
      assert lines[..j + 1] == lines[..j] + [lines[j]];
      MapSeqSnoc(lines[..j], lines[j], RowIn(headers));
      rows := rows + [row];
    }
    assert lines[..|lines|] == lines;
  }

  /** An empty sheet has no rows, and a sheet with only a header row has none either. */
  lemma SheetRowsCount(values: seq<seq<string>>)
    ensures |SheetRows(values)| == if values == [] then 0 else |values| - 1
    ensures forall k :: 0 <= k < |SheetRows(values)| ==> forall h :: HasKey(SheetRows(values)[k], h) <==> h in MapSeq(values[0], Strip)
  {
    if values != [] {
      var headers := MapSeq(values[0], Strip);
      forall k, h | 0 <= k < |SheetRows(values)|
        ensures HasKey(SheetRows(values)[k], h) <==> h in headers
      {
        RowOfGet(headers, values[k + 1], h);
      }
    }
  }

  // ---------------------------------------------------------------------------------------------
  // Writing one row

  /** The dict key a header is looked up under: the raw header if present, else the stripped one. */
  function CellKey(h: string, changes: map<string, string>): string
  {
    if h in changes then h else Strip(h)
  }

  /** One written cell: the new value when the header's key is in the dict, else the existing cell or ''. */
  function MergedCell(h: string, changes: map<string, string>, existing: seq<string>, i: nat): string
  {
    var k := CellKey(h, changes);
    if k in changes then changes[k] else CellOr(existing, i)
  }

  function MergedRow(headers: seq<string>, changes: map<string, string>, existing: seq<string>): (r: seq<string>)
    ensures |r| == |headers|
  {
    seq(|headers|, i requires 0 <= i < |headers| => MergedCell(headers[i], changes, existing, i))
  }

  /** A header whose raw and stripped forms are both absent keeps the existing cell. */
  lemma MergeKeepsUntouched(headers: seq<string>, changes: map<string, string>, existing: seq<string>, i: nat)
    requires i < |headers| && headers[i] !in changes && Strip(headers[i]) !in changes
    ensures MergedRow(headers, changes, existing)[i] == CellOr(existing, i)
  {
  }

  /** The raw header wins over its stripped form. */
  lemma MergeRawHeaderFirst(headers: seq<string>, changes: map<string, string>, existing: seq<string>, i: nat)
    requires i < |headers| && headers[i] in changes
    ensures MergedRow(headers, changes, existing)[i] == changes[headers[i]]
  {
  }

  /** With no matching key the merge rewrites the existing row as it was, padded with '' to the header width. */
  lemma MergeNoChanges(headers: seq<string>, existing: seq<string>)
    requires |existing| >= |headers|
    ensures MergedRow(headers, map[], existing) == existing[..|headers|]
  {
  }

  /** Merging a second time with the same dict changes nothing. */
  lemma MergeIdempotent(headers: seq<string>, changes: map<string, string>, existing: seq<string>)
    ensures MergedRow(headers, changes, MergedRow(headers, changes, existing)) == MergedRow(headers, changes, existing)
  {
    var once := MergedRow(headers, changes, existing);
    var twice := MergedRow(headers, changes, once);
    forall i | 0 <= i < |headers|
      ensures twice[i] == once[i]
    {
      assert CellOr(once, i) == once[i];
    }
  }

  /** The loop of `write_row_by_index` that builds the written values, one per header. */
  method MergeRow(hs: seq<string>, changes: map<string, string>, existingRow: seq<string>) returns (values: seq<string>)
    ensures values == MergedRow(hs, changes, existingRow)
  {
    values := [];
    for i := 0 to |hs|
      invariant |values| == i
      invariant forall k :: 0 <= k < i ==> values[k] == MergedCell(hs[k], changes, existingRow, k)
    {
      var key := if hs[i] in changes then hs[i] else Strip(hs[i]);
      var cell := if key in changes then changes[key] else if i < |existingRow| then existingRow[i] else "";
      assert cell == MergedCell(hs[i], changes, existingRow, i);
      values := values + [cell];
    }
    assert |values| == |hs|;
  }

  /** The answer of one Sheets `values().get(...)` call: failed, or the `values` field when present. */
  datatype Fetch = Failed | Fetched(values: Option<seq<seq<string>>>)

  /** `A{row}:{lastCol}{row}`. */
  datatype Target = Target(row: int, lastCol: string)

  /** The header row: `head_res.get('values', [[]])[0]`; None when the call fails or that index raises. */
  function HeaderRow(head: Fetch): Option<seq<string>>
  {
    match head
    case Failed => None
    case Fetched(v) =>
      var grid := if v.Some? then v.value else [[]];
      if grid == [] then None else Some(grid[0])
  }

  /** `existing[0] if existing else []` over the `values` field (default []). */
  function ExistingRow(v: Option<seq<seq<string>>>): seq<string>
  {
    if v.None? || v.value == [] then [] else v.value[0]
  }

  /**
   * `write_row_by_index` with credentials found: `head` answers the header read, `existingAt` the read of
   * the target range, `updateOk` whether the update call succeeded. `sent` is the update the function
   * issues, None when it returns before writing.
   */
  method WriteRowByIndex(creds: Option<Credentials>, rowIndex: int, changes: map<string, string>,
                         head: Fetch, existingAt: Target -> Fetch, updateOk: bool)
    returns (ok: bool, sent: Option<(Target, seq<string>)>)
    ensures creds.None? || HeaderRow(head).None? || HeaderRow(head).value == [] ==> !ok && sent.None?
    ensures creds.Some? && HeaderRow(head).Some? && HeaderRow(head).value != [] ==>
              var headers := HeaderRow(head).value;
              var target := Target(rowIndex + 2, ColLetter(|headers|));
              match existingAt(target)
              case Failed => !ok && sent.None?
              case Fetched(v) => sent == Some((target, MergedRow(headers, changes, ExistingRow(v)))) && ok == updateOk
  {
    if creds.None? {
      return false, None;
    }
    var headers := HeaderRow(head);
    if headers.None? || headers.value == [] {
      return false, None;
    }
    var hs := headers.value;
    var lastCol := ColIndexToLetter(|hs|);
    var target := Target(rowIndex + 2, lastCol);
    var fetched := existingAt(target);
    if fetched.Failed? {
      return false, None;
    }
    var existingRow := ExistingRow(fetched.values);
    var values := MergeRow(hs, changes, existingRow);
    sent := Some((target, values));
    ok := updateOk;
  }

  /** The written range spans exactly one column per header, starting at column A. */
  lemma TargetSpansHeaders(headers: seq<string>)
    requires headers != []
    ensures ColLetter(|headers|) != "" && ColumnNumber(ColLetter(|headers|)) == |headers|
  {
    ColumnNumberOfLetter(|headers|);
  }
}
