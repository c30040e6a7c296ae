/**
 * File-type detection for imports (backend/importer/detector.py): a preview of the first rows, and
 * the columns that look like CPF numbers, e-mail addresses and person names, from which the import
 * type is chosen. The readers themselves are parameters: the pandas frame (None when pandas is
 * missing or cannot read the file), the openpyxl sheet, the file text and the csv tokenizer.
 */
module Detector {
  import opened Wrappers
  import opened Strs
  import opened SeqUtil
  import opened Entries
  import LegacyAdapter

  // ---------------------------------------------------------------------------------------------
  // The CPF pattern `^\s*\d{3}\.??\d{3}\.??\d{3}-?\d{2}\s*$`

  /** `t` with one leading `c` dropped, if it has one. */
  function SkipOne(t: string, c: char): (r: string)
    ensures r == t || (t != [] && t[0] == c && r == t[1..])
  {
    if t != [] && t[0] == c then t[1..] else t
  }

  /** `n` digits at the start of `t`. */
  predicate DigitsAtStart(t: string, n: nat)
  {
    |t| >= n && AllDigits(t[..n])
  }

  /**
   * `\d{3}\.??\d{3}\.??\d{3}-?\d{2}` matching all of `t`. Each optional separator is followed by a
   * digit, so it is taken exactly when it is there.
   */
  predicate CpfBody(t: string)
  {
    DigitsAtStart(t, 3)
    && var t1 := SkipOne(t[3..], '.');
    DigitsAtStart(t1, 3)
    && var t2 := SkipOne(t1[3..], '.');
    DigitsAtStart(t2, 3)
    && var t3 := SkipOne(t2[3..], '-');
    |t3| == 2 && AllDigits(t3)
  }

  /** `re.match(pattern, s)`: the body between optional white space at both ends. */
  predicate CpfMatch(s: string)
  {
    CpfBody(Strip(s))
  }

  lemma DigitsSkip(t: string, c: char)
    requires !IsDigit(c)
    ensures Digits(SkipOne(t, c)) == Digits(t)
  {
  }

  lemma DigitsSplit(t: string, n: nat)
    requires n <= |t| && AllDigits(t[..n])
    ensures Digits(t) == t[..n] + Digits(t[n..])
  {
    assert t == t[..n] + t[n..];
    DigitsAppend(t[..n], t[n..]);
    DigitsOfDigits(t[..n]);
  }

  /** A CPF body holds exactly eleven digits. */
  lemma CpfBodyDigits(t: string)
    requires CpfBody(t)
    ensures |Digits(t)| == 11
  {
    var t1 := SkipOne(t[3..], '.');
    var t2 := SkipOne(t1[3..], '.');
    var t3 := SkipOne(t2[3..], '-');
    DigitsSplit(t, 3);
    DigitsSkip(t[3..], '.');
    DigitsSplit(t1, 3);
    DigitsSkip(t1[3..], '.');
    DigitsSplit(t2, 3);
    DigitsSkip(t2[3..], '-');
    DigitsOfDigits(t3);
  }

  lemma {:induction false} DigitsTrimLeft(s: string)
    ensures Digits(TrimLeft(s)) == Digits(s)
  {
    if |s| > 0 && IsSpace(s[0]) {
      DigitsTrimLeft(s[1..]);
    }
  }

  lemma {:induction false} DigitsTrimRight(s: string)
    ensures Digits(TrimRight(s)) == Digits(s)
  {
    if |s| > 0 && IsSpace(s[|s| - 1]) {
      var init := s[..|s| - 1];
      DigitsTrimRight(init);
      assert s == init + [s[|s| - 1]];
      DigitsAppend(init, [s[|s| - 1]]);
    }
  }

  /** Every value the detector takes for a CPF also passes the import's own CPF test (eleven digits). */
  lemma CpfMatchIsCpfLike(s: string)
    requires CpfMatch(s)
    ensures LegacyAdapter.LooksLikeCpf(s)
  {
    CpfBodyDigits(Strip(s));
    DigitsTrimLeft(s);
    DigitsTrimRight(TrimLeft(s));
  }

  // ---------------------------------------------------------------------------------------------
  // Candidate columns

  /** `any(p(s) for s in sample)`. */
  predicate Any(sample: seq<string>, p: string -> bool)
  {
    exists i :: 0 <= i < |sample| && p(sample[i])
  }

  predicate HasAt(s: string)
  {
    '@' in s
  }

  /** `len(s.split()) >= 2`. */
  predicate TwoWords(s: string)
  {
    |Words(s)| >= 2
  }

  /** Per column, whether its sample has a value with the property. */
  function Hits(samples: seq<seq<string>>, p: string -> bool): (r: seq<bool>)
    ensures |r| == |samples| && forall c :: 0 <= c < |samples| ==> r[c] == Any(samples[c], p)
  {
    seq(|samples|, c requires 0 <= c < |samples| => Any(samples[c], p))
  }

  /**
   * `if not cand and hit: cand = col` over the columns in order: the first hit column whose name is
   * not empty, and an empty name only when no hit column has a name.
   */
  function Pick(cols: seq<string>, hits: seq<bool>): Option<string>
    requires |hits| == |cols|
  {
    if cols == [] then None
    else
      var c := Pick(cols[..|cols| - 1], hits[..|hits| - 1]);
      if LegacyAdapter.Falsy(c) && hits[|hits| - 1] then Some(cols[|cols| - 1]) else c
  }

  /** `if hit: cand = col` over the columns in order: the last hit column. */
  function PickLast(cols: seq<string>, hits: seq<bool>): Option<string>
    requires |hits| == |cols|
  {
    match LastTrue(hits)
    case None => None
    case Some(k) => Some(cols[k])
  }

  /** Columns with names: the pick is the first hit column, and None when nothing hits. */
  lemma PickFirst(cols: seq<string>, hits: seq<bool>)
    requires |hits| == |cols| && forall i :: 0 <= i < |cols| ==> cols[i] != ""
    ensures Pick(cols, hits) == match FirstTrue(hits) case None => None case Some(k) => Some(cols[k])
  {
    if cols != [] {
      var n := |cols| - 1;
      PickFirst(cols[..n], hits[..n]);
      FirstTrueStep(hits, n);
      assert hits[..n + 1] == hits;
    }
  }

  /** With any names: the pick is truthy iff some hit column has a non-empty name. */
  lemma {:induction false} PickTruthy(cols: seq<string>, hits: seq<bool>)
    requires |hits| == |cols|
    ensures !LegacyAdapter.Falsy(Pick(cols, hits)) <==> exists i :: 0 <= i < |cols| && hits[i] && cols[i] != ""
    ensures Pick(cols, hits).None? <==> forall i :: 0 <= i < |cols| ==> !hits[i]
  {
    if cols != [] {
      var n := |cols| - 1;
      PickTruthy(cols[..n], hits[..n]);
      assert forall i :: 0 <= i < n ==> cols[..n][i] == cols[i] && hits[..n][i] == hits[i];
    }
  }

  /** The candidates `{'cpf': ..., 'email': ..., 'name': ...}` and the chosen type. */
  datatype Candidates = Candidates(cpf: Option<string>, email: Option<string>, name: Option<string>)

  /** 'cpf' when both a cpf and a name column exist, else 'email' when an e-mail column exists. */
  function TypeOf(c: Candidates): (t: Option<string>)
    ensures t == Some("cpf") <==> !LegacyAdapter.Falsy(c.cpf) && !LegacyAdapter.Falsy(c.name)
    ensures t == Some("email") <==> (LegacyAdapter.Falsy(c.cpf) || LegacyAdapter.Falsy(c.name)) && !LegacyAdapter.Falsy(c.email)
    ensures t.None? <==> (LegacyAdapter.Falsy(c.cpf) || LegacyAdapter.Falsy(c.name)) && LegacyAdapter.Falsy(c.email)
  {
    if !LegacyAdapter.Falsy(c.cpf) && !LegacyAdapter.Falsy(c.name) then Some("cpf")
    else if !LegacyAdapter.Falsy(c.email) then Some("email")
    else None
  }

  /** The candidates on the pandas and openpyxl paths: each is the first column whose sample hits. */
  function FirstCandidates(cols: seq<string>, samples: seq<seq<string>>): Candidates
    requires |samples| == |cols|
  {
    Candidates(Pick(cols, Hits(samples, CpfMatch)), Pick(cols, Hits(samples, HasAt)), Pick(cols, Hits(samples, TwoWords)))
  }

  /** The candidates on the text fallback path: the cpf candidate is the last hit column. */
  function FallbackCandidates(cols: seq<string>, samples: seq<seq<string>>): Candidates
    requires |samples| == |cols|
  {
    Candidates(PickLast(cols, Hits(samples, CpfMatch)), Pick(cols, Hits(samples, HasAt)), Pick(cols, Hits(samples, TwoWords)))
  }

  lemma PickStep(cols: seq<string>, hits: seq<bool>, i: nat)
    requires |hits| == |cols| && i < |cols|
    ensures var c := Pick(cols[..i], hits[..i]);
            Pick(cols[..i + 1], hits[..i + 1]) == if LegacyAdapter.Falsy(c) && hits[i] then Some(cols[i]) else c
  {
    assert cols[..i + 1][..i] == cols[..i] && hits[..i + 1][..i] == hits[..i];
  }

  lemma PickLastStep(cols: seq<string>, hits: seq<bool>, i: nat)
    requires |hits| == |cols| && i < |cols|
    ensures PickLast(cols[..i + 1], hits[..i + 1]) == if hits[i] then Some(cols[i]) else PickLast(cols[..i], hits[..i])
  {
    LastTrueStep(hits, i);
    assert hits[..i + 1][..i] == hits[..i];
    if !hits[i] {
      match LastTrue(hits[..i])
      case None =>
      case Some(k) => assert cols[..i + 1][k] == cols[..i][k];
    }
  }

  /** The candidates after the first `i` columns of the pandas and openpyxl loop. */
  function FirstUpTo(cols: seq<string>, samples: seq<seq<string>>, i: nat): Candidates
    requires |samples| == |cols| && i <= |cols|
  {
    Candidates(Pick(cols[..i], Hits(samples, CpfMatch)[..i]), Pick(cols[..i], Hits(samples, HasAt)[..i]),
               Pick(cols[..i], Hits(samples, TwoWords)[..i]))
  }

  lemma FirstUpToStep(cols: seq<string>, samples: seq<seq<string>>, i: nat)
    requires |samples| == |cols| && i < |cols|
    ensures var c := FirstUpTo(cols, samples, i);
            FirstUpTo(cols, samples, i + 1)
            == Candidates(if LegacyAdapter.Falsy(c.cpf) && Any(samples[i], CpfMatch) then Some(cols[i]) else c.cpf,
                          if LegacyAdapter.Falsy(c.email) && Any(samples[i], HasAt) then Some(cols[i]) else c.email,
                          if LegacyAdapter.Falsy(c.name) && Any(samples[i], TwoWords) then Some(cols[i]) else c.name)
  {
    PickStep(cols, Hits(samples, CpfMatch), i);
    PickStep(cols, Hits(samples, HasAt), i);
    PickStep(cols, Hits(samples, TwoWords), i);
  }

  lemma FirstUpToAll(cols: seq<string>, samples: seq<seq<string>>)
    requires |samples| == |cols|
    ensures FirstUpTo(cols, samples, |cols|) == FirstCandidates(cols, samples)
  {
    assert cols[..|cols|] == cols;
    assert Hits(samples, CpfMatch)[..|cols|] == Hits(samples, CpfMatch);
    assert Hits(samples, HasAt)[..|cols|] == Hits(samples, HasAt);
    assert Hits(samples, TwoWords)[..|cols|] == Hits(samples, TwoWords);
  }

  /** The column loop of the pandas and openpyxl paths. */
  method DetectColumns(cols: seq<string>, samples: seq<seq<string>>) returns (c: Candidates)
    requires |samples| == |cols|
    ensures c == FirstCandidates(cols, samples)
  {
    c := Candidates(None, None, None);
    for i := 0 to |cols|
      invariant c == FirstUpTo(cols, samples, i)
    {
      FirstUpToStep(cols, samples, i);
      var sample := samples[i];
      var cpf, email, name := c.cpf, c.email, c.name;
      if LegacyAdapter.Falsy(cpf) && Any(sample, CpfMatch) {
        cpf := Some(cols[i]);
      }
      if LegacyAdapter.Falsy(email) && Any(sample, HasAt) {
        email := Some(cols[i]);
      }
      if LegacyAdapter.Falsy(name) && Any(sample, TwoWords) {
        name := Some(cols[i]);
      }
      c := Candidates(cpf, email, name);
    }
    FirstUpToAll(cols, samples);
  }

  /** The candidates after the first `i` columns of the text fallback loop. */
  function FallbackUpTo(cols: seq<string>, samples: seq<seq<string>>, i: nat): Candidates
    requires |samples| == |cols| && i <= |cols|
  {
    Candidates(PickLast(cols[..i], Hits(samples, CpfMatch)[..i]), FirstUpTo(cols, samples, i).email, FirstUpTo(cols, samples, i).name)
  }

  lemma FallbackUpToStep(cols: seq<string>, samples: seq<seq<string>>, i: nat)
    requires |samples| == |cols| && i < |cols|
    ensures var c := FallbackUpTo(cols, samples, i);
            FallbackUpTo(cols, samples, i + 1)
            == Candidates(if Any(samples[i], CpfMatch) then Some(cols[i]) else c.cpf,
                          if LegacyAdapter.Falsy(c.email) && Any(samples[i], HasAt) then Some(cols[i]) else c.email,
                          if LegacyAdapter.Falsy(c.name) && Any(samples[i], TwoWords) then Some(cols[i]) else c.name)
  {
    PickLastStep(cols, Hits(samples, CpfMatch), i);
    FirstUpToStep(cols, samples, i);
  }

  /** The column loop of the text fallback: the cpf candidate is overwritten at every hit. */
  method DetectColumnsFallback(cols: seq<string>, samples: seq<seq<string>>) returns (c: Candidates)
    requires |samples| == |cols|
    ensures c == FallbackCandidates(cols, samples)
  {
    c := Candidates(None, None, None);
    for i := 0 to |cols|
      invariant c == FallbackUpTo(cols, samples, i)
    {
      FallbackUpToStep(cols, samples, i);
      var sample := samples[i];
      var cpf, email, name := c.cpf, c.email, c.name;
      if Any(sample, CpfMatch) {
        cpf := Some(cols[i]);
      }
      if LegacyAdapter.Falsy(email) && Any(sample, HasAt) {
        email := Some(cols[i]);
      }
      if LegacyAdapter.Falsy(name) && Any(sample, TwoWords) {
        name := Some(cols[i]);
      }
      c := Candidates(cpf, email, name);
    }
    FirstUpToAll(cols, samples);
    assert Hits(samples, CpfMatch)[..|cols|] == Hits(samples, CpfMatch);
  }

  /** The two paths agree except for the cpf candidate when several columns hold CPFs. */
  lemma FallbackDiffersOnlyInCpf(cols: seq<string>, samples: seq<seq<string>>)
    requires |samples| == |cols| && forall i :: 0 <= i < |cols| ==> cols[i] != ""
    ensures FallbackCandidates(cols, samples).email == FirstCandidates(cols, samples).email
    ensures FallbackCandidates(cols, samples).name == FirstCandidates(cols, samples).name
    ensures var hits := Hits(samples, CpfMatch);
            FirstTrue(hits) == LastTrue(hits) ==> FallbackCandidates(cols, samples) == FirstCandidates(cols, samples)
  {
    PickFirst(cols, Hits(samples, CpfMatch));
  }

  // ---------------------------------------------------------------------------------------------
  // Previews

  /** The preview: column names and one dict per data row. */
  datatype Preview = Preview(columns: seq<string>, rows: seq<Table<string, Option<string>>>)

  function EmptyPreview(): Preview
  {
    Preview([], [])
  }

  /** `r[i] if i < len(r) else None`. */
  function CellAt(r: seq<string>, i: nat): Option<string>
  {
    if i < |r| then Some(r[i]) else None
  }

  /** `d = {}; for i, col in enumerate(columns): d[col] = r[i] if i < len(r) else None`. */
  function RowDict(columns: seq<string>, r: seq<string>): Table<string, Option<string>>
  {
    if columns == [] then []
    else Put(RowDict(columns[..|columns| - 1], r), columns[|columns| - 1], CellAt(r, |columns| - 1))
  }

  /** With distinct column names, each column maps to the cell under it, or None past a short row's end. */
  lemma {:induction false} RowDictOfDistinct(columns: seq<string>, r: seq<string>)
    requires forall i, j :: 0 <= i < j < |columns| ==> columns[i] != columns[j]
    ensures |RowDict(columns, r)| == |columns|
    ensures forall i :: 0 <= i < |columns| ==> RowDict(columns, r)[i] == (columns[i], CellAt(r, i))
  {
    if columns != [] {
      var n := |columns| - 1;
      var init := RowDict(columns[..n], r);
      RowDictOfDistinct(columns[..n], r);
      assert !HasKey(init, columns[n]) by {
        forall i | 0 <= i < |init| ensures Keys(init)[i] != columns[n] {
          assert init[i] == (columns[i], CellAt(r, i));
        }
      }
      PutFresh(init, columns[n], CellAt(r, n));
    }
  }

  /** The one dict-building loop of both readers. */
  method BuildRowDict(columns: seq<string>, r: seq<string>) returns (d: Table<string, Option<string>>)
    ensures d == RowDict(columns, r)
  {
    d := [];
    for i := 0 to |columns|
      invariant d == RowDict(columns[..i], r)
    {
      assert columns[..i + 1][..i] == columns[..i];
      d := Put(d, columns[i], if i < |r| then Some(r[i]) else None);
    }
    assert columns[..|columns|] == columns;
  }

  /** How many rows the readers keep: they append first and stop once `max_rows + 1` are kept. */
  function KeptRows(n: nat, maxRows: int): (k: nat)
    ensures k <= n
  {
    var limit := if maxRows + 1 >= 1 then maxRows + 1 else 1;
    if n <= limit then n else limit
  }

  /** The reading loop: rows are appended until `max_rows + 1` are held or the reader is exhausted. */
  method ReadHead<T>(reader: seq<T>, maxRows: int) returns (rows: seq<T>)
    ensures rows == reader[..KeptRows(|reader|, maxRows)]
  {
    rows := [];
    var i := 0;
    while i < |reader|
      invariant 0 <= i <= |reader| && rows == reader[..i]
      invariant i <= KeptRows(|reader|, maxRows)
      invariant i == 0 || i < maxRows + 1
    {
      rows := rows + [reader[i]];
      i := i + 1;
      if |rows| >= maxRows + 1 {
        break;
      }
    }
  }

  /** `rows[1:stop]` with Python's slice rules for a negative or oversized stop. */
  function SliceFrom1<T>(rows: seq<T>, stop: int): seq<T>
  {
    var e := if stop < 0 then (if |rows| + stop < 0 then 0 else |rows| + stop) else (if stop < |rows| then stop else |rows|);
    if e <= 1 then [] else rows[1..e]
  }

  /** The data rows `rows[1:max_rows+1]` of what was read are always all rows after the header. */
  lemma SliceIsTail<T>(reader: seq<T>, maxRows: int)
    requires reader != []
    ensures var rows := reader[..KeptRows(|reader|, maxRows)];
            SliceFrom1(rows, maxRows + 1) == rows[1..]
  {
  }

  /** Header and data rows shaped into the preview, as both readers do after reading. */
  function Shape(rows: seq<seq<string>>, maxRows: int): Preview
  {
    if rows == [] then EmptyPreview()
    else Preview(rows[0], MapSeq(SliceFrom1(rows, maxRows + 1), r => RowDict(rows[0], r)))
  }

  /** The preview loop over the data rows. */
  method ShapePreview(rows: seq<seq<string>>, maxRows: int) returns (p: Preview)
    ensures p == Shape(rows, maxRows)
  {
    if rows == [] {
      return EmptyPreview();
    }
    var header := rows[0];
    var data := SliceFrom1(rows, maxRows + 1);
    var out: seq<Table<string, Option<string>>> := [];
    for i := 0 to |data|
      invariant out == MapSeq(data[..i], r => RowDict(header, r))
    {
      var d := BuildRowDict(header, data[i]);
      assert data[..i + 1] == data[..i] + [data[i]];
      MapSeqSnoc(data[..i], data[i], r => RowDict(header, r));
      out := out + [d];
    }
    assert data[..|data|] == data;
    p := Preview(header, out);
  }

  /**
   * A preview holds at most `max_rows` data rows (none for a negative `max_rows`), and every data row
   * of a header with distinct names maps each column to its cell or None.
   */
  lemma ShapeBounds(reader: seq<seq<string>>, maxRows: int)
    ensures var p := Shape(reader[..KeptRows(|reader|, maxRows)], maxRows);
            (reader == [] ==> p == EmptyPreview())
            && |p.rows| <= (if maxRows < 0 then 0 else maxRows)
            && (reader != [] ==> p.columns == reader[0] && |p.rows| == KeptRows(|reader|, maxRows) - 1)
  {
    if reader != [] {
      SliceIsTail(reader, maxRows);
      assert reader[..KeptRows(|reader|, maxRows)][0] == reader[0];
    }
  }

  /** What the openpyxl sheet gives: openpyxl missing, a workbook that fails to load, or rows of cells. */
  datatype XlsxRead = NoOpenpyxl | LoadFails | Sheet(rows: seq<seq<Option<string>>>)

  /** `'' if v is None else str(v)`. */
  function CellText(v: Option<string>): string
  {
    if v.None? then "" else v.value
  }

  function RowText(r: seq<Option<string>>): seq<string>
  {
    MapSeq(r, CellText)
  }

  /** `_read_xlsx_with_openpyxl`; None stands for the ImportError it raises without openpyxl. */
  function XlsxPreview(x: XlsxRead, maxRows: int): Option<Preview>
  {
    match x
    case NoOpenpyxl => None
    case LoadFails => Some(EmptyPreview())
    case Sheet(rows) =>
      var read := rows[..KeptRows(|rows|, maxRows)];
      Some(Shape(MapSeq(read, RowText), maxRows))
  }

  /** A tab-separated sample has a tab and more tabs than commas; the first condition follows from the second. */
  function Separator(sample: string): (sep: char)
    ensures sep == '\t' <==> Count(sample, '\t') > Count(sample, ',')
  {
    if '\t' in sample && Count(sample, '\t') > Count(sample, ',') then '\t' else ','
  }

  /** `sample.count(c)`. */
  function Count(s: string, c: char): (n: nat)
    ensures n == 0 <==> c !in s
  {
    if s == [] then 0 else (if s[0] == c then 1 else 0) + Count(s[1..], c)
  }

  /**
   * `_fallback_read_preview`: `text` is the file decoded with errors ignored (None when it cannot be
   * opened), `tokenize` the csv reader for a separator (None when it raises).
   */
  function FallbackPreview(text: Option<string>, tokenize: char -> Option<seq<seq<string>>>, maxRows: int): Preview
  {
    if text.None? then EmptyPreview()
    else
      var sample := if |text.value| <= 8192 then text.value else text.value[..8192];
      match tokenize(Separator(sample))
      case None => EmptyPreview()
      case Some(rows) => Shape(rows[..KeptRows(|rows|, maxRows)], maxRows)
  }

  // ---------------------------------------------------------------------------------------------
  // detect_file_type

  /** `[str(v) for r in rows if (v := r.get(col)) is not None]`: the column's non-None values. */
  function ColumnValues(rows: seq<Table<string, Option<string>>>, col: string): seq<string>
  {
    if rows == [] then []
    else
      var v := Get(rows[|rows| - 1], col);
      ColumnValues(rows[..|rows| - 1], col) + (if v.Some? && v.value.Some? then [v.value.value] else [])
  }

  /** The first twenty values: `[:20]`. */
  function First20(s: seq<string>): seq<string>
  {
    if |s| <= 20 then s else s[..20]
  }

  function PreviewSamples(p: Preview): (r: seq<seq<string>>)
    ensures |r| == |p.columns|
  {
    MapSeq(p.columns, col => First20(ColumnValues(p.rows, col)))
  }

  /**
   * What pandas gives for a file it could read: the string form of its columns, the preview dicts of
   * its first rows, and per column the string forms of its non-null values.
   */
  datatype Frame = Frame(columns: seq<string>, preview: seq<Table<string, Option<string>>>, nonNull: seq<seq<string>>)

  /** The detection result. */
  datatype Detection = Detection(kind: Option<string>, candidates: Candidates, preview: Preview)

  function Detected(c: Candidates, p: Preview): Detection
  {
    Detection(TypeOf(c), c, p)
  }

  /** `os.path.splitext(path)[1].lower() in ('.xlsx', '.xls')`. */
  predicate IsExcel(ext: string)
  {
    ext == ".xlsx" || ext == ".xls"
  }

  /**
   * `detect_file_type`: the pandas frame when pandas read the file, else the openpyxl reader for Excel
   * files, else (and when openpyxl is missing) the text fallback.
   */
  function DetectFileType(df: Option<Frame>, ext: string, xlsx: XlsxRead, text: Option<string>,
                          tokenize: char -> Option<seq<seq<string>>>, sampleRows: int): Detection
  {
    if df.Some? && |df.value.nonNull| == |df.value.columns| then
      var f := df.value;
      Detected(FirstCandidates(f.columns, MapSeq(f.nonNull, First20)), Preview(f.columns, f.preview))
    else if df.None? && IsExcel(ext) && XlsxPreview(xlsx, sampleRows).Some? then
      var p := XlsxPreview(xlsx, sampleRows).value;
      Detected(FirstCandidates(p.columns, PreviewSamples(p)), p)
    else
      var p := FallbackPreview(text, tokenize, sampleRows);
      Detected(FallbackCandidates(p.columns, PreviewSamples(p)), p)
  }

  /**
   * Columns with names: the cpf candidate is the first column whose sample has a CPF-like value, and
   * the type is 'cpf' exactly when such a column and a column with a two-word value both exist.
   */
  lemma FirstCandidatesRule(cols: seq<string>, samples: seq<seq<string>>)
    requires |samples| == |cols| && forall i :: 0 <= i < |cols| ==> cols[i] != ""
    ensures var c := FirstCandidates(cols, samples);
            (c.cpf.Some? <==> exists i :: 0 <= i < |cols| && Any(samples[i], CpfMatch))
            && (forall k :: c.cpf == Some(k) ==>
                  exists i :: 0 <= i < |cols| && k == cols[i] && Any(samples[i], CpfMatch)
                              && forall j :: 0 <= j < i ==> !Any(samples[j], CpfMatch))
            && (TypeOf(c) == Some("cpf") <==>
                  (exists i :: 0 <= i < |cols| && Any(samples[i], CpfMatch))
                  && (exists i :: 0 <= i < |cols| && Any(samples[i], TwoWords)))
  {
    FirstHitRule(cols, samples, CpfMatch);
    FirstHitRule(cols, samples, TwoWords);
  }

  /** One candidate: present iff some column hits, and then the first hit column. */
  lemma FirstHitRule(cols: seq<string>, samples: seq<seq<string>>, p: string -> bool)
    requires |samples| == |cols| && forall i :: 0 <= i < |cols| ==> cols[i] != ""
    ensures var c := Pick(cols, Hits(samples, p));
            (c.Some? <==> exists i :: 0 <= i < |cols| && Any(samples[i], p))
            && (c.Some? ==> c.value != "")
            && (forall k :: c == Some(k) ==>
                  exists i :: 0 <= i < |cols| && k == cols[i] && Any(samples[i], p)
                              && forall j :: 0 <= j < i ==> !Any(samples[j], p))
  {
    var h := Hits(samples, p);
    PickFirst(cols, h);
    if (exists i :: 0 <= i < |cols| && Any(samples[i], p)) {
      var i :| 0 <= i < |cols| && Any(samples[i], p);
      assert h[i];
    }
  }

  /** On the pandas path the candidates come from the frame's first twenty non-null values per column. */
  lemma PandasPathRule(f: Frame, ext: string, xlsx: XlsxRead, text: Option<string>,
                       tokenize: char -> Option<seq<seq<string>>>, sampleRows: int)
    requires |f.nonNull| == |f.columns| && forall i :: 0 <= i < |f.columns| ==> f.columns[i] != ""
    ensures var d := DetectFileType(Some(f), ext, xlsx, text, tokenize, sampleRows);
            var samples := MapSeq(f.nonNull, First20);
            (d.candidates.cpf.Some? <==> exists i :: 0 <= i < |f.columns| && Any(samples[i], CpfMatch))
            && (d.kind == Some("cpf") <==>
                  (exists i :: 0 <= i < |f.columns| && Any(samples[i], CpfMatch))
                  && (exists i :: 0 <= i < |f.columns| && Any(samples[i], TwoWords)))
            && d.preview == Preview(f.columns, f.preview)
  {
    FirstCandidatesRule(f.columns, MapSeq(f.nonNull, First20));
  }

  /** On the text fallback, the cpf candidate is the last column with a CPF-like value. */
  lemma FallbackLastCpfWins(ext: string, xlsx: XlsxRead, text: Option<string>,
                            tokenize: char -> Option<seq<seq<string>>>, sampleRows: int)
    requires !IsExcel(ext)
    ensures var d := DetectFileType(None, ext, xlsx, text, tokenize, sampleRows);
            var s := PreviewSamples(d.preview);
            forall k :: d.candidates.cpf == Some(k) ==>
              exists i :: 0 <= i < |d.preview.columns| && k == d.preview.columns[i] && Any(s[i], CpfMatch)
                          && forall j :: i < j < |d.preview.columns| ==> !Any(s[j], CpfMatch)
  {
  }

  /** The detection loop over the column samples, as `detect_file_type` runs it on each path. */
  method Detect(df: Option<Frame>, ext: string, xlsx: XlsxRead, text: Option<string>,
                tokenize: char -> Option<seq<seq<string>>>, sampleRows: int) returns (d: Detection)
    ensures d == DetectFileType(df, ext, xlsx, text, tokenize, sampleRows)
  {
    if df.Some? && |df.value.nonNull| == |df.value.columns| {
      var f := df.value;
      var c := DetectColumns(f.columns, MapSeq(f.nonNull, First20));
      return Detected(c, Preview(f.columns, f.preview));
    }
    if df.None? && IsExcel(ext) && XlsxPreview(xlsx, sampleRows).Some? {
      var p := XlsxPreview(xlsx, sampleRows).value;
      var c := DetectColumns(p.columns, PreviewSamples(p));
      return Detected(c, p);
    }
    var p := FallbackPreview(text, tokenize, sampleRows);
    var c := DetectColumnsFallback(p.columns, PreviewSamples(p));
    d := Detected(c, p);
  }
}
