/**
 * The full import pipeline of dv_admin_automator/backend/importer/legacy_adapter.py: column detection,
 * preparation of the CPF and e-mail bases, company resolution, the admin company scrape, and the
 * awaiting-confirmation marker written for the operator.
 */
module LegacyAdapter {
  import opened Wrappers
  import opened Strs
  import opened SeqUtil
  import opened Entries
  import opened Files
  import ImportRunner
  import Jobs

  // ---------------------------------------------------------------------------------------------
  // Data frames

  /** A cell as pandas holds it; None is a missing value (NaN). */
  type Cell = Option<string>

  /** `str()` of a cell: a missing value prints as "nan". */
  function AsStr(c: Cell): string { if c.Some? then c.value else "nan" }

  /** A table read from the upload: column labels and rows of cells. */
  datatype Frame = Frame(columns: seq<string>, rows: seq<seq<Cell>>)

  /** Every row has one cell per column, and (as pandas' readers guarantee) labels are distinct. */
  predicate WellFormed(f: Frame)
  {
    (forall i :: 0 <= i < |f.rows| ==> |f.rows[i]| == |f.columns|)
    && (forall i, j :: 0 <= i < j < |f.columns| ==> f.columns[i] != f.columns[j])
  }

  function ColumnCells(rows: seq<seq<Cell>>, c: nat): (r: seq<Cell>)
    requires forall i :: 0 <= i < |rows| ==> c < |rows[i]|
    ensures |r| == |rows| && forall i :: 0 <= i < |rows| ==> r[i] == rows[i][c]
  {
    if rows == [] then [] else ColumnCells(rows[..|rows| - 1], c) + [rows[|rows| - 1][c]]
  }

  /** `dropna().astype(str)`. */
  function NonMissing(cells: seq<Cell>): (r: seq<string>)
    ensures |r| <= |cells|
  {
    if cells == [] then []
    else NonMissing(cells[..|cells| - 1]) + (if cells[|cells| - 1].Some? then [cells[|cells| - 1].value] else [])
  }

  /** `df[col].dropna().astype(str).head(20)`. */
  function Sample(f: Frame, c: nat): (r: seq<string>)
    requires WellFormed(f) && c < |f.columns|
    ensures |r| <= 20
  {
    Take(NonMissing(ColumnCells(f.rows, c)), 20)
  }

  // ---------------------------------------------------------------------------------------------
  // Column detection

  /** Digits-only form has exactly 11 digits. */
  predicate LooksLikeCpf(v: string) { |Digits(v)| == 11 }

  /** Contains both '@' and '.'. */
  predicate LooksLikeEmail(v: string) { '@' in v && '.' in v }

  /** Stripped, longer than two characters and containing a space. */
  predicate LooksLikeName(v: string) { var t := Strip(v); |t| > 2 && ' ' in t }

  /** `max(1, n // 3)`. */
  function Threshold(n: nat): (k: nat)
    ensures k >= 1 && k >= n / 3 && (k == 1 || k == n / 3)
  {
    if n / 3 > 1 then n / 3 else 1
  }

  /** `len(sample) > 0 and cpf_count >= threshold`. */
  predicate CpfLike(s: seq<string>) { |s| > 0 && CountWhere(s, LooksLikeCpf) >= Threshold(|s|) }

  /** `len(sample) > 0 and email_count >= threshold`. */
  predicate EmailLike(s: seq<string>) { |s| > 0 && CountWhere(s, LooksLikeEmail) >= Threshold(|s|) }

  /** `name_count >= 1`. */
  predicate NameLike(s: seq<string>) { CountWhere(s, LooksLikeName) >= 1 }

  /** The sample of every column, in column order. */
  function Samples(f: Frame): (r: seq<seq<string>>)
    requires WellFormed(f)
    ensures |r| == |f.columns| && forall c :: 0 <= c < |f.columns| ==> r[c] == Sample(f, c)
  {
    seq(|f.columns|, c requires 0 <= c < |f.columns| => Sample(f, c))
  }

  function CpfFlags(ss: seq<seq<string>>): (r: seq<bool>)
    ensures |r| == |ss| && forall c :: 0 <= c < |ss| ==> r[c] == CpfLike(ss[c])
  {
    seq(|ss|, c requires 0 <= c < |ss| => CpfLike(ss[c]))
  }

  function EmailFlags(ss: seq<seq<string>>): (r: seq<bool>)
    ensures |r| == |ss| && forall c :: 0 <= c < |ss| ==> r[c] == EmailLike(ss[c])
  {
    seq(|ss|, c requires 0 <= c < |ss| => EmailLike(ss[c]))
  }

  /** Columns whose sample is not empty (the loop body runs for these only). */
  function NonEmptyFlags(ss: seq<seq<string>>): (r: seq<bool>)
    ensures |r| == |ss| && forall c :: 0 <= c < |ss| ==> r[c] == (|ss[c]| > 0)
  {
    seq(|ss|, c requires 0 <= c < |ss| => |ss[c]| > 0)
  }

  function NameFlags(ss: seq<seq<string>>): (r: seq<bool>)
    ensures |r| == |ss| && forall c :: 0 <= c < |ss| ==> r[c] == NameLike(ss[c])
  {
    seq(|ss|, c requires 0 <= c < |ss| => NameLike(ss[c]))
  }

  /** Column `c` is a name column and no column before it is. */
  predicate FirstNameColumn(ss: seq<seq<string>>, c: nat)
  {
    c < |ss| && NameLike(ss[c]) && forall d :: 0 <= d < c ==> !NameLike(ss[d])
  }

  function LabelAt(columns: seq<string>, c: Option<nat>): Option<string>
  {
    if c.Some? && c.value < |columns| then Some(columns[c.value]) else None
  }

  /** The result dictionary `{'cpf': ..., 'email': ..., 'name': ...}`. */
  datatype Detected = Detected(cpf: Option<string>, email: Option<string>, name: Option<string>)

  /**
   * The name part of `detect_columns_by_content` as written, over the column labels and their samples:
   * the name test sits after the loop, so it reads the `name_count` of the last column with a non-empty
   * sample and assigns the loop variable, which by then is the last column. When no sample is
   * non-empty, `name_count` is unbound and the function raises NameError (the Err case).
   */
  function NameAsWritten(columns: seq<string>, ss: seq<seq<string>>): (r: Result<Option<string>, string>)
    requires |ss| == |columns|
    ensures r.Err? <==> forall c :: 0 <= c < |ss| ==> ss[c] == []
    ensures r.Ok? && r.value.Some? ==> r.value.value == columns[|columns| - 1]
    ensures r.Ok? ==> (r.value.Some? <==> NameLike(ss[LastTrue(NonEmptyFlags(ss)).value]))
  {
    match LastTrue(NonEmptyFlags(ss))
    case None => Err("NameError: name 'name_count' is not defined")
    case Some(k) => Ok(if CountWhere(ss[k], LooksLikeName) >= 1 then Some(columns[|columns| - 1]) else None)
  }

  /** `detect_columns_by_content` as written: first CPF-like and first e-mail-like columns, and the name part above. */
  function DetectAsWritten(columns: seq<string>, ss: seq<seq<string>>): (r: Result<Detected, string>)
    requires |ss| == |columns|
    ensures r.Err? <==> NameAsWritten(columns, ss).Err?
    ensures r.Ok? ==> r.value.cpf == LabelAt(columns, FirstTrue(CpfFlags(ss)))
    ensures r.Ok? ==> r.value.email == LabelAt(columns, FirstTrue(EmailFlags(ss)))
    ensures r.Ok? ==> r.value.name == NameAsWritten(columns, ss).value
  {
    match NameAsWritten(columns, ss)
    case Err(e) => Err(e)
    case Ok(name) => Ok(Detected(LabelAt(columns, FirstTrue(CpfFlags(ss))), LabelAt(columns, FirstTrue(EmailFlags(ss))), name))
  }

  /** What the loop of `detect_columns_by_content` has found so far. */
  datatype Scan = Scan(cpf: Option<nat>, email: Option<nat>, nameCount: Option<nat>)

  /** One pass of that loop on the sample of column `i`; an empty sample changes nothing. */
  function ScanStep(acc: Scan, sample: seq<string>, i: nat): Scan
  {
    if |sample| == 0 then acc
    else Scan(if acc.cpf.None? && CpfLike(sample) then Some(i) else acc.cpf,
              if acc.email.None? && EmailLike(sample) then Some(i) else acc.email,
              Some(CountWhere(sample, LooksLikeName)))
  }

  /** The loop's state after the first `i` columns. */
  function ScanPrefix(ss: seq<seq<string>>, i: nat): Scan
    requires i <= |ss|
  {
    if i == 0 then Scan(None, None, None) else ScanStep(ScanPrefix(ss, i - 1), ss[i - 1], i - 1)
  }

  /** The CPF column found so far is the first CPF-like column among the first `i`. */
  lemma {:induction false} ScanPrefixCpf(ss: seq<seq<string>>, i: nat)
    requires i <= |ss|
    ensures ScanPrefix(ss, i).cpf == FirstTrue(CpfFlags(ss)[..i])
  {
    if i > 0 {
      ScanPrefixCpf(ss, i - 1);
      FirstTrueStep(CpfFlags(ss), i - 1);
    }
  }

  /** The e-mail column found so far is the first e-mail-like column among the first `i`. */
  lemma {:induction false} ScanPrefixEmail(ss: seq<seq<string>>, i: nat)
    requires i <= |ss|
    ensures ScanPrefix(ss, i).email == FirstTrue(EmailFlags(ss)[..i])
  {
    if i > 0 {
      ScanPrefixEmail(ss, i - 1);
      FirstTrueStep(EmailFlags(ss), i - 1);
    }
  }

  /** `name_count` so far is that of the last column among the first `i` with a non-empty sample. */
  lemma {:induction false} ScanPrefixName(ss: seq<seq<string>>, i: nat)
    requires i <= |ss|
    ensures ScanPrefix(ss, i).nameCount
            == match LastTrue(NonEmptyFlags(ss)[..i]) case None => None case Some(k) => Some(CountWhere(ss[k], LooksLikeName))
  {
    if i > 0 {
      ScanPrefixName(ss, i - 1);
      LastTrueStep(NonEmptyFlags(ss), i - 1);
    }
  }

  /**
   * After every column: the first CPF-like and the first e-mail-like column, and the `name_count` of
   * the last column with a non-empty sample (None when the loop body never ran).
   */
  lemma ScanAll(ss: seq<seq<string>>)
    ensures ScanPrefix(ss, |ss|).cpf == FirstTrue(CpfFlags(ss))
    ensures ScanPrefix(ss, |ss|).email == FirstTrue(EmailFlags(ss))
    ensures ScanPrefix(ss, |ss|).nameCount
            == match LastTrue(NonEmptyFlags(ss)) case None => None case Some(k) => Some(CountWhere(ss[k], LooksLikeName))
  {
    ScanPrefixCpf(ss, |ss|);
    ScanPrefixEmail(ss, |ss|);
    ScanPrefixName(ss, |ss|);
    assert CpfFlags(ss)[..|ss|] == CpfFlags(ss);
    assert EmailFlags(ss)[..|ss|] == EmailFlags(ss);
    assert NonEmptyFlags(ss)[..|ss|] == NonEmptyFlags(ss);
  }

  /**
   * The loop of `detect_columns_by_content`, column by column over the columns' samples (each sample
   * is a pure function of the frame, so computing them one by one or up front is the same).
   */
  method ScanColumns(ss: seq<seq<string>>) returns (cpf: Option<nat>, email: Option<nat>, nameCount: Option<nat>)
    ensures Scan(cpf, email, nameCount) == ScanPrefix(ss, |ss|)
  {
    cpf, email, nameCount := None, None, None;
    var i := 0;
    while i < |ss|
      invariant 0 <= i <= |ss|
      invariant Scan(cpf, email, nameCount) == ScanPrefix(ss, i)
    {
      cpf, email, nameCount := ScanColumn(ss[i], i, cpf, email, nameCount);
      i := i + 1;
    }
  }

  /** One pass of that loop: the step `ScanStep` describes. */
  method ScanColumn(sample: seq<string>, i: nat, cpf: Option<nat>, email: Option<nat>, nameCount: Option<nat>)
    returns (cpf': Option<nat>, email': Option<nat>, nameCount': Option<nat>)
    ensures Scan(cpf', email', nameCount') == ScanStep(Scan(cpf, email, nameCount), sample, i)
  {
    cpf', email', nameCount' := cpf, email, nameCount;
    if |sample| == 0 {
      return;
    }
    var cpfCount := CountWhere(sample, LooksLikeCpf);
    var emailCount := CountWhere(sample, LooksLikeEmail);
    if cpfCount >= Threshold(|sample|) && cpf.None? {
      cpf' := Some(i);
    }
    if emailCount >= Threshold(|sample|) && email.None? {
      email' := Some(i);
    }
    nameCount' := Some(CountWhere(sample, LooksLikeName));
  }

  /** `detect_columns_by_content`, proved to compute `DetectAsWritten` on the frame's samples. */
  method DetectColumnsByContent(f: Frame) returns (r: Result<Detected, string>)
    requires WellFormed(f)
    ensures r == DetectAsWritten(f.columns, Samples(f))
  {
    r := DetectOnSamples(f.columns, Samples(f));
  }

  /** The same over the column labels and their samples. */
  method DetectOnSamples(columns: seq<string>, ss: seq<seq<string>>) returns (r: Result<Detected, string>)
    requires |ss| == |columns|
    ensures r == DetectAsWritten(columns, ss)
  {
    var cpf, email, nameCount := ScanColumns(ss);
    ScanAll(ss);
    if nameCount.None? {
      return Err("NameError: name 'name_count' is not defined");
    }
    var name := if nameCount.value >= 1 then Some(columns[|columns| - 1]) else None;
    r := Ok(Detected(LabelAt(columns, cpf), LabelAt(columns, email), name));
  }

  lemma NameFlagsFirst(ss: seq<seq<string>>)
    ensures FirstTrue(NameFlags(ss)).None? <==> forall c :: 0 <= c < |ss| ==> !NameLike(ss[c])
    ensures FirstTrue(NameFlags(ss)).Some? ==> FirstNameColumn(ss, FirstTrue(NameFlags(ss)).value)
  {
    var flags := NameFlags(ss);
    var n := FirstTrue(flags);
    if n.Some? {
      assert flags[n.value];
      forall d | 0 <= d < n.value ensures !NameLike(ss[d]) {
        assert !flags[d];
      }
    } else {
      forall c | 0 <= c < |ss| ensures !NameLike(ss[c]) {
        assert !flags[c];
      }
    }
  }

  /**
   * The name part as evidently intended: the name test inside the loop, guarded like the other two, so
   * the name column is the first column whose sample has a name-like value. No frame raises.
   */
  function NameIntended(columns: seq<string>, ss: seq<seq<string>>): (r: Option<string>)
    requires |ss| == |columns|
    ensures r.None? <==> forall c :: 0 <= c < |ss| ==> !NameLike(ss[c])
    ensures r.Some? ==> exists c :: 0 <= c < |ss| && FirstNameColumn(ss, c) && columns[c] == r.value
  {
    NameFlagsFirst(ss);
    LabelAt(columns, FirstTrue(NameFlags(ss)))
  }

  /** Detection as evidently intended, on a frame. */
  function DetectIntended(f: Frame): (r: Detected)
    requires WellFormed(f)
    ensures r.cpf == LabelAt(f.columns, FirstTrue(CpfFlags(Samples(f))))
    ensures r.email == LabelAt(f.columns, FirstTrue(EmailFlags(Samples(f))))
    ensures r.name == NameIntended(f.columns, Samples(f))
  {
    var ss := Samples(f);
    Detected(LabelAt(f.columns, FirstTrue(CpfFlags(ss))), LabelAt(f.columns, FirstTrue(EmailFlags(ss))),
             NameIntended(f.columns, ss))
  }

  /**
   * As written, a name column that is not last is never detected: when the last column has values but
   * none of them name-like, detection reports no name column although an earlier column is one.
   */
  lemma NameMissedUnlessLast(columns: seq<string>, ss: seq<seq<string>>, c: nat)
    requires |ss| == |columns| && c < |ss| && NameLike(ss[c])
    requires ss[|ss| - 1] != [] && !NameLike(ss[|ss| - 1])
    ensures NameAsWritten(columns, ss) == Ok(None)
    ensures NameIntended(columns, ss).Some?
  {
    WrittenMissesName(columns, ss);
    var v := NameIntended(columns, ss);
    assert v.Some? by {
      assert NameLike(ss[c]);
    }
  }

  /** The last non-empty column is the last column when that one has values. */
  lemma LastNonEmpty(ss: seq<seq<string>>)
    requires ss != [] && ss[|ss| - 1] != []
    ensures LastTrue(NonEmptyFlags(ss)) == Some(|ss| - 1)
  {
    assert NonEmptyFlags(ss)[|ss| - 1];
  }

  lemma WrittenMissesName(columns: seq<string>, ss: seq<seq<string>>)
    requires |ss| == |columns| && ss != [] && ss[|ss| - 1] != [] && !NameLike(ss[|ss| - 1])
    ensures NameAsWritten(columns, ss) == Ok(None)
  {
    LastNonEmpty(ss);
  }

  /** The two-column example: a name column followed by a CPF column. */
  function NameThenCpf(): Frame
  {
    Frame(["Nome", "CPF"], [[Some("A B"), Some("12345678900")]])
  }

  // Steps of the example, each small enough to check on its own.

  lemma ExampleCells()
    ensures WellFormed(NameThenCpf())
    ensures ColumnCells(NameThenCpf().rows, 0) == [Some("A B")]
    ensures ColumnCells(NameThenCpf().rows, 1) == [Some("12345678900")]
  {
  }

  lemma ExampleSamples()
    ensures WellFormed(NameThenCpf())
    ensures Samples(NameThenCpf()) == [["A B"], ["12345678900"]]
  {
    var f := NameThenCpf();
    ExampleCells();
    assert NonMissing([Some("A B")]) == ["A B"] by {
      assert [Some("A B")][..0] == [];
    }
    assert NonMissing([Some("12345678900")]) == ["12345678900"] by {
      assert [Some("12345678900")][..0] == [];
    }
    assert Sample(f, 0) == ["A B"];
    assert Sample(f, 1) == ["12345678900"];
  }

  lemma ExampleName()
    ensures LooksLikeName("A B")
  {
    assert TrimLeft("A B") == "A B";
    assert TrimRight("A B") == "A B";
    assert "A B"[1] == ' ';
  }

  lemma ExampleCpfNotName()
    ensures !LooksLikeName("12345678900")
  {
    assert TrimLeft("12345678900") == "12345678900";
    assert TrimRight("12345678900") == "12345678900";
  }

  lemma ExampleNameLike()
    ensures NameLike(["A B"]) && !NameLike(["12345678900"])
  {
    ExampleName();
    ExampleCpfNotName();
    assert ["A B"][..0] == [] && ["12345678900"][..0] == [];
  }

  /**
   * For `NameThenCpf()` detection as written reports no name column, while the intended detection
   * reports "Nome".
   */
  lemma NameColumnMissed()
    ensures WellFormed(NameThenCpf())
    ensures NameAsWritten(NameThenCpf().columns, Samples(NameThenCpf())) == Ok(None)
    ensures NameIntended(NameThenCpf().columns, Samples(NameThenCpf())) == Some("Nome")
  {
    var ss: seq<seq<string>> := [["A B"], ["12345678900"]];
    ExampleSamples();
    ExampleNameLike();
    assert NameLike(ss[0]) && !NameLike(ss[1]);
    NameMissedUnlessLast(["Nome", "CPF"], ss, 0);
    assert FirstNameColumn(ss, 0);
  }

  // ---------------------------------------------------------------------------------------------
  // Prepared bases

  /** One row of the CPF base: columns company, id, name_employee. */
  datatype CpfRow = CpfRow(company: string, id: string, nameEmployee: string)

  /** One row of the e-mail base: columns company, id. */
  datatype EmailRow = EmailRow(company: string, id: string)

  /** `ddd.ddd.ddd-dd` from eleven digits. */
  function FormatCpf(d: string): (r: string)
    requires |d| == 11
    ensures |r| == 14
    ensures AllDigits(d) ==> IsFormattedCpf(r)
  {
    d[..3] + "." + d[3..6] + "." + d[6..9] + "-" + d[9..]
  }

  predicate IsFormattedCpf(s: string)
  {
    |s| == 14 && s[3] == '.' && s[7] == '.' && s[11] == '-'
    && forall i :: 0 <= i < 14 && i != 3 && i != 7 && i != 11 ==> IsDigit(s[i])
  }

  /** Formatting keeps the digits: stripping the punctuation again gives them back. */
  lemma CpfRoundTrip(d: string)
    requires |d| == 11 && AllDigits(d)
    ensures Digits(FormatCpf(d)) == d
  {
    var a, b, c, e := d[..3], d[3..6], d[6..9], d[9..];
    DigitsAppend(a + "." + b + "." + c + "-", e);
    DigitsAppend(a + "." + b + "." + c, "-");
    DigitsAppend(a + "." + b + ".", c);
    DigitsAppend(a + "." + b, ".");
    DigitsAppend(a + ".", b);
    DigitsAppend(a, ".");
    DigitsOfDigits(a);
    DigitsOfDigits(b);
    DigitsOfDigits(c);
    DigitsOfDigits(e);
    assert a + b + c + e == d;
  }

  /** Different digit strings give different formatted CPFs. */
  lemma FormatCpfInjective(d1: string, d2: string)
    requires |d1| == 11 && AllDigits(d1) && |d2| == 11 && AllDigits(d2)
    requires FormatCpf(d1) == FormatCpf(d2)
    ensures d1 == d2
  {
    CpfRoundTrip(d1);
    CpfRoundTrip(d2);
  }

  /** Falsy column label: missing or empty. */
  predicate Falsy(s: Option<string>) { s.None? || s.value == [] }

  /** Position of a column label (`df[label]`); None is the KeyError the caller catches. */
  function ColIndex(f: Frame, col: string): (r: Option<nat>)
    ensures r.Some? ==> r.value < |f.columns| && f.columns[r.value] == col
    ensures r.None? ==> col !in f.columns
  {
    IndexOfSeq(f.columns, col)
  }

  function IndexOfSeq(s: seq<string>, x: string): (r: Option<nat>)
    ensures r.Some? ==> r.value < |s| && s[r.value] == x
    ensures r.None? ==> x !in s
  {
    if s == [] then None
    else if s[0] == x then Some(0)
    else match IndexOfSeq(s[1..], x)
      case None => None
      case Some(k) => Some(k + 1)
  }

  /** The CPF row a data row contributes: present when its CPF cell has 11 digits. */
  function CpfRowOf(row: seq<Cell>, ci: nat, ni: nat, company: string): (r: Option<CpfRow>)
    requires ci < |row| && ni < |row|
    ensures r.Some? <==> |Digits(AsStr(row[ci]))| == 11
    ensures r.Some? ==> r.value.company == company && IsFormattedCpf(r.value.id)
                        && r.value.id == FormatCpf(Digits(AsStr(row[ci])))
  {
    var d := Digits(AsStr(row[ci]));
    if |d| == 11 then Some(CpfRow(company, FormatCpf(d), Strip(AsStr(row[ni])))) else None
  }

  /** The CPF rows before de-duplication: rows whose CPF cell has 11 digits, formatted, in order. */
  function CpfCandidates(rows: seq<seq<Cell>>, ci: nat, ni: nat, company: string): (r: seq<CpfRow>)
    requires forall i :: 0 <= i < |rows| ==> ci < |rows[i]| && ni < |rows[i]|
    ensures forall k :: 0 <= k < |r| ==> r[k].company == company && IsFormattedCpf(r[k].id)
  {
    if rows == [] then []
    else
      var p := CpfCandidates(rows[..|rows| - 1], ci, ni, company);
      var x := CpfRowOf(rows[|rows| - 1], ci, ni, company);
      if x.Some? then p + [x.value] else p
  }

  /** Every row with an 11-digit CPF contributes a candidate. */
  lemma {:induction false} CpfCandidatesComplete(rows: seq<seq<Cell>>, ci: nat, ni: nat, company: string, i: nat, v: CpfRow)
    requires forall i :: 0 <= i < |rows| ==> ci < |rows[i]| && ni < |rows[i]|
    requires i < |rows| && CpfRowOf(rows[i], ci, ni, company) == Some(v)
    ensures v in CpfCandidates(rows, ci, ni, company)
  {
    var init := rows[..|rows| - 1];
    if i < |init| {
      assert rows[i] == init[i];
      CpfCandidatesComplete(init, ci, ni, company, i, v);
    }
  }

  /** Every candidate comes from a row with an 11-digit CPF. */
  lemma {:induction false} CpfCandidatesSound(rows: seq<seq<Cell>>, ci: nat, ni: nat, company: string, x: CpfRow)
    requires forall i :: 0 <= i < |rows| ==> ci < |rows[i]| && ni < |rows[i]|
    requires x in CpfCandidates(rows, ci, ni, company)
    ensures exists i :: 0 <= i < |rows| && CpfRowOf(rows[i], ci, ni, company) == Some(x)
  {
    var init := rows[..|rows| - 1];
    if x in CpfCandidates(init, ci, ni, company) {
      CpfCandidatesSound(init, ci, ni, company, x);
      var i :| 0 <= i < |init| && CpfRowOf(init[i], ci, ni, company) == Some(x);
      assert rows[i] == init[i];
    } else {
      assert CpfRowOf(rows[|rows| - 1], ci, ni, company) == Some(x);
    }
  }

  function CpfId(x: CpfRow): string { x.id }

  /**
   * `prepare_base_cpf`: None unless both a cpf and a name column were detected (and exist); otherwise
   * the rows whose CPF has 11 digits, formatted, with the stripped name, first row per CPF kept.
   */
  function PrepareBaseCpf(f: Frame, cols: Detected, companyId: string): (r: Option<seq<CpfRow>>)
    requires WellFormed(f)
    ensures Falsy(cols.cpf) || Falsy(cols.name) ==> r.None?
    ensures r.Some? ==> DistinctBy(r.value, CpfId)
    ensures r.Some? ==> forall k :: 0 <= k < |r.value| ==> r.value[k].company == companyId && IsFormattedCpf(r.value[k].id)
  {
    if Falsy(cols.cpf) || Falsy(cols.name) then None
    else match (ColIndex(f, cols.cpf.value), ColIndex(f, cols.name.value))
      case (Some(ci), Some(ni)) =>
        var cands := CpfCandidates(f.rows, ci, ni, companyId);
        var r := DedupBy(cands, CpfId);
        assert forall k :: 0 <= k < |r| ==> r[k] in cands;
        Some(r)
      case _ => None
  }

  /** Every row with an 11-digit CPF is represented in the prepared base, by the first row with that CPF. */
  lemma PrepareBaseCpfComplete(f: Frame, cols: Detected, companyId: string, i: nat)
    requires WellFormed(f) && PrepareBaseCpf(f, cols, companyId).Some?
    requires i < |f.rows|
    requires |Digits(AsStr(f.rows[i][ColIndex(f, cols.cpf.value).value]))| == 11
    ensures FormatCpf(Digits(AsStr(f.rows[i][ColIndex(f, cols.cpf.value).value])))
            in KeysOf(PrepareBaseCpf(f, cols, companyId).value, CpfId)
  {
    var ci := ColIndex(f, cols.cpf.value).value;
    var ni := ColIndex(f, cols.name.value).value;
    assert PrepareBaseCpf(f, cols, companyId).value == DedupBy(CpfCandidates(f.rows, ci, ni, companyId), CpfId);
    CpfRowKept(f.rows, ci, ni, companyId, i);
  }

  /** The row-level step: a row whose CPF cell has 11 digits leaves its formatted CPF among the kept keys. */
  lemma CpfRowKept(rows: seq<seq<Cell>>, ci: nat, ni: nat, company: string, i: nat)
    requires forall i :: 0 <= i < |rows| ==> ci < |rows[i]| && ni < |rows[i]|
    requires i < |rows| && |Digits(AsStr(rows[i][ci]))| == 11
    ensures FormatCpf(Digits(AsStr(rows[i][ci]))) in KeysOf(DedupBy(CpfCandidates(rows, ci, ni, company), CpfId), CpfId)
  {
    var x := CpfRowOf(rows[i], ci, ni, company).value;
    CpfCandidatesComplete(rows, ci, ni, company, i, x);
    CandidateKeyKept(CpfCandidates(rows, ci, ni, company), x);
  }

  /** A candidate's CPF survives de-duplication. */
  lemma CandidateKeyKept(cands: seq<CpfRow>, x: CpfRow)
    requires x in cands
    ensures CpfId(x) in KeysOf(DedupBy(cands, CpfId), CpfId)
  {
    var k :| 0 <= k < |cands| && cands[k] == x;
  }

  /** Every prepared row comes from a data row: its id is that row's CPF formatted, its name that row's. */
  lemma PrepareBaseCpfSound(f: Frame, cols: Detected, companyId: string, k: nat)
    requires WellFormed(f) && PrepareBaseCpf(f, cols, companyId).Some?
    requires k < |PrepareBaseCpf(f, cols, companyId).value|
    ensures exists i :: 0 <= i < |f.rows| && CpfRowOf(f.rows[i], ColIndex(f, cols.cpf.value).value,
              ColIndex(f, cols.name.value).value, companyId) == Some(PrepareBaseCpf(f, cols, companyId).value[k])
  {
    var ci := ColIndex(f, cols.cpf.value).value;
    var ni := ColIndex(f, cols.name.value).value;
    assert PrepareBaseCpf(f, cols, companyId).value[k] in CpfCandidates(f.rows, ci, ni, companyId);
    CpfCandidatesSound(f.rows, ci, ni, companyId, PrepareBaseCpf(f, cols, companyId).value[k]);
  }

  /** The `^[^@\s]+@[^@\s]+\.[^@\s]+$` test: one '@' with a non-empty local part, a domain with an inner '.', no spaces. */
  predicate EmailShape(s: string)
  {
    match IndexOf(s, '@')
    case None => false
    case Some(k) =>
      var user, domain := s[..k], s[k + 1..];
      |user| > 0 && NoSpace(user) && '@' !in domain && NoSpace(domain)
      && exists j :: 1 <= j < |domain| - 1 && domain[j] == '.'
  }

  predicate NoSpace(s: string) { forall i :: 0 <= i < |s| ==> !IsSpace(s[i]) }

  /** `v.strip().lower()`. */
  function EmailKey(c: Cell): string { Lower(Strip(AsStr(c))) }

  predicate EmailKept(id: string) { id != [] && EmailShape(id) }

  function EmailRowId(x: EmailRow): string { x.id }

  function IdentityString(s: string): string { s }

  /** One row per address, all for the same company. */
  function EmailRowsOf(ids: seq<string>, company: string): (r: seq<EmailRow>)
    ensures |r| == |ids| && forall k :: 0 <= k < |ids| ==> r[k] == EmailRow(company, ids[k])
  {
    seq(|ids|, k requires 0 <= k < |ids| => EmailRow(company, ids[k]))
  }

  /** The addresses of a column, in row order: stripped, lower-cased, non-empty and well-formed. */
  function EmailIds(cells: seq<Cell>): (r: seq<string>)
    ensures forall k :: 0 <= k < |r| ==> EmailKept(r[k])
  {
    Filter(MapSeq(cells, EmailKey), EmailKept)
  }

  /** `drop_duplicates` on the addresses: the first occurrence of each, in order. */
  function UniqueEmails(cells: seq<Cell>): (r: seq<string>)
    ensures DistinctBy(r, IdentityString)
    ensures forall k :: 0 <= k < |r| ==> EmailKept(r[k])
  {
    var ids := EmailIds(cells);
    DedupByKeeps(ids, IdentityString, EmailKept);
    DedupBy(ids, IdentityString)
  }

  /**
   * `prepare_base_email`: None unless an e-mail column was detected (and exists); otherwise the
   * stripped, lower-cased values that are non-empty and match the pattern, one row per address.
   */
  function PrepareBaseEmail(f: Frame, cols: Detected, companyId: string): (r: Option<seq<EmailRow>>)
    requires WellFormed(f)
    ensures Falsy(cols.email) ==> r.None?
    ensures r.Some? ==> DistinctBy(r.value, EmailRowId)
    ensures r.Some? ==> forall k :: 0 <= k < |r.value| ==>
              r.value[k].company == companyId && EmailShape(r.value[k].id) && r.value[k].id != []
  {
    if Falsy(cols.email) then None
    else match ColIndex(f, cols.email.value)
      case None => None
      case Some(ei) =>
        Some(EmailRowsOf(UniqueEmails(ColumnCells(f.rows, ei)), companyId))
  }

  /** An address kept from a column is among the unique addresses. */
  lemma UniqueEmailsComplete(cells: seq<Cell>, i: nat)
    requires i < |cells| && EmailKept(EmailKey(cells[i]))
    ensures EmailKey(cells[i]) in UniqueEmails(cells)
  {
    var keys := MapSeq(cells, EmailKey);
    var e := EmailKey(cells[i]);
    assert keys[i] == e;
    var ids := EmailIds(cells);
    assert ids == Filter(keys, EmailKept);
    assert e in ids;
    var uniq := UniqueEmails(cells);
    assert uniq == DedupBy(ids, IdentityString);
    var j :| 0 <= j < |ids| && ids[j] == e;
    assert IdentityString(ids[j]) in KeysOf(uniq, IdentityString);
  }

  /** Every well-formed address of the column appears in the prepared base. */
  lemma EmailRowsComplete(cells: seq<Cell>, companyId: string, i: nat)
    requires i < |cells| && EmailKept(EmailKey(cells[i]))
    ensures EmailRow(companyId, EmailKey(cells[i])) in EmailRowsOf(UniqueEmails(cells), companyId)
  {
    UniqueEmailsComplete(cells, i);
    var uniq := UniqueEmails(cells);
    var k :| 0 <= k < |uniq| && uniq[k] == EmailKey(cells[i]);
    assert EmailRowsOf(uniq, companyId)[k] == EmailRow(companyId, uniq[k]);
  }

  /** An accepted address has exactly one '@' and no whitespace. */
  lemma EmailShapeOneAt(s: string)
    requires EmailShape(s)
    ensures NoSpace(s)
    ensures exists k :: 0 <= k < |s| && s[k] == '@' && '@' !in s[..k] && '@' !in s[k + 1..]
  {
    var k := IndexOf(s, '@').value;
    assert s == s[..k] + [s[k]] + s[k + 1..];
    forall i | 0 <= i < |s| ensures !IsSpace(s[i]) {
      if i < k { assert s[i] == s[..k][i]; }
      else if i > k { assert s[i] == s[k + 1..][i - k - 1]; }
    }
  }

  // ---------------------------------------------------------------------------------------------
  // Company resolution

  /** `x.strip().lower()`. */
  function Norm(s: string): string { Lower(Strip(s)) }

  /** `nm.strip().lower() == name.strip().lower()`, or `in` for the containment pass; a non-string never matches. */
  predicate NameMatches(nm: Option<string>, name: string, exact: bool)
  {
    nm.Some? && if exact then Norm(nm.value) == Norm(name) else Contains(Norm(nm.value), Norm(name))
  }

  /** The first entry whose (string) name satisfies the exact or containment test. */
  function FirstNameMatch(t: seq<(string, Option<string>)>, name: string, exact: bool): (r: Option<string>)
    ensures r.Some? ==> exists i :: 0 <= i < |t| && t[i].0 == r.value && NameMatches(t[i].1, name, exact)
    ensures r.None? ==> forall i :: 0 <= i < |t| ==> !NameMatches(t[i].1, name, exact)
  {
    if t == [] then None
    else if NameMatches(t[0].1, name, exact)
    then Some(t[0].0)
    else FirstNameMatch(t[1..], name, exact)
  }

  /** One `for cid, nm in ...: if test: resolved = cid; break` pass: unchanged when nothing matches. */
  function Pass(resolved: Option<string>, t: seq<(string, Option<string>)>, name: string, exact: bool): Option<string>
  {
    var m := FirstNameMatch(t, name, exact);
    if m.Some? then m else resolved
  }

  /** Exact pass, then, if still unresolved, the containment pass. */
  function TwoPasses(resolved: Option<string>, t: seq<(string, Option<string>)>, name: string): Option<string>
  {
    var first := Pass(resolved, t, name, true);
    if Falsy(first) then Pass(first, t, name, false) else first
  }

  function AsNamed(t: Table<string, string>): seq<(string, Option<string>)>
  {
    seq(|t|, i requires 0 <= i < |t| => (t[i].0, Some(t[i].1)))
  }

  /** The resolved company id, and whether the admin pages had to be scraped to get it. */
  datatype Resolution = Resolution(id: Option<string>, scraped: bool)

  /**
   * Company resolution in `run_import_full`: a given id wins; otherwise, with a company name, the legacy
   * cache (`legacy`, None when missing or unreadable) is searched by exact then by containment match,
   * and only if that fails the scraped admin map is searched the same way.
   */
  function ResolveCompany(companyId: Option<string>, companyName: Option<string>,
                          legacy: Option<seq<(string, Option<string>)>>, scraped: Table<string, string>): (r: Resolution)
    ensures !Falsy(companyId) ==> r == Resolution(companyId, false)
    ensures Falsy(companyId) && Falsy(companyName) ==> Falsy(r.id) && !r.scraped
    ensures r.scraped ==> Falsy(companyId) && !Falsy(companyName)
    ensures !Falsy(r.id) && r.id != companyId ==>
              ((exists i :: 0 <= i < |scraped| && scraped[i].0 == r.id.value)
               || (legacy.Some? && exists j :: 0 <= j < |legacy.value| && legacy.value[j].0 == r.id.value))
  {
    if !Falsy(companyId) then Resolution(companyId, false)
    else if Falsy(companyName) then Resolution(companyId, false)
    else
      var fromCache := if legacy.Some? then TwoPasses(companyId, legacy.value, companyName.value) else companyId;
      if !Falsy(fromCache) then Resolution(fromCache, false)
      else Resolution(TwoPasses(fromCache, AsNamed(scraped), companyName.value), true)
  }

  /** An exact cache match is used even when an earlier cache entry only contains the name. */
  lemma ExactBeforeContainment(name: string, cid: string, legacy: seq<(string, Option<string>)>, scraped: Table<string, string>)
    requires name != [] && cid != []
    requires FirstNameMatch(legacy, name, true) == Some(cid)
    ensures ResolveCompany(None, Some(name), Some(legacy), scraped) == Resolution(Some(cid), false)
  {
  }

  /** A cache hit means no scrape. */
  lemma CacheBeforeScrape(name: string, legacy: seq<(string, Option<string>)>, scraped: Table<string, string>)
    requires name != []
    requires !Falsy(TwoPasses(None, legacy, name))
    ensures !ResolveCompany(None, Some(name), Some(legacy), scraped).scraped
  {
  }

  // ---------------------------------------------------------------------------------------------
  // Admin company scrape

  /** What one admin list page yields: the (id, name) read from each row, or a navigation failure. */
  datatype Page = Rows(rows: seq<(string, string)>) | NavFails

  /** Rows of one page added to `out`: non-empty id and name, id not seen yet. */
  function AddRows(out: Table<string, string>, rows: seq<(string, string)>): (r: Table<string, string>)
    requires DistinctKeys(out)
    ensures DistinctKeys(r)
    ensures |r| >= |out| && r[..|out|] == out
    ensures forall k :: |out| <= k < |r| ==> r[k] in rows && r[k].0 != [] && r[k].1 != []
  {
    if rows == [] then out
    else
      var p := AddRows(out, rows[..|rows| - 1]);
      var x := rows[|rows| - 1];
      if x.0 != [] && x.1 != [] && !HasKey(p, x.0) then
        assert Keys(p + [x]) == Keys(p) + [x.0];
        assert forall k :: 0 <= k < |p| ==> p[k].0 == Keys(p)[k];
        assert (p + [x])[..|out|] == p[..|out|];
        p + [x]
      else p
  }

  /** The page loop: stop at a navigation failure, an empty page, or a page with nothing new. */
  function Scrape(out: Table<string, string>, pages: seq<Page>): (r: Table<string, string>)
    requires DistinctKeys(out)
    ensures DistinctKeys(r) && |r| >= |out| && r[..|out|] == out
    decreases |pages|
  {
    if pages == [] || pages[0].NavFails? || pages[0].rows == [] then out
    else
      var next := AddRows(out, pages[0].rows);
      if |next| == |out| then out else
        var r := Scrape(next, pages[1..]);
        assert r[..|out|] == r[..|next|][..|out|];
        r
  }

  /** The row loop of one admin page: a row is added when its id and name are non-empty and the id is new. */
  method AddPageRows(before: Table<string, string>, rows: seq<(string, string)>) returns (out: Table<string, string>)
    requires DistinctKeys(before)
    ensures out == AddRows(before, rows)
  {
    out := before;
    var j := 0;
    while j < |rows|
      invariant 0 <= j <= |rows|
      invariant out == AddRows(before, rows[..j])
    {
      assert rows[..j + 1][..j] == rows[..j];
      var cid := rows[j].0;
      var name := rows[j].1;
      if cid != [] && name != [] && !HasKey(out, cid) {
        out := out + [(cid, name)];
      }
      j := j + 1;
    }
    assert rows[..j] == rows;
  }

  /**
   * `fetch_companies_map_via_admin`: page p of the admin list is `pages[p]` (an empty page past the
   * end). `browserOk` is whether a session could be obtained and started; when not, the map is empty.
   */
  method FetchCompaniesMap(browserOk: bool, pages: seq<Page>) returns (out: Table<string, string>)
    ensures DistinctKeys(out)
    ensures forall k :: 0 <= k < |out| ==> out[k].0 != [] && out[k].1 != []
    ensures out == if browserOk then Scrape([], pages) else []
  {
    out := [];
    if !browserOk {
      return;
    }
    var page := 0;
    while page < |pages|
      invariant 0 <= page <= |pages|
      invariant DistinctKeys(out)
      invariant forall k :: 0 <= k < |out| ==> out[k].0 != [] && out[k].1 != []
      invariant Scrape([], pages) == Scrape(out, pages[page..])
      decreases |pages| - page
    {
      if pages[page].NavFails? || pages[page].rows == [] {
        break;
      }
      var before := out;
      out := AddPageRows(before, pages[page].rows);
      assert pages[page..][1..] == pages[page + 1..];
      if |out| == |before| {
        out := before;
        break;
      }
      forall k | 0 <= k < |out| ensures out[k].0 != [] && out[k].1 != [] {
        if k < |before| { assert out[k] == before[k]; }
      }
      page := page + 1;
    }
    if page == |pages| {
      assert pages[page..] == [];
    }
  }

  // ---------------------------------------------------------------------------------------------
  // Upload file name and import type

  predicate SafeChar(c: char)
  {
    ('A' <= c <= 'Z') || ('a' <= c <= 'z') || ('0' <= c <= '9') || c == '_' || c == '.' || c == '-'
  }

  /** `re.sub(r'[^A-Za-z0-9_.-]', '_', s or '')`. */
  function Sanitize(s: string): (r: string)
    ensures |r| == |s|
    ensures forall i :: 0 <= i < |s| ==> r[i] == if SafeChar(s[i]) then s[i] else '_'
  {
    if s == [] then [] else [if SafeChar(s[0]) then s[0] else '_'] + Sanitize(s[1..])
  }

  /** Sanitized ids contain only safe characters, and sanitizing is idempotent. */
  lemma SanitizeSafe(s: string)
    ensures forall i :: 0 <= i < |s| ==> SafeChar(Sanitize(s)[i])
    ensures Sanitize(Sanitize(s)) == Sanitize(s)
  {
  }

  /** Two different job ids can share a sanitized form, and so a marker file name. */
  lemma SanitizeCollides()
    ensures Sanitize("a:b") == Sanitize("a_b")
  {
    assert Sanitize("a:b") == "a_b";
    assert Sanitize("a_b") == "a_b";
  }

  /** 'auto' becomes 'cpf' when both a cpf and a name column were detected, else 'email'. */
  function ResolveImportType(importType: string, cols: Detected): (t: string)
    ensures importType != "auto" ==> t == importType
    ensures importType == "auto" ==> (t == "cpf" <==> !Falsy(cols.cpf) && !Falsy(cols.name))
    ensures importType == "auto" ==> (t == "cpf" || t == "email")
  {
    if importType != "auto" then importType
    else if !Falsy(cols.cpf) && !Falsy(cols.name) then "cpf"
    else "email"
  }

  /** `tmp_uploads/import_<safe job id>.csv`. */
  function TmpPath(uploadDir: string, jobId: string): string
  {
    Join(uploadDir, "import_" + Sanitize(jobId) + ".csv")
  }

  function MarkerPath(tmpPath: string): string { tmpPath + ".awaiting_confirm" }

  function SentinelPath(marker: string): string { marker + ".canceled" }

  // ---------------------------------------------------------------------------------------------
  // The whole run and the confirmation wait

  /** The inputs and environment outcomes of one `run_import_full`. */
  datatype FullRun = FullRun(
    frame: Option<Frame>,              // read_file_smart; None when unreadable
    jobId: string,
    companyId: Option<string>,
    companyName: Option<string>,
    importType: string,
    legacy: Option<seq<(string, Option<string>)>>,
    scraped: Table<string, string>,
    csvWritten: bool,                  // write_csv_with_fallback found an encoding
    runnerLoaded: bool,                // `from .runner import run_import`
    runResult: ImportRunner.RunResult,
    uploadDir: string)

  /** Where the job stands: waiting on its marker, or returned with a result. */
  datatype FullState = Awaiting(marker: string) | Returned(ok: bool)

  function CpfCsvRows(rs: seq<CpfRow>): (r: seq<seq<string>>)
    ensures |r| == |rs|
  {
    seq(|rs|, i requires 0 <= i < |rs| => [rs[i].company, rs[i].id, rs[i].nameEmployee])
  }

  function EmailCsvRows(rs: seq<EmailRow>): (r: seq<seq<string>>)
    ensures |r| == |rs|
  {
    seq(|rs|, i requires 0 <= i < |rs| => [rs[i].company, rs[i].id])
  }

  /** The prepared table as it is written: a header row and the data rows. */
  function PreparedCsv(f: Frame, cols: Detected, theType: string, company: string): (r: Option<seq<seq<string>>>)
    requires WellFormed(f)
    ensures r.Some? ==> |r.value| >= 1
    ensures r.Some? ==> r.value[0] == if theType == "cpf" then ["company", "id", "name_employee"] else ["company", "id"]
    ensures r.Some? ==> forall i :: 1 <= i < |r.value| ==> |r.value[i]| >= 2 && r.value[i][0] == company
  {
    if theType == "cpf" then
      var b := PrepareBaseCpf(f, cols, company);
      if b.None? then None else Some([["company", "id", "name_employee"]] + CpfCsvRows(b.value))
    else
      var b := PrepareBaseEmail(f, cols, company);
      if b.None? then None else Some([["company", "id"]] + EmailCsvRows(b.value))
  }

  /**
   * `run_import_full` before the upload: read, detect (as written), resolve the company, resolve the
   * type, prepare. None when the run ends with False before anything is written: unreadable file, the
   * NameError of the detection (caught by the outer `except Exception`), no company, no base or an
   * empty one.
   */
  function PrepareUpload(run: FullRun): (r: Option<seq<seq<string>>>)
    requires run.frame.Some? ==> WellFormed(run.frame.value)
    ensures Falsy(ResolveCompany(run.companyId, run.companyName, run.legacy, run.scraped).id) ==> r.None?
    ensures run.frame.None? ==> r.None?
    ensures run.frame.Some? && DetectAsWritten(run.frame.value.columns, Samples(run.frame.value)).Err? ==> r.None?
    ensures r.Some? ==> |r.value| >= 2
    ensures r.Some? <==>
              run.frame.Some? && DetectAsWritten(run.frame.value.columns, Samples(run.frame.value)).Ok?
              && !Falsy(ResolveCompany(run.companyId, run.companyName, run.legacy, run.scraped).id)
              && var d := DetectAsWritten(run.frame.value.columns, Samples(run.frame.value)).value;
                 var company := ResolveCompany(run.companyId, run.companyName, run.legacy, run.scraped).id.value;
                 var csv := PreparedCsv(run.frame.value, d, ResolveImportType(run.importType, d), company);
                 csv.Some? && |csv.value| >= 2
    ensures r.Some? ==>
              var d := DetectAsWritten(run.frame.value.columns, Samples(run.frame.value)).value;
              var company := ResolveCompany(run.companyId, run.companyName, run.legacy, run.scraped).id.value;
              r == PreparedCsv(run.frame.value, d, ResolveImportType(run.importType, d), company)
              && forall i :: 1 <= i < |r.value| ==> r.value[i][0] == company
  {
    if run.frame.None? then None
    else
      var f := run.frame.value;
      var detected := DetectAsWritten(f.columns, Samples(f));
      if detected.Err? then None
      else
      var cols := detected.value;
      var company := ResolveCompany(run.companyId, run.companyName, run.legacy, run.scraped).id;
      if Falsy(company) then None
      else
        var csv := PreparedCsv(f, cols, ResolveImportType(run.importType, cols), company.value);
        if csv.None? || |csv.value| <= 1 then None else csv
  }

  /**
   * An automatic run whose detection finds neither a name nor an e-mail column falls back to the e-mail
   * type and prepares nothing: the run returns False.
   */
  lemma AutoRunWithoutNameOrEmail(run: FullRun)
    requires run.frame.Some? && WellFormed(run.frame.value) && run.importType == "auto"
    requires var d := DetectAsWritten(run.frame.value.columns, Samples(run.frame.value));
             d.Ok? && d.value.name.None? && d.value.email.None?
    ensures PrepareUpload(run).None?
  {
  }

  /** Neither sample of the example holds an e-mail-like value. */
  lemma ExampleNoEmail(ss: seq<seq<string>>)
    requires ss == [["A B"], ["12345678900"]]
    ensures forall c :: 0 <= c < |ss| ==> !EmailLike(ss[c])
  {
    assert !LooksLikeEmail("A B") && !LooksLikeEmail("12345678900");
    assert ["A B"][..0] == [] && ["12345678900"][..0] == [];
  }

  /** Detection as written reports no e-mail column when no sample is e-mail-like. */
  lemma DetectWithoutEmail(columns: seq<string>, ss: seq<seq<string>>)
    requires |ss| == |columns| && forall c :: 0 <= c < |ss| ==> !EmailLike(ss[c])
    requires NameAsWritten(columns, ss) == Ok(None)
    ensures var d := DetectAsWritten(columns, ss);
            d.Ok? && d.value.name.None? && d.value.email.None?
  {
    FirstTrueNone(EmailFlags(ss));
  }

  /** The written detection on the samples of `NameThenCpf()` finds neither a name nor an e-mail column. */
  lemma ExampleDetectedAsWritten(columns: seq<string>, ss: seq<seq<string>>)
    requires columns == ["Nome", "CPF"] && ss == [["A B"], ["12345678900"]]
    ensures var d := DetectAsWritten(columns, ss);
            d.Ok? && d.value.name.None? && d.value.email.None?
  {
    ExampleNoEmail(ss);
    ExampleNameLike();
    assert NameLike(ss[0]) && !NameLike(ss[1]);
    NameMissedUnlessLast(columns, ss, 0);
    DetectWithoutEmail(columns, ss);
  }

  /**
   * As written, an automatic run on `NameThenCpf()` misses the name column, so the type falls back to
   * e-mail and, without an e-mail column, nothing is prepared: the run returns False.
   */
  lemma AutoRunMissesNameThenCpf(run: FullRun)
    requires run.frame == Some(NameThenCpf()) && run.importType == "auto"
    ensures PrepareUpload(run).None?
  {
    var f := run.frame.value;
    ExampleSamples();
    ExampleDetectedAsWritten(f.columns, Samples(f));
    AutoRunWithoutNameOrEmail(run);
  }

  /**
   * `run_import_full` up to the wait: write the prepared CSV and upload it. When the upload awaits
   * manual confirmation, the marker `{tmp_path, session_id}` is written and the job starts waiting on
   * it. A bare False from the runner cannot be unpacked and ends the run with False.
   */
  function StartFullRun(run: FullRun, fs: Fs): (r: (FullState, Fs))
    requires run.frame.Some? ==> WellFormed(run.frame.value)
    requires ImportRunner.AsReturned(run.runResult)
    ensures r.0.Awaiting? ==> r.0.marker == MarkerPath(TmpPath(run.uploadDir, run.jobId))
    ensures r.0.Awaiting? ==> r.0.marker in r.1 && r.1[r.0.marker] == MarkerJson(Some(TmpPath(run.uploadDir, run.jobId)), None)
    ensures r.0.Awaiting? ==> run.runResult == ImportRunner.Triple(true, true, None)
    ensures r.0 == Returned(true) ==> run.runResult == ImportRunner.Triple(true, false, None)
    ensures PrepareUpload(run).None? ==> r == (Returned(false), fs)
    ensures PrepareUpload(run).Some? && run.csvWritten ==>
              TmpPath(run.uploadDir, run.jobId) in r.1 && r.1[TmpPath(run.uploadDir, run.jobId)] == Csv(PrepareUpload(run).value)
    ensures !run.csvWritten ==> r == (Returned(false), fs)
    ensures !run.runnerLoaded || run.runResult.BareFalse? ==> r.0 == Returned(false)
    ensures PrepareUpload(run).Some? && run.csvWritten && run.runnerLoaded && run.runResult.Triple? ==>
              (r.0.Awaiting? <==> run.runResult.awaiting)
              && (!run.runResult.awaiting ==> r.0 == Returned(run.runResult.ok))
    ensures forall p :: p != TmpPath(run.uploadDir, run.jobId) && p != MarkerPath(TmpPath(run.uploadDir, run.jobId)) ==>
              (p in r.1 <==> p in fs) && (p in r.1 ==> r.1[p] == fs[p])
  {
    match PrepareUpload(run)
    case None => (Returned(false), fs)
    case Some(csv) => Upload(run, csv, fs)
  }

  /** The upload of a prepared table: write it to the job's CSV, load the runner, run it and mark a wait. */
  function Upload(run: FullRun, csv: seq<seq<string>>, fs: Fs): (r: (FullState, Fs))
    requires ImportRunner.AsReturned(run.runResult)
    ensures r.0.Awaiting? ==> r.0.marker == MarkerPath(TmpPath(run.uploadDir, run.jobId))
    ensures r.0.Awaiting? ==> r.0.marker in r.1 && r.1[r.0.marker] == MarkerJson(Some(TmpPath(run.uploadDir, run.jobId)), None)
    ensures r.0.Awaiting? ==> run.runResult == ImportRunner.Triple(true, true, None)
    ensures r.0 == Returned(true) ==> run.runResult == ImportRunner.Triple(true, false, None)
    ensures run.csvWritten ==> TmpPath(run.uploadDir, run.jobId) in r.1 && r.1[TmpPath(run.uploadDir, run.jobId)] == Csv(csv)
    ensures !run.csvWritten ==> r == (Returned(false), fs)
    ensures !run.runnerLoaded || run.runResult.BareFalse? ==> r.0 == Returned(false)
    ensures run.csvWritten && run.runnerLoaded && run.runResult.Triple? ==>
              (r.0.Awaiting? <==> run.runResult.awaiting)
              && (!run.runResult.awaiting ==> r.0 == Returned(run.runResult.ok))
    ensures forall p :: p != TmpPath(run.uploadDir, run.jobId) && p != MarkerPath(TmpPath(run.uploadDir, run.jobId)) ==>
              (p in r.1 <==> p in fs) && (p in r.1 ==> r.1[p] == fs[p])
  {
    if !run.csvWritten then (Returned(false), fs)
    else
      var tmp := TmpPath(run.uploadDir, run.jobId);
      var fs1 := fs[tmp := Csv(csv)];
      if !run.runnerLoaded then (Returned(false), fs1)
      else match run.runResult
        case BareFalse => (Returned(false), fs1)
        case Triple(ok, awaiting, sid) =>
          if awaiting then (Awaiting(MarkerPath(tmp)), fs1[MarkerPath(tmp) := MarkerJson(Some(tmp), sid)])
          else (Returned(ok), fs1)
  }

  /** One turn of `while os.path.exists(marker)` and what follows it. */
  function PollMarker(marker: string, fs: Fs): (r: (FullState, Fs))
    ensures marker in fs ==> r == (Awaiting(marker), fs)
    ensures marker !in fs && SentinelPath(marker) in fs ==> r == (Returned(false), fs - {SentinelPath(marker)})
    ensures marker !in fs && SentinelPath(marker) !in fs ==> r == (Returned(true), fs)
  {
    if marker in fs then (Awaiting(marker), fs)
    else if SentinelPath(marker) in fs then (Returned(false), fs - {SentinelPath(marker)})
    else (Returned(true), fs)
  }

  /** The job leaves the wait only once its marker is gone, and a consumed sentinel does not linger. */
  lemma PollLeavesOnlyWithoutMarker(marker: string, fs: Fs)
    requires PollMarker(marker, fs).0.Returned?
    ensures marker !in fs
    ensures SentinelPath(marker) !in PollMarker(marker, fs).1
    ensures PollMarker(marker, fs).0.ok <==> SentinelPath(marker) !in fs
  {
  }

  /**
   * The job side of announcing the wait: with its own id as the worker's current job id, the job flags
   * itself as awaiting confirmation. Without a current job id nothing is flagged.
   */
  method AnnounceAwaiting(jm: Jobs.JobManager, currentJobId: Option<string>)
    requires jm.Valid()
    modifies jm
    ensures jm.Valid()
    ensures currentJobId.Some? && currentJobId.value != [] && currentJobId.value in old(jm.jobs) ==>
              jm.jobs == old(jm.jobs)[currentJobId.value := old(jm.jobs)[currentJobId.value].(awaiting := true)]
    ensures currentJobId.None? || currentJobId.value == [] || currentJobId.value !in old(jm.jobs) ==> jm.jobs == old(jm.jobs)
  {
    if currentJobId.Some? && currentJobId.value != [] {
      var _ := jm.SetAwaitingConfirmation(currentJobId.value, true);
    }
  }
}
