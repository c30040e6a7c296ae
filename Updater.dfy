/**
 * The company updater of the importer (backend/importer/updater.py): a company name is matched
 * against the first column of the master sheet with a fuzzy score, the match decides between
 * "create" and "update", the date of the update is written to the matched row, and a new tab can be
 * added to the company's own sheet. The Google Sheets and Drive calls are parameters (their answers,
 * or whether they succeeded), and so is the fuzzy scorer (rapidfuzz's `token_set_ratio` or difflib's
 * ratio, whichever is installed).
 */
module Updater {
  import opened Wrappers
  import opened Strs
  import opened SeqUtil
  import SheetsClient

  /** The default of `SCORE_REVIEW`: below it a match only proposes to create a new entry. */
  const DefaultScoreReview := 75

  // ---------------------------------------------------------------------------------------------
  // normalize_name

  /**
   * One character after NFKD decomposition with the combining marks dropped, for the Latin-1 range
   * and the combining diacritical marks block (U+0300..U+036F, all of which combine except U+034F).
   */
  function FoldChar(c: char): string
  {
    if c == '\U{a0}' || c == '\U{a8}' || c == '\U{af}' || c == '\U{b4}' || c == '\U{b8}' then " "
    else if c == '\U{aa}' then "a"
    else if c == '\U{ba}' then "o"
    else if c == '\U{b2}' then "2"
    else if c == '\U{b3}' then "3"
    else if c == '\U{b9}' then "1"
    else if c == '\U{b5}' then "\U{3bc}"
    else if c == '\U{bc}' then "1\U{2044}4"
    else if c == '\U{bd}' then "1\U{2044}2"
    else if c == '\U{be}' then "3\U{2044}4"
    else if '\U{c0}' <= c <= '\U{c5}' then "A"
    else if c == '\U{c7}' then "C"
    else if '\U{c8}' <= c <= '\U{cb}' then "E"
    else if '\U{cc}' <= c <= '\U{cf}' then "I"
    else if c == '\U{d1}' then "N"
    else if '\U{d2}' <= c <= '\U{d6}' then "O"
    else if '\U{d9}' <= c <= '\U{dc}' then "U"
    else if c == '\U{dd}' then "Y"
    else if '\U{e0}' <= c <= '\U{e5}' then "a"
    else if c == '\U{e7}' then "c"
    else if '\U{e8}' <= c <= '\U{eb}' then "e"
    else if '\U{ec}' <= c <= '\U{ef}' then "i"
    else if c == '\U{f1}' then "n"
    else if '\U{f2}' <= c <= '\U{f6}' then "o"
    else if '\U{f9}' <= c <= '\U{fc}' then "u"
    else if c == '\U{fd}' || c == '\U{ff}' then "y"
    else if '\U{300}' <= c <= '\U{36f}' && c != '\U{34f}' then ""
    else [c]
  }

  /** `"".join(ch for ch in unicodedata.normalize("NFKD", s) if not unicodedata.combining(ch))`. */
  function Fold(s: string): string
  {
    if s == [] then [] else FoldChar(s[0]) + Fold(s[1..])
  }

  /** A character that folding leaves alone and lower-casing leaves alone. */
  predicate Clean(c: char)
  {
    FoldChar(c) == [c] && LowerChar(c) == c
  }

  /** The pieces `normalize_name` replaces by a space, in the order it replaces them. */
  function Tokens(): seq<string>
  {
    ["ltda", "ltda.", "sa", "grupo", ",", "."]
  }

  /** `for tok in toks: s = s.replace(tok, " ")`. */
  function ReplaceEach(s: string, toks: seq<string>): string
    requires forall k :: 0 <= k < |toks| ==> toks[k] != []
    decreases |toks|
  {
    if toks == [] then s else ReplaceEach(Replace(s, toks[0], " "), toks[1..])
  }

  /** `normalize_name`. */
  function NormalizeName(s: string): string
  {
    if s == [] then [] else JoinSpace(Words(ReplaceEach(Lower(Fold(s)), Tokens())))
  }

  /** Every character a fold produces is clean once lower-cased. */
  lemma FoldCharClean(c: char)
    ensures forall j :: 0 <= j < |FoldChar(c)| ==> Clean(LowerChar(FoldChar(c)[j]))
  {
    if c < '\U{a0}' {
      FoldCharCleanAscii(c);
    } else if c <= '\U{ff}' {
      FoldCharCleanLatin(c);
    } else {
      FoldCharCleanBeyond(c);
    }
  }

  lemma FoldCharCleanAscii(c: char)
    requires c < '\U{a0}'
    ensures forall j :: 0 <= j < |FoldChar(c)| ==> Clean(LowerChar(FoldChar(c)[j]))
  {
    assert FoldChar(c) == [c];
  }

  lemma FoldCharCleanLatin(c: char)
    requires '\U{a0}' <= c <= '\U{ff}'
    ensures forall j :: 0 <= j < |FoldChar(c)| ==> Clean(LowerChar(FoldChar(c)[j]))
  {
    if c < '\U{c0}' {
      FoldCharCleanSigns(c);
    } else {
      FoldCharCleanLetters(c);
    }
  }

  lemma FoldCharCleanSigns(c: char)
    requires '\U{a0}' <= c < '\U{c0}'
    ensures forall j :: 0 <= j < |FoldChar(c)| ==> Clean(LowerChar(FoldChar(c)[j]))
  {
  }

  lemma FoldCharCleanLetters(c: char)
    requires '\U{c0}' <= c <= '\U{ff}'
    ensures forall j :: 0 <= j < |FoldChar(c)| ==> Clean(LowerChar(FoldChar(c)[j]))
  {
    if c < '\U{e0}' {
      FoldCharCleanUpper(c);
    } else {
      FoldCharCleanLower(c);
    }
  }

  lemma FoldCharCleanUpper(c: char)
    requires '\U{c0}' <= c < '\U{e0}'
    ensures forall j :: 0 <= j < |FoldChar(c)| ==> Clean(LowerChar(FoldChar(c)[j]))
  {
  }

  lemma FoldCharCleanLower(c: char)
    requires '\U{e0}' <= c <= '\U{ff}'
    ensures forall j :: 0 <= j < |FoldChar(c)| ==> Clean(LowerChar(FoldChar(c)[j]))
  {
  }

  lemma FoldCharCleanBeyond(c: char)
    requires c > '\U{ff}'
    ensures forall j :: 0 <= j < |FoldChar(c)| ==> Clean(LowerChar(FoldChar(c)[j]))
  {
  }

  lemma {:induction false} FoldClean(s: string)
    ensures forall i :: 0 <= i < |Lower(Fold(s))| ==> Clean(Lower(Fold(s))[i])
  {
    if s != [] {
      FoldClean(s[1..]);
      FoldCharClean(s[0]);
      var h, t := FoldChar(s[0]), Fold(s[1..]);
      assert Fold(s) == h + t;
      forall i | 0 <= i < |h + t| ensures Clean(LowerChar((h + t)[i])) {
        if i < |h| {
          assert (h + t)[i] == h[i];
        } else {
          assert (h + t)[i] == t[i - |h|];
          assert Lower(t)[i - |h|] == LowerChar(t[i - |h|]);
        }
      }
    }
  }

  lemma {:induction false} ReplaceEachChars(s: string, toks: seq<string>, ok: char -> bool)
    requires forall k :: 0 <= k < |toks| ==> toks[k] != []
    requires ok(' ') && forall i :: 0 <= i < |s| ==> ok(s[i])
    ensures forall i :: 0 <= i < |ReplaceEach(s, toks)| ==> ok(ReplaceEach(s, toks)[i])
    decreases |toks|
  {
    if toks != [] {
      ReplaceChars(s, toks[0], " ", ok);
      ReplaceEachChars(Replace(s, toks[0], " "), toks[1..], ok);
    }
  }

  /** A later replacement by ' ' brings back no piece an earlier one removed. */
  lemma {:induction false} ReplaceEachKeepsAbsent(s: string, toks: seq<string>, p: string)
    requires forall k :: 0 <= k < |toks| ==> toks[k] != []
    requires p != [] && ' ' !in p && !Contains(s, p)
    ensures !Contains(ReplaceEach(s, toks), p)
    decreases |toks|
  {
    if toks != [] {
      ReplaceKeepsAbsent(s, toks[0], p);
      ReplaceEachKeepsAbsent(Replace(s, toks[0], " "), toks[1..], p);
    }
  }

  /** After replacing each piece in turn, none of them is left. */
  lemma {:induction false} ReplaceEachRemoves(s: string, toks: seq<string>)
    requires forall k :: 0 <= k < |toks| ==> toks[k] != [] && ' ' !in toks[k]
    ensures forall k :: 0 <= k < |toks| ==> !Contains(ReplaceEach(s, toks), toks[k])
    decreases |toks|
  {
    if toks != [] {
      var s' := Replace(s, toks[0], " ");
      ReplaceRemoves(s, toks[0]);
      ReplaceEachKeepsAbsent(s', toks[1..], toks[0]);
      ReplaceEachRemoves(s', toks[1..]);
      forall k | 1 <= k < |toks| ensures !Contains(ReplaceEach(s, toks), toks[k]) {
        assert toks[k] == toks[1..][k - 1];
      }
    }
  }

  /** A character `normalize_name` may output: ' ', or a clean character that is not white space. */
  predicate NameChar(c: char)
  {
    c == ' ' || (Clean(c) && !IsSpace(c))
  }

  /** The words `normalize_name` joins: the folded, lower-cased text with the pieces replaced, split. */
  function NameWords(s: string): seq<string>
  {
    Words(ReplaceEach(Lower(Fold(s)), Tokens()))
  }

  lemma TokensShape()
    ensures forall k :: 0 <= k < |Tokens()| ==> Tokens()[k] != [] && ' ' !in Tokens()[k]
  {
  }

  /** Every character of every word is clean and is not white space. */
  lemma NameWordsChars(s: string)
    ensures forall k, j :: 0 <= k < |NameWords(s)| && 0 <= j < |NameWords(s)[k]| ==> NameChar(NameWords(s)[k][j])
  {
    TokensShape();
    var x := ReplaceEach(Lower(Fold(s)), Tokens());
    FoldClean(s);
    ReplaceEachChars(Lower(Fold(s)), Tokens(), Clean);
    WordsChars(x, Clean);
  }

  /** No word holds one of the replaced pieces. */
  lemma NameWordsNoToken(s: string, k: nat)
    requires k < |Tokens()|
    ensures forall i :: 0 <= i < |NameWords(s)| ==> !Contains(NameWords(s)[i], Tokens()[k])
  {
    TokensShape();
    var x := ReplaceEach(Lower(Fold(s)), Tokens());
    ReplaceEachRemoves(Lower(Fold(s)), Tokens());
    WordsAbsent(x, Tokens()[k]);
  }

  /**
   * What `normalize_name` promises: "" for "", and otherwise a lower-case, accent-free text in which
   * none of the removed pieces occurs and the white space is single ' ' between words.
   */
  lemma NormalizeNameShape(s: string)
    ensures s == [] ==> NormalizeName(s) == []
    ensures forall k :: 0 <= k < |Tokens()| ==> !Contains(NormalizeName(s), Tokens()[k])
    ensures NoOuterOrDoubleSpace(NormalizeName(s))
    ensures forall i :: 0 <= i < |NormalizeName(s)| ==> NameChar(NormalizeName(s)[i])
  {
    if s != [] {
      var ws := NameWords(s);
      assert NormalizeName(s) == JoinSpace(ws);
      NameWordsChars(s);
      JoinSpaceChars(ws, NameChar);
      JoinSpaceSingle(ws);
      TokensShape();
      forall k | 0 <= k < |Tokens()| ensures !Contains(JoinSpace(ws), Tokens()[k]) {
        NameWordsNoToken(s, k);
        JoinSpaceAbsent(ws, Tokens()[k]);
      }
    }
  }

  // ---------------------------------------------------------------------------------------------
  // fuzzy_best_match

  /**
   * The scan `for i, c in enumerate(...): if score > best_score: best_idx, best_score = i, score`
   * from `(None, -1)`: the first index of a maximal score, or None when no score exceeds -1.
   */
  function Best(scores: seq<int>): (r: (Option<nat>, int))
    ensures r.1 >= -1 && forall j :: 0 <= j < |scores| ==> scores[j] <= r.1
    ensures r.0.None? ==> r.1 == -1
    ensures r.0.None? <==> forall j :: 0 <= j < |scores| ==> scores[j] <= -1
    ensures r.0.Some? ==> r.0.value < |scores| && scores[r.0.value] == r.1
                          && forall j :: 0 <= j < r.0.value ==> scores[j] < r.1
  {
    if scores == [] then (None, -1)
    else
      var prev := Best(scores[..|scores| - 1]);
      var last := scores[|scores| - 1];
      assert forall j :: 0 <= j < |scores| - 1 ==> scores[j] == scores[..|scores| - 1][j];
      if last > prev.1 then (Some(|scores| - 1), last) else prev
  }

  /** The scan extended by one more score. */
  lemma BestStep(scores: seq<int>, i: nat)
    requires i < |scores|
    ensures Best(scores[..i + 1]) == if scores[i] > Best(scores[..i]).1 then (Some(i), scores[i]) else Best(scores[..i])
  {
    assert scores[..i + 1][..i] == scores[..i];
  }

  /** One candidate's score: the scorer on the normalized texts, or 0 for a candidate that normalizes to "". */
  function CandidateScore(q: string, score: (string, string) -> int): string -> int
  {
    (c: string) => var cand := NormalizeName(c); if cand != [] then score(q, cand) else 0
  }

  /** `fuzzy_best_match`: (None, 0) for a query that normalizes to "", else the scan over the candidates. */
  function BestMatch(query: string, candidates: seq<string>, score: (string, string) -> int): (r: (Option<nat>, int))
    ensures NormalizeName(query) == [] ==> r == (None, 0)
    ensures r.0.Some? ==> r.0.value < |candidates|
                          && r.1 == CandidateScore(NormalizeName(query), score)(candidates[r.0.value])
                          && forall j :: 0 <= j < |candidates| ==> CandidateScore(NormalizeName(query), score)(candidates[j]) <= r.1
    ensures r.0.Some? ==> forall j :: 0 <= j < r.0.value ==> CandidateScore(NormalizeName(query), score)(candidates[j]) < r.1
  {
    var q := NormalizeName(query);
    if q == [] then (None, 0) else Best(MapSeq(candidates, CandidateScore(q, score)))
  }

  /** `fuzzy_best_match` as the loop it is. */
  method FuzzyBestMatch(query: string, candidates: seq<string>, score: (string, string) -> int)
    returns (bestIdx: Option<nat>, bestScore: int)
    ensures (bestIdx, bestScore) == BestMatch(query, candidates, score)
  {
    var q := NormalizeName(query);
    if q == [] {
      return None, 0;
    }
    ghost var scores := MapSeq(candidates, CandidateScore(q, score));
    bestIdx, bestScore := None, -1;
    var i := 0;
    while i < |candidates|
      invariant 0 <= i <= |candidates|
      invariant (bestIdx, bestScore) == Best(scores[..i])
    {
      var cand := NormalizeName(candidates[i]);
      var sc := if cand != [] then score(q, cand) else 0;
      assert sc == scores[i];
      BestStep(scores, i);
      if sc > bestScore {
        bestIdx, bestScore := Some(i), sc;
      }
      i := i + 1;
    }
    assert scores[..|candidates|] == scores;
  }

  /**
   * With a query that keeps some text, candidates, and a scorer that never answers below 0, the match
   * is the first candidate with the highest score; a query that normalizes to "" gives (None, 0) and
   * an empty candidate list gives (None, -1).
   */
  lemma BestMatchIsFirstMax(query: string, candidates: seq<string>, score: (string, string) -> int)
    requires forall a, b :: 0 <= score(a, b)
    ensures var q := NormalizeName(query);
            var r := BestMatch(query, candidates, score);
            var scores := MapSeq(candidates, CandidateScore(q, score));
            (q == [] ==> r == (None, 0))
            && (q != [] && candidates == [] ==> r == (None, -1))
            && (q != [] && candidates != [] ==>
                  r.0.Some? && r.0.value < |candidates| && r.1 == scores[r.0.value]
                  && (forall j :: 0 <= j < |candidates| ==> scores[j] <= r.1)
                  && (forall j :: 0 <= j < r.0.value ==> scores[j] < r.1))
  {
    var q := NormalizeName(query);
    if q != [] && candidates != [] {
      var scores := MapSeq(candidates, CandidateScore(q, score));
      var cand := NormalizeName(candidates[0]);
      if cand != [] {
        assert score(q, cand) >= 0;
      }
      assert scores[0] == CandidateScore(q, score)(candidates[0]) >= 0;
    }
  }

  // ---------------------------------------------------------------------------------------------
  // process_company_update (the decision part)

  datatype Action = Create | Update

  /** `"create" if score < SCORE_REVIEW else "update"`. */
  function ActionFor(score: int, scoreReview: int): Action
  {
    if score < scoreReview then Create else Update
  }

  /** Where the matched row's third cell points: a sheet link, a file base name, or nothing. */
  datatype SheetSource = SheetLink(fileId: Option<string>) | Basename(name: string) | NoLinkOrBasename

  /** The path that precedes a spreadsheet id in a Google Sheets link. */
  function SheetPath(): string
  {
    "/spreadsheets/d/"
  }

  /** `re.search(r"/spreadsheets/d/([a-zA-Z0-9-_]+)", s).group(1)`, None when there is no match. */
  function LinkId(s: string): (r: Option<string>)
  {
    IdAfter(SheetPath(), s)
  }

  /** A link that starts with the sheet path yields the id run that follows it; any id found is non-empty and in the link. */
  lemma LinkIdReads(s: string, id: string, rest: string)
    requires id != [] && forall i :: 0 <= i < |id| ==> IdChar(id[i])
    requires rest == [] || !IdChar(rest[0])
    ensures LinkId(SheetPath() + id + rest) == Some(id)
    ensures LinkId(s).Some? ==> LinkId(s).value != [] && Contains(s, SheetPath() + LinkId(s).value)
  {
    IdAfterAtStart(SheetPath(), id, rest);
  }

  /** The branch on the matched row's third cell. */
  function SourceOf(cval: string): SheetSource
  {
    if Contains(cval, "docs.google.com") then SheetLink(LinkId(cval))
    else if cval != [] then Basename(Strip(cval))
    else NoLinkOrBasename
  }

  /** `read_master_rows`: data rows and header; a failed read gives no rows and no header. */
  function MasterRows(values: Option<seq<seq<string>>>): (seq<seq<string>>, seq<string>)
  {
    if values.None? || values.value == [] then ([], []) else (values.value[1..], values.value[0])
  }

  /** `r[0] if r else ""`. */
  function FirstCell(r: seq<string>): string
  {
    if r == [] then "" else r[0]
  }

  /** The decision `process_company_update` records before it touches Drive. */
  datatype Decision =
    | NoCandidates(matchScore: int)
    | Matched(matchIndex: nat, matchScore: int, matchedValue: string, action: Action, dateWritten: bool, source: SheetSource)

  /**
   * `process_company_update` up to the Drive actions: `values` is the master sheet's grid (None when
   * the read failed), `score` the fuzzy scorer, `dateWrite` the outcome of `write_date_to_row`.
   */
  function CompanyDecision(company: string, values: Option<seq<seq<string>>>, score: (string, string) -> int,
                           scoreReview: int, dryRun: bool, dateWrite: bool): (d: Decision)
  {
    var (rows, header) := MasterRows(values);
    var candidates := MapSeq(rows, FirstCell);
    var (idx, sc) := BestMatch(company, candidates, score);
    match idx
    case None => NoCandidates(sc)
    case Some(i) =>
      var cval := if |rows[i]| > 2 then rows[i][2] else "";
      Matched(i, sc, candidates[i], ActionFor(sc, scoreReview), !dryRun && dateWrite, SourceOf(cval))
  }

  /**
   * A match below the review score proposes to create, any other to update; "no candidates" exactly
   * when the scan found no index; the matched value is the first cell of the matched row, and nothing
   * is written on a dry run.
   */
  lemma CompanyDecisionRule(company: string, values: Option<seq<seq<string>>>, score: (string, string) -> int,
                            scoreReview: int, dryRun: bool, dateWrite: bool)
    ensures var d := CompanyDecision(company, values, score, scoreReview, dryRun, dateWrite);
            var rows := MasterRows(values).0;
            var m := BestMatch(company, MapSeq(rows, FirstCell), score);
            (d.NoCandidates? <==> m.0.None?)
            && (d.Matched? ==> d.matchIndex < |rows| && d.matchScore == m.1
                               && d.matchedValue == FirstCell(rows[d.matchIndex])
                               && (d.action == Create <==> d.matchScore < scoreReview)
                               && (dryRun ==> !d.dateWritten))
  {
    var rows := MasterRows(values).0;
    var m := BestMatch(company, MapSeq(rows, FirstCell), score);
    if m.0.Some? {
      var q := NormalizeName(company);
      assert q != [];
      assert m.0.value < |MapSeq(rows, FirstCell)|;
    }
  }

  // ---------------------------------------------------------------------------------------------
  // find_drive_file_by_basename

  datatype DriveFile = DriveFile(id: string, name: string)

  /** `name.rsplit(".", 1)[0]`. */
  function Stem(name: string): string
  {
    match LastIndexOf(name, '.')
    case None => name
    case Some(i) => name[..i]
  }

  function StemIs(basename: string): DriveFile -> bool
  {
    (f: DriveFile) => Stem(f.name) == basename
  }

  function NameIs(name: string): DriveFile -> bool
  {
    (f: DriveFile) => f.name == name
  }

  /** `exact or fallback` over the files the Drive query listed. */
  function FindDriveFileByBasename(files: seq<DriveFile>, basename: string): (r: seq<DriveFile>)
    ensures forall i :: 0 <= i < |r| ==> r[i] in files && (StemIs(basename)(r[i]) || r[i].name == basename + ".xlsx")
    ensures forall i :: 0 <= i < |files| && StemIs(basename)(files[i]) ==> files[i] in r
    ensures (forall i :: 0 <= i < |files| ==> !StemIs(basename)(files[i])) ==>
              forall i :: 0 <= i < |files| && files[i].name == basename + ".xlsx" ==> files[i] in r
  {
    var exact := Filter(files, StemIs(basename));
    var fallback := Filter(files, NameIs(basename + ".xlsx"));
    if exact != [] then
      assert StemIs(basename)(exact[0]) && exact[0] in files;
      exact
    else fallback
  }

  /** The last '.' of a name is the one before its extension when the extension has none. */
  lemma {:induction false} LastDotBefore(stem: string, ext: string)
    requires '.' !in ext
    ensures LastIndexOf(stem + "." + ext, '.') == Some(|stem|)
    decreases |ext|
  {
    var n := stem + "." + ext;
    if ext != [] {
      var ext' := ext[..|ext| - 1];
      assert n[|n| - 1] == ext[|ext| - 1];
      assert n[..|n| - 1] == stem + "." + ext';
      LastDotBefore(stem, ext');
    }
  }

  /** The stem of `<basename>.xlsx` is the base name. */
  lemma StemOfXlsx(basename: string)
    ensures Stem(basename + ".xlsx") == basename
  {
    assert basename + ".xlsx" == basename + "." + "xlsx";
    LastDotBefore(basename, "xlsx");
    assert (basename + ".xlsx")[..|basename|] == basename;
  }

  /** The '.xlsx' fallback never adds a file: the result is always the files whose stem is the base name. */
  lemma FallbackNeverAdds(files: seq<DriveFile>, basename: string)
    ensures FindDriveFileByBasename(files, basename) == Filter(files, StemIs(basename))
  {
    StemOfXlsx(basename);
    var exact := Filter(files, StemIs(basename));
    var fallback := Filter(files, NameIs(basename + ".xlsx"));
    if fallback != [] {
      var f := fallback[0];
      assert NameIs(basename + ".xlsx")(f) && f in files;
      var i :| 0 <= i < |files| && files[i] == f;
      assert StemIs(basename)(files[i]);
      assert f in exact;
    }
  }

  // ---------------------------------------------------------------------------------------------
  // write_date_to_row

  /** A header naming the last update: its lower case holds both "última" and "atualização". */
  predicate IsUpdateHeader(h: string)
  {
    Contains(Lower(h), "última") && Contains(Lower(h), "atualização")
  }

  /** The column the date goes to. */
  function DateColumn(header: seq<string>): (col: string)
  {
    match FirstTrue(MapSeq(header, IsUpdateHeader))
    case Some(k) => header[k]
    case None => if |header| >= 4 then header[3] else "Última atualização RH"
  }

  /** The first header naming the last update wins; without one, the fourth header, else a fixed name. */
  lemma DateColumnChoice(header: seq<string>)
    ensures (exists k :: 0 <= k < |header| && IsUpdateHeader(header[k])) ==>
              exists k :: 0 <= k < |header| && DateColumn(header) == header[k] && IsUpdateHeader(header[k])
                          && forall j :: 0 <= j < k ==> !IsUpdateHeader(header[j])
    ensures (forall k :: 0 <= k < |header| ==> !IsUpdateHeader(header[k])) ==>
              DateColumn(header) == if |header| >= 4 then header[3] else "Última atualização RH"
  {
    FirstTrueExists(header, IsUpdateHeader);
    match FirstTrue(MapSeq(header, IsUpdateHeader))
    case Some(k) => FirstTrueMap(header, IsUpdateHeader, k);
    case None =>
  }

  /**
   * `write_date_to_row`: the row dict `{column: date}` written with `write_row_by_index`; the Sheets
   * answers are those of that call.
   */
  method WriteDateToRow(creds: Option<SheetsClient.Credentials>, rowIndex0: int, date: string, header: seq<string>,
                        head: SheetsClient.Fetch, existingAt: SheetsClient.Target -> SheetsClient.Fetch, updateOk: bool)
    returns (ok: bool, sent: Option<(SheetsClient.Target, seq<string>)>)
    ensures var changes := map[DateColumn(header) := date];
            var hs := SheetsClient.HeaderRow(head);
            if creds.None? || hs.None? || hs.value == [] then !ok && sent.None?
            else
              var target := SheetsClient.Target(rowIndex0 + 2, SheetsClient.ColLetter(|hs.value|));
              match existingAt(target)
              case Failed => !ok && sent.None?
              case Fetched(v) => sent == Some((target, SheetsClient.MergedRow(hs.value, changes, SheetsClient.ExistingRow(v))))
                                 && ok == updateOk
  {
    var col := DateColumn(header);
    ok, sent := SheetsClient.WriteRowByIndex(creds, rowIndex0, map[col := date], head, existingAt, updateOk);
  }

  /** Only the cells under the chosen column change when the date is written. */
  lemma DateWriteTouchesOneColumn(header: seq<string>, date: string, hs: seq<string>, existing: seq<string>, i: nat)
    requires i < |hs| && hs[i] != DateColumn(header) && Strip(hs[i]) != DateColumn(header)
    ensures SheetsClient.MergedRow(hs, map[DateColumn(header) := date], existing)[i] == SheetsClient.CellOr(existing, i)
  {
    SheetsClient.MergeKeepsUntouched(hs, map[DateColumn(header) := date], existing, i);
  }

  // ---------------------------------------------------------------------------------------------
  // add_sheet_tab_and_paste

  /** The characters the title sanitizer replaces by '-': backslash, slash, star, question mark and brackets. */
  predicate TitleForbidden(c: char)
  {
    c == '\\' || c == '/' || c == '*' || c == '?' || c == '[' || c == ']'
  }

  /** The title with every forbidden character replaced by '-'. */
  function SanitizeTitle(t: string): (r: string)
    ensures |r| == |t|
    ensures forall i :: 0 <= i < |t| ==> r[i] == if TitleForbidden(t[i]) then '-' else t[i]
  {
    if t == [] then [] else [if TitleForbidden(t[0]) then '-' else t[0]] + SanitizeTitle(t[1..])
  }

  /** The titles tried, in order: the title, then its sanitized form when that differs. */
  function TriedTitles(title: string): seq<string>
  {
    var s := SanitizeTitle(title);
    [title] + (if s != title then [s] else [])
  }

  /** The sanitized title keeps no forbidden character, and sanitizing it again changes nothing. */
  lemma SanitizeTitleClean(t: string)
    ensures forall i :: 0 <= i < |SanitizeTitle(t)| ==> !TitleForbidden(SanitizeTitle(t)[i])
    ensures SanitizeTitle(SanitizeTitle(t)) == SanitizeTitle(t)
  {
  }

  /** A second title is tried exactly when the title holds a forbidden character. */
  lemma TriedTitlesShape(title: string)
    ensures TriedTitles(title)[0] == title
    ensures |TriedTitles(title)| == 2 <==> exists i :: 0 <= i < |title| && TitleForbidden(title[i])
    ensures |TriedTitles(title)| <= 2
  {
    var s := SanitizeTitle(title);
    if exists i :: 0 <= i < |title| && TitleForbidden(title[i]) {
      var i :| 0 <= i < |title| && TitleForbidden(title[i]);
      assert s[i] == '-' != title[i];
    } else {
      assert s == title;
    }
  }

  /**
   * `add_sheet_tab_and_paste`: `addOk(t)` answers whether adding a tab titled `t` succeeds, `pasteOk`
   * whether reading the CSV and pasting it succeeds. `used` is the title of the added tab.
   */
  method AddSheetTabAndPaste(title: string, addOk: string -> bool, pasteOk: bool)
    returns (ok: bool, used: Option<string>)
    ensures var tried := TriedTitles(title);
            match FirstTrue(MapSeq(tried, addOk))
            case None => used.None? && !ok
            case Some(k) => used == Some(tried[k]) && ok == (tried[k] != "" && pasteOk)
  {
    var tried := TriedTitles(title);
    ghost var flags := MapSeq(tried, addOk);
    used := None;
    var i := 0;
    while i < |tried|
      invariant 0 <= i <= |tried|
      invariant used.None?
      invariant forall j :: 0 <= j < i ==> !flags[j]
    {
      if addOk(tried[i]) {
        FirstTrueAt(flags, i);
        used := Some(tried[i]);
        break;
      }
      i := i + 1;
    }
    if used.None? {
      FirstTrueNone(flags);
    }
    if used.None? || used.value == "" {
      return false, used;
    }
    ok := pasteOk;
  }

  /** The sanitized title is used only after the title itself was refused. */
  lemma SanitizedAfterRefusal(title: string, addOk: string -> bool)
    requires SanitizeTitle(title) != title && !addOk(title) && addOk(SanitizeTitle(title))
    ensures FirstTrue(MapSeq(TriedTitles(title), addOk)) == Some(1)
  {
    var flags := MapSeq(TriedTitles(title), addOk);
    FirstTrueAt(flags, 1);
  }

  /** An empty title is falsy, so even a tab added under it reports failure. */
  lemma EmptyTitleFails(addOk: string -> bool, pasteOk: bool)
    ensures var tried := TriedTitles("");
            match FirstTrue(MapSeq(tried, addOk))
            case None => true
            case Some(k) => tried[k] == ""
  {
    assert SanitizeTitle("") == "";
    assert TriedTitles("") == [""];
  }
}
