/**
 * The acolhimentos routes (ui/web/api/routes_acolhimentos.py): the Google Sheet of intake records is read
 * into normalised records, one record is looked up by uuid or by `row_N`, and PATCH writes changed cells
 * back under the sheet's own headers. Every call into the Sheets client is a parameter: the raw rows it
 * answered (None when it failed) and whether a write succeeded.
 */
module RoutesAcolhimentos {
  import opened Wrappers
  import opened Strs
  import opened SeqUtil
  import opened Entries
  import opened Json
  import RoutesAuth

  /** A sheet row as `read_sheet_rows` returns it: a dict from header to cell. */
  type Row = t: Table<string, string> | DistinctKeys(t) witness []

  // ---------------------------------------------------------------------------------------------
  // Header names

  /** The sheet's own header names, each with the record field it stands for. */
  function ExactHeaders(): Table<string, string>
  {
    [
      ("Data da Solicita\U{e7}\U{e3}o", "request_date"),
      ("Nome do paciente", "patient_name"),
      ("Empresa", "company"),
      ("Nome do colaborador (Em caso de familiar)", "collaborator_name"),
      ("E-mail", "email"),
      ("CPF", "cpf"),
      ("Telefone", "phone"),
      ("Projeto vinculado", "project"),
      ("Tempo de custeio", "funding_duration"),
      ("Formato do Custeio", "funding_type"),
      ("CS Respons\U{e1}vel", "cs_responsible"),
      ("M\U{ea}s de In\U{ed}cio do Custeio", "funding_start_month"),
      ("\U{da}ltimo m\U{ea}s do custeio", "funding_end_month"),
      ("Status", "status"),
      ("Considera\U{e7}\U{f5}es", "notes"),
      ("Respons\U{e1}vel do RH)", "rh_responsible"),
      ("Respons\U{e1}vel do RH", "rh_responsible"),
      ("Ultimo Retono pro RH", "last_return_rh"),
      ("\U{da}ltima confer\U{ea}ncia", "last_conference"),
      ("Acolhedor", "acolhedor"),
      ("Acolhedor:", "acolhedor")
    ]
  }

  /**
   * A substring rule on the lower-cased header: it fires when every group has a member that occurs in
   * the header (a group is an `or`, the groups are joined by `and`).
   */
  datatype Rule = Rule(groups: seq<seq<string>>, key: string)

  /** The substring rules, in the order they are tried. */
  function Rules(): seq<Rule>
  {
    [
      Rule([["data"], ["solicit"]], "request_date"),
      Rule([["nome"], ["paciente"]], "patient_name"),
      Rule([["empresa"]], "company"),
      Rule([["colaborador", "familiar"]], "collaborator_name"),
      Rule([["e-mail", "email"]], "email"),
      Rule([["cpf"]], "cpf"),
      Rule([["telefone", "tel"]], "phone"),
      Rule([["projeto"]], "project"),
      Rule([["tempo"], ["custeio"]], "funding_duration"),
      Rule([["formato"], ["custeio"]], "funding_type"),
      Rule([["cs"], ["respons"]], "cs_responsible"),
      Rule([["m\U{ea}s", "mes"], ["in\U{ed}", "ini", "in\U{ed}cio"]], "funding_start_month"),
      Rule([["\U{fa}ltimo"], ["custeio"]], "funding_end_month"),
      Rule([["status"]], "status"),
      Rule([["consider", "observ"]], "notes"),
      Rule([["respons\U{e1}vel"], ["rh"]], "rh_responsible"),
      Rule([["rh"], ["respons"]], "rh_responsible"),
      Rule([["retorno"]], "last_return_rh"),
      Rule([["confer"]], "last_conference"),
      Rule([["acolhedor"]], "acolhedor")
    ]
  }

  /** Some pattern of the group occurs in `s`. */
  predicate AnyIn(s: string, group: seq<string>)
  {
    group != [] && (Contains(s, group[0]) || AnyIn(s, group[1..]))
  }

  predicate AllGroups(s: string, groups: seq<seq<string>>)
  {
    groups == [] || (AnyIn(s, groups[0]) && AllGroups(s, groups[1..]))
  }

  predicate Fires(s: string, rule: Rule)
  {
    AllGroups(s, rule.groups)
  }

  function FiresOn(s: string): Rule -> bool
  {
    (rule: Rule) => Fires(s, rule)
  }

  /** The last rule: 'uuid' occurs, or the stripped header is exactly 'id'. */
  predicate IsUuidHeader(s: string)
  {
    Contains(s, "uuid") || Strip(s) == "id"
  }

  /**
   * The lookup `_normalize_header_to_key` performs, for a table of exact names and a list of rules: None for
   * an empty header; the field of an exact (stripped) header name; else the key of the first rule that
   * fires on the lower-cased header; else 'uuid' for a uuid or id header; else None.
   */
  function Normalize(h: string, exact: Table<string, string>, rules: seq<Rule>): (r: Option<string>)
  {
    if h == "" then None
    else match Get(exact, Strip(h))
      case Some(k) => Some(k)
      case None =>
        var s := Lower(h);
        match FirstTrue(MapSeq(rules, FiresOn(s)))
        case Some(i) => Some(rules[i].key)
        case None => if IsUuidHeader(s) then Some("uuid") else None
  }

  /** `_normalize_header_to_key`, with the sheet's header names and rules. */
  function NormalizeHeader(h: string): Option<string>
  {
    Normalize(h, ExactHeaders(), Rules())
  }

  /** An exact name is looked up before any rule is tried; an empty header has no key. */
  lemma ExactNamesFirst(h: string, exact: Table<string, string>, rules: seq<Rule>)
    ensures h == "" ==> Normalize(h, exact, rules).None?
    ensures h != "" && HasKey(exact, Strip(h)) ==> Normalize(h, exact, rules) == Get(exact, Strip(h))
  {
  }

  /** Without an exact name, the first rule that fires decides, whatever later rules would say. */
  lemma FirstRuleWins(h: string, exact: Table<string, string>, rules: seq<Rule>, i: nat)
    requires h != "" && Get(exact, Strip(h)).None?
    requires i < |rules| && Fires(Lower(h), rules[i])
    requires forall j :: 0 <= j < i ==> !Fires(Lower(h), rules[j])
    ensures Normalize(h, exact, rules) == Some(rules[i].key)
  {
    FirstTrueAt(MapSeq(rules, FiresOn(Lower(h))), i);
  }

  /** A header without an exact name, that no rule matches and that is no uuid header, has no key. */
  lemma NoRuleNoKey(h: string, exact: Table<string, string>, rules: seq<Rule>)
    requires Get(exact, Strip(h)).None?
    requires forall j :: 0 <= j < |rules| ==> !Fires(Lower(h), rules[j])
    requires !IsUuidHeader(Lower(h))
    ensures Normalize(h, exact, rules).None?
  {
    FirstTrueNone(MapSeq(rules, FiresOn(Lower(h))));
  }

  // ---------------------------------------------------------------------------------------------
  // Normalised records

  /** The record fields in order, each with the row keys `_read_sheet` tries for it. */
  function Fields(): seq<(string, seq<string>)>
  {
    [
      ("request_date", ["Data da Solicita\U{e7}\U{e3}o", "request_date", "Data"]),
      ("patient_name", ["Nome do paciente", "patient_name", "Nome"]),
      ("company", ["Empresa", "company"]),
      ("collaborator_name", ["Nome do colaborador (Em caso de familiar)", "collaborator_name"]),
      ("email", ["E-mail", "email"]),
      ("cpf", ["CPF", "cpf"]),
      ("phone", ["Telefone", "phone"]),
      ("project", ["Projeto vinculado", "project"]),
      ("funding_duration", ["Tempo de custeio", "funding_duration"]),
      ("funding_type", ["Formato do Custeio", "funding_type"]),
      ("cs_responsible", ["CS Respons\U{e1}vel", "cs_responsible"]),
      ("funding_start_month", ["M\U{ea}s de In\U{ed}cio do Custeio", "funding_start_month"]),
      ("funding_end_month", ["\U{da}ltimo m\U{ea}s do custeio", "funding_end_month"]),
      ("status", ["Status", "status"]),
      ("notes", ["Considera\U{e7}\U{f5}es", "notes"]),
      ("rh_responsible", ["Respons\U{e1}vel do RH)", "rh_responsible", "Respons\U{e1}vel do RH"]),
      ("last_return_rh", ["Ultimo Retono pro RH", "last_return_rh"]),
      ("last_conference", ["\U{da}ltima confer\U{ea}ncia", "last_conference"]),
      ("acolhedor", ["Acolhedor", "acolhedor"])
    ]
  }

  /** `r.get(a1) or r.get(a2) or ... or ''`: the first alias with a non-empty value. */
  function FirstNonEmpty(r: Row, aliases: seq<string>): string
  {
    if aliases == [] then ""
    else
      var g := Get(r, aliases[0]);
      if g.Some? && g.value != "" then g.value else FirstNonEmpty(r, aliases[1..])
  }

  /** The alias is missing from the row or holds the empty string (Python's falsy `None` and `''`). */
  predicate Blank(r: Row, alias: string)
  {
    Get(r, alias).None? || Get(r, alias) == Some("")
  }

  /** The result is '' exactly when every alias is blank. */
  lemma {:induction false} FirstNonEmptyBlank(r: Row, aliases: seq<string>)
    ensures FirstNonEmpty(r, aliases) == "" <==> forall j :: 0 <= j < |aliases| ==> Blank(r, aliases[j])
  {
    if aliases != [] {
      var tail := aliases[1..];
      FirstNonEmptyBlank(r, tail);
      assert forall j :: 1 <= j < |aliases| ==> aliases[j] == tail[j - 1];
    }
  }

  /** A non-empty result is the value of an alias all of whose predecessors are blank. */
  lemma {:induction false} FirstNonEmptyWitness(r: Row, aliases: seq<string>)
    requires FirstNonEmpty(r, aliases) != ""
    ensures exists j :: 0 <= j < |aliases| && Get(r, aliases[j]) == Some(FirstNonEmpty(r, aliases))
                        && forall k :: 0 <= k < j ==> Blank(r, aliases[k])
  {
    var g := Get(r, aliases[0]);
    if g.Some? && g.value != "" {
      assert Get(r, aliases[0]) == Some(FirstNonEmpty(r, aliases));
    } else {
      var tail := aliases[1..];
      FirstNonEmptyWitness(r, tail);
      var j :| 0 <= j < |tail| && Get(r, tail[j]) == Some(FirstNonEmpty(r, tail)) && forall k :: 0 <= k < j ==> Blank(r, tail[k]);
      assert aliases[j + 1] == tail[j];
      assert FirstNonEmpty(r, aliases) == FirstNonEmpty(r, tail);
      assert forall k :: 0 <= k < j + 1 ==> Blank(r, aliases[k]) by {
        forall k | 0 <= k < j + 1
          ensures Blank(r, aliases[k])
        {
          if k > 0 {
            assert aliases[k] == tail[k - 1];
          }
        }
      }
    }
  }

  /** A normalised record: its uuid, the named fields in order, the read time and version 1. */
  datatype Record = Record(uuid: string, fields: Table<string, string>, lastModifiedAt: string, version: nat)

  function FieldOf(r: Row): ((string, seq<string>)) -> (string, string)
  {
    (f: (string, seq<string>)) => (f.0, FirstNonEmpty(r, f.1))
  }

  /** Two aliases: the first one's value when it is non-empty, else the second one's, else ''. */
  lemma FirstNonEmptyTwo(r: Row, a: string, b: string)
    ensures FirstNonEmpty(r, [a, b])
            == if !Blank(r, a) then Get(r, a).value else if !Blank(r, b) then Get(r, b).value else ""
  {
    assert [b][1..] == [];
    assert FirstNonEmpty(r, [b]) == if !Blank(r, b) then Get(r, b).value else "";
    assert [a, b][1..] == [b];
  }

  /** The record `_read_sheet` makes of row `i`: the uuid falls back from 'uuid' to 'ID' to str(i + 1). */
  function RecordOf(r: Row, i: nat, now: string): Record
  {
    var u := FirstNonEmpty(r, ["uuid", "ID"]);
    Record(if u == "" then NatToString(i + 1) else u, MapSeq(Fields(), FieldOf(r)), now, 1)
  }

  /** A record has every field once, in order; the uuid is never empty, and a row without 'uuid' or 'ID' gets its 1-based position. */
  lemma RecordShape(r: Row, i: nat, now: string)
    ensures Keys(RecordOf(r, i, now).fields) == MapSeq(Fields(), (f: (string, seq<string>)) => f.0)
    ensures RecordOf(r, i, now).uuid != ""
    ensures (Get(r, "uuid").None? || Get(r, "uuid") == Some("")) && (Get(r, "ID").None? || Get(r, "ID") == Some(""))
            ==> RecordOf(r, i, now).uuid == NatToString(i + 1)
    ensures Get(r, "uuid").Some? && Get(r, "uuid").value != "" ==> RecordOf(r, i, now).uuid == Get(r, "uuid").value
  {
    FirstNonEmptyTwo(r, "uuid", "ID");
  }

  /** `RecordOf` at a fixed read time, as a value. */
  function RecordAt(now: string): (Row, nat) -> Record
  {
    (r: Row, i: nat) => RecordOf(r, i, now)
  }

  /** `_read_sheet`: None when the read failed or found no rows; else one record per row. */
  function SheetRecords(raw: Option<seq<Row>>, now: string): (r: Option<seq<Record>>)
    ensures r.Some? <==> raw.Some? && raw.value != []
    ensures r.Some? ==> |r.value| == |raw.value| && forall i :: 0 <= i < |raw.value| ==> r.value[i] == RecordAt(now)(raw.value[i], i)
  {
    if raw.None? || raw.value == [] then None
    else Some(MapIdx(raw.value, RecordAt(now)))
  }

  method ReadRows<T>(raw: seq<Row>, record: (Row, nat) -> T) returns (rows: seq<T>)
    ensures rows == MapIdx(raw, record)
  {
    rows := [];
    for i := 0 to |raw|
      invariant |rows| == i && forall k :: 0 <= k < i ==> rows[k] == record(raw[k], k)
    {
      rows := rows + [record(raw[i], i)];
    }
  }

  /** The loop of `_read_sheet`. */
  method ReadSheet(raw: Option<seq<Row>>, now: string) returns (r: Option<seq<Record>>)
    ensures r == SheetRecords(raw, now)
  {
    if raw.None? || raw.value == [] {
      return None;
    }
    var rows := ReadRows(raw.value, RecordAt(now));
    r := Some(rows);
  }

  // ---------------------------------------------------------------------------------------------
  // Credentials and reads

  /** What the credential cache holds at the request, and what a local key file would give. */
  datatype Access = Access(cached: Option<Json>, local: Option<Json>)

  /** `_attempt_auto_load_credentials`: cached info is truthy, or a truthy local service account was loaded. */
  predicate AutoLoaded(a: Access)
  {
    (a.cached.Some? && Truthy(a.cached.value)) || (a.local.Some? && Truthy(a.local.value))
  }

  /** The cache still holds nothing after the auto-load attempt: the handler answers 423. */
  predicate Locked(a: Access)
  {
    a.cached.None? && !(a.local.Some? && Truthy(a.local.value))
  }

  /** A read, retried once after a successful auto-load; failing both, 423 when locked and 500 otherwise. */
  function Reread<T>(first: Option<T>, retry: Option<T>, a: Access): (r: Result<T, nat>)
    ensures r.Ok? <==> first.Some? || (AutoLoaded(a) && retry.Some?)
    ensures r.Err? ==> r.error == (if Locked(a) then 423 else 500)
  {
    if first.Some? then Ok(first.value)
    else if AutoLoaded(a) && retry.Some? then Ok(retry.value)
    else Err(if Locked(a) then 423 else 500)
  }

  /** `rows = _read_sheet(...)`, and once more after a successful auto-load when that gave None. */
  method ReadWithRetry(first: Option<seq<Row>>, retry: Option<seq<Row>>, a: Access, now: string)
    returns (r: Result<seq<Record>, nat>)
    ensures r == Reread(SheetRecords(first, now), SheetRecords(retry, now), a)
  {
    var rows := ReadSheet(first, now);
    if rows.None? {
      if AutoLoaded(a) {
        rows := ReadSheet(retry, now);
      }
      if rows.None? {
        return Err(if Locked(a) then 423 else 500);
      }
    }
    r := Ok(rows.value);
  }

  /** When nothing is cached and no local key can be loaded, the handler is locked. */
  lemma LockedWithoutCredentials(a: Access)
    requires a.cached.None? && (a.local.None? || !Truthy(a.local.value))
    ensures !AutoLoaded(a) && Locked(a)
  {
  }

  // ---------------------------------------------------------------------------------------------
  // Handlers

  datatype Answer = Rows(rows: seq<Record>) | Row(row: Option<Record>) | Error(code: nat)

  /** The blanket `except Exception` of the list and get handlers: every raised status becomes 500. */
  function CatchAll(a: Answer): (r: Answer)
    ensures r.Error? <==> a.Error?
    ensures r.Error? ==> r.code == 500
    ensures !a.Error? ==> r == a
  {
    if a.Error? then Error(500) else a
  }

  /** What the body of `api_acolhimentos_list` raises or returns, before its catch-all. */
  function ListOutcome(sheetId: Option<string>, first: Option<seq<Row>>, retry: Option<seq<Row>>, a: Access, now: string): (r: Answer)
    ensures !RoutesAuth.Given(sheetId) ==> r == Error(500)
  {
    if !RoutesAuth.Given(sheetId) then Error(500)
    else match Reread(SheetRecords(first, now), SheetRecords(retry, now), a)
      case Ok(rows) => Rows(rows)
      case Err(c) => Error(c)
  }

  /** `api_acolhimentos_list`: `first` and `retry` are the sheet reads before and after the auto-load. */
  method ApiAcolhimentosList(sheetId: Option<string>, first: Option<seq<Row>>, retry: Option<seq<Row>>, a: Access, now: string)
    returns (r: Answer)
    ensures r == CatchAll(ListOutcome(sheetId, first, retry, a, now))
  {
    if !RoutesAuth.Given(sheetId) {
      return Error(500);
    }
    var rows := ReadWithRetry(first, retry, a, now);
    if rows.Err? {
      return Error(500);
    }
    r := Rows(rows.value);
  }

  /** The record a path id names: the first record with that uuid, else `row_N` for an index N in range. */
  function RecordIndex(rows: seq<Record>, itemId: string): (r: Option<nat>)
    ensures r.Some? ==> r.value < |rows|
  {
    match FirstTrue(MapSeq(rows, (rec: Record) => rec.uuid == itemId))
    case Some(i) => Some(i)
    case None => RowNumber(itemId, |rows|)
  }

  /** `row_N` with `int(N)` in [0, n). */
  function RowNumber(itemId: string, n: nat): (r: Option<nat>)
    ensures r.Some? ==> r.value < n
  {
    if IsPrefix("row_", itemId) then
      match ParseInt(itemId[4..])
      case Some(k) => if 0 <= k < n then Some(k as nat) else None
      case None => None
    else None
  }

  /** A uuid match wins over a `row_N` reading of the same id, and the first match wins. */
  lemma RecordIndexPrefersUuid(rows: seq<Record>, itemId: string)
    ensures (exists i :: 0 <= i < |rows| && rows[i].uuid == itemId) ==>
              RecordIndex(rows, itemId).Some? && rows[RecordIndex(rows, itemId).value].uuid == itemId
              && forall j :: 0 <= j < RecordIndex(rows, itemId).value ==> rows[j].uuid != itemId
    ensures (forall i :: 0 <= i < |rows| ==> rows[i].uuid != itemId) ==> RecordIndex(rows, itemId) == RowNumber(itemId, |rows|)
  {
    var p := (rec: Record) => rec.uuid == itemId;
    FirstTrueExists(rows, p);
    match FirstTrue(MapSeq(rows, p)) {
      case Some(i) => FirstTrueMap(rows, p, i);
      case None =>
    }
  }

  /** 'row_N' names index N exactly when N is in range; the prefix must be 'row_'. */
  lemma RowNumberOf(n: nat, count: nat)
    ensures RowNumber("row_" + NatToString(n), count) == if n < count then Some(n) else None
  {
    var id := "row_" + NatToString(n);
    assert IsPrefix("row_", id);
    assert id[4..] == NatToString(n);
    ParseIntRoundTrip(n);
  }

  /** The lookup loops of the get and patch handlers. */
  method FindRecord(rows: seq<Record>, itemId: string) returns (r: Option<nat>)
    ensures r == RecordIndex(rows, itemId)
  {
    ghost var hit := MapSeq(rows, (rec: Record) => rec.uuid == itemId);
    for i := 0 to |rows|
      invariant forall j :: 0 <= j < i ==> !hit[j]
    {
      if rows[i].uuid == itemId {
        FirstTrueAt(hit, i);
        return Some(i);
      }
    }
    FirstTrueNone(hit);
    if IsPrefix("row_", itemId) {
      var n := ParseInt(itemId[4..]);
      if n.Some? && 0 <= n.value < |rows| {
        return Some(n.value as nat);
      }
    }
    return None;
  }

  /** What the body of `api_acolhimento_get` raises or returns, before its catch-all. */
  function GetOutcome(sheetId: Option<string>, itemId: string, first: Option<seq<Row>>, retry: Option<seq<Row>>, a: Access, now: string): (r: Answer)
  {
    if !RoutesAuth.Given(sheetId) then Error(500)
    else match Reread(SheetRecords(first, now), SheetRecords(retry, now), a)
      case Err(c) => Error(c)
      case Ok(rows) =>
        match RecordIndex(rows, itemId)
        case Some(i) => Row(Some(rows[i]))
        case None => Error(404)
  }

  /** The status codes the get handler's body means to send: 423 when locked, 404 for an unknown record. */
  lemma GetOutcomeCodes(sheetId: string, itemId: string, first: Option<seq<Row>>, retry: Option<seq<Row>>, a: Access, now: string)
    requires sheetId != ""
    ensures SheetRecords(first, now).None? && Locked(a) ==> GetOutcome(Some(sheetId), itemId, first, retry, a, now) == Error(423)
    ensures first.Some? && first.value != [] && RecordIndex(SheetRecords(first, now).value, itemId).None? ==>
              GetOutcome(Some(sheetId), itemId, first, retry, a, now) == Error(404)
  {
  }

  /** `api_acolhimento_get`, as written: the body's 404 and 423 reach the client as 500. */
  method ApiAcolhimentoGet(sheetId: Option<string>, itemId: string, first: Option<seq<Row>>, retry: Option<seq<Row>>, a: Access, now: string)
    returns (r: Answer)
    ensures r == CatchAll(GetOutcome(sheetId, itemId, first, retry, a, now))
  {
    if !RoutesAuth.Given(sheetId) {
      return Error(500);
    }
    var rows := ReadWithRetry(first, retry, a, now);
    if rows.Err? {
      return Error(500);
    }
    var i := FindRecord(rows.value, itemId);
    if i.None? {
      return Error(500);
    }
    r := Row(Some(rows.value[i.value]));
  }

  /** A missing record and a locked sheet are both reported as 500 by the get handler as written. */
  lemma GetHidesNotFoundAndLocked()
    ensures GetOutcome(Some("s"), "x", Some([EmptyRow]), None, Access(None, None), "t") == Error(404)
    ensures CatchAll(GetOutcome(Some("s"), "x", Some([EmptyRow]), None, Access(None, None), "t")) == Error(500)
    ensures GetOutcome(Some("s"), "x", None, None, Access(None, None), "t") == Error(423)
    ensures CatchAll(GetOutcome(Some("s"), "x", None, None, Access(None, None), "t")) == Error(500)
  {
    var rows := SheetRecords(Some([EmptyRow]), "t").value;
    assert rows[0] == RecordOf(EmptyRow, 0, "t");
    FirstNonEmptyTwo(EmptyRow, "uuid", "ID");
    assert rows[0].uuid == "1";
    RecordIndexPrefersUuid(rows, "x");
    assert !IsPrefix("row_", "x");
  }

  /** The empty row used by the counterexamples. */
  const EmptyRow: Row := []

  // ---------------------------------------------------------------------------------------------
  // PATCH

  /**
   * The cell a raw header gets: the change for its key (`norm` is the header normaliser) when there is
   * one, else its own value.
   */
  function PatchedCell(changes: map<string, string>, norm: string -> Option<string>): ((string, string)) -> (string, string)
  {
    (e: (string, string)) =>
      var k := norm(e.0);
      if k.Some? && k.value in changes then (e.0, changes[k.value]) else e
  }

  /** The raw row after the PATCH loop. */
  function Patched(raw: Row, changes: map<string, string>, norm: string -> Option<string>): Table<string, string>
  {
    MapSeq(raw, PatchedCell(changes, norm))
  }

  /**
   * The headers stay the same, in the same order; exactly the headers whose normalised key is in the
   * change set are overwritten, and the rest keep their value.
   */
  lemma PatchedCells(raw: Row, changes: map<string, string>, norm: string -> Option<string>)
    ensures Keys(Patched(raw, changes, norm)) == Keys(raw)
    ensures forall i :: 0 <= i < |raw| ==>
              Patched(raw, changes, norm)[i].1 == if norm(raw[i].0).Some? && norm(raw[i].0).value in changes then changes[norm(raw[i].0).value] else raw[i].1
  {
  }

  /** An empty change set leaves the row as it was. */
  lemma PatchNothing(raw: Row, norm: string -> Option<string>)
    ensures Patched(raw, map[], norm) == raw
  {
  }

  /** `for header in list(raw.keys()): ... raw[header] = changes[norm]`, with `norm` the header normaliser. */
  method PatchRow(raw: Row, changes: map<string, string>, norm: string -> Option<string>) returns (out: Row)
    ensures out == Patched(raw, changes, norm)
  {
    out := raw;
    for i := 0 to |raw|
      invariant |out| == |raw| && Keys(out) == Keys(raw)
      invariant forall j :: 0 <= j < |raw| ==> out[j] == (if j < i then PatchedCell(changes, norm)(raw[j]) else raw[j])
    {
      var header := raw[i].0;
      var k := norm(header);
      if k.Some? && k.value in changes {
        assert out[i].0 == header;
        assert DistinctKeys(out) by {
          forall j, k | 0 <= j < k < |out| ensures out[j].0 != out[k].0 {
            assert Keys(out)[j] == Keys(raw)[j] && Keys(out)[k] == Keys(raw)[k];
          }
        }
        PutAt(out, i, changes[k.value]);
        out := Put(out, header, changes[k.value]);
        assert Keys(out) == Keys(raw) by {
          assert forall j :: 0 <= j < |out| ==> Keys(out)[j] == Keys(raw)[j];
        }
      }
    }
  }

  /**
   * What `api_acolhimento_patch` answers and which row it asks the client to write (index, dict):
   * `rawFirst`/`rawRetry` are the `read_sheet_rows` reads, `normFirst`/`normRetry` the `_read_sheet`
   * reads, `writeOk` the write's result and `after` the read that follows it.
   */
  function PatchOutcome(sheetId: Option<string>, itemId: string, body: Option<map<string, string>>,
                        rawFirst: Option<seq<Row>>, rawRetry: Option<seq<Row>>,
                        normFirst: Option<seq<Row>>, normRetry: Option<seq<Row>>,
                        writeOk: bool, after: Option<seq<Row>>, a: Access, now: string): (r: (Answer, Option<(nat, Table<string, string>)>))
  {
    var changes := if body.Some? then body.value else map[];
    if !RoutesAuth.Given(sheetId) then (Error(500), None)
    else match Reread(rawFirst, rawRetry, a)
      case Err(c) => (Error(c), None)
      case Ok(rawRows) =>
        match Reread(SheetRecords(normFirst, now), SheetRecords(normRetry, now), a)
        case Err(c) => (Error(c), None)
        case Ok(norm) =>
          match RecordIndex(norm, itemId)
          case None => (Error(404), None)
          case Some(t) => PatchWrite(rawRows, t, changes, writeOk, after, now)
  }

  /**
   * The tail of the PATCH handler once the record index `t` is known: `raw_rows[t]` (500 when out of
   * range) is patched and written; on success the row is read again, and the answer holds the record at
   * `t` of that read (None when the read found nothing, 500 when it is too short).
   */
  function PatchWrite(rawRows: seq<Row>, t: nat, changes: map<string, string>, writeOk: bool, after: Option<seq<Row>>,
                      now: string): (r: (Answer, Option<(nat, Table<string, string>)>))
    ensures r.1.Some? <==> t < |rawRows|
    ensures r.1.Some? ==> r.1.value == (t, Patched(rawRows[t], changes, NormalizeHeader))
    ensures r.0.Row? ==> r.1.Some? && writeOk
  {
    if t >= |rawRows| then (Error(500), None)
    else
      var sent := Some((t, Patched(rawRows[t], changes, NormalizeHeader)));
      if !writeOk then (Error(500), sent)
      else
        var updated := SheetRecords(after, now);
        if updated.None? then (Row(None), sent)
        else if t < |updated.value| then (Row(Some(updated.value[t])), sent)
        else (Error(500), sent)
  }

  /** PATCH keeps the 423 of a locked sheet (and writes nothing). */
  lemma PatchLocked(sheetId: string, itemId: string, body: Option<map<string, string>>,
                    rawRetry: Option<seq<Row>>, normFirst: Option<seq<Row>>, normRetry: Option<seq<Row>>,
                    writeOk: bool, after: Option<seq<Row>>, a: Access, now: string)
    requires sheetId != "" && Locked(a)
    ensures PatchOutcome(Some(sheetId), itemId, body, None, rawRetry, normFirst, normRetry, writeOk, after, a, now) == (Error(423), None)
  {
  }

  /** PATCH writes only to the record the id names, and answers a row only after a successful write. */
  lemma PatchTargetsNamedRecord(sheetId: string, itemId: string, body: Option<map<string, string>>,
                                rawFirst: Option<seq<Row>>, rawRetry: Option<seq<Row>>, normFirst: Option<seq<Row>>, normRetry: Option<seq<Row>>,
                                writeOk: bool, after: Option<seq<Row>>, a: Access, now: string)
    requires sheetId != ""
    ensures var (r, sent) := PatchOutcome(Some(sheetId), itemId, body, rawFirst, rawRetry, normFirst, normRetry, writeOk, after, a, now);
            var norm := Reread(SheetRecords(normFirst, now), SheetRecords(normRetry, now), a);
            (sent.Some? ==> norm.Ok? && Some(sent.value.0) == RecordIndex(norm.value, itemId))
            && (r.Row? ==> sent.Some? && writeOk)
            && (norm.Ok? && Reread(rawFirst, rawRetry, a).Ok? && RecordIndex(norm.value, itemId).None? ==> r == Error(404))
  {
  }

  /** `api_acolhimento_patch`; its `except HTTPException: raise` keeps 404 and 423. */
  method ApiAcolhimentoPatch(sheetId: Option<string>, itemId: string, body: Option<map<string, string>>,
                             rawFirst: Option<seq<Row>>, rawRetry: Option<seq<Row>>,
                             normFirst: Option<seq<Row>>, normRetry: Option<seq<Row>>,
                             writeOk: bool, after: Option<seq<Row>>, a: Access, now: string)
    returns (r: Answer, sent: Option<(nat, Table<string, string>)>)
    ensures (r, sent) == PatchOutcome(sheetId, itemId, body, rawFirst, rawRetry, normFirst, normRetry, writeOk, after, a, now)
  {
    if !RoutesAuth.Given(sheetId) {
      return Error(500), None;
    }
    var changes := if body.Some? then body.value else map[];
    var rawRows := rawFirst;
    if rawRows.None? {
      if AutoLoaded(a) {
        rawRows := rawRetry;
      }
      if rawRows.None? {
        return Error(if Locked(a) then 423 else 500), None;
      }
    }
    var norm := ReadWithRetry(normFirst, normRetry, a, now);
    if norm.Err? {
      return Error(norm.error), None;
    }
    var target := FindRecord(norm.value, itemId);
    if target.None? {
      return Error(404), None;
    }
    r, sent := WriteBack(rawRows.value, target.value, changes, writeOk, after, now);
  }

  /** The end of `api_acolhimento_patch`: patch `raw_rows[t]`, write it, read the sheet again. */
  method WriteBack(rawRows: seq<Row>, t: nat, changes: map<string, string>, writeOk: bool, after: Option<seq<Row>>, now: string)
    returns (r: Answer, sent: Option<(nat, Table<string, string>)>)
    ensures (r, sent) == PatchWrite(rawRows, t, changes, writeOk, after, now)
  {
    if t >= |rawRows| {
      return Error(500), None;
    }
    var row := PatchRow(rawRows[t], changes, NormalizeHeader);
    sent := Some((t, row));
    if !writeOk {
      return Error(500), sent;
    }
    var updated := ReadSheet(after, now);
    if updated.None? {
      return Row(None), sent;
    }
    if t < |updated.value| {
      return Row(Some(updated.value[t])), sent;
    }
    r := Error(500);
  }
}
