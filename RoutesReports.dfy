/**
 * The report routes (ui/web/api/routes_reports.py): reading dates from sheet cells, recognising an
 * acolhimento appointment, grouping the acolhimento rows into one line per patient with its counters, and
 * the status of a report job. PDF and CSV rendering and the appointment enrichment run by the report jobs
 * are not part of this model.
 */
module RoutesReports {
  import opened Wrappers
  import opened Strs
  import opened SeqUtil
  import opened Entries
  import opened Sorting
  import opened Json
  import RoutesAuth

  // ---------------------------------------------------------------------------------------------
  // Dates
  // ---------------------------------------------------------------------------------------------

  /** A `datetime.date`; only values with `ValidDate` are ever built. */
  datatype Date = Date(year: int, month: int, day: int)

  predicate IsLeap(y: int)
  {
    y % 4 == 0 && (y % 100 != 0 || y % 400 == 0)
  }

  function DaysInMonth(y: int, m: int): int
  {
    if m == 2 then (if IsLeap(y) then 29 else 28)
    else if m == 4 || m == 6 || m == 9 || m == 11 then 30
    else 31
  }

  /** What `date(year, month, day)` accepts: years 1 to 9999 and a day that exists in that month. */
  predicate ValidDate(d: Date)
  {
    1 <= d.year <= 9999 && 1 <= d.month <= 12 && 1 <= d.day <= DaysInMonth(d.year, d.month)
  }

  /** The order of `date`: by year, then month, then day. */
  predicate DateLe(a: Date, b: Date)
  {
    a.year < b.year || (a.year == b.year && (a.month < b.month || (a.month == b.month && a.day <= b.day)))
  }

  /** `a < b` on dates. */
  predicate DateLt(a: Date, b: Date)
  {
    !DateLe(b, a)
  }

  /**
   * The first reading of `_parse_date`: a string holding a '/' is split on '/', and the first three pieces
   * are read as day, month and year with `int`; None where `int` or `date` would raise.
   */
  function DayMonthYear(s: string): (r: Option<Date>)
    ensures r.Some? ==> ValidDate(r.value)
  {
    var parts := SplitOn(s, '/');
    if '/' !in s || |parts| < 3 then None
    else
      var y, m, d := ParseInt(parts[2]), ParseInt(parts[1]), ParseInt(parts[0]);
      if y.Some? && m.Some? && d.Some? && ValidDate(Date(y.value, m.value, d.value)) then Some(Date(y.value, m.value, d.value))
      else None
  }

  /** `f"{day}/{month}/{year}"`: how a sheet cell writes a date as day first. */
  function FormatDmy(d: Date): string
    requires d.year >= 0 && d.month >= 0 && d.day >= 0
  {
    NatToString(d.day) + "/" + NatToString(d.month) + "/" + NatToString(d.year)
  }

  /**
   * `_parse_date`. `formats` stands for the readings tried after day/month/year (`fromisoformat`, the
   * `%Y-%m-%d` format, dateutil and the list of `strptime` formats), applied to the stripped text.
   */
  function ParseDate(s: Option<string>, formats: string -> Option<Date>): (r: Option<Date>)
    ensures !RoutesAuth.Given(s) || Strip(s.value) == [] ==> r.None?
  {
    if !RoutesAuth.Given(s) then None
    else
      var t := Strip(s.value);
      if t == [] then None
      else match DayMonthYear(t)
        case Some(d) => Some(d)
        case None => formats(t)
  }

  /** The decimal text of a number holds no '/'. */
  lemma NoSlash(n: nat)
    ensures '/' !in NatToString(n)
  {
    var s := NatToString(n);
    assert forall i :: 0 <= i < |s| ==> IsDigit(s[i]);
  }

  /** Text whose first three '/'-pieces are the decimal day, month and year reads as that date, if it exists. */
  lemma DayMonthYearOfPieces(s: string, d: Date)
    requires d.year >= 0 && d.month >= 0 && d.day >= 0
    requires '/' in s && |SplitOn(s, '/')| >= 3
    requires SplitOn(s, '/')[0] == NatToString(d.day) && SplitOn(s, '/')[1] == NatToString(d.month)
    requires SplitOn(s, '/')[2] == NatToString(d.year)
    ensures DayMonthYear(s) == (if ValidDate(d) then Some(d) else None)
  {
    ParseIntRoundTrip(d.day);
    ParseIntRoundTrip(d.month);
    ParseIntRoundTrip(d.year);
  }

  /** Three '/'-free pieces joined by '/' split back into those pieces. */
  lemma SplitThree(a: string, b: string, c: string)
    requires '/' !in a && '/' !in b && '/' !in c
    ensures '/' in a + "/" + b + "/" + c
    ensures SplitOn(a + "/" + b + "/" + c, '/') == [a, b, c]
  {
    var s := a + "/" + b + "/" + c;
    assert s == a + ['/'] + (b + ['/'] + c);
    SplitOnSep(a, '/', b + ['/'] + c);
    SplitOnSep(b, '/', c);
    SplitOnNoSep(c, '/');
    assert s[|a|] == '/';
  }

  /** The same with more text after a further '/': the first three pieces are unchanged. */
  lemma SplitThreeMore(a: string, b: string, c: string, rest: string)
    requires '/' !in a && '/' !in b && '/' !in c
    ensures '/' in a + "/" + b + "/" + c + "/" + rest
    ensures var parts := SplitOn(a + "/" + b + "/" + c + "/" + rest, '/');
            |parts| >= 3 && parts[0] == a && parts[1] == b && parts[2] == c
  {
    var s := a + "/" + b + "/" + c + "/" + rest;
    assert s == a + ['/'] + (b + ['/'] + (c + ['/'] + rest));
    SplitOnSep(a, '/', b + ['/'] + (c + ['/'] + rest));
    SplitOnSep(b, '/', c + ['/'] + rest);
    SplitOnSep(c, '/', rest);
    assert s[|a|] == '/';
  }

  /** Day/month/year text is read back exactly when it names an existing date. */
  lemma DayMonthYearReads(d: Date)
    requires d.year >= 0 && d.month >= 0 && d.day >= 0
    ensures DayMonthYear(FormatDmy(d)) == (if ValidDate(d) then Some(d) else None)
  {
    NoSlash(d.day);
    NoSlash(d.month);
    NoSlash(d.year);
    SplitThree(NatToString(d.day), NatToString(d.month), NatToString(d.year));
    DayMonthYearOfPieces(FormatDmy(d), d);
  }

  /** Pieces after the third are ignored: "1/2/2020/x" still reads as 1 February 2020. */
  lemma DayMonthYearIgnoresRest(d: Date, rest: string)
    requires d.year >= 0 && d.month >= 0 && d.day >= 0
    ensures DayMonthYear(FormatDmy(d) + "/" + rest) == (if ValidDate(d) then Some(d) else None)
  {
    NoSlash(d.day);
    NoSlash(d.month);
    NoSlash(d.year);
    SplitThreeMore(NatToString(d.day), NatToString(d.month), NatToString(d.year), rest);
    DayMonthYearOfPieces(FormatDmy(d) + "/" + rest, d);
  }

  /** Formatted dates start and end with a digit, so stripping leaves them alone. */
  lemma FormatDmyStripped(d: Date)
    requires d.year >= 0 && d.month >= 0 && d.day >= 0
    ensures Strip(FormatDmy(d)) == FormatDmy(d)
  {
    var s := FormatDmy(d);
    var first, last := NatToString(d.day), NatToString(d.year);
    assert s[0] == first[0] && s[|s| - 1] == last[|last| - 1];
    DigitNotSpace(first[0]);
    DigitNotSpace(last[|last| - 1]);
    StripId(s);
  }

  /** A day-first date is read as day first, whatever the later formats would make of it. */
  lemma ParseDateDayFirst(d: Date, formats: string -> Option<Date>)
    requires ValidDate(d)
    ensures ParseDate(Some(FormatDmy(d)), formats) == Some(d)
  {
    DayMonthYearReads(d);
    FormatDmyStripped(d);
  }

  /** An impossible day/month/year, such as 31/2/2021, is left to the later formats. */
  lemma ParseDateImpossibleDay(d: Date, formats: string -> Option<Date>)
    requires d.year >= 0 && d.month >= 0 && d.day >= 0 && !ValidDate(d)
    ensures ParseDate(Some(FormatDmy(d)), formats) == formats(FormatDmy(d))
  {
    DayMonthYearReads(d);
    FormatDmyStripped(d);
  }

  /** The smallest date of a list of optional dates, keeping the first of equal ones. */
  function Earliest(ds: seq<Option<Date>>): (r: Option<Date>)
    ensures r.None? <==> forall i :: 0 <= i < |ds| ==> ds[i].None?
    ensures r.Some? ==> r in ds && forall i :: 0 <= i < |ds| && ds[i].Some? ==> DateLe(r.value, ds[i].value)
  {
    if ds == [] then None
    else
      var e := Earliest(ds[..|ds| - 1]);
      var d := ds[|ds| - 1];
      assert forall i :: 0 <= i < |ds| - 1 ==> ds[..|ds| - 1][i] == ds[i];
      if d.Some? && (e.None? || DateLt(d.value, e.value)) then d else e
  }

  /** The greatest date of a list of optional dates. */
  function Latest(ds: seq<Option<Date>>): (r: Option<Date>)
    ensures r.None? <==> forall i :: 0 <= i < |ds| ==> ds[i].None?
    ensures r.Some? ==> r in ds && forall i :: 0 <= i < |ds| && ds[i].Some? ==> DateLe(ds[i].value, r.value)
  {
    if ds == [] then None
    else
      var e := Latest(ds[..|ds| - 1]);
      var d := ds[|ds| - 1];
      assert forall i :: 0 <= i < |ds| - 1 ==> ds[..|ds| - 1][i] == ds[i];
      if d.Some? && (e.None? || DateLt(e.value, d.value)) then d else e
  }

  /** One more date considered: it replaces the earliest so far when it is strictly earlier. */
  lemma EarliestTakeStep(ds: seq<Option<Date>>, i: nat)
    requires i < |ds|
    ensures Earliest(ds[..i + 1])
            == if ds[i].Some? && (Earliest(ds[..i]).None? || DateLt(ds[i].value, Earliest(ds[..i]).value)) then ds[i]
               else Earliest(ds[..i])
  {
    assert ds[..i + 1][..i] == ds[..i];
  }

  /** One more date considered: it replaces the latest so far when it is strictly later. */
  lemma LatestTakeStep(ds: seq<Option<Date>>, i: nat)
    requires i < |ds|
    ensures Latest(ds[..i + 1])
            == if ds[i].Some? && (Latest(ds[..i]).None? || DateLt(Latest(ds[..i]).value, ds[i].value)) then ds[i]
               else Latest(ds[..i])
  {
    assert ds[..i + 1][..i] == ds[..i];
  }

  // ---------------------------------------------------------------------------------------------
  // Appointments
  // ---------------------------------------------------------------------------------------------

  /** The keys `_is_acolhimento_appt` looks at first. */
  function AppointmentKeys(): seq<string>
  {
    ["plan", "plan_name", "product", "service", "package", "title", "name", "appointment_type"]
  }

  /** A string value containing "acolhimento" in any case. */
  predicate MentionsAcolhimento(v: Json)
  {
    v.JStr? && Contains(Lower(v.s), "acolhimento")
  }

  /** `appt.get(k)` is a truthy string mentioning acolhimento. */
  predicate NamedFieldMentions(appt: Json, k: string)
  {
    Field(appt, k).Some? && Truthy(Field(appt, k).value) && MentionsAcolhimento(Field(appt, k).value)
  }

  /** `_is_acolhimento_appt`: first the usual keys, then every value of the dict. */
  function IsAcolhimentoAppt(appt: Json): (r: bool)
  {
    if !Truthy(appt) || !appt.JObj? then false
    else if exists i :: 0 <= i < |AppointmentKeys()| && NamedFieldMentions(appt, AppointmentKeys()[i]) then true
    else exists i :: 0 <= i < |appt.fields| && MentionsAcolhimento(appt.fields[i].1)
  }

  /** An appointment is an acolhimento exactly when it is a dict and one of its values mentions acolhimento. */
  lemma IsAcolhimentoApptIff(appt: Json)
    ensures IsAcolhimentoAppt(appt) <==> appt.JObj? && exists i :: 0 <= i < |appt.fields| && MentionsAcolhimento(appt.fields[i].1)
  {
    if appt.JObj? && exists i :: 0 <= i < |AppointmentKeys()| && NamedFieldMentions(appt, AppointmentKeys()[i]) {
      var i :| 0 <= i < |AppointmentKeys()| && NamedFieldMentions(appt, AppointmentKeys()[i]);
      var v := Field(appt, AppointmentKeys()[i]).value;
      assert (AppointmentKeys()[i], v) in appt.fields;
      var j :| 0 <= j < |appt.fields| && appt.fields[j] == (AppointmentKeys()[i], v);
      assert MentionsAcolhimento(appt.fields[j].1);
    }
  }

  // ---------------------------------------------------------------------------------------------
  // Grouping, for any kind of row and any key
  // ---------------------------------------------------------------------------------------------

  function KeyIs<T>(key: T -> string, k: string): T -> bool
  {
    x => key(x) == k
  }

  /** `groups.setdefault(k, []).append(r)`. */
  function AddRow<T(==)>(g: Table<string, seq<T>>, k: string, r: T): Table<string, seq<T>>
  {
    match Get(g, k)
    case None => g + [(k, [r])]
    case Some(items) => Put(g, k, items + [r])
  }

  /** The `groups` dict after `AddRow` for every row, in order. */
  function Groups<T(==)>(rows: seq<T>, key: T -> string): Table<string, seq<T>>
  {
    if rows == [] then [] else AddRow(Groups(rows[..|rows| - 1], key), key(rows[|rows| - 1]), rows[|rows| - 1])
  }

  /** A key is added once. */
  lemma {:induction false} GroupsDistinct<T>(rows: seq<T>, key: T -> string)
    ensures DistinctKeys(Groups(rows, key))
  {
    if rows != [] {
      var s, x := rows[..|rows| - 1], rows[|rows| - 1];
      var g, k := Groups(s, key), key(x);
      GroupsDistinct(s, key);
      match Get(g, k) {
        case None =>
          assert Keys(g + [(k, [x])]) == Keys(g) + [k];
        case Some(items) =>
          PutDistinct(g, k, items + [x]);
      }
    }
  }

  /** The keys of the groups are the distinct keys of the rows, in the order they first appear. */
  lemma {:induction false} GroupsKeys<T>(rows: seq<T>, key: T -> string)
    ensures Keys(Groups(rows, key)) == KeysOf(DedupBy(rows, key), key)
  {
    if rows == [] {
      assert DedupBy(rows, key) == [];
      assert Groups(rows, key) == [];
    } else {
      var s, x := rows[..|rows| - 1], rows[|rows| - 1];
      GroupsKeys(s, key);
      assert DedupBy(rows, key) == if key(x) in KeysOf(DedupBy(s, key), key) then DedupBy(s, key) else DedupBy(s, key) + [x];
      AddRowKeys(Groups(s, key), key(x), x);
      KeysOfSnoc(DedupBy(s, key), x, key);
    }
  }

  /** Adding a row keeps the keys when its key is present and appends the key otherwise. */
  lemma AddRowKeys<T>(g: Table<string, seq<T>>, k: string, r: T)
    ensures Keys(AddRow(g, k, r)) == if HasKey(g, k) then Keys(g) else Keys(g) + [k]
  {
    if !HasKey(g, k) {
      KeysSnoc(g, k, [r]);
    }
  }

  /** The group of a key holds exactly the rows with that key, in order; a key no row has has no group. */
  lemma {:induction false} GroupsGet<T>(rows: seq<T>, key: T -> string, q: string)
    ensures Get(Groups(rows, key), q) == if Filter(rows, KeyIs(key, q)) == [] then None else Some(Filter(rows, KeyIs(key, q)))
  {
    if rows == [] {
      assert Filter(rows, KeyIs(key, q)) == [];
      assert Groups(rows, key) == [];
    } else {
      var s, x := rows[..|rows| - 1], rows[|rows| - 1];
      var g, k := Groups(s, key), key(x);
      assert Groups(rows, key) == AddRow(g, k, x);
      var before := Filter(s, KeyIs(key, q));
      var after := Filter(rows, KeyIs(key, q));
      GroupsGet(s, key, q);
      assert rows == s + [x];
      FilterSnoc(s, x, KeyIs(key, q));
      assert after == before + (if q == k then [x] else []);
      match Get(g, k) {
        case None =>
          assert AddRow(g, k, x) == g + [(k, [x])];
          GetSnoc(g, k, [x], q);
          if q == k {
            assert Get(g, q).None? && !HasKey(g, q);
            assert before == [];
            assert after == [x];
            assert Get(g + [(k, [x])], q) == Some([x]);
            assert Get(Groups(rows, key), q) == Some(after);
          } else {
            assert after == before;
            assert Get(Groups(rows, key), q) == Get(g, q);
          }
        case Some(items) =>
          GetPut(g, k, items + [x], q);
          if q == k {
            assert items == before;
            assert Get(Groups(rows, key), q) == Some(after);
          } else {
            assert after == before;
            assert Get(Groups(rows, key), q) == Get(g, q);
          }
      }
    }
  }

  /** The grouping loop of `_group_and_aggregate`. */
  method GroupRows<T(==)>(rows: seq<T>, key: T -> string) returns (groups: Table<string, seq<T>>)
    ensures groups == Groups(rows, key)
  {
    groups := [];
    var i := 0;
    while i < |rows|
      invariant 0 <= i <= |rows|
      invariant groups == Groups(rows[..i], key)
    {
      var r := rows[i];
      var k := key(r);
      assert rows[..i + 1][..i] == rows[..i];
      match Get(groups, k) {
        case None =>
          groups := groups + [(k, [r])];
        case Some(items) =>
          groups := Put(groups, k, items + [r]);
      }
      i := i + 1;
    }
    assert rows[..|rows|] == rows;
  }

  /** Every group is the non-empty list of the rows with its key, and there is one group per distinct key. */
  lemma GroupsShape<T>(rows: seq<T>, key: T -> string)
    ensures DistinctKeys(Groups(rows, key))
    ensures |Groups(rows, key)| == |DedupBy(rows, key)|
    ensures forall j :: 0 <= j < |Groups(rows, key)| ==>
              Groups(rows, key)[j].1 == Filter(rows, KeyIs(key, Groups(rows, key)[j].0)) != []
  {
    var g := Groups(rows, key);
    GroupsDistinct(rows, key);
    GroupsKeys(rows, key);
    forall j | 0 <= j < |g| ensures g[j].1 == Filter(rows, KeyIs(key, g[j].0)) != [] {
      GetAt(g, j);
      GroupsGet(rows, key, g[j].0);
    }
  }

  // ---------------------------------------------------------------------------------------------
  // Filtering the acolhimento rows
  // ---------------------------------------------------------------------------------------------

  /** A record of the acolhimentos sheet, as the sheet reader returns it. */
  type Row = Table<string, string>

  /** `r.get(k) or ''`. */
  function Val(r: Row, k: string): string
  {
    match Get(r, k)
    case Some(v) => v
    case None => ""
  }

  /** How the report reads a date cell: `_parse_date` with the given later formats. */
  function DateReader(formats: string -> Option<Date>): Option<string> -> Option<Date>
  {
    s => ParseDate(s, formats)
  }

  /** Whether a row passes the company filter and the inclusive date bounds; `date` reads a date cell. */
  predicate Kept(r: Row, company: Option<string>, dfrom: Option<Date>, dto: Option<Date>, date: Option<string> -> Option<Date>)
  {
    var rd := date(Get(r, "request_date"));
    (RoutesAuth.Given(company) ==> Strip(Val(r, "company")) == Strip(company.value))
    && (dfrom.Some? ==> rd.Some? && DateLe(dfrom.value, rd.value))
    && (dto.Some? ==> rd.Some? && DateLe(rd.value, dto.value))
  }

  function KeptBy(company: Option<string>, dfrom: Option<Date>, dto: Option<Date>, date: Option<string> -> Option<Date>): Row -> bool
  {
    r => Kept(r, company, dfrom, dto, date)
  }

  /** The first loop of `_group_and_aggregate`: the rows that pass the filters, in order. */
  method FilterRows(rows: seq<Row>, company: Option<string>, dfrom: Option<Date>, dto: Option<Date>,
                    date: Option<string> -> Option<Date>) returns (filtered: seq<Row>)
    ensures filtered == Filter(rows, KeptBy(company, dfrom, dto, date))
  {
    ghost var keep := KeptBy(company, dfrom, dto, date);
    filtered := [];
    var i := 0;
    while i < |rows|
      invariant 0 <= i <= |rows|
      invariant filtered == Filter(rows[..i], keep)
    {
      var r := rows[i];
      var passes := PassesFilters(r, company, dfrom, dto, date);
      FilterExtend(rows, i, keep, passes, filtered);
      if passes {
        filtered := filtered + [r];
      }
      i := i + 1;
    }
    assert rows[..|rows|] == rows;
  }

  /** The body of the first loop on one row: each `continue` of the source answers false. */
  method PassesFilters(r: Row, company: Option<string>, dfrom: Option<Date>, dto: Option<Date>,
                       date: Option<string> -> Option<Date>) returns (passes: bool)
    ensures passes == Kept(r, company, dfrom, dto, date)
  {
    if RoutesAuth.Given(company) && Strip(Val(r, "company")) != Strip(company.value) {
      return false;
    }
    var rd := date(Get(r, "request_date"));
    if dfrom.Some? && (rd.None? || DateLt(rd.value, dfrom.value)) {
      return false;
    }
    if dto.Some? && (rd.None? || DateLt(dto.value, rd.value)) {
      return false;
    }
    passes := true;
  }

  /** A kept row matches the company, and whenever a bound is given it has a date within it. */
  lemma FilteredRowsMatch(rows: seq<Row>, company: Option<string>, dfrom: Option<Date>, dto: Option<Date>,
                          date: Option<string> -> Option<Date>, i: nat)
    requires i < |Filter(rows, KeptBy(company, dfrom, dto, date))|
    ensures var r := Filter(rows, KeptBy(company, dfrom, dto, date))[i];
            var rd := date(Get(r, "request_date"));
            r in rows
            && (RoutesAuth.Given(company) ==> Strip(Val(r, "company")) == Strip(company.value))
            && (dfrom.Some? || dto.Some? ==> rd.Some?)
            && (dfrom.Some? ==> DateLe(dfrom.value, rd.value))
            && (dto.Some? ==> DateLe(rd.value, dto.value))
  {
    assert KeptBy(company, dfrom, dto, date)(Filter(rows, KeptBy(company, dfrom, dto, date))[i]);
  }

  /** The group of a row: its uuid, else patient name and CPF joined by '|'. */
  function GroupKey(r: Row): string
  {
    if Val(r, "uuid") != "" then Val(r, "uuid") else Val(r, "patient_name") + "|" + Val(r, "cpf")
  }

  // ---------------------------------------------------------------------------------------------
  // One line per patient
  // ---------------------------------------------------------------------------------------------

  /** An item of `per_patient`; the two dates are rendered with `isoformat`, or '' when absent. */
  datatype Patient = Patient(uuid: string, patientName: string, company: string, email: string,
                             acolhimentoType: string, status: string,
                             totalConsults: nat, completedConsults: nat, pendingConsults: int,
                             firstRequestDate: Option<Date>, lastConsultDate: Option<Date>)

  /** A consultation counts as completed when its status is "finalizado" in any case or it has a last conference. */
  predicate Completed(it: Row)
  {
    Lower(Strip(Val(it, "status"))) == "finalizado" || Val(it, "last_conference") != ""
  }

  function RequestDate(date: Option<string> -> Option<Date>): Row -> Option<Date>
  {
    it => date(Get(it, "request_date"))
  }

  function ConferenceDate(date: Option<string> -> Option<Date>): Row -> Option<Date>
  {
    it => date(Get(it, "last_conference"))
  }

  /** The line of one group: identity and status from its last row, counters and dates over all its rows. */
  function Summary(items: seq<Row>, date: Option<string> -> Option<Date>): (p: Patient)
    requires items != []
  {
    var latest := items[|items| - 1];
    var completed := CountWhere(items, Completed);
    var funding := if Val(latest, "funding_duration") != "" then Val(latest, "funding_duration") else Val(latest, "funding_type");
    Patient(Val(latest, "uuid"), Val(latest, "patient_name"), Val(latest, "company"), Val(latest, "email"),
            Strip(funding), Strip(Val(latest, "status")),
            |items|, completed, |items| - completed,
            Earliest(MapSeq(items, RequestDate(date))), Latest(MapSeq(items, ConferenceDate(date))))
  }

  /**
   * Completed and pending consultations split the group's rows, and the dates shown are the earliest
   * request date and the latest conference date of the group.
   */
  lemma SummaryCounts(items: seq<Row>, date: Option<string> -> Option<Date>)
    requires items != []
    ensures var p := Summary(items, date);
            p.totalConsults == |items| >= 1 && p.completedConsults <= p.totalConsults
            && p.pendingConsults >= 0 && p.completedConsults + p.pendingConsults == p.totalConsults
            && (p.completedConsults == 0 <==> forall i :: 0 <= i < |items| ==> !Completed(items[i]))
            && (forall i :: 0 <= i < |items| && date(Get(items[i], "request_date")).Some? ==>
                  p.firstRequestDate.Some? && DateLe(p.firstRequestDate.value, date(Get(items[i], "request_date")).value))
            && (forall i :: 0 <= i < |items| && date(Get(items[i], "last_conference")).Some? ==>
                  p.lastConsultDate.Some? && DateLe(date(Get(items[i], "last_conference")).value, p.lastConsultDate.value))
  {
    var reqs := MapSeq(items, RequestDate(date));
    var confs := MapSeq(items, ConferenceDate(date));
    forall i | 0 <= i < |items| && date(Get(items[i], "request_date")).Some?
      ensures Earliest(reqs).Some? && DateLe(Earliest(reqs).value, date(Get(items[i], "request_date")).value)
    {
      assert reqs[i] == date(Get(items[i], "request_date"));
    }
    forall i | 0 <= i < |items| && date(Get(items[i], "last_conference")).Some?
      ensures Latest(confs).Some? && DateLe(date(Get(items[i], "last_conference")).value, Latest(confs).value)
    {
      assert confs[i] == date(Get(items[i], "last_conference"));
    }
  }

  function SummaryOf(date: Option<string> -> Option<Date>): ((string, seq<Row>)) -> Patient
  {
    (g: (string, seq<Row>)) => if g.1 == [] then Patient("", "", "", "", "", "", 0, 0, 0, None, None) else Summary(g.1, date)
  }

  /** The dates loop over a group's rows: the earliest request date and the latest conference date. */
  method DateSpan(items: seq<Row>, date: Option<string> -> Option<Date>) returns (firstReq: Option<Date>, lastCons: Option<Date>)
    ensures firstReq == Earliest(MapSeq(items, RequestDate(date)))
    ensures lastCons == Latest(MapSeq(items, ConferenceDate(date)))
  {
    ghost var reqs := MapSeq(items, RequestDate(date));
    ghost var confs := MapSeq(items, ConferenceDate(date));
    firstReq, lastCons := None, None;
    var i := 0;
    while i < |items|
      invariant 0 <= i <= |items|
      invariant firstReq == Earliest(reqs[..i])
      invariant lastCons == Latest(confs[..i])
    {
      EarliestTakeStep(reqs, i);
      LatestTakeStep(confs, i);
      var d := date(Get(items[i], "request_date"));
      if d.Some? && (firstReq.None? || DateLt(d.value, firstReq.value)) {
        firstReq := d;
      }
      var lc := date(Get(items[i], "last_conference"));
      if lc.Some? && (lastCons.None? || DateLt(lastCons.value, lc.value)) {
        lastCons := lc;
      }
      i := i + 1;
    }
    assert reqs[..|items|] == reqs && confs[..|items|] == confs;
  }

  /** The counters of the summary. */
  datatype Counts = Counts(totalAcolhidos: nat, emAcolhimentoCount: nat, finalizadoCount: nat)

  /** A last status that counts as still in acolhimento. */
  predicate InProgress(p: Patient)
  {
    p.status == "Em acolhimento" || p.status == "Consulta experimental"
  }

  predicate Finished(p: Patient)
  {
    p.status == "Finalizado"
  }

  /** The sort key of `per_patient`: the lower-cased patient name. */
  function NameKey(p: Patient): string
  {
    Lower(p.patientName)
  }

  /** One group's line, as the aggregation loop builds it. */
  method SummarizeGroup(items: seq<Row>, date: Option<string> -> Option<Date>) returns (p: Patient)
    requires items != []
    ensures p == Summary(items, date)
  {
    var latest := items[|items| - 1];
    var status := Strip(Val(latest, "status"));
    var total := |items|;
    var completed := CountWhere(items, Completed);
    var firstReq, lastCons := DateSpan(items, date);
    var funding := if Val(latest, "funding_duration") != "" then Val(latest, "funding_duration") else Val(latest, "funding_type");
    p := Patient(Val(latest, "uuid"), Val(latest, "patient_name"), Val(latest, "company"), Val(latest, "email"),
                 Strip(funding), status, total, completed, total - completed, firstReq, lastCons);
  }

  /** The counters over the lines built so far: every line, those in progress and those finished. */
  function Tallied(lines: seq<Patient>): Counts
  {
    Counts(|lines|, CountWhere(lines, InProgress), CountWhere(lines, Finished))
  }

  /** One step of the third loop after the line is built: append it and bump the counters it falls under. */
  method Tally(lines: seq<Patient>, counts: Counts, p: Patient) returns (lines': seq<Patient>, counts': Counts)
    requires counts == Tallied(lines)
    ensures lines' == lines + [p] && counts' == Tallied(lines')
  {
    CountWhereSnoc(lines, p, InProgress);
    CountWhereSnoc(lines, p, Finished);
    counts' := counts.(totalAcolhidos := counts.totalAcolhidos + 1);
    lines' := lines + [p];
    if p.status == "Em acolhimento" || p.status == "Consulta experimental" {
      counts' := counts'.(emAcolhimentoCount := counts'.emAcolhimentoCount + 1);
    }
    if p.status == "Finalizado" {
      counts' := counts'.(finalizadoCount := counts'.finalizadoCount + 1);
    }
  }

  /** The third loop: one line per group and the counters, before sorting. */
  method Aggregate(groups: Table<string, seq<Row>>, date: Option<string> -> Option<Date>) returns (perPatient: seq<Patient>, counts: Counts)
    requires forall j :: 0 <= j < |groups| ==> groups[j].1 != []
    ensures perPatient == MapSeq(groups, SummaryOf(date))
    ensures counts == Tallied(perPatient)
  {
    ghost var lines := MapSeq(groups, SummaryOf(date));
    perPatient := [];
    counts := Counts(0, 0, 0);
    var i := 0;
    while i < |groups|
      invariant 0 <= i <= |groups|
      invariant perPatient == lines[..i]
      invariant counts == Tallied(perPatient)
    {
      var p := SummarizeGroup(groups[i].1, date);
      assert p == lines[i];
      TakeSnoc(lines, perPatient, i, p);
      perPatient, counts := Tally(perPatient, counts, p);
      i := i + 1;
    }
    assert lines[..|groups|] == lines;
  }

  /** What `_group_and_aggregate` returns, with `date` reading date cells: the lines sorted by name, and the counters. */
  function Report(rows: seq<Row>, company: Option<string>, dfrom: Option<Date>, dto: Option<Date>,
                  date: Option<string> -> Option<Date>): (r: (seq<Patient>, Counts))
  {
    Aggregated(Filter(rows, KeptBy(company, dfrom, dto, date)), date)
  }

  /** The report over the rows the filters kept: one line per group, sorted by name, and the counters. */
  function Aggregated(kept: seq<Row>, date: Option<string> -> Option<Date>): (seq<Patient>, Counts)
  {
    var lines := MapSeq(Groups(kept, GroupKey), SummaryOf(date));
    (SortBy(lines, NameKey), Tallied(lines))
  }

  /** `_group_and_aggregate`, reading dates with `_parse_date`. */
  method GroupAndAggregate(rows: seq<Row>, company: Option<string>, dfrom: Option<Date>, dto: Option<Date>,
                           formats: string -> Option<Date>) returns (perPatient: seq<Patient>, counts: Counts)
    ensures (perPatient, counts) == Report(rows, company, dfrom, dto, DateReader(formats))
  {
    var date := DateReader(formats);
    var filtered := FilterRows(rows, company, dfrom, dto, date);
    var groups := GroupRows(filtered, GroupKey);
    GroupsShape(filtered, GroupKey);
    perPatient, counts := Aggregate(groups, date);
    perPatient := SortBy(perPatient, NameKey);
  }

  /** Two disjoint conditions count at most the whole sequence together. */
  lemma {:induction false} CountDisjoint<T>(s: seq<T>, p: T -> bool, q: T -> bool)
    requires forall i :: 0 <= i < |s| ==> !(p(s[i]) && q(s[i]))
    ensures CountWhere(s, p) + CountWhere(s, q) <= |s|
  {
    if s != [] {
      CountDisjoint(s[..|s| - 1], p, q);
    }
  }

  /**
   * The report has one line per distinct patient key among the kept rows, sorted by lower-cased name;
   * a patient counts as in acolhimento or as finished, never both.
   */
  lemma ReportShape(rows: seq<Row>, company: Option<string>, dfrom: Option<Date>, dto: Option<Date>, date: Option<string> -> Option<Date>)
    ensures var kept := Filter(rows, KeptBy(company, dfrom, dto, date));
            var (lines, counts) := Report(rows, company, dfrom, dto, date);
            counts.totalAcolhidos == |lines| == |DedupBy(kept, GroupKey)|
            && SortedBy(lines, NameKey)
            && multiset(lines) == multiset(MapSeq(Groups(kept, GroupKey), SummaryOf(date)))
            && counts.emAcolhimentoCount + counts.finalizadoCount <= counts.totalAcolhidos
  {
    AggregatedShape(Filter(rows, KeptBy(company, dfrom, dto, date)), date);
  }

  lemma AggregatedShape(kept: seq<Row>, date: Option<string> -> Option<Date>)
    ensures var (lines, counts) := Aggregated(kept, date);
            counts.totalAcolhidos == |lines| == |DedupBy(kept, GroupKey)|
            && SortedBy(lines, NameKey)
            && multiset(lines) == multiset(MapSeq(Groups(kept, GroupKey), SummaryOf(date)))
            && counts.emAcolhimentoCount + counts.finalizadoCount <= counts.totalAcolhidos
  {
    var groups := Groups(kept, GroupKey);
    GroupsKeys(kept, GroupKey);
    assert |groups| == |Keys(groups)| == |DedupBy(kept, GroupKey)|;
    var lines := MapSeq(groups, SummaryOf(date));
    CountDisjoint(lines, InProgress, Finished);
  }

  /**
   * The line of the `j`-th patient: it counts the kept rows with that patient's key, takes its status from
   * the last of them, splits them into completed and pending consultations, and is in the report.
   */
  lemma PatientLine(rows: seq<Row>, company: Option<string>, dfrom: Option<Date>, dto: Option<Date>,
                    date: Option<string> -> Option<Date>, j: nat)
    requires j < |Groups(Filter(rows, KeptBy(company, dfrom, dto, date)), GroupKey)|
    ensures var kept := Filter(rows, KeptBy(company, dfrom, dto, date));
            var g := Groups(kept, GroupKey)[j];
            var items := Filter(kept, KeyIs(GroupKey, g.0));
            var p := SummaryOf(date)(g);
            g.1 == items != [] && p.totalConsults == |items|
            && p.status == Strip(Val(items[|items| - 1], "status"))
            && p.completedConsults + p.pendingConsults == p.totalConsults
            && p in Report(rows, company, dfrom, dto, date).0
  {
    AggregatedLine(Filter(rows, KeptBy(company, dfrom, dto, date)), date, j);
  }

  lemma AggregatedLine(kept: seq<Row>, date: Option<string> -> Option<Date>, j: nat)
    requires j < |Groups(kept, GroupKey)|
    ensures var g := Groups(kept, GroupKey)[j];
            var items := Filter(kept, KeyIs(GroupKey, g.0));
            var p := SummaryOf(date)(g);
            g.1 == items != [] && p.totalConsults == |items|
            && p.status == Strip(Val(items[|items| - 1], "status"))
            && p.completedConsults + p.pendingConsults == p.totalConsults
            && p in Aggregated(kept, date).0
  {
    var groups := Groups(kept, GroupKey);
    GroupsShape(kept, GroupKey);
    var lines := MapSeq(groups, SummaryOf(date));
    assert lines[j] == SummaryOf(date)(groups[j]);
    assert lines[j] in multiset(lines);
  }

  // ---------------------------------------------------------------------------------------------
  // Report jobs
  // ---------------------------------------------------------------------------------------------

  datatype JobStatus = Ready | Running | NotFound | Pending

  /** The status rule of `api_report_job`. */
  function ReportJobStatus(resultFile: Option<string>, internal: Option<string>, logs: seq<string>): JobStatus
  {
    if RoutesAuth.Given(resultFile) then Ready
    else if RoutesAuth.Given(internal) then Running
    else if logs == [] then NotFound
    else Pending
  }

  /** The answer of `GET /api/reports/job/{job_id}`. */
  datatype JobAnswer =
    | Status(status: JobStatus, logs: seq<string>, filename: Option<string>)  // 200
    | NotReady                                                                  // 404 'report not ready'
    | FileMissing                                                               // 500 'file missing'
    | Download(file: string)                                                    // the file's bytes

  /** `(download or '').lower() in ('1', 'true', 'yes')`. */
  predicate WantsDownload(q: Option<string>)
  {
    q.Some? && Lower(q.value) in ["1", "true", "yes"]
  }

  /**
   * `api_report_job` over the three job tables; `fileExists` says whether the recorded result file is
   * present under tmp_uploads.
   */
  function ReportJob(jobId: string, download: Option<string>, logs: map<string, seq<string>>, internal: map<string, string>,
                     results: map<string, string>, fileExists: bool): (r: JobAnswer)
    ensures r.Status? <==> !WantsDownload(download)
    ensures r.Status? ==> r.logs == (if jobId in logs then logs[jobId] else [])
                          && r.filename == (if jobId in results then Some(results[jobId]) else None)
    ensures r.Download? <==> WantsDownload(download) && jobId in results && results[jobId] != "" && fileExists
    ensures r.Download? ==> r.file == results[jobId]
    ensures r.NotReady? <==> WantsDownload(download) && (jobId !in results || results[jobId] == "")
  {
    var lg := if jobId in logs then logs[jobId] else [];
    var id := if jobId in internal then Some(internal[jobId]) else None;
    var res := if jobId in results then Some(results[jobId]) else None;
    if WantsDownload(download) then
      if !RoutesAuth.Given(res) then NotReady
      else if !fileExists then FileMissing
      else Download(res.value)
    else Status(ReportJobStatus(res, id, lg), lg, res)
  }

  /** The status is ready, running, not found or pending, in that order of precedence. */
  lemma ReportJobStatusOrder(jobId: string, logs: map<string, seq<string>>, internal: map<string, string>,
                             results: map<string, string>, fileExists: bool)
    ensures var r := ReportJob(jobId, None, logs, internal, results, fileExists);
            var hasResult := jobId in results && results[jobId] != "";
            var hasInternal := jobId in internal && internal[jobId] != "";
            r.Status?
            && (r.status == Ready <==> hasResult)
            && (r.status == Running <==> !hasResult && hasInternal)
            && (r.status == NotFound <==> !hasResult && !hasInternal && (jobId !in logs || logs[jobId] == []))
  {
  }

  /** A download is served only for a job with a recorded result whose file exists. */
  lemma ReportJobDownload(jobId: string, logs: map<string, seq<string>>, internal: map<string, string>,
                          results: map<string, string>, fileExists: bool)
    ensures var r := ReportJob(jobId, Some("TRUE"), logs, internal, results, fileExists);
            (r.Download? <==> jobId in results && results[jobId] != "" && fileExists)
            && (r.Download? ==> r.file == results[jobId])
            && (r == NotReady <==> !(jobId in results && results[jobId] != ""))
  {
    assert Lower("TRUE") == "true";
  }
}
