/**
 * The appointment backend (dv_admin_automator/backend/appointments.py): the dates of a scheduling cycle and
 * the partition of their outcomes, the participant search's query retry and id extraction, and the
 * reading and (plan, therapist) grouping of a participant's history. Every browser step is a parameter:
 * whether an appointment could be created on a date, the rows a search shows, the cells of a history row.
 * Each function that opens its own browser session closes it again; one handed a manager never does.
 */
module Appointments {
  import opened Wrappers
  import opened Calls
  import opened Strs
  import opened SeqUtil
  import opened Entries
  import BrowserPool


  const MinutesPerDay := 1440

  /** `14 if tipo.lower().startswith('quinzenal') else 7`. */
  function IntervalDays(tipo: string): (r: nat)
    ensures r == 7 || r == 14
    ensures r == 14 <==> IsPrefix("quinzenal", Lower(tipo))
  {
    if IsPrefix("quinzenal", Lower(tipo)) then 14 else 7
  }

  /** `int(quantidade)`, or 3 (fortnightly) / 5 (weekly) when `quantidade` is None. */
  function Quantity(quantidade: Option<int>, interval: nat): (r: int)
    ensures quantidade.Some? ==> r == quantidade.value
    ensures quantidade.None? ==> r == (if interval == 14 then 3 else 5)
  {
    match quantidade
    case Some(q) => q
    case None => if interval == 14 then 3 else 5
  }

  /**
   * `[dt0 + timedelta(days=interval_days * i) for i in range(qtd)]`, instants counted in minutes: as many
   * dates as the quantity (none for a negative one), the first at `dt0`, evenly spaced and increasing.
   */
  function Dates(dt0: int, tipo: string, quantidade: Option<int>): (r: seq<int>)
    ensures var q := Quantity(quantidade, IntervalDays(tipo)); |r| == if q < 0 then 0 else q
    ensures |r| > 0 ==> r[0] == dt0
    ensures forall i :: 0 <= i < |r| - 1 ==> r[i + 1] - r[i] == IntervalDays(tipo) * MinutesPerDay
    ensures forall i, j :: 0 <= i < j < |r| ==> r[i] < r[j]
  {
    var q := Quantity(quantidade, IntervalDays(tipo));
    Spaced(dt0, IntervalDays(tipo) * MinutesPerDay, if q < 0 then 0 else q)
  }

  /** `n` instants from `t0`, `step` apart. */
  function Spaced(t0: int, step: nat, n: nat): (r: seq<int>)
    requires step > 0
    ensures |r| == n && (n > 0 ==> r[0] == t0)
    ensures forall i :: 0 <= i < n - 1 ==> r[i + 1] - r[i] == step
    ensures forall i, j :: 0 <= i < j < n ==> r[i] < r[j]
  {
    var r := seq(n, i => t0 + step * i);
    forall i, j | 0 <= i < j < n ensures r[i] < r[j] {
      assert step * j == step * i + step * (j - i);
      MulAtLeast(step, j - i);
    }
    r
  }

  lemma MulAtLeast(a: nat, b: int)
    requires b >= 1
    ensures a * b >= a
  {
  }

  /** The outcome `criar_appointment` reports for one date. */
  datatype DateOutcome = DateOutcome(ok: bool, date: int)

  predicate Succeeded(o: DateOutcome) { o.ok }

  predicate FailedOutcome(o: DateOutcome) { !o.ok }

  function OutcomeIn(created: int -> bool): int -> DateOutcome
  {
    d => DateOutcome(created(d), d)
  }

  /** The cycle's summary: `created`, `failed` and `total`. */
  datatype ScheduleResult =
    | NoDriver
    | CycleResult(created: seq<DateOutcome>, failed: seq<DateOutcome>, total: nat)

  /** Every outcome is in exactly one of the two lists, so they add up to the total. */
  lemma {:induction false} PartitionSizes(s: seq<DateOutcome>)
    ensures |Filter(s, Succeeded)| + |Filter(s, FailedOutcome)| == |s|
    ensures forall i :: 0 <= i < |s| ==> (s[i] in Filter(s, Succeeded)) != (s[i] in Filter(s, FailedOutcome))
  {
    if s != [] {
      PartitionSizes(s[..|s| - 1]);
    }
  }

  /** A session the call opened is closed again in `finally`: for a fresh id, the registry is as before. */
  lemma OwnSessionLeavesNoTrace(t: Table<string, BrowserPool.Session>, sid: string, v: BrowserPool.Session)
    requires !HasKey(t, sid)
    ensures Remove(Put(t, sid, v), sid) == t
  {
    RemovePutFresh(t, sid, v);
  }

  /**
   * The opening shared by the three functions: the caller's manager and its driver, or a session created
   * for the call, whose manager always has a driver; None where `create_session` raised.
   */
  method UseSession(pool: BrowserPool.Pool, manager: Option<BrowserPool.Manager>, m: BrowserPool.Manager,
                    startOk: bool, sid: string, now: real) returns (driver: Option<bool>)
    requires pool.Valid()
    modifies pool
    ensures pool.Valid()
    ensures manager.Some? ==> driver == Some(manager.value.driver) && pool.sessions == old(pool.sessions)
    ensures manager.None? && !startOk ==> driver.None? && pool.sessions == old(pool.sessions)
    ensures manager.None? && startOk ==>
              driver == Some(true) && pool.sessions == Put(old(pool.sessions), sid, BrowserPool.Session(BrowserPool.Started(m), now))
  {
    if manager.Some? {
      return Some(manager.value.driver);
    }
    var s := pool.CreateSession(m, startOk, sid, now);
    if s.None? {
      return None;
    }
    var mgr := pool.GetManager(sid);
    driver := Some(mgr.Some? && mgr.value.driver);
  }

  /**
   * `schedule_cycle_appointments`. `manager` is the caller's manager; without one a session is created
   * (`m`, `startOk`, `sid`) and closed at the end (`quitOk`: whether its `quit` succeeded). `dt0` is the
   * parsed start (None where `strptime` raises), `created(d)` whether the appointment on `d` was made.
   */
  method ScheduleCycle(pool: BrowserPool.Pool, manager: Option<BrowserPool.Manager>, m: BrowserPool.Manager,
                       startOk: bool, sid: string, now: real, quitOk: bool, tipo: string, quantidade: Option<int>,
                       dt0: Option<int>, created: int -> bool) returns (r: Call<ScheduleResult>)
    requires pool.Valid()
    modifies pool
    ensures pool.Valid()
    ensures manager.Some? || !startOk ==> pool.sessions == old(pool.sessions)
    ensures manager.None? && startOk ==>
              pool.sessions == Remove(Put(old(pool.sessions), sid, BrowserPool.Session(BrowserPool.Started(m), now)), sid)
    ensures manager.None? && !startOk ==> r == Raised
    ensures manager.Some? && !manager.value.driver ==> r == Returned(NoDriver)
    ensures (manager.Some? && manager.value.driver) || (manager.None? && startOk) ==>
              r == if dt0.None? then Raised
                   else var outs := MapSeq(Dates(dt0.value, tipo, quantidade), OutcomeIn(created));
                        Returned(CycleResult(Filter(outs, Succeeded), Filter(outs, FailedOutcome), |outs|))
  {
    var d := UseSession(pool, manager, m, startOk, sid, now);
    if d.None? {
      return Raised;
    }
    var driver := d.value;
    if !driver {
      r := Returned(NoDriver);
    } else if dt0.None? {
      r := Raised;
    } else {
      var dates := Dates(dt0.value, tipo, quantidade);
      var results: seq<DateOutcome> := [];
      var i := 0;
      while i < |dates|
        invariant 0 <= i <= |dates|
        invariant results == MapSeq(dates[..i], OutcomeIn(created))
      {
        results := results + [DateOutcome(created(dates[i]), dates[i])];
        i := i + 1;
      }
      assert dates[..|dates|] == dates;
      r := Returned(CycleResult(Filter(results, Succeeded), Filter(results, FailedOutcome), |results|));
    }
    if manager.None? {
      var _ := pool.CloseSession(sid, quitOk);
    }
  }

  /** The participant page's marker in a row's link. */
  const ParticipantMarker := "/participante/"

  /** The text up to the first '/', or all of it. */
  function UpToSlash(s: string): (r: string)
    ensures '/' !in r && IsPrefix(r, s)
    ensures |r| < |s| ==> s[|r|] == '/'
  {
    match IndexOf(s, '/')
    case None => s
    case Some(j) => s[..j]
  }

  /**
   * `urlp.split('/participante/')[1].split('/')[0]` when the marker occurs, else '': the segment after the
   * first marker up to the next '/' (the second marker, if any, starts with '/', so it is never passed).
   */
  function ParticipantId(href: string): (r: string)
    ensures '/' !in r
    ensures !Contains(href, ParticipantMarker) ==> r == ""
  {
    match FirstSubAt(href, ParticipantMarker)
    case None => ""
    case Some(k) => UpToSlash(href[k + |ParticipantMarker|..])
  }

  /** The id is the segment right after the first marker: `<a>/participante/<id>` then the end or a '/'. */
  lemma ParticipantIdOf(a: string, pid: string, rest: string)
    requires forall i :: 0 <= i < |a| ==> !SubAt(a + ParticipantMarker, ParticipantMarker, i)
    requires '/' !in pid
    requires rest == [] || rest[0] == '/'
    ensures ParticipantId(a + ParticipantMarker + pid + rest) == pid
  {
    var href := a + ParticipantMarker + pid + rest;
    assert href == a + ParticipantMarker + (pid + rest);
    FirstSubAtAfter(a, ParticipantMarker, pid + rest);
    assert href[|a| + |ParticipantMarker|..] == pid + rest;
    UpToSlashOf(pid, rest);
  }

  /** The part before the first '/' of a slash-free segment followed by nothing or a '/'. */
  lemma UpToSlashOf(pid: string, rest: string)
    requires '/' !in pid
    requires rest == [] || rest[0] == '/'
    ensures UpToSlash(pid + rest) == pid
  {
    var u := UpToSlash(pid + rest);
    assert forall k :: 0 <= k < |pid| ==> (pid + rest)[k] == pid[k] && pid[k] != '/';
    assert |pid| < |pid + rest| ==> (pid + rest)[|pid|] == '/';
  }


  /**
   * The row shown by a search: the link's href and text (None when the link lookup raised) and each cell's
   * stripped text (None when its lookup raised).
   */
  datatype SearchRow = SearchRow(link: Option<(Option<string>, string)>, email: Option<string>, phone: Option<string>,
                                 cpf: Option<string>, status: Option<string>, createdAt: Option<string>,
                                 updatedAt: Option<string>, uid: Option<string>)

  datatype Participant = Participant(id: string, name: string, email: string, phone: string, cpf: string,
                                     status: string, createdAt: string, updatedAt: string, uid: string, url: string)

  function CellOr(c: Option<string>): string
  {
    match c
    case None => "-"
    case Some(t) => t
  }

  /** One result dict: the id is always the one read from its url, a missing cell reads '-'. */
  function ParticipantOf(row: SearchRow): (r: Participant)
    ensures r.id == ParticipantId(r.url)
    ensures row.link.None? ==> r.url == "" && r.name == "" && r.id == ""
  {
    var (url, name) := match row.link
      case None => ("", "")
      case Some((href, text)) => (if href.Some? then href.value else "", text);
    Participant(ParticipantId(url), name, CellOr(row.email), CellOr(row.phone), CellOr(row.cpf), CellOr(row.status),
                CellOr(row.createdAt), CellOr(row.updatedAt), CellOr(row.uid), url)
  }

  /**
   * The rows the search ends with: those of the query itself, unless there were none and the digits-only
   * form differs, in which case those of the digits-only form.
   */
  function SearchedRows(query: string, first: seq<SearchRow>, second: seq<SearchRow>): (r: seq<SearchRow>)
  {
    if first == [] && Digits(query) != query then second else first
  }

  /** A query of digits only is never submitted twice; any other is retried only after finding nothing. */
  lemma RetryOnlyForNonDigits(query: string, first: seq<SearchRow>, second: seq<SearchRow>)
    ensures AllDigits(query) ==> SearchedRows(query, first, second) == first
    ensures first != [] ==> SearchedRows(query, first, second) == first
  {
    if AllDigits(query) {
      DigitsOfDigits(query);
    }
  }

  /** The loop over the rows shown: one result dict per row, in order. */
  method ReadParticipants(rows: seq<SearchRow>) returns (results: seq<Participant>)
    ensures results == MapSeq(rows, ParticipantOf)
  {
    results := [];
    var i := 0;
    while i < |rows|
      invariant 0 <= i <= |rows|
      invariant results == MapSeq(rows[..i], ParticipantOf)
    {
      results := results + [ParticipantOf(rows[i])];
      i := i + 1;
    }
    assert rows[..|rows|] == rows;
  }

  /**
   * `search_participant_rows`: `first` and `second` are the rows shown for the query and for its
   * digits-only form; with a manager without a driver the answer is [].
   */
  method SearchParticipantRows(pool: BrowserPool.Pool, manager: Option<BrowserPool.Manager>, m: BrowserPool.Manager,
                               startOk: bool, sid: string, now: real, quitOk: bool, query: string,
                               first: seq<SearchRow>, second: seq<SearchRow>) returns (r: Call<seq<Participant>>)
    requires pool.Valid()
    modifies pool
    ensures pool.Valid()
    ensures manager.Some? || !startOk ==> pool.sessions == old(pool.sessions)
    ensures manager.None? && startOk ==>
              pool.sessions == Remove(Put(old(pool.sessions), sid, BrowserPool.Session(BrowserPool.Started(m), now)), sid)
    ensures manager.None? && !startOk ==> r == Raised
    ensures manager.Some? && !manager.value.driver ==> r == Returned([])
    ensures (manager.Some? && manager.value.driver) || (manager.None? && startOk) ==>
              r == Returned(MapSeq(SearchedRows(query, first, second), ParticipantOf))
  {
    var d := UseSession(pool, manager, m, startOk, sid, now);
    if d.None? {
      return Raised;
    }
    var driver := d.value;
    if !driver {
      r := Returned([]);
    } else {
      var normalized := Digits(query);
      var rows := first;
      if rows == [] && normalized != query {
        rows := second;
      }
      var results := ReadParticipants(rows);
      r := Returned(results);
    }
    if manager.None? {
      var _ := pool.CloseSession(sid, quitOk);
    }
  }

  /** One appointment read from a history row of at least seven cells. */
  datatype Appt = Appt(patient: string, therapist: string, schedule: string, duration: string, status: string,
                       plan: string, device: string, id: string)

  /** One (plan, therapist) cycle: the patient of its first appointment and how many appointments it has. */
  datatype Cycle = Cycle(name: string, plan: string, therapist: string, matches: nat)

  datatype History = History(participantId: string, total: nat, appointments: seq<Appt>, cycles: seq<Cycle>,
                             hasPreviousCycles: bool)

  /** Rows read: the first 20. */
  const MaxHistoryRows := 20

  predicate HasSevenCells(cells: seq<string>) { |cells| >= 7 }

  function CellAt(cells: seq<string>, i: nat): string
  {
    if i < |cells| then cells[i] else ""
  }

  /** The appointment of a row: the first seven cells in order, the eighth as id ('' without one). */
  function ApptOf(cells: seq<string>): (r: Appt)
    ensures |cells| >= 7 ==> r.patient == cells[0] && r.therapist == cells[1] && r.plan == cells[5] && r.device == cells[6]
    ensures |cells| <= 7 ==> r.id == ""
  {
    Appt(CellAt(cells, 0), CellAt(cells, 1), CellAt(cells, 2), CellAt(cells, 3), CellAt(cells, 4), CellAt(cells, 5),
         CellAt(cells, 6), CellAt(cells, 7))
  }

  /** The appointments of the rows read: each row of at least seven cells, in order. */
  function ApptsOf(rows: seq<seq<string>>): (r: seq<Appt>)
    ensures |r| <= |rows|
  {
    MapSeq(Filter(rows, HasSevenCells), ApptOf)
  }

  function KeyOf(a: Appt): (string, string) { (a.plan, a.therapist) }

  function SameCycle(k: (string, string)): Appt -> bool
  {
    a => KeyOf(a) == k
  }

  /** The cycle of example `e`: its patient, plan and therapist, and the number of appointments with its key. */
  function CycleIn(appts: seq<Appt>): Appt -> Cycle
  {
    (e: Appt) => Cycle(e.patient, e.plan, e.therapist, CountWhere(appts, SameCycle(KeyOf(e))))
  }

  /**
   * The `Counter` over (plan, therapist) and the first example per key, as the list of cycles in the order
   * the keys first appear.
   */
  function Cycles(appts: seq<Appt>): (r: seq<Cycle>)
    ensures |r| <= |appts|
  {
    MapSeq(DedupBy(appts, KeyOf), CycleIn(appts))
  }

  /** No two cycles share a (plan, therapist), and every cycle counts at least its own first appointment. */
  lemma CyclesDistinct(appts: seq<Appt>)
    ensures forall i, j :: 0 <= i < j < |Cycles(appts)| ==>
              (Cycles(appts)[i].plan, Cycles(appts)[i].therapist) != (Cycles(appts)[j].plan, Cycles(appts)[j].therapist)
    ensures forall i :: 0 <= i < |Cycles(appts)| ==> Cycles(appts)[i].matches >= 1
  {
    var ex := DedupBy(appts, KeyOf);
    var r := Cycles(appts);
    assert forall i :: 0 <= i < |ex| ==> (r[i].plan, r[i].therapist) == KeyOf(ex[i]);
    forall i | 0 <= i < |r| ensures r[i].matches >= 1 {
      var k :| 0 <= k < |appts| && appts[k] == ex[i];
      assert SameCycle(KeyOf(ex[i]))(appts[k]);
    }
  }

  /** Every appointment belongs to one of the cycles. */
  lemma CyclesCoverAll(appts: seq<Appt>, i: nat)
    requires i < |appts|
    ensures exists j :: 0 <= j < |Cycles(appts)| && (Cycles(appts)[j].plan, Cycles(appts)[j].therapist) == KeyOf(appts[i])
  {
    var ex := DedupBy(appts, KeyOf);
    assert KeyOf(appts[i]) in KeysOf(ex, KeyOf);
    var j :| 0 <= j < |ex| && KeysOf(ex, KeyOf)[j] == KeyOf(appts[i]);
    assert (Cycles(appts)[j].plan, Cycles(appts)[j].therapist) == KeyOf(ex[j]);
  }

  /** A cycle's name is the patient of the first appointment of its (plan, therapist). */
  lemma CycleNamedByFirst(appts: seq<Appt>, i: nat)
    requires i < |Cycles(appts)|
    ensures var k := (Cycles(appts)[i].plan, Cycles(appts)[i].therapist);
            FirstTrue(KeyFlags(appts, KeyOf, k)).Some?
            && appts[FirstTrue(KeyFlags(appts, KeyOf, k)).value].patient == Cycles(appts)[i].name
  {
    DedupKeepsFirst(appts, KeyOf, i);
  }

  function Sum(s: seq<nat>): nat
  {
    if s == [] then 0 else Sum(s[..|s| - 1]) + s[|s| - 1]
  }

  lemma {:induction false} SumBump(s: seq<nat>, j: nat)
    requires j < |s|
    ensures Sum(s[j := s[j] + 1]) == Sum(s) + 1
  {
    var t := s[j := s[j] + 1];
    if j < |s| - 1 {
      assert t[..|t| - 1] == s[..|s| - 1][j := s[j] + 1];
      SumBump(s[..|s| - 1], j);
    } else {
      assert t[..|t| - 1] == s[..|s| - 1];
    }
  }

  function MatchesOf(c: Cycle): nat { c.matches }

  /** The index of the example with key `k`, or `|ex|`. */
  method FindCycle(ex: seq<Appt>, k: (string, string)) returns (j: nat)
    ensures j <= |ex|
    ensures j < |ex| ==> KeyOf(ex[j]) == k
    ensures j == |ex| ==> k !in KeysOf(ex, KeyOf)
  {
    j := 0;
    while j < |ex|
      invariant j <= |ex|
      invariant forall i :: 0 <= i < j ==> KeyOf(ex[i]) != k
    {
      if KeyOf(ex[j]) == k {
        return;
      }
      j := j + 1;
    }
  }

  lemma DedupStep(s: seq<Appt>, i: nat)
    requires i < |s|
    ensures var p := DedupBy(s[..i], KeyOf);
            DedupBy(s[..i + 1], KeyOf) == if KeyOf(s[i]) in KeysOf(p, KeyOf) then p else p + [s[i]]
  {
    assert s[..i + 1][..i] == s[..i];
  }

  lemma CountUnseen(s: seq<Appt>, k: (string, string))
    requires k !in KeysOf(DedupBy(s, KeyOf), KeyOf)
    ensures CountWhere(s, SameCycle(k)) == 0
  {
    forall i | 0 <= i < |s| ensures !SameCycle(k)(s[i]) {
      assert KeyOf(s[i]) in KeysOf(DedupBy(s, KeyOf), KeyOf);
    }
  }

  /** Each counter holds the number of appointments of `s` with its example's key. */
  ghost predicate CountsOk(s: seq<Appt>, ex: seq<Appt>, counts: seq<nat>)
  {
    |counts| == |ex| && forall j :: 0 <= j < |ex| ==> counts[j] == CountWhere(s, SameCycle(KeyOf(ex[j])))
  }

  lemma CountAppend(s: seq<Appt>, x: Appt, k: (string, string))
    ensures CountWhere(s + [x], SameCycle(k)) == CountWhere(s, SameCycle(k)) + (if KeyOf(x) == k then 1 else 0)
  {
    assert (s + [x])[..|s|] == s;
  }

  lemma CountsAppendSeen(s: seq<Appt>, x: Appt, ex: seq<Appt>, counts: seq<nat>, j: nat)
    requires CountsOk(s, ex, counts) && DistinctBy(ex, KeyOf)
    requires j < |ex| && KeyOf(ex[j]) == KeyOf(x)
    ensures CountsOk(s + [x], ex, counts[j := counts[j] + 1])
  {
    forall k | 0 <= k < |ex| ensures counts[j := counts[j] + 1][k] == CountWhere(s + [x], SameCycle(KeyOf(ex[k]))) {
      CountAppend(s, x, KeyOf(ex[k]));
    }
  }

  lemma CountsAppendNew(s: seq<Appt>, x: Appt, ex: seq<Appt>, counts: seq<nat>)
    requires CountsOk(s, ex, counts)
    requires KeyOf(x) !in KeysOf(ex, KeyOf) && CountWhere(s, SameCycle(KeyOf(x))) == 0
    ensures CountsOk(s + [x], ex + [x], counts + [1])
  {
    CountAppend(s, x, KeyOf(x));
    forall k | 0 <= k < |ex| ensures counts[k] == CountWhere(s + [x], SameCycle(KeyOf(ex[k]))) {
      assert KeysOf(ex, KeyOf)[k] == KeyOf(ex[k]);
      CountAppend(s, x, KeyOf(ex[k]));
    }
  }

  /** After `i` appointments: one example per key seen, in first-seen order, each with its key's count. */
  ghost predicate Tallied(appts: seq<Appt>, i: nat, ex: seq<Appt>, counts: seq<nat>)
    requires i <= |appts|
  {
    ex == DedupBy(appts[..i], KeyOf) && CountsOk(appts[..i], ex, counts) && Sum(counts) == i
  }

  /** Appointment `i` has a key already seen, at example `j`: only that counter moves. */
  lemma TallySeen(appts: seq<Appt>, i: nat, ex: seq<Appt>, counts: seq<nat>, j: nat)
    requires i < |appts| && Tallied(appts, i, ex, counts)
    requires j < |ex| && KeyOf(ex[j]) == KeyOf(appts[i])
    ensures Tallied(appts, i + 1, ex, counts[j := counts[j] + 1])
  {
    TakeSnoc(appts, appts[..i], i, appts[i]);
    DedupStep(appts, i);
    assert KeysOf(ex, KeyOf)[j] == KeyOf(appts[i]);
    SumBump(counts, j);
    CountsAppendSeen(appts[..i], appts[i], ex, counts, j);
  }

  /** Appointment `i` has a new key: it becomes the example of a new counter starting at 1. */
  lemma TallyNew(appts: seq<Appt>, i: nat, ex: seq<Appt>, counts: seq<nat>)
    requires i < |appts| && Tallied(appts, i, ex, counts)
    requires KeyOf(appts[i]) !in KeysOf(ex, KeyOf)
    ensures Tallied(appts, i + 1, ex + [appts[i]], counts + [1])
  {
    TakeSnoc(appts, appts[..i], i, appts[i]);
    DedupStep(appts, i);
    CountUnseen(appts[..i], KeyOf(appts[i]));
    CountsAppendNew(appts[..i], appts[i], ex, counts);
    assert (counts + [1])[..|counts|] == counts;
  }

  /** One turn of the grouping loop: `cycle_counter[key] += 1`, and the example when the key is new. */
  method Tally(appts: seq<Appt>, i: nat, ex: seq<Appt>, counts: seq<nat>) returns (ex': seq<Appt>, counts': seq<nat>)
    requires i < |appts| && Tallied(appts, i, ex, counts)
    ensures Tallied(appts, i + 1, ex', counts')
  {
    var a := appts[i];
    var j := FindCycle(ex, KeyOf(a));
    if j < |ex| {
      TallySeen(appts, i, ex, counts, j);
      ex', counts' := ex, counts[j := counts[j] + 1];
    } else {
      TallyNew(appts, i, ex, counts);
      ex', counts' := ex + [a], counts + [1];
    }
  }

  /** The tallies of the whole list are its cycles. */
  lemma TalliedCycles(appts: seq<Appt>, ex: seq<Appt>, counts: seq<nat>)
    requires Tallied(appts, |appts|, ex, counts)
    ensures seq(|ex|, k requires 0 <= k < |ex| => Cycle(ex[k].patient, ex[k].plan, ex[k].therapist, counts[k])) == Cycles(appts)
  {
    assert appts[..|appts|] == appts;
  }

  /** The grouping loop: every appointment bumps its key's counter or opens a new cycle; the counts add up. */
  method GroupCycles(appts: seq<Appt>) returns (cycles: seq<Cycle>)
    ensures cycles == Cycles(appts)
    ensures Sum(MapSeq(cycles, MatchesOf)) == |appts|
  {
    var ex: seq<Appt> := [];
    var counts: seq<nat> := [];
    var i := 0;
    while i < |appts|
      invariant 0 <= i <= |appts|
      invariant Tallied(appts, i, ex, counts)
    {
      ex, counts := Tally(appts, i, ex, counts);
      i := i + 1;
    }
    TalliedCycles(appts, ex, counts);
    cycles := seq(|ex|, k requires 0 <= k < |ex| => Cycle(ex[k].patient, ex[k].plan, ex[k].therapist, counts[k]));
    assert MapSeq(cycles, MatchesOf) == counts;
  }

  /** The loop over the rows read: rows of fewer than seven cells are skipped. */
  method ReadAppts(read: seq<seq<string>>) returns (appts: seq<Appt>)
    ensures appts == ApptsOf(read)
  {
    appts := [];
    var i := 0;
    while i < |read|
      invariant 0 <= i <= |read|
      invariant appts == ApptsOf(read[..i])
    {
      assert read[..i + 1][..i] == read[..i];
      if |read[i]| >= 7 {
        appts := appts + [ApptOf(read[i])];
      }
      i := i + 1;
    }
    assert read[..|read|] == read;
  }

  /**
   * `get_participant_history`. `searchOk` is whether the search box was found, `rows` the cells of each row
   * (at most the first 20 are read); None stands for the empty dict `{}`.
   */
  method GetParticipantHistory(pool: BrowserPool.Pool, manager: Option<BrowserPool.Manager>, m: BrowserPool.Manager,
                               startOk: bool, sid: string, now: real, quitOk: bool, participantId: string,
                               searchOk: bool, rows: seq<seq<string>>) returns (r: Call<Option<History>>)
    requires pool.Valid()
    modifies pool
    ensures pool.Valid()
    ensures manager.Some? || !startOk ==> pool.sessions == old(pool.sessions)
    ensures manager.None? && startOk ==>
              pool.sessions == Remove(Put(old(pool.sessions), sid, BrowserPool.Session(BrowserPool.Started(m), now)), sid)
    ensures manager.None? && !startOk ==> r == Raised
    ensures manager.Some? && !manager.value.driver ==> r == Returned(None)
    ensures (manager.Some? && manager.value.driver) || (manager.None? && startOk) ==>
              var appts := ApptsOf(Take(rows, MaxHistoryRows));
              r == Returned(if !searchOk || appts == [] then None
                            else Some(History(participantId, |appts|, appts, Cycles(appts), true)))
  {
    var d := UseSession(pool, manager, m, startOk, sid, now);
    if d.None? {
      return Raised;
    }
    var driver := d.value;
    if !driver || !searchOk || rows == [] {
      r := Returned(None);
    } else {
      var appts := ReadAppts(Take(rows, MaxHistoryRows));
      if appts == [] {
        r := Returned(None);
      } else {
        var cycles := GroupCycles(appts);
        r := Returned(Some(History(participantId, |appts|, appts, cycles, |appts| > 0)));
      }
    }
    if manager.None? {
      var _ := pool.CloseSession(sid, quitOk);
    }
  }
}
