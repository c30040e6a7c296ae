/**
 * The appointment routes (ui/web/api/routes_appointments.py): which browser session the scheduler and the
 * history search run in, and the error answers of both handlers. The scheduler and the searches themselves
 * (backend/appointments.py, driven through Selenium) are parameters: their answers are inputs here.
 */
module RoutesAppointments {
  import opened Wrappers
  import opened Strs
  import opened SeqUtil
  import opened Entries
  import Jobs
  import BrowserPool
  import RoutesAuth

  type Sessions = Table<string, BrowserPool.Session>

  /** A URL of the dashboard, a participant page or an import page. */
  predicate AppUrl(u: string)
  {
    u != "" && (Contains(u, "/moodashboard") || Contains(u, "/participante") || Contains(u, "/import/"))
  }

  /** The session's manager has a driver (`if not drv: continue` skips the others). */
  predicate HasDriver(e: (string, BrowserPool.Session))
  {
    e.1.manager.driver
  }

  /** A session with a driver whose current URL is one of the application's pages. */
  predicate OnAppPage(e: (string, BrowserPool.Session))
  {
    HasDriver(e) && e.1.manager.url.Some? && AppUrl(e.1.manager.url.value)
  }

  /**
   * The fallback choice of both handlers, as an index into the registry: the first session on an
   * application page, else the first session with a driver, else none.
   */
  function Choice(t: Sessions): (r: Option<nat>)
    ensures r.Some? ==> r.value < |t| && HasDriver(t[r.value])
  {
    match FirstTrue(MapSeq(t, OnAppPage))
    case Some(i) => Some(i)
    case None => FirstTrue(MapSeq(t, HasDriver))
  }

  /**
   * The selection loop: a driver session is remembered when nothing is yet, and one on an application page
   * replaces it and ends the scan.
   */
  method ChooseSession(t: Sessions) returns (r: Option<nat>)
    ensures r == Choice(t)
  {
    ghost var app := MapSeq(t, OnAppPage);
    ghost var drv := MapSeq(t, HasDriver);
    var chosen: Option<nat> := None;
    var i := 0;
    while i < |t|
      invariant 0 <= i <= |t|
      invariant forall j :: 0 <= j < i ==> !app[j]
      invariant chosen == FirstTrue(drv[..i])
    {
      FirstTrueStep(drv, i);
      var m := t[i].1.manager;
      if !m.driver {
        i := i + 1;
        continue;
      }
      if m.url.Some? && AppUrl(m.url.value) {
        FirstTrueAt(app, i);
        return Some(i);
      }
      if chosen.None? {
        chosen := Some(i);
      }
      i := i + 1;
    }
    FirstTrueNone(app);
    assert drv[..|t|] == drv;
    r := chosen;
  }

  /** The choice prefers an application page; without one it takes the first driver session. */
  lemma ChoicePrefersAppPage(t: Sessions)
    ensures (exists j :: 0 <= j < |t| && OnAppPage(t[j])) ==>
              Choice(t).Some? && OnAppPage(t[Choice(t).value])
              && forall j :: 0 <= j < Choice(t).value ==> !OnAppPage(t[j])
    ensures (forall j :: 0 <= j < |t| ==> !OnAppPage(t[j])) ==>
              Choice(t) == FirstTrue(MapSeq(t, HasDriver))
    ensures Choice(t).None? <==> forall j :: 0 <= j < |t| ==> !HasDriver(t[j])
  {
    FirstTrueExists(t, OnAppPage);
    FirstTrueExists(t, HasDriver);
    match FirstTrue(MapSeq(t, OnAppPage)) {
      case Some(i) => FirstTrueMap(t, OnAppPage, i);
      case None =>
    }
  }

  /** The scan of the history handler for an explicit id: the first session whose id is `sid`. */
  method FindById(t: Sessions, sid: string) returns (m: Option<BrowserPool.Manager>)
    ensures m == BrowserPool.ManagerOf(t, sid)
  {
    var i := 0;
    while i < |t|
      invariant 0 <= i <= |t|
      invariant BrowserPool.ManagerOf(t[i..], sid) == BrowserPool.ManagerOf(t, sid)
    {
      assert t[i..][0] == t[i] && t[i..][1..] == t[i + 1..];
      if t[i].0 == sid {
        return Some(t[i].1.manager);
      }
      i := i + 1;
    }
    return None;
  }

  /** The answer of `POST /api/appointments/schedule`. */
  datatype ScheduleAnswer =
    | NoActiveSession                     // 400 'no_active_browser_session', the scheduler is not called
    | Scheduled(manager: BrowserPool.Manager)   // `schedule_cycle_appointments` ran with this manager

  /** The manager the scheduler gets: the requested session when the pool knows it, else the fallback choice. */
  function ScheduleManager(t: Sessions, requested: Option<string>): (r: Option<BrowserPool.Manager>)
  {
    if RoutesAuth.Given(requested) && BrowserPool.ManagerOf(t, requested.value).Some? then BrowserPool.ManagerOf(t, requested.value)
    else match Choice(t)
      case None => None
      case Some(i) => Some(t[i].1.manager)
  }

  /** `api_appointments_schedule`, up to the call into the scheduler. */
  method ApiSchedule(pool: BrowserPool.Pool, requested: Option<string>) returns (r: ScheduleAnswer)
    ensures ScheduleManager(pool.sessions, requested).None? <==> r == NoActiveSession
    ensures r.Scheduled? ==> Some(r.manager) == ScheduleManager(pool.sessions, requested)
  {
    var mgr: Option<BrowserPool.Manager> := None;
    if RoutesAuth.Given(requested) {
      mgr := pool.GetManager(requested.value);
    }
    if mgr.None? {
      var c := ChooseSession(pool.sessions);
      if c.Some? {
        mgr := Some(pool.sessions[c.value].1.manager);
      }
    }
    if mgr.None? {
      return NoActiveSession;
    }
    r := Scheduled(mgr.value);
  }

  /** An explicitly requested session that the pool knows is always the one used, whatever else is open. */
  lemma RequestedSessionWins(t: Sessions, sid: string, m: BrowserPool.Manager)
    requires sid != "" && BrowserPool.ManagerOf(t, sid) == Some(m)
    ensures ScheduleManager(t, Some(sid)) == Some(m)
  {
  }

  /** Scheduling refuses only when no session of the pool has a driver and none was requested that it knows. */
  lemma ScheduleRefusesOnlyWithoutDriver(t: Sessions, requested: Option<string>)
    ensures ScheduleManager(t, requested).None? <==>
              !(RoutesAuth.Given(requested) && HasKey(t, requested.value))
              && forall j :: 0 <= j < |t| ==> !HasDriver(t[j])
  {
    ChoicePrefersAppPage(t);
  }

  /** The answer of `GET /api/appointments/history`. */
  datatype HistoryAnswer =
    | LoginScheduled(sid: string, jobId: string)        // ok, 'scheduled_login_for_missing_session'
    | LoginFailed(requested: string)                      // 500: recreating the session raised
    | UnknownSession(requested: string)                   // 404 'no_active_browser_session'
    | NoHistory                                           // 404 'no_history'
    | History(manager: Option<BrowserPool.Manager>)       // `get_participant_history` ran with this manager
    | ParticipantRequired                                 // 400 'participant required'
    | Participants(manager: Option<BrowserPool.Manager>)  // `search_participant_rows` ran with this manager

  function Code(a: HistoryAnswer): nat
  {
    match a
    case LoginScheduled(_, _) => 200
    case LoginFailed(_) => 500
    case UnknownSession(_) => 404
    case NoHistory => 404
    case History(_) => 200
    case ParticipantRequired => 400
    case Participants(_) => 200
  }

  /**
   * The session the history handler resolves: an explicit id resolves only to itself (None when unknown),
   * no id resolves to the fallback choice; the second component is the id the handler then holds.
   */
  function HistorySession(t: Sessions, requested: Option<string>): (r: (Option<string>, Option<BrowserPool.Manager>))
    ensures RoutesAuth.Given(requested) ==> r == (requested, BrowserPool.ManagerOf(t, requested.value))
  {
    if RoutesAuth.Given(requested) then (requested, BrowserPool.ManagerOf(t, requested.value))
    else match Choice(t)
      case None => (requested, None)
      case Some(i) => (Some(t[i].0), Some(t[i].1.manager))
  }

  /**
   * What the history handler answers once the session is resolved to (`sid`, `mgr`), when it does not try
   * to recreate a session: `historyEmpty` is whether `get_participant_history` returned nothing.
   */
  function HistoryQuery(mgr: Option<BrowserPool.Manager>, participant: Option<string>, participantId: Option<string>,
                        historyEmpty: bool): (r: HistoryAnswer)
    ensures RoutesAuth.Given(participantId) ==> r == (if historyEmpty then NoHistory else History(mgr))
    ensures !RoutesAuth.Given(participantId) ==> r == (if RoutesAuth.Given(participant) then Participants(mgr) else ParticipantRequired)
  {
    if RoutesAuth.Given(participantId) then (if historyEmpty then NoHistory else History(mgr))
    else if !RoutesAuth.Given(participant) then ParticipantRequired
    else Participants(mgr)
  }

  /**
   * `api_appointments_history`. When the requested session is unknown but `_SESSION_CREDENTIALS` has its
   * credentials, a new session is created (`m`, `startOk`, `newSid`) and a login job submitted under
   * `jobId`; `historyEmpty` is whether the history came back empty.
   */
  method ApiHistory(auth: RoutesAuth.AuthState, participant: Option<string>, participantId: Option<string>,
                 requested: Option<string>, m: BrowserPool.Manager, startOk: bool, newSid: string, jobId: string,
                 now: real, historyEmpty: bool) returns (r: HistoryAnswer)
    requires auth.pool.Valid() && auth.manager.Valid()
    modifies auth.pool, auth.manager
    ensures auth.pool.Valid() && auth.manager.Valid()
    ensures var (sid, mgr) := HistorySession(old(auth.pool.sessions), requested);
            if RoutesAuth.Given(sid) && mgr.None? then
              if sid.value in auth.sessionCreds then
                (startOk ==> r == LoginScheduled(newSid, jobId)
                             && auth.pool.sessions == Put(old(auth.pool.sessions), newSid, BrowserPool.Session(BrowserPool.Started(m), now))
                             && auth.manager.jobs == old(auth.manager.jobs)[jobId := Jobs.Job(Jobs.Pending, now, false)])
                && (!startOk ==> r == LoginFailed(sid.value) && auth.pool.sessions == old(auth.pool.sessions) && unchanged(auth.manager))
              else r == UnknownSession(sid.value) && auth.pool.sessions == old(auth.pool.sessions) && unchanged(auth.manager)
            else r == HistoryQuery(mgr, participant, participantId, historyEmpty)
                 && auth.pool.sessions == old(auth.pool.sessions) && unchanged(auth.manager)
  {
    var pool := auth.pool;
    var sid := requested;
    var mgr: Option<BrowserPool.Manager> := None;
    if RoutesAuth.Given(sid) {
      mgr := pool.GetManager(sid.value);
      if mgr.None? {
        mgr := FindById(pool.sessions, sid.value);
      }
    }
    if !RoutesAuth.Given(sid) && mgr.None? {
      var c := ChooseSession(pool.sessions);
      if c.Some? {
        sid, mgr := Some(pool.sessions[c.value].0), Some(pool.sessions[c.value].1.manager);
      }
    }
    if RoutesAuth.Given(sid) && mgr.None? {
      if sid.value in auth.sessionCreds {
        var creds := auth.sessionCreds[sid.value];
        var created := pool.CreateSession(m, startOk, newSid, now);
        if created.None? {
          return LoginFailed(sid.value);
        }
        var id := auth.manager.Submit(jobId, now);
        return LoginScheduled(created.value, id);
      }
      return UnknownSession(sid.value);
    }
    r := HistoryQuery(mgr, participant, participantId, historyEmpty);
  }

  /** With no id and no session with a driver, the search runs without a manager (the backend opens its own). */
  lemma NoSessionSearchesWithoutManager(t: Sessions, participant: string)
    requires participant != "" && forall j :: 0 <= j < |t| ==> !HasDriver(t[j])
    ensures HistoryQuery(HistorySession(t, None).1, Some(participant), None, false) == Participants(None)
  {
    ChoicePrefersAppPage(t);
  }
}
