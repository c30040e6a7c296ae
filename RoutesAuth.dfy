/**
 * The login routes (ui/web/api/routes_auth.py). `POST /login` opens a browser session and submits a
 * login job; the job records whether the dashboard was reached in the pending record of its own job id;
 * `POST /login/complete` hands the credentials to the HTTP session once that job has succeeded, and
 * `GET /jobs/{job_id}` reports a job's status. The browser's answers are parameters; each handler is
 * one atomic step.
 */
module RoutesAuth {
  import opened Wrappers
  import opened Strs
  import Jobs
  import BrowserPool

  /** `_PENDING_LOGINS[job_id]`; `success` is None until the job has recorded its outcome. */
  datatype PendingLogin = PendingLogin(username: string, password: string, sessionId: Option<string>, success: Option<bool>)

  /** `_SESSION_CREDENTIALS[session_id]`: `login` also records `headless`, `complete_login` does not. */
  datatype SessionCreds = SessionCreds(username: string, password: string, headless: Option<bool>)

  /** Python truthiness of an optional string. */
  predicate Given(s: Option<string>)
  {
    s.Some? && s.value != ""
  }

  /** `{"ok": true, "job_id": ..., "browser_session_id": ...}`. */
  datatype LoginReply = LoginReply(jobId: string, browserSessionId: Option<string>)

  /**
   * `{"ok": true, "browser_session_id": ...}`; `sessionUser` is the `moodar_username` written to the HTTP
   * session, and `loggedInCookie` whether the fallback cookie `moodar_logged_in=1` was set instead.
   */
  datatype CompleteReply = CompleteReply(browserSessionId: Option<string>, sessionUser: Option<string>, loggedInCookie: bool)

  const DashboardPrefix := "https://webapp.moodar.com.br/moodashboard/"

  /** The CSS selectors probed, in order, when the URL does not show the dashboard. */
  const LoggedInSelectors: seq<string> := ["button.logout", "a.logout", "[data-logged-in='true']", "nav"]

  /**
   * The success rule of `_login_job`: the page's URL (None where the script raised or returned a non-string)
   * starts with the dashboard prefix, or some selector probe found elements (`hits[i]` is None where
   * `find_elements` raised).
   */
  predicate LoginSucceeded(url: Option<string>, hits: seq<Option<nat>>)
  {
    (url.Some? && url.value != "" && IsPrefix(DashboardPrefix, url.value))
    || exists i :: 0 <= i < |hits| && hits[i].Some? && hits[i].value > 0
  }

  /** The detection loop: the URL test, then the selectors in order until one finds something. */
  method DetectLogin(url: Option<string>, hits: seq<Option<nat>>) returns (success: bool)
    ensures success <==> LoginSucceeded(url, hits)
  {
    if url.Some? && url.value != "" && IsPrefix(DashboardPrefix, url.value) {
      return true;
    }
    success := false;
    var i := 0;
    while i < |hits|
      invariant 0 <= i <= |hits|
      invariant forall j :: 0 <= j < i ==> !(hits[j].Some? && hits[j].value > 0)
    {
      match hits[i] {
        case None =>
          i := i + 1;
          continue;
        case Some(n) =>
          if n > 0 {
            success := true;
            break;
          }
      }
      i := i + 1;
    }
  }

  /** What the job leaves in `_PENDING_LOGINS`: only the record of its own job id gets the outcome. */
  function Recorded(pending: map<string, PendingLogin>, jid: Option<string>, success: bool): (r: map<string, PendingLogin>)
    ensures r.Keys == pending.Keys
    ensures forall id :: id in pending && Some(id) != jid ==> r[id] == pending[id]
    ensures Given(jid) && jid.value in pending ==> r[jid.value] == pending[jid.value].(success := Some(success))
  {
    if Given(jid) && jid.value in pending then pending[jid.value := pending[jid.value].(success := Some(success))]
    else pending
  }

  /** The answer of `complete_login` for `job_id`, from the pending records and the job table. */
  function CompleteStatus(pending: map<string, PendingLogin>, jobs: map<string, Jobs.Job>, jobId: Option<string>): (r: Option<nat>)
    ensures r.None? <==> Given(jobId) && jobId.value in pending && jobId.value in jobs
                         && jobs[jobId.value].state.Finished? && pending[jobId.value].success == Some(true)
  {
    if !Given(jobId) then Some(400)
    else if jobId.value !in pending then Some(404)
    else if jobId.value !in jobs || !jobs[jobId.value].state.Finished? then Some(400)
    else if pending[jobId.value].success != Some(true) then Some(400)
    else None
  }

  /** A login whose job recorded a failure can never be completed. */
  lemma FailedLoginNeverCompletes(pending: map<string, PendingLogin>, jobs: map<string, Jobs.Job>, id: string)
    requires id != "" && id in pending
    ensures CompleteStatus(Recorded(pending, Some(id), false), jobs, Some(id)) == Some(400)
  {
  }

  /** Before its job has recorded anything, a login cannot be completed, finished job or not. */
  lemma UnrecordedLoginNeverCompletes(pending: map<string, PendingLogin>, jobs: map<string, Jobs.Job>, id: string, p: PendingLogin)
    requires id != "" && p.success.None?
    ensures CompleteStatus(pending[id := p], jobs, Some(id)) == Some(400)
  {
  }

  /** A finished job that recorded success completes, and another job's outcome never changes that. */
  lemma RecordedSuccessCompletes(pending: map<string, PendingLogin>, jobs: map<string, Jobs.Job>, id: string, other: Option<string>, s: bool)
    requires id != "" && id in pending && id in jobs && jobs[id].state.Finished?
    requires other != Some(id)
    ensures CompleteStatus(Recorded(Recorded(pending, Some(id), true), other, s), jobs, Some(id)).None?
  {
  }

  class AuthState {
    const pool: BrowserPool.Pool
    const manager: Jobs.JobManager
    var pending: map<string, PendingLogin>
    var sessionCreds: map<string, SessionCreds>

    constructor(p: BrowserPool.Pool, m: Jobs.JobManager)
      ensures pool == p && manager == m && pending == map[] && sessionCreds == map[]
    {
      pool := p;
      manager := m;
      pending := map[];
      sessionCreds := map[];
    }

    /**
     * `POST /login`. `m`, `startOk` and `sid` are the browser manager, whether it started, and the fresh
     * session id; `jobId` is the id `submit` draws. 400 without username or password.
     */
    method Login(username: Option<string>, password: Option<string>, headless: bool,
                 m: BrowserPool.Manager, startOk: bool, sid: string, jobId: string, now: real) returns (r: Result<LoginReply, nat>)
      requires pool.Valid() && manager.Valid()
      modifies this, pool, manager
      ensures pool.Valid() && manager.Valid()
      ensures !Given(username) || !Given(password) ==>
                r == Err(400) && pending == old(pending) && sessionCreds == old(sessionCreds)
                && pool.sessions == old(pool.sessions) && manager.jobs == old(manager.jobs)
      ensures Given(username) && Given(password) ==>
                r == Ok(LoginReply(jobId, if startOk && sid != "" then Some(sid) else None))
      ensures Given(username) && Given(password) ==>
                pending == old(pending)[jobId := PendingLogin(username.value, password.value, if startOk then Some(sid) else None, None)]
      ensures Given(username) && Given(password) ==>
                sessionCreds == (if startOk && sid != "" then old(sessionCreds)[sid := SessionCreds(username.value, password.value, Some(headless))]
                                 else old(sessionCreds))
      ensures Given(username) && Given(password) ==> manager.jobs == old(manager.jobs)[jobId := Jobs.Job(Jobs.Pending, now, false)]
      ensures Given(username) && Given(password) && startOk ==> BrowserPool.ManagerOf(pool.sessions, sid) == Some(BrowserPool.Started(m))
      ensures !startOk ==> pool.sessions == old(pool.sessions)
    {
      if !Given(username) || !Given(password) {
        return Err(400);
      }
      ghost var jobs0, pending0, creds0 := manager.jobs, pending, sessionCreds;
      var session := pool.CreateSession(m, startOk, sid, now);
      assert manager.jobs == jobs0 && pending == pending0 && sessionCreds == creds0;
      assert session == (if startOk then Some(sid) else None);
      ghost var sessions1 := pool.sessions;
      if Given(session) {
        sessionCreds := sessionCreds[session.value := SessionCreds(username.value, password.value, Some(headless))];
      }
      var id := manager.Submit(jobId, now);
      assert pool.sessions == sessions1;
      pending := pending[id := PendingLogin(username.value, password.value, session, None)];
      r := Ok(LoginReply(id, if Given(session) then session else None));
    }

    /**
     * The end of `_login_job` on worker thread `worker`: when the browser steps before the detection
     * ran (`driverOk`), the outcome goes into the pending record of the job that thread is running.
     */
    method LoginJob(worker: nat, driverOk: bool, url: Option<string>, hits: seq<Option<nat>>)
      requires manager.Valid()
      modifies this
      ensures sessionCreds == old(sessionCreds)
      ensures !driverOk ==> pending == old(pending)
      ensures driverOk ==> forall id :: id in manager.jobs && manager.jobs[id].state == Jobs.Running(worker) ==>
                pending == Recorded(old(pending), Some(id), LoginSucceeded(url, hits))
    {
      if !driverOk {
        return;
      }
      var success := DetectLogin(url, hits);
      var jid := manager.GetCurrentJobId(worker);
      pending := Recorded(pending, jid, success);
    }

    /** `GET /jobs/{job_id}`: 404 for a job the manager does not know, else the job's status. */
    method JobStatus(jobId: string) returns (r: Result<Jobs.Status, nat>)
      ensures r.Err? <==> jobId !in manager.jobs
      ensures r.Err? ==> r.error == 404
      ensures r.Ok? ==> r.value == Jobs.Snapshot(manager.jobs[jobId])
                        && r.value.awaitingConfirmation == manager.jobs[jobId].awaiting
                        && !r.value.cancelled
    {
      var st := manager.Status(jobId);
      if st.None? {
        return Err(404);
      }
      r := Ok(st.value);
    }

    /**
     * `POST /login/complete`. `sessionWritable` is whether `request.session` accepts writes (the session
     * middleware is installed); without it the fallback cookie is set.
     */
    method CompleteLogin(jobId: Option<string>, sessionWritable: bool) returns (r: Result<CompleteReply, nat>)
      modifies this
      ensures CompleteStatus(old(pending), manager.jobs, jobId).Some? ==>
                r == Err(CompleteStatus(old(pending), manager.jobs, jobId).value)
                && pending == old(pending) && sessionCreds == old(sessionCreds)
      ensures CompleteStatus(old(pending), manager.jobs, jobId).None? ==>
                var p := old(pending)[jobId.value];
                r == Ok(CompleteReply(if Given(p.sessionId) then p.sessionId else None,
                                      if sessionWritable then Some(p.username) else None, !sessionWritable))
                && pending == old(pending) - {jobId.value}
                && sessionCreds == (if Given(p.sessionId) then old(sessionCreds)[p.sessionId.value := SessionCreds(p.username, p.password, None)]
                                    else old(sessionCreds))
    {
      if !Given(jobId) {
        return Err(400);
      }
      if jobId.value !in pending {
        return Err(404);
      }
      var p := pending[jobId.value];
      var st := manager.Status(jobId.value);
      if st.None? || !st.value.done {
        return Err(400);
      }
      if p.success != Some(true) {
        return Err(400);
      }
      if Given(p.sessionId) {
        sessionCreds := sessionCreds[p.sessionId.value := SessionCreds(p.username, p.password, None)];
      }
      pending := pending - {jobId.value};
      r := Ok(CompleteReply(if Given(p.sessionId) then p.sessionId else None,
                            if sessionWritable then Some(p.username) else None, !sessionWritable));
    }
  }
}
