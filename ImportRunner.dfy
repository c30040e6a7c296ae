/**
 * The upload automation of dv_admin_automator/backend/importer/runner.py. The browser is an
 * environment: each candidate URL comes with a `PageProbe` saying what the page lookups yield.
 */
module ImportRunner {
  import opened Wrappers
  import opened Strs
  import opened SeqUtil
  import opened Entries
  import opened BrowserPool

  const ImportCpfUrl := "https://webapp.moodar.com.br/moodashboard/corporate/basecpfemployeescompanies/import/"
  const ImportEmailUrl := "https://webapp.moodar.com.br/moodashboard/corporate/baseemailsemployeescompanies/import/"

  /** The import pages tried for an import type: one page for 'cpf' or 'email', both (CPF first) otherwise. */
  function TargetUrls(importType: string): (r: seq<string>)
    ensures 1 <= |r| <= 2
    ensures ImportEmailUrl in r <==> importType != "cpf"
    ensures ImportCpfUrl in r <==> importType != "email"
    ensures |r| == 2 ==> r == [ImportCpfUrl, ImportEmailUrl]
  {
    if importType == "cpf" then [ImportCpfUrl]
    else if importType == "email" then [ImportEmailUrl]
    else [ImportCpfUrl, ImportEmailUrl]
  }

  /**
   * What the page at one URL yields: whether navigating or sending the file raised, whether a file
   * input was found, whether the CSS lookup for a confirm button found one (False: it raised), whether
   * the XPath lookup found one, and the page source (None when reading it raised).
   */
  datatype PageProbe = PageProbe(stepRaises: bool, fileInput: bool, cssConfirm: bool, xpathConfirm: bool, pageSource: Option<string>)

  datatype UrlOutcome = NextUrl | AwaitManual | Uploaded

  /** The page-source heuristic: non-empty text containing 'confirmar' or 'confirm' once lower-cased. */
  predicate ConfirmText(src: Option<string>)
  {
    src.Some? && src.value != [] && (Contains(Lower(src.value), "confirmar") || Contains(Lower(src.value), "confirm"))
  }

  /** One pass of the URL loop. The click-or-await decision sits inside the CSS lookup's `except`. */
  function UrlStep(p: PageProbe, autoConfirm: bool): UrlOutcome
  {
    if p.stepRaises || !p.fileInput then NextUrl
    else if !p.cssConfirm && p.xpathConfirm && !autoConfirm then AwaitManual
    else if ConfirmText(p.pageSource) then AwaitManual
    else Uploaded
  }

  /** Whether the pass clicks a confirm button. */
  predicate Clicks(p: PageProbe, autoConfirm: bool)
  {
    !p.stepRaises && p.fileInput && !p.cssConfirm && p.xpathConfirm && autoConfirm
  }

  /** A button found by the CSS lookup is never clicked and never, by itself, makes the run wait. */
  lemma CssButtonIgnored(p: PageProbe, autoConfirm: bool)
    requires p.cssConfirm && !p.stepRaises && p.fileInput
    ensures !Clicks(p, autoConfirm)
    ensures UrlStep(p, autoConfirm) == if ConfirmText(p.pageSource) then AwaitManual else Uploaded
  {
  }

  /** Without the page heuristic, waiting for manual confirmation needs the CSS lookup to raise and XPath to find a button. */
  lemma AwaitNeedsXPath(p: PageProbe, autoConfirm: bool)
    requires UrlStep(p, autoConfirm) == AwaitManual && !ConfirmText(p.pageSource)
    ensures !p.cssConfirm && p.xpathConfirm && !autoConfirm
  {
  }

  /** The first URL whose pass does not move on decides; NextUrl when all move on. */
  function Outcome(pages: seq<PageProbe>, autoConfirm: bool): UrlOutcome
  {
    if pages == [] then NextUrl
    else if UrlStep(pages[0], autoConfirm) != NextUrl then UrlStep(pages[0], autoConfirm)
    else Outcome(pages[1..], autoConfirm)
  }

  /**
   * What `run_import` returns: a triple, or a bare False when the selenium imports fail. The session id
   * of a triple is `getattr(manager, 'session_id', None)`, which is always None because the browser
   * manager has no such attribute.
   */
  datatype RunResult = BareFalse | Triple(ok: bool, awaiting: bool, sid: Option<string>)

  /** The shapes `run_import` can return: a triple carries no session id and awaits only when ok. */
  predicate AsReturned(r: RunResult)
  {
    r.Triple? ==> r.sid.None? && (r.awaiting ==> r.ok)
  }

  function ResultOf(o: UrlOutcome): (r: RunResult)
    ensures r.Triple? && r.sid.None?
    ensures r.awaiting <==> o == AwaitManual
    ensures r.ok <==> o != NextUrl
  {
    match o
    case NextUrl => Triple(false, false, None)
    case AwaitManual => Triple(true, true, None)
    case Uploaded => Triple(true, false, None)
  }

  predicate Young(e: (string, Session), now: real) { now - e.1.createdAt < 15.0 }

  function YoungAt(now: real): ((string, Session)) -> bool { (e: (string, Session)) => Young(e, now) }

  function OldAt(now: real): ((string, Session)) -> bool { (e: (string, Session)) => !Young(e, now) }

  function KeyNotIn(ks: seq<string>): ((string, Session)) -> bool { (e: (string, Session)) => e.0 !in ks }

  /** The sessions the sweep leaves: those at least 15 seconds old. */
  function KeepOld(t: Table<string, Session>, now: real): Table<string, Session>
  {
    Filter(t, OldAt(now))
  }

  /** `to_close`: the ids of the sessions younger than 15 seconds, in registry order. */
  function YoungKeys(t: Table<string, Session>, now: real): seq<string>
  {
    Keys(Filter(t, YoungAt(now)))
  }

  lemma YoungKeysStep(t: Table<string, Session>, now: real, i: nat)
    requires i < |t|
    ensures YoungKeys(t[..i + 1], now) == YoungKeys(t[..i], now) + if Young(t[i], now) then [t[i].0] else []
  {
    assert t[..i + 1][..i] == t[..i];
    var f := Filter(t[..i], YoungAt(now));
    var g := Filter(t[..i + 1], YoungAt(now));
    assert g == f + if Young(t[i], now) then [t[i]] else [];
  }

  /** Closing the ids of `ks` one after the other. */
  function RemoveAll(t: Table<string, Session>, ks: seq<string>): Table<string, Session>
  {
    if ks == [] then t else Remove(RemoveAll(t, ks[..|ks| - 1]), ks[|ks| - 1])
  }

  /** Closing one more id of a prefix. */
  lemma RemoveAllStep(t: Table<string, Session>, ks: seq<string>, j: nat)
    requires j < |ks|
    ensures RemoveAll(t, ks[..j + 1]) == Remove(RemoveAll(t, ks[..j]), ks[j])
  {
    assert ks[..j + 1][..j] == ks[..j];
  }

  lemma {:induction false} RemoveAllIsFilter(t: Table<string, Session>, ks: seq<string>)
    ensures RemoveAll(t, ks) == Filter(t, KeyNotIn(ks))
  {
    if ks == [] {
      FilterExt(t, KeyNotIn(ks), (e: (string, Session)) => true);
      FilterAll(t, (e: (string, Session)) => true);
    } else {
      var ks' := ks[..|ks| - 1];
      var k := ks[|ks| - 1];
      RemoveAllIsFilter(t, ks');
      RemoveIsFilter(RemoveAll(t, ks'), k);
      var both := (e: (string, Session)) => e.0 !in ks' && e.0 != k;
      FilterFilter(t, KeyNotIn(ks'), KeyIsNot(k), both);
      assert forall x: string :: x in ks <==> x in ks' || x == k by {
        assert ks == ks' + [k];
      }
      FilterExt(t, both, KeyNotIn(ks));
    }
  }

  /** Closing every young id leaves exactly the old sessions, in their order. */
  lemma SweepLeavesOld(t: Table<string, Session>, now: real)
    requires DistinctKeys(t)
    ensures RemoveAll(t, YoungKeys(t, now)) == KeepOld(t, now)
  {
    var ys := YoungKeys(t, now);
    var young := Filter(t, YoungAt(now));
    RemoveAllIsFilter(t, ys);
    forall i | 0 <= i < |t| ensures KeyNotIn(ys)(t[i]) == OldAt(now)(t[i]) {
      if Young(t[i], now) {
        assert t[i] in young;
        var j :| 0 <= j < |young| && young[j] == t[i];
        assert Keys(young)[j] == t[i].0;
      }
      if t[i].0 in ys {
        var j :| 0 <= j < |ys| && ys[j] == t[i].0;
        assert young[j] in t;
        var m :| 0 <= m < |t| && t[m] == young[j];
        assert m == i;
      }
    }
    FilterExt(t, KeyNotIn(ys), OldAt(now));
  }

  /** The finally-block sweep: collect the young ids, then close each of them. */
  method SweepYoung(pool: Pool, now: real)
    requires pool.Valid()
    modifies pool
    ensures pool.Valid()
    ensures pool.sessions == KeepOld(old(pool.sessions), now)
  {
    var items := pool.sessions;
    var toClose: seq<string> := [];
    var i := 0;
    while i < |items|
      invariant 0 <= i <= |items|
      invariant toClose == YoungKeys(items[..i], now)
      invariant pool.sessions == items
    {
      YoungKeysStep(items, now, i);
      if now - items[i].1.createdAt < 15.0 {
        toClose := toClose + [items[i].0];
      }
      i := i + 1;
    }
    assert items[..|items|] == items;
    var j := 0;
    while j < |toClose|
      invariant 0 <= j <= |toClose|
      invariant pool.Valid()
      invariant pool.sessions == RemoveAll(items, toClose[..j])
    {
      RemoveAllStep(items, toClose, j);
      var _ := pool.CloseSession(toClose[j], true);
      j := j + 1;
    }
    assert toClose[..j] == toClose;
    SweepLeavesOld(items, now);
  }

  /**
   * `run_import`. The session is the pool session `browserSessionId` when the pool knows it, otherwise
   * a session created here (`startOk` is whether its browser started). `driverStartOk` is whether
   * starting a reused manager that has no driver succeeds, `seleniumOk` whether the selenium imports
   * succeed, and `pages` what each target URL yields. A locally created session triggers the sweep of
   * every session younger than 15 seconds at time `sweepNow`.
   */
  method RunImport(pool: Pool, browserSessionId: Option<string>, importType: string, autoConfirm: bool,
                   newManager: Manager, startOk: bool, newSid: string, createdAt: real,
                   driverStartOk: bool, seleniumOk: bool, pages: seq<PageProbe>, sweepNow: real)
    returns (r: RunResult)
    requires pool.Valid()
    requires |pages| == |TargetUrls(importType)|
    modifies pool
    ensures pool.Valid()
    ensures r.Triple? ==> r.sid.None?
    ensures r.Triple? && r.awaiting ==> r.ok
    ensures r == BareFalse ==> !seleniumOk
    ensures ReusedSession(old(pool.sessions), browserSessionId) ==> pool.sessions == old(pool.sessions)
    ensures ReusedSession(old(pool.sessions), browserSessionId) && seleniumOk
            && (ManagerOf(old(pool.sessions), browserSessionId.value).value.driver || driverStartOk)
            ==> r == ResultOf(Outcome(pages, autoConfirm))
    ensures !ReusedSession(old(pool.sessions), browserSessionId) && !startOk
            ==> r == Triple(false, false, None) && pool.sessions == old(pool.sessions)
    ensures !ReusedSession(old(pool.sessions), browserSessionId) && startOk ==>
            pool.sessions == KeepOld(Put(old(pool.sessions), newSid, Session(Started(newManager), createdAt)), sweepNow)
    ensures !ReusedSession(old(pool.sessions), browserSessionId) && startOk ==>
            r == if seleniumOk then ResultOf(Outcome(pages, autoConfirm)) else BareFalse
  {
    var manager: Option<Manager> := None;
    if browserSessionId.Some? && browserSessionId.value != [] {
      manager := pool.GetManager(browserSessionId.value);
    }
    var createdLocal := false;
    if manager.None? {
      var created := pool.CreateSession(newManager, startOk, newSid, createdAt);
      if created.None? {
        return Triple(false, false, None);
      }
      manager := pool.GetManager(newSid);
      createdLocal := true;
    }
    if !manager.value.driver && !driverStartOk {
      r := Triple(false, false, None);
    } else if !seleniumOk {
      r := BareFalse;
    } else {
      var outcome := ScanPages(pages, autoConfirm);
      r := ResultOf(outcome);
    }
    if createdLocal {
      SweepYoung(pool, sweepNow);
    }
  }

  /** The loop over the target URLs: the first page that decides, else `NextUrl` once all were tried. */
  method ScanPages(pages: seq<PageProbe>, autoConfirm: bool) returns (outcome: UrlOutcome)
    ensures outcome == Outcome(pages, autoConfirm)
  {
    var i := 0;
    outcome := NextUrl;
    while i < |pages|
      invariant 0 <= i <= |pages|
      invariant outcome == NextUrl ==> Outcome(pages, autoConfirm) == Outcome(pages[i..], autoConfirm)
      invariant outcome != NextUrl ==> outcome == Outcome(pages, autoConfirm)
    {
      assert pages[i..][1..] == pages[i + 1..];
      var step := UrlStep(pages[i], autoConfirm);
      if step != NextUrl {
        outcome := step;
        break;
      }
      i := i + 1;
    }
  }

  /** The caller named a session that the pool knows. */
  predicate ReusedSession(t: Table<string, Session>, browserSessionId: Option<string>)
  {
    browserSessionId.Some? && browserSessionId.value != [] && HasKey(t, browserSessionId.value)
  }

  /**
   * `confirm_import_session`: False without a registered manager that has a driver, when the selenium
   * import fails, when neither lookup finds a button (XPath is tried only when CSS raised) or when the
   * click raises; True after a click.
   */
  method ConfirmImportSession(pool: Pool, sid: string, seleniumOk: bool, cssConfirm: bool, xpathConfirm: bool, clickOk: bool)
    returns (ok: bool)
    ensures ok <==> ManagerOf(pool.sessions, sid).Some? && ManagerOf(pool.sessions, sid).value.driver
                    && seleniumOk && (cssConfirm || xpathConfirm) && clickOk
  {
    var m := pool.GetManager(sid);
    if m.None? || !m.value.driver {
      return false;
    }
    if !seleniumOk {
      return false;
    }
    var found := cssConfirm || xpathConfirm;
    if !found {
      return false;
    }
    ok := clickOk;
  }
}
