/**
 * The import HTTP routes (dv_admin_automator/ui/web/api/routes_import.py): start an import, report its
 * status (falling back on an awaiting-confirmation marker when the job table does not know the id),
 * confirm or cancel an import that waits for the operator, and store uploads under a fresh name.
 *
 * Each handler is one atomic step over the upload directory (a map from path to contents), the
 * per-job log lines, the import service, the job table and the browser pool. What `os.listdir`
 * returns is the parameter `listing`, tied to the files of the upload directory by `IsListing`; the
 * fresh uuid, the internal job id and the clock are parameters too.
 */
module ImportRoutes {
  import opened Wrappers
  import opened Strs
  import opened SeqUtil
  import opened Entries
  import opened Files
  import BrowserPool
  import Jobs
  import ImportService
  import ImportRunner
  import LegacyAdapter

  const MarkerSuffix: string := ".awaiting_confirm"

  /** `listing` is what `os.listdir(dir)` returns: exactly the names of the files directly under `dir`. */
  ghost predicate IsListing(fs: Fs, dir: string, listing: seq<string>)
  {
    (forall i :: 0 <= i < |listing| ==> '/' !in listing[i] && Join(dir, listing[i]) in fs)
    && (forall n :: '/' !in n && Join(dir, n) in fs ==> n in listing)
  }

  /** `_JOB_LOGS.get(job_id, [])`. */
  function LogsOf(logs: map<string, seq<string>>, jid: string): seq<string>
  {
    if jid in logs then logs[jid] else []
  }

  /** `service.get_internal_job_id(job_id)` when it is truthy, else the public id itself. */
  function LookupId(p2i: map<string, string>, jobId: string): (r: string)
    ensures jobId in p2i && p2i[jobId] != "" ==> r == p2i[jobId]
    ensures !(jobId in p2i && p2i[jobId] != "") ==> r == jobId
  {
    if jobId in p2i && p2i[jobId] != "" then p2i[jobId] else jobId
  }

  /** The job table after `set_awaiting_confirmation(internal, False)`, run only for a truthy internal id. */
  function ClearAwaiting(jobs: map<string, Jobs.Job>, p2i: map<string, string>, jobId: string): (r: map<string, Jobs.Job>)
    ensures r.Keys == jobs.Keys
    ensures forall id :: id in jobs && !(jobId in p2i && p2i[jobId] == id && id != "") ==> r[id] == jobs[id]
    ensures jobId in p2i && p2i[jobId] in jobs && p2i[jobId] != "" ==> !r[p2i[jobId]].awaiting
  {
    if jobId in p2i && p2i[jobId] != "" && p2i[jobId] in jobs
    then jobs[p2i[jobId] := jobs[p2i[jobId]].(awaiting := false)]
    else jobs
  }

  // ---------------------------------------------------------------------------------------------
  // Strategy 1: a marker file whose name carries the sanitized job id

  /** A directory entry is a marker of the job whose sanitized id is `safe`. */
  predicate MarkerNameOf(name: string, safe: string)
  {
    IsSuffix(MarkerSuffix, name) && Contains(name, safe)
  }

  function MarkerNameFlags(listing: seq<string>, safe: string): (r: seq<bool>)
    ensures |r| == |listing| && forall i :: 0 <= i < |listing| ==> r[i] == MarkerNameOf(listing[i], safe)
  {
    MapSeq(listing, n => MarkerNameOf(n, safe))
  }

  /** The path of the first listed marker of the job, if any. */
  function MarkerByName(dir: string, listing: seq<string>, safe: string): (r: Option<string>)
    ensures r.None? <==> forall i :: 0 <= i < |listing| ==> !MarkerNameOf(listing[i], safe)
  {
    match FirstTrue(MarkerNameFlags(listing, safe))
    case None => None
    case Some(k) => Some(Join(dir, listing[k]))
  }

  /** The directory scan with its early `break`, as status, confirm and cancel each run it. */
  method FindMarkerByName(dir: string, listing: seq<string>, safe: string) returns (cand: Option<string>)
    ensures cand == MarkerByName(dir, listing, safe)
    ensures cand.Some? ==> exists i :: 0 <= i < |listing| && cand.value == Join(dir, listing[i]) && MarkerNameOf(listing[i], safe)
  {
    var i := 0;
    while i < |listing|
      invariant 0 <= i <= |listing|
      invariant forall j :: 0 <= j < i ==> !MarkerNameOf(listing[j], safe)
    {
      if IsSuffix(MarkerSuffix, listing[i]) && Contains(listing[i], safe) {
        ghost var fl := MarkerNameFlags(listing, safe);
        assert fl[i];
        return Some(Join(dir, listing[i]));
      }
      i := i + 1;
    }
    return None;
  }

  /** A sanitized id holds neither '/' nor '='. */
  lemma SanitizedPlain(jobId: string)
    ensures '/' !in LegacyAdapter.Sanitize(jobId) && '=' !in LegacyAdapter.Sanitize(jobId)
  {
    LegacyAdapter.SanitizeSafe(jobId);
    var safe := LegacyAdapter.Sanitize(jobId);
    forall k | 0 <= k < |safe| ensures safe[k] != '/' && safe[k] != '=' {
      assert LegacyAdapter.SafeChar(safe[k]);
    }
  }

  /** The file name of the marker a full run writes for `jobId`. */
  function RunMarkerName(jobId: string): string
  {
    "import_" + LegacyAdapter.Sanitize(jobId) + ".csv" + MarkerSuffix
  }

  /** The run's marker is a plain file of the upload directory whose name matches the job. */
  lemma RunMarkerNamed(dir: string, jobId: string)
    ensures LegacyAdapter.MarkerPath(LegacyAdapter.TmpPath(dir, jobId)) == Join(dir, RunMarkerName(jobId))
    ensures '/' !in RunMarkerName(jobId)
    ensures MarkerNameOf(RunMarkerName(jobId), LegacyAdapter.Sanitize(jobId))
  {
    RunMarkerPlain(jobId);
    RunMarkerMatches(jobId);
  }

  lemma RunMarkerPlain(jobId: string)
    ensures '/' !in RunMarkerName(jobId)
  {
    SanitizedPlain(jobId);
  }

  lemma RunMarkerMatches(jobId: string)
    ensures MarkerNameOf(RunMarkerName(jobId), LegacyAdapter.Sanitize(jobId))
  {
    var safe := LegacyAdapter.Sanitize(jobId);
    var name := RunMarkerName(jobId);
    assert name == "import_" + safe + (".csv" + MarkerSuffix);
    ContainsMiddle("import_", safe, ".csv" + MarkerSuffix);
    assert name[|name| - |MarkerSuffix|..] == MarkerSuffix;
  }

  /** The marker a full run writes is found by the file-name search. */
  lemma RunMarkerListed(fs: Fs, dir: string, listing: seq<string>, jobId: string)
    requires IsListing(fs, dir, listing)
    requires LegacyAdapter.MarkerPath(LegacyAdapter.TmpPath(dir, jobId)) in fs
    ensures MarkerByName(dir, listing, LegacyAdapter.Sanitize(jobId)).Some?
  {
    RunMarkerNamed(dir, jobId);
    var name := RunMarkerName(jobId);
    assert name in listing;
    var i :| 0 <= i < |listing| && listing[i] == name;
    assert MarkerNameOf(listing[i], LegacyAdapter.Sanitize(jobId));
  }

  // ---------------------------------------------------------------------------------------------
  // Strategy 2: a log line that names the marker

  /** The start of the last occurrence of `pat` in `s`, searching from the end. */
  function LastSubAt(s: string, pat: string): (r: Option<nat>)
    ensures r.Some? ==> SubAt(s, pat, r.value)
    decreases |s|
  {
    if |s| < |pat| then None
    else if SubAt(s, pat, |s| - |pat|) then Some(|s| - |pat|)
    else if s == [] then None
    else LastSubAt(s[..|s| - 1], pat)
  }

  /** Python's `pat in s`, decided by the search from the end. */
  predicate Mentions(s: string, pat: string)
  {
    LastSubAt(s, pat).Some?
  }

  /** Any occurrence makes the search from the end succeed. */
  lemma {:induction false} MentionsAt(s: string, pat: string, k: int)
    requires SubAt(s, pat, k)
    ensures Mentions(s, pat)
    decreases |s|
  {
    if !SubAt(s, pat, |s| - |pat|) {
      assert s != [];
      assert s[..|s| - 1][k..k + |pat|] == s[k..k + |pat|];
      MentionsAt(s[..|s| - 1], pat, k);
    }
  }

  /** Python's `s.split(pat)[-1]` for a pattern that cannot overlap itself, such as `marker=`. */
  function AfterLast(s: string, pat: string): (r: string)
    ensures IsSuffix(r, s)
  {
    match LastSubAt(s, pat)
    case None => s
    case Some(i) => s[i + |pat|..]
  }

  /** When the text after an occurrence of `pat` lacks `pat`'s last character, that occurrence is the last. */
  lemma {:induction false} LastSubAtAfter(p: string, pat: string, t: string)
    requires pat != []
    requires pat[|pat| - 1] !in t
    ensures LastSubAt(p + pat + t, pat) == Some(|p|)
    decreases |t|
  {
    var s := p + pat + t;
    if t == [] {
      assert s == p + pat;
      assert s[|p|..|p| + |pat|] == pat;
    } else {
      assert s[|s| - 1] == t[|t| - 1];
      LastSubAtDrop(s, pat);
      assert s[..|s| - 1] == p + pat + t[..|t| - 1];
      LastSubAtAfter(p, pat, t[..|t| - 1]);
    }
  }

  /** A text that does not end with `pat`'s last character has its last occurrence before its last character. */
  lemma LastSubAtDrop(s: string, pat: string)
    requires pat != [] && |s| >= |pat| && s[|s| - 1] != pat[|pat| - 1]
    ensures LastSubAt(s, pat) == LastSubAt(s[..|s| - 1], pat)
  {
    assert s[|s| - |pat|..|s|][|pat| - 1] == s[|s| - 1];
  }

  predicate IsQuote(c: char) { c == '"' || c == '\'' }

  /** Drops one pair of matching surrounding quotes (a lone quote character becomes empty). */
  function Unquote(part: string): string
  {
    if |part| >= 2 && IsQuote(part[0]) && part[|part| - 1] == part[0] then part[1..|part| - 1]
    else if |part| == 1 && IsQuote(part[0]) then ""
    else part
  }

  /** What `run_import_full` logs once the marker is written. */
  function AwaitLine(marker: string): string
  {
    "upload completed; awaiting manual confirmation (marker=" + marker + ")"
  }

  /** The marker path read from a log line, as written: the text after the last `marker=`, stripped and unquoted. */
  function LogMarkerAsWritten(line: string): string
  {
    Unquote(Strip(AfterLast(line, "marker=")))
  }

  /** The marker path read from a log line, as intended: the closing parenthesis of the log format is dropped too. */
  function LogMarkerIntended(line: string): string
  {
    var part := Strip(AfterLast(line, "marker="));
    var inner := if |part| > 0 && part[|part| - 1] == ')' then Strip(part[..|part| - 1]) else part;
    Unquote(inner)
  }

  /** A marker path the log format can carry back: no '=', no surrounding blanks, no leading quote. */
  predicate LoggableMarker(m: string)
  {
    m != [] && '=' !in m && !IsSpace(m[0]) && !IsSpace(m[|m| - 1]) && !IsQuote(m[0])
  }

  lemma AwaitLineSplit(m: string)
    requires '=' !in m
    ensures AfterLast(AwaitLine(m), "marker=") == m + ")"
  {
    var p := "upload completed; awaiting manual confirmation (";
    assert AwaitLine(m) == p + "marker=" + (m + ")");
    assert '=' !in m + ")";
    LastSubAtAfter(p, "marker=", m + ")");
  }

  /** As written, the path read back from the adapter's own log line keeps the ')' and names no file. */
  lemma LogMarkerKeepsParen(m: string)
    requires LoggableMarker(m)
    ensures LogMarkerAsWritten(AwaitLine(m)) == m + ")"
    ensures LogMarkerAsWritten(AwaitLine(m)) != m
  {
    AwaitLineSplit(m);
    StripId(m + ")");
  }

  /** As intended, the path read back from the log line is the marker itself. */
  lemma LogMarkerRoundTrip(m: string)
    requires LoggableMarker(m)
    ensures LogMarkerIntended(AwaitLine(m)) == m
  {
    AwaitLineSplit(m);
    StripId(m + ")");
    assert (m + ")")[..|m|] == m;
    StripId(m);
  }

  /** The marker of a run in an upload directory that is an absolute path without '=' can be logged. */
  lemma RunMarkerLoggable(dir: string, jobId: string)
    requires dir != [] && dir[0] == '/' && '=' !in dir
    ensures LoggableMarker(LegacyAdapter.MarkerPath(LegacyAdapter.TmpPath(dir, jobId)))
  {
    var m := LegacyAdapter.MarkerPath(LegacyAdapter.TmpPath(dir, jobId));
    RunMarkerNamed(dir, jobId);
    SanitizedPlain(jobId);
    assert m == dir + "/" + RunMarkerName(jobId);
    assert m[0] == '/';
    assert m[|m| - 1] == 'm';
  }

  /**
   * A log line leads to a marker when it mentions both `marker=` and the suffix and the path that `read`
   * takes from it is non-empty and exists.
   */
  predicate LogLineLeads(line: string, fs: Fs, read: string -> string)
  {
    Mentions(line, "marker=") && Mentions(line, MarkerSuffix) && read(line) != "" && read(line) in fs
  }

  /** `LogLineLeads` as a test on lines alone, for a fixed directory state and path reader. */
  function LeadsIn(fs: Fs, read: string -> string): string -> bool
  {
    line => LogLineLeads(line, fs, read)
  }

  function LogFlags(lines: seq<string>, fs: Fs, read: string -> string): (r: seq<bool>)
    ensures |r| == |lines| && forall i :: 0 <= i < |lines| ==> r[i] == LogLineLeads(lines[i], fs, read)
  {
    MapSeq(lines, LeadsIn(fs, read))
  }

  /** The log search with the path reader `read`: the path read from the first line that leads to an existing file. */
  function MarkerByLogWith(lines: seq<string>, fs: Fs, read: string -> string): (r: Option<string>)
    ensures r.None? <==> forall i :: 0 <= i < |lines| ==> !LogLineLeads(lines[i], fs, read)
    ensures r.Some? ==> r.value in fs
  {
    match FirstTrue(LogFlags(lines, fs, read))
    case None => None
    case Some(k) => Some(read(lines[k]))
  }

  /** Strategy 2 as written: paths are read with `LogMarkerAsWritten`. */
  function MarkerByLog(lines: seq<string>, fs: Fs): Option<string>
  {
    MarkerByLogWith(lines, fs, LogMarkerAsWritten)
  }

  /** Strategy 2 as intended: paths are read with `LogMarkerIntended`. */
  function MarkerByLogIntended(lines: seq<string>, fs: Fs): Option<string>
  {
    MarkerByLogWith(lines, fs, LogMarkerIntended)
  }

  /** The adapter's line mentions both `marker=` and, through the marker path, the marker suffix. */
  lemma AwaitLineMentions(m: string)
    requires IsSuffix(MarkerSuffix, m)
    ensures Mentions(AwaitLine(m), "marker=") && Mentions(AwaitLine(m), MarkerSuffix)
  {
    var p := "upload completed; awaiting manual confirmation (marker=";
    var line := AwaitLine(m);
    assert line == p + m + ")";
    assert line[|p| - 7..|p|] == p[|p| - 7..];
    MentionsAt(line, "marker=", |p| - 7);
    var k := |p| + |m| - |MarkerSuffix|;
    assert line[k..k + |MarkerSuffix|] == m[|m| - |MarkerSuffix|..];
    MentionsAt(line, MarkerSuffix, k);
  }

  /** As written, the adapter's line leads to a file only when a file named like the marker plus ')' exists. */
  lemma AwaitLineLeadsAsWritten(m: string, fs: Fs)
    requires LoggableMarker(m) && IsSuffix(MarkerSuffix, m)
    ensures LogLineLeads(AwaitLine(m), fs, LogMarkerAsWritten) <==> m + ")" in fs
  {
    LogMarkerKeepsParen(m);
    AwaitLineMentions(m);
  }

  /** A line that leads nowhere, appended to the log, leaves the log search's answer as it was. */
  lemma LogSearchSkips(lines: seq<string>, fs: Fs, read: string -> string, x: string)
    requires !LogLineLeads(x, fs, read)
    ensures MarkerByLogWith(lines + [x], fs, read) == MarkerByLogWith(lines, fs, read)
  {
    var fl := LogFlags(lines + [x], fs, read);
    var f0 := LogFlags(lines, fs, read);
    assert fl[..|fl| - 1] == f0;
    assert (lines + [x])[..|lines|] == lines;
  }

  /**
   * As written, the log search never gets to the adapter's marker through the adapter's own line: with no
   * file named like the marker plus ')', appending that line changes nothing.
   */
  lemma LogSearchIgnoresAwaitLine(lines: seq<string>, fs: Fs, m: string)
    requires LoggableMarker(m) && IsSuffix(MarkerSuffix, m) && m + ")" !in fs
    ensures MarkerByLog(lines + [AwaitLine(m)], fs) == MarkerByLog(lines, fs)
  {
    AwaitLineLeadsAsWritten(m, fs);
    LogSearchSkips(lines, fs, LogMarkerAsWritten, AwaitLine(m));
  }

  /** As intended, the adapter's line for an existing marker leads to it. */
  lemma AwaitLineLeadsIntended(m: string, fs: Fs)
    requires LoggableMarker(m) && IsSuffix(MarkerSuffix, m) && m in fs
    ensures LogLineLeads(AwaitLine(m), fs, LogMarkerIntended)
  {
    LogMarkerRoundTrip(m);
    AwaitLineMentions(m);
  }

  /** As intended, once the adapter has logged its marker line, and no earlier line leads anywhere, the log search finds that marker. */
  lemma LogFindsMarkerIntended(lines: seq<string>, fs: Fs, m: string)
    requires LoggableMarker(m) && IsSuffix(MarkerSuffix, m) && m in fs
    requires forall i :: 0 <= i < |lines| ==> !LogLineLeads(lines[i], fs, LogMarkerIntended)
    ensures MarkerByLogIntended(lines + [AwaitLine(m)], fs) == Some(m)
  {
    AwaitLineLeadsIntended(m, fs);
    FirstTrueAppend(lines, LeadsIn(fs, LogMarkerIntended), AwaitLine(m));
    assert (lines + [AwaitLine(m)])[|lines|] == AwaitLine(m);
    LogMarkerRoundTrip(m);
  }

  /** The log search as written: the first line whose path, read as `routes_import.py` reads it, exists. */
  method FindMarkerByLog(lines: seq<string>, fs: Fs) returns (cand: Option<string>)
    ensures cand == MarkerByLog(lines, fs)
  {
    var k := FindFirst(lines, LeadsIn(fs, LogMarkerAsWritten));
    if k.None? {
      return None;
    }
    cand := Some(LogMarkerAsWritten(lines[k.value]));
  }

  // ---------------------------------------------------------------------------------------------
  // Strategy 3: a marker whose JSON names an upload of the job

  /** `meta.get('tmp_path') or ''`. */
  function TmpPathOf(c: Content): string
  {
    if c.MarkerJson? && c.tmpPath.Some? then c.tmpPath.value else ""
  }

  /**
   * A readable marker whose `tmp_path` basename is non-empty and contains the sanitized id, the id with
   * ':' replaced by '_' (for a non-empty id), or the id's part before the first '_'.
   */
  predicate MetaNamesJob(c: Content, safe: string, jobId: string)
  {
    c.MarkerJson?
    && var b := Basename(TmpPathOf(c));
    b != "" && (Contains(b, safe) || (jobId != "" && Contains(b, ReplaceChar(jobId, ':', '_'))) || Contains(b, SplitOn(jobId, '_')[0]))
  }

  predicate MetaEntryOf(fs: Fs, dir: string, name: string, safe: string, jobId: string)
  {
    IsSuffix(MarkerSuffix, name) && Join(dir, name) in fs && MetaNamesJob(fs[Join(dir, name)], safe, jobId)
  }

  function MetaFlags(fs: Fs, dir: string, listing: seq<string>, safe: string, jobId: string): (r: seq<bool>)
    ensures |r| == |listing| && forall i :: 0 <= i < |listing| ==> r[i] == MetaEntryOf(fs, dir, listing[i], safe, jobId)
  {
    MapSeq(listing, n => MetaEntryOf(fs, dir, n, safe, jobId))
  }

  function MarkerByMeta(fs: Fs, dir: string, listing: seq<string>, safe: string, jobId: string): (r: Option<string>)
    ensures r.None? <==> forall i :: 0 <= i < |listing| ==> !MetaEntryOf(fs, dir, listing[i], safe, jobId)
    ensures r.Some? ==> r.value in fs && fs[r.value].MarkerJson?
  {
    match FirstTrue(MetaFlags(fs, dir, listing, safe, jobId))
    case None => None
    case Some(k) => Some(Join(dir, listing[k]))
  }

  /** The three strategies in order; the first that finds a marker wins. */
  function FindCandidate(fs: Fs, dir: string, listing: seq<string>, lines: seq<string>, jobId: string): (r: Option<string>)
    ensures MarkerByName(dir, listing, LegacyAdapter.Sanitize(jobId)).Some? ==> r == MarkerByName(dir, listing, LegacyAdapter.Sanitize(jobId))
    ensures MarkerByName(dir, listing, LegacyAdapter.Sanitize(jobId)).None? && MarkerByLog(lines, fs).Some? ==> r == MarkerByLog(lines, fs)
    ensures r.None? <==> MarkerByName(dir, listing, LegacyAdapter.Sanitize(jobId)).None? && MarkerByLog(lines, fs).None?
                         && MarkerByMeta(fs, dir, listing, LegacyAdapter.Sanitize(jobId), jobId).None?
  {
    var safe := LegacyAdapter.Sanitize(jobId);
    var byName := MarkerByName(dir, listing, safe);
    if byName.Some? then byName
    else
      var byLog := MarkerByLog(lines, fs);
      if byLog.Some? then byLog else MarkerByMeta(fs, dir, listing, safe, jobId)
  }

  // ---------------------------------------------------------------------------------------------
  // The browser-session fallback

  /** `(mgr.driver or mgr.start()).current_url`: a manager in `startable` starts; a failing start gives no URL. */
  function Probe(m: BrowserPool.Manager, startable: set<nat>): Option<string>
  {
    if m.driver || m.handle in startable then m.url else None
  }

  predicate OnImportPage(u: Option<string>)
  {
    u.Some? && (Contains(u.value, "/moodashboard") || Contains(u.value, "/import/"))
  }

  function PageFlags(t: Table<string, BrowserPool.Session>, startable: set<nat>): (r: seq<bool>)
    ensures |r| == |t| && forall i :: 0 <= i < |t| ==> r[i] == OnImportPage(Probe(t[i].1.manager, startable))
  {
    MapSeq(t, (e: (string, BrowserPool.Session)) => OnImportPage(Probe(e.1.manager, startable)))
  }

  /** The first non-empty session id, or "" (Python's falsy `chosen`) when there is none. */
  function FirstNamed(t: Table<string, BrowserPool.Session>): (r: string)
    ensures r == "" <==> forall i :: 0 <= i < |t| ==> t[i].0 == ""
    ensures r != "" ==> exists i :: 0 <= i < |t| && t[i].0 == r && forall j :: 0 <= j < i ==> t[j].0 == ""
  {
    if t == [] then ""
    else
      var r := FirstNamed(t[..|t| - 1]);
      if r != "" then r else t[|t| - 1].0
  }

  /** Session `k` is the first whose page is an import page. */
  predicate FirstOnPage(t: Table<string, BrowserPool.Session>, startable: set<nat>, k: int)
  {
    0 <= k < |t| && OnImportPage(Probe(t[k].1.manager, startable))
    && forall j :: 0 <= j < k ==> !OnImportPage(Probe(t[j].1.manager, startable))
  }

  /** The session the fallback settles on: the first on an import page, else the first named one. */
  function FallbackChoice(t: Table<string, BrowserPool.Session>, startable: set<nat>): (r: string)
    ensures forall k :: FirstOnPage(t, startable, k) ==> r == t[k].0
    ensures (forall k :: 0 <= k < |t| ==> !OnImportPage(Probe(t[k].1.manager, startable))) ==> r == FirstNamed(t)
  {
    match FirstTrue(PageFlags(t, startable))
    case Some(k) => t[k].0
    case None => FirstNamed(t)
  }

  /** How many sessions the scan visits: through the first on an import page, or all of them. */
  function ScanEnd(t: Table<string, BrowserPool.Session>, startable: set<nat>): (n: nat)
    ensures n <= |t|
  {
    match FirstTrue(PageFlags(t, startable))
    case Some(k) => k + 1
    case None => |t|
  }

  /** A visited manager without a driver is started when it can be. */
  function StartIfVisited(m: BrowserPool.Manager, visited: bool, startable: set<nat>): BrowserPool.Manager
  {
    if visited && !m.driver && m.handle in startable then BrowserPool.Started(m) else m
  }

  /** The sessions after the scan started the managers of the first `n` that it could start. */
  function StartFirst(t: Table<string, BrowserPool.Session>, n: nat, startable: set<nat>): (r: Table<string, BrowserPool.Session>)
    ensures |r| == |t|
    ensures forall i :: 0 <= i < |t| ==> r[i].0 == t[i].0 && r[i].1.createdAt == t[i].1.createdAt
    ensures forall i :: 0 <= i < |t| ==> r[i].1.manager == StartIfVisited(t[i].1.manager, i < n, startable)
  {
    seq(|t|, i requires 0 <= i < |t| =>
      if i < n && !t[i].1.manager.driver && t[i].1.manager.handle in startable
      then (t[i].0, t[i].1.(manager := BrowserPool.Started(t[i].1.manager)))
      else t[i])
  }

  lemma StartFirstStep(t: Table<string, BrowserPool.Session>, i: nat, startable: set<nat>)
    requires i < |t|
    ensures var m := t[i].1.manager;
            StartFirst(t, i + 1, startable)
            == if !m.driver && m.handle in startable
               then StartFirst(t, i, startable)[i := (t[i].0, t[i].1.(manager := BrowserPool.Started(m)))]
               else StartFirst(t, i, startable)
  {
  }

  /** Starting managers keeps every session id, so the ids stay distinct. */
  lemma StartFirstDistinct(t: Table<string, BrowserPool.Session>, n: nat, startable: set<nat>)
    requires DistinctKeys(t)
    ensures DistinctKeys(StartFirst(t, n, startable))
  {
  }

  /** A scan that reaches a session on an import page stops there and chooses it. */
  lemma ScanStopsAt(t: Table<string, BrowserPool.Session>, startable: set<nat>, i: nat)
    requires FirstOnPage(t, startable, i)
    ensures ScanEnd(t, startable) == i + 1 && FallbackChoice(t, startable) == t[i].0
  {
    FirstTrueAt(PageFlags(t, startable), i);
  }

  /** A scan that finds no import page visits every session and keeps the first named one. */
  lemma ScanRunsThrough(t: Table<string, BrowserPool.Session>, startable: set<nat>)
    requires forall j :: 0 <= j < |t| ==> !OnImportPage(Probe(t[j].1.manager, startable))
    ensures ScanEnd(t, startable) == |t| && FallbackChoice(t, startable) == FirstNamed(t)
  {
    FirstTrueNone(PageFlags(t, startable));
  }

  lemma FirstNamedStep(t: Table<string, BrowserPool.Session>, i: nat)
    requires i < |t|
    ensures FirstNamed(t[..i + 1]) == if FirstNamed(t[..i]) != "" then FirstNamed(t[..i]) else t[i].0
  {
    assert t[..i + 1][..i] == t[..i];
  }

  /** With named sessions only, the fallback finds a session exactly when the pool has one. */
  lemma FallbackFindsAny(t: Table<string, BrowserPool.Session>, startable: set<nat>)
    requires forall i :: 0 <= i < |t| ==> t[i].0 != ""
    ensures FallbackChoice(t, startable) == "" <==> t == []
  {
    if t != [] {
      var fl := PageFlags(t, startable);
      match FirstTrue(fl)
      case Some(k) =>
      case None =>
        assert t[0].0 != "";
    }
  }

  /**
   * The scan over a snapshot of the pool's sessions. A manager without a driver is started; the first
   * session on an import page ends the scan; otherwise the first named session is kept.
   */
  method ChooseFallback(pool: BrowserPool.Pool, startable: set<nat>) returns (chosen: string)
    requires pool.Valid()
    modifies pool
    ensures pool.Valid()
    ensures chosen == FallbackChoice(old(pool.sessions), startable)
    ensures pool.sessions == StartFirst(old(pool.sessions), ScanEnd(old(pool.sessions), startable), startable)
  {
    var t := pool.sessions;
    var sessions;
    chosen, sessions := ScanSessions(t, startable);
    StartFirstDistinct(t, ScanEnd(t, startable), startable);
    pool.sessions := sessions;
  }

  /**
   * The loop of the scan on the sessions' values: the session chosen, and the sessions with every
   * visited manager that had no driver started.
   */
  method ScanSessions(t: Table<string, BrowserPool.Session>, startable: set<nat>)
    returns (chosen: string, sessions: Table<string, BrowserPool.Session>)
    ensures chosen == FallbackChoice(t, startable)
    ensures sessions == StartFirst(t, ScanEnd(t, startable), startable)
  {
    sessions := t;
    chosen := "";
    var i := 0;
    while i < |t|
      invariant 0 <= i <= |t|
      invariant forall j :: 0 <= j < i ==> !OnImportPage(Probe(t[j].1.manager, startable))
      invariant chosen == FirstNamed(t[..i])
      invariant sessions == StartFirst(t, i, startable)
    {
      var sid := t[i].0;
      var url;
      sessions, url := Visit(t, i, startable, sessions);
      if OnImportPage(url) {
        chosen := sid;
        ScanStopsAt(t, startable, i);
        return;
      }
      FirstNamedStep(t, i);
      if chosen == "" {
        chosen := sid;
      }
      i := i + 1;
    }
    assert t[..|t|] == t;
    ScanRunsThrough(t, startable);
  }

  /** One visit of the scan: a manager without a driver is started when it can be, and its page is read. */
  method Visit(t: Table<string, BrowserPool.Session>, i: nat, startable: set<nat>, sessions: Table<string, BrowserPool.Session>)
    returns (sessions': Table<string, BrowserPool.Session>, url: Option<string>)
    requires i < |t| && sessions == StartFirst(t, i, startable)
    ensures sessions' == StartFirst(t, i + 1, startable)
    ensures url == Probe(t[i].1.manager, startable)
  {
    var m := t[i].1.manager;
    StartFirstStep(t, i, startable);
    sessions' := sessions;
    url := None;
    if m.driver {
      url := m.url;
    } else if m.handle in startable {
      sessions' := sessions[i := (t[i].0, t[i].1.(manager := BrowserPool.Started(m)))];
      url := m.url;
    }
  }

  // ---------------------------------------------------------------------------------------------
  // The handlers

  /** A background confirmation the confirm handler schedules. */
  datatype Scheduled = Scheduled(marker: string, sid: string)

  /** The answer of the confirm handler, with the HTTP error codes 404, 500 and 400. */
  function ConfirmAnswer(fs: Fs, dir: string, listing: seq<string>, lines: seq<string>, jobId: string,
                         sessions: Table<string, BrowserPool.Session>, startable: set<nat>): (r: Result<Scheduled, nat>)
    ensures r == Err(404) <==> FindCandidate(fs, dir, listing, lines, jobId).None?
    ensures r.Ok? ==> FindCandidate(fs, dir, listing, lines, jobId) == Some(r.value.marker)
                      && r.value.marker in fs && fs[r.value.marker].MarkerJson? && r.value.sid != ""
    ensures r.Ok? && fs[r.value.marker].sessionId.Some? && fs[r.value.marker].sessionId.value != "" ==> r.value.sid == fs[r.value.marker].sessionId.value
    ensures r.Err? ==> r.error in {400, 404, 500}
  {
    match FindCandidate(fs, dir, listing, lines, jobId)
    case None => Err(404)
    case Some(c) =>
      if c !in fs || !fs[c].MarkerJson? then Err(500)
      else
        var sid := fs[c].sessionId;
        if sid.Some? && sid.value != "" then Ok(Scheduled(c, sid.value))
        else
          var chosen := FallbackChoice(sessions, startable);
          if chosen == "" then Err(400) else Ok(Scheduled(c, chosen))
  }

  /** The pool after the confirm handler: the fallback scan runs only for a marker without a session id. */
  function ConfirmPool(fs: Fs, dir: string, listing: seq<string>, lines: seq<string>, jobId: string,
                       sessions: Table<string, BrowserPool.Session>, startable: set<nat>): Table<string, BrowserPool.Session>
  {
    match FindCandidate(fs, dir, listing, lines, jobId)
    case None => sessions
    case Some(c) =>
      if c !in fs || !fs[c].MarkerJson? || (fs[c].sessionId.Some? && fs[c].sessionId.value != "") then sessions
      else StartFirst(sessions, ScanEnd(sessions, startable), startable)
  }

  /** The cancellation's effect on the directory: the sentinel is written, then the marker removed. */
  function CancelFs(fs: Fs, cand: Option<string>): (r: Fs)
    ensures cand.Some? && cand.value in fs ==> cand.value !in r && LegacyAdapter.SentinelPath(cand.value) in r
    ensures !(cand.Some? && cand.value in fs) ==> r == fs
  {
    if cand.Some? && cand.value in fs
    then fs[LegacyAdapter.SentinelPath(cand.value) := Text("canceled")] - {cand.value}
    else fs
  }

  /** The answer of the status handler for an id the job table does not know: a marker stands for a waiting job. */
  function StatusAnswer(p2i: map<string, string>, jobs: map<string, Jobs.Job>, dir: string, listing: seq<string>, jobId: string)
    : (r: Result<Jobs.Status, nat>)
    ensures r.Err? <==> LookupId(p2i, jobId) !in jobs && MarkerByName(dir, listing, LegacyAdapter.Sanitize(jobId)).None?
    ensures r.Err? ==> r.error == 404
    ensures LookupId(p2i, jobId) in jobs ==> r == Ok(Jobs.Snapshot(jobs[LookupId(p2i, jobId)]))
    ensures LookupId(p2i, jobId) !in jobs && r.Ok? ==> r.value == Jobs.Status(true, false, None, true)
  {
    var lookup := LookupId(p2i, jobId);
    if lookup in jobs then Ok(Jobs.Snapshot(jobs[lookup]))
    else if MarkerByName(dir, listing, LegacyAdapter.Sanitize(jobId)).Some? then Ok(Jobs.Status(true, false, None, true))
    else Err(404)
  }

  /** `"import:" + uuid4().hex[:10]`. */
  function PublicJobId(uuidHex: string): string
  {
    "import:" + Take(uuidHex, 10)
  }

  /** `<uuid hex>_<basename of the original filename, or 'upload'>`. */
  function UploadName(uuidHex: string, filename: Option<string>): string
  {
    uuidHex + "_" + Basename(if filename.Some? && filename.value != "" then filename.value else "upload")
  }

  /** What the copy loop writes: the chunks read before the first empty one. */
  function ChunksRead(chunks: seq<string>): string
  {
    if chunks == [] || chunks[0] == "" then "" else chunks[0] + ChunksRead(chunks[1..])
  }

  /** The copy loop of `_save_upload_to_disk`: read chunks and append them until an empty read. */
  method ReadChunks(chunks: seq<string>) returns (data: string)
    ensures data == ChunksRead(chunks)
  {
    data := "";
    var i := 0;
    while i < |chunks| && chunks[i] != ""
      invariant 0 <= i <= |chunks|
      invariant ChunksRead(chunks) == data + ChunksRead(chunks[i..])
    {
      assert chunks[i..][1..] == chunks[i + 1..];
      data := data + chunks[i];
      i := i + 1;
    }
    assert ChunksRead(chunks[i..]) == "";
    assert data + "" == data;
  }

  class Routes {
    const uploadDir: string
    const service: ImportService.ImportService
    const pool: BrowserPool.Pool
    var fs: Fs
    var logs: map<string, seq<string>>

    constructor(dir: string, s: ImportService.ImportService, p: BrowserPool.Pool, files: Fs)
      ensures uploadDir == dir && service == s && pool == p && fs == files && logs == map[]
    {
      uploadDir := dir;
      service := s;
      pool := p;
      fs := files;
      logs := map[];
    }

    /** `_append_log`, and the `log_fn` handed to the import: one line appended to the job's log. */
    method AppendLog(jid: string, line: string)
      modifies this
      ensures logs == old(logs)[jid := LogsOf(old(logs), jid) + [line]]
      ensures fs == old(fs)
    {
      logs := logs[jid := LogsOf(logs, jid) + [line]];
    }

    /**
     * `POST /api/import/start`: 400 without an upload id, 404 when no such upload exists; otherwise a
     * fresh public id gets a one-line log and an import job.
     */
    method StartImport(uploadId: Option<string>, uuidHex: string, internalId: string, now: real) returns (r: Result<string, nat>)
      requires service.manager.Valid()
      modifies this, service, service.manager
      ensures service.manager.Valid() && fs == old(fs)
      ensures (uploadId.None? || uploadId.value == "") ==> r == Err(400)
      ensures uploadId.Some? && uploadId.value != "" && PyJoin(uploadDir, uploadId.value) !in fs ==> r == Err(404)
      ensures uploadId.Some? && uploadId.value != "" && PyJoin(uploadDir, uploadId.value) in fs ==> r == Ok(PublicJobId(uuidHex))
      ensures r.Err? ==> logs == old(logs) && service.publicToInternal == old(service.publicToInternal)
                         && service.manager.jobs == old(service.manager.jobs)
      ensures r.Ok? ==> logs == old(logs)[r.value := ["Import requested for " + uploadId.value]]
                        && service.publicToInternal == old(service.publicToInternal)[r.value := internalId]
                        && service.manager.jobs == old(service.manager.jobs)[internalId := Jobs.Job(Jobs.Pending, now, false)]
    {
      if uploadId.None? || uploadId.value == "" {
        return Err(400);
      }
      var path := PyJoin(uploadDir, uploadId.value);
      if path !in fs {
        return Err(404);
      }
      var publicId := PublicJobId(uuidHex);
      logs := logs[publicId := ["Import requested for " + uploadId.value]];
      var _ := service.StartImport(publicId, internalId, now);
      r := Ok(publicId);
    }

    /** `GET /api/import/{job_id}/status`. */
    method ImportStatus(jobId: string, listing: seq<string>) returns (r: Result<Jobs.Status, nat>)
      ensures r == StatusAnswer(service.publicToInternal, service.manager.jobs, uploadDir, listing, jobId)
    {
      var internal := service.GetInternalJobId(jobId);
      var lookup := if internal.Some? && internal.value != "" then internal.value else jobId;
      var st := service.manager.Status(lookup);
      if st.Some? {
        return Ok(st.value);
      }
      var found := FindMarkerByName(uploadDir, listing, LegacyAdapter.Sanitize(jobId));
      if found.Some? {
        r := Ok(Jobs.Status(true, false, None, true));
      } else {
        r := Err(404);
      }
    }

    /** The metadata search: the first readable marker whose `tmp_path` names an upload of the job. */
    method FindMarkerByMeta(listing: seq<string>, safe: string, jobId: string) returns (cand: Option<string>)
      ensures cand == MarkerByMeta(fs, uploadDir, listing, safe, jobId)
    {
      var i := 0;
      while i < |listing|
        invariant 0 <= i <= |listing|
        invariant forall j :: 0 <= j < i ==> !MetaEntryOf(fs, uploadDir, listing[j], safe, jobId)
      {
        var name := listing[i];
        if IsSuffix(MarkerSuffix, name) {
          var path := Join(uploadDir, name);
          if path in fs && MetaNamesJob(fs[path], safe, jobId) {
            ghost var fl := MetaFlags(fs, uploadDir, listing, safe, jobId);
            FirstTrueAt(fl, i);
            return Some(path);
          }
        }
        i := i + 1;
      }
      FirstTrueNone(MetaFlags(fs, uploadDir, listing, safe, jobId));
      return None;
    }

    /**
     * `POST /api/import/{job_id}/confirm`: find the marker (404), read it (500), take its session id or
     * fall back on the pool (400), and schedule the background confirmation.
     */
    method Confirm(jobId: string, listing: seq<string>, startable: set<nat>) returns (r: Result<Scheduled, nat>)
      requires pool.Valid()
      modifies pool
      ensures pool.Valid()
      ensures r == ConfirmAnswer(fs, uploadDir, listing, LogsOf(logs, jobId), jobId, old(pool.sessions), startable)
      ensures pool.sessions == ConfirmPool(fs, uploadDir, listing, LogsOf(logs, jobId), jobId, old(pool.sessions), startable)
    {
      var safe := LegacyAdapter.Sanitize(jobId);
      var cand := FindMarkerByName(uploadDir, listing, safe);
      if cand.None? {
        cand := FindMarkerByLog(LogsOf(logs, jobId), fs);
      }
      if cand.None? {
        cand := FindMarkerByMeta(listing, safe, jobId);
      }
      if cand.None? {
        return Err(404);
      }
      var c := cand.value;
      if c !in fs || !fs[c].MarkerJson? {
        return Err(500);
      }
      var sid := fs[c].sessionId;
      if sid.Some? && sid.value != "" {
        return Ok(Scheduled(c, sid.value));
      }
      var chosen := ChooseFallback(pool, startable);
      if chosen == "" {
        return Err(400);
      }
      r := Ok(Scheduled(c, chosen));
    }

    /**
     * `_bg_confirm`: confirm in the browser session; only on success remove the marker and clear the
     * awaiting flag of the internal job behind the public id.
     */
    method BgConfirm(job: Scheduled, jid: string, seleniumOk: bool, cssConfirm: bool, xpathConfirm: bool, clickOk: bool)
      returns (ok: bool)
      requires service.manager.Valid()
      modifies this, service.manager
      ensures service.manager.Valid()
      ensures ok <==> BrowserPool.ManagerOf(pool.sessions, job.sid).Some? && BrowserPool.ManagerOf(pool.sessions, job.sid).value.driver
                      && seleniumOk && (cssConfirm || xpathConfirm) && clickOk
      ensures ok ==> fs == old(fs) - {job.marker}
      ensures !ok ==> fs == old(fs)
      ensures ok ==> service.manager.jobs == ClearAwaiting(old(service.manager.jobs), service.publicToInternal, jid)
      ensures !ok ==> service.manager.jobs == old(service.manager.jobs)
      ensures ok ==> LegacyAdapter.PollMarker(job.marker, fs).0 == LegacyAdapter.Returned(LegacyAdapter.SentinelPath(job.marker) !in old(fs))
      ensures logs == old(logs)
    {
      ok := ImportRunner.ConfirmImportSession(pool, job.sid, seleniumOk, cssConfirm, xpathConfirm, clickOk);
      if ok {
        fs := fs - {job.marker};
        var internal := service.GetInternalJobId(jid);
        if internal.Some? && internal.value != "" {
          var _ := service.manager.SetAwaitingConfirmation(internal.value, false);
        }
      }
    }

    /**
     * `POST /api/import/{job_id}/cancel`: write the sentinel next to the job's first marker and remove
     * the marker, clear the awaiting flag, and answer ok whether or not a marker was found.
     */
    method Cancel(jobId: string, listing: seq<string>) returns (canceled: bool)
      requires service.manager.Valid()
      modifies this, service.manager
      ensures service.manager.Valid()
      ensures canceled
      ensures fs == CancelFs(old(fs), MarkerByName(uploadDir, listing, LegacyAdapter.Sanitize(jobId)))
      ensures service.manager.jobs == ClearAwaiting(old(service.manager.jobs), service.publicToInternal, jobId)
      ensures logs == old(logs)
    {
      var cand := FindMarkerByName(uploadDir, listing, LegacyAdapter.Sanitize(jobId));
      if cand.Some? && cand.value in fs {
        fs := fs[LegacyAdapter.SentinelPath(cand.value) := Text("canceled")];
        fs := fs - {cand.value};
      }
      var internal := service.GetInternalJobId(jobId);
      if internal.Some? && internal.value != "" {
        var _ := service.manager.SetAwaitingConfirmation(internal.value, false);
      }
      canceled := true;
    }

    /** `_save_upload_to_disk`: copy the upload in chunks until an empty read, under a fresh name. */
    method SaveUpload(uuidHex: string, filename: Option<string>, chunks: seq<string>) returns (dest: string)
      modifies this
      ensures dest == PyJoin(uploadDir, UploadName(uuidHex, filename))
      ensures fs == old(fs)[dest := Text(ChunksRead(chunks))]
      ensures logs == old(logs)
    {
      dest := PyJoin(uploadDir, UploadName(uuidHex, filename));
      var data := ReadChunks(chunks);
      fs := fs[dest := Text(data)];
    }

    /** `POST /api/import/upload` up to the preview: 400 without a file name, else the stored upload's id. */
    method Upload(uuidHex: string, filename: Option<string>, chunks: seq<string>) returns (r: Result<string, nat>)
      modifies this
      ensures (filename.None? || filename.value == "") ==> r == Err(400) && fs == old(fs)
      ensures filename.Some? && filename.value != "" ==> r == Ok(Basename(PyJoin(uploadDir, UploadName(uuidHex, filename))))
      ensures filename.Some? && filename.value != "" ==> fs == old(fs)[PyJoin(uploadDir, UploadName(uuidHex, filename)) := Text(ChunksRead(chunks))]
      ensures logs == old(logs)
    {
      if filename.None? || filename.value == "" {
        return Err(400);
      }
      var dest := SaveUpload(uuidHex, filename, chunks);
      r := Ok(Basename(dest));
    }
  }

  // ---------------------------------------------------------------------------------------------
  // How the handlers and the waiting import fit together

  /** The upload id handed out by the upload handler leads the start handler back to the stored file. */
  lemma UploadIdRoundTrip(dir: string, uuidHex: string, filename: Option<string>)
    requires '/' !in uuidHex
    ensures PyJoin(dir, Basename(PyJoin(dir, UploadName(uuidHex, filename)))) == PyJoin(dir, UploadName(uuidHex, filename))
  {
    var name := UploadName(uuidHex, filename);
    var b := Basename(if filename.Some? && filename.value != "" then filename.value else "upload");
    assert name == uuidHex + "_" + b;
    assert '/' !in b;
    assert '/' !in name;
    assert name[0] != '/' by {
      if |uuidHex| > 0 {
        assert name[0] == uuidHex[0];
      }
    }
    BasenameJoin(dir, name);
  }

  /** After `start_import`, the status handler reports the new job as pending and not awaiting. */
  lemma StatusAfterStart(p2i: map<string, string>, jobs: map<string, Jobs.Job>, dir: string, listing: seq<string>,
                         uuidHex: string, internalId: string, now: real)
    requires internalId != ""
    ensures StatusAnswer(p2i[PublicJobId(uuidHex) := internalId], jobs[internalId := Jobs.Job(Jobs.Pending, now, false)], dir, listing, PublicJobId(uuidHex))
            == Ok(Jobs.Status(false, false, None, false))
  {
  }

  /** A job the table does not know but whose run left its marker is reported as done and awaiting confirmation. */
  lemma StatusFromRunMarker(p2i: map<string, string>, jobs: map<string, Jobs.Job>, fs: Fs, dir: string, listing: seq<string>, jobId: string)
    requires IsListing(fs, dir, listing)
    requires LegacyAdapter.MarkerPath(LegacyAdapter.TmpPath(dir, jobId)) in fs
    requires LookupId(p2i, jobId) !in jobs
    ensures StatusAnswer(p2i, jobs, dir, listing, jobId) == Ok(Jobs.Status(true, false, None, true))
  {
    RunMarkerListed(fs, dir, listing, jobId);
  }

  /**
   * While a run waits, confirming its job finds a marker; when every marker in the directory is a
   * readable marker and the pool has a session to fall back on, the confirmation is scheduled.
   */
  lemma ConfirmFindsRunMarker(fs: Fs, dir: string, listing: seq<string>, lines: seq<string>, jobId: string,
                              sessions: Table<string, BrowserPool.Session>, startable: set<nat>)
    requires IsListing(fs, dir, listing)
    requires LegacyAdapter.MarkerPath(LegacyAdapter.TmpPath(dir, jobId)) in fs
    requires forall i :: 0 <= i < |listing| && IsSuffix(MarkerSuffix, listing[i]) ==> fs[Join(dir, listing[i])].MarkerJson?
    requires FallbackChoice(sessions, startable) != ""
    ensures ConfirmAnswer(fs, dir, listing, lines, jobId, sessions, startable).Ok?
  {
    RunMarkerListed(fs, dir, listing, jobId);
    var safe := LegacyAdapter.Sanitize(jobId);
    var fl := MarkerNameFlags(listing, safe);
    var k := FirstTrue(fl).value;
    assert IsSuffix(MarkerSuffix, listing[k]);
  }

  /** Cancelling a waiting run makes its next poll end the run as failed, leaving neither marker nor sentinel. */
  lemma CancelThenPoll(fs: Fs, marker: string)
    requires marker in fs
    ensures LegacyAdapter.PollMarker(marker, CancelFs(fs, Some(marker))).0 == LegacyAdapter.Returned(false)
    ensures marker !in LegacyAdapter.PollMarker(marker, CancelFs(fs, Some(marker))).1
    ensures LegacyAdapter.SentinelPath(marker) !in LegacyAdapter.PollMarker(marker, CancelFs(fs, Some(marker))).1
  {
    assert LegacyAdapter.SentinelPath(marker) != marker by {
      assert |LegacyAdapter.SentinelPath(marker)| > |marker|;
    }
  }
}
