/**
 * The self-updating launcher (launcher/main.go): picks the release asset by prefix, checks it against
 * an optional "<asset>.sha256" asset, asks before replacing the project, moves the project aside as a
 * backup and the extracted release into place, and rolls back when that move fails. HTTP, JSON
 * decoding, SHA-256, zip extraction and the standard input are parameters.
 */
module Launcher {
  import opened Wrappers
  import opened Strs

  // ---------------------------------------------------------------------------------------------
  // Release assets

  datatype Asset = Asset(name: string, url: string)

  /** `findAsset`: the first asset whose name starts with the prefix, or nil. */
  function FindAsset(assets: seq<Asset>, prefix: string): (r: Option<Asset>)
    ensures r.Some? ==> exists i :: 0 <= i < |assets| && assets[i] == r.value && IsPrefix(prefix, assets[i].name)
                                    && forall j :: 0 <= j < i ==> !IsPrefix(prefix, assets[j].name)
    ensures r.None? <==> forall i :: 0 <= i < |assets| ==> !IsPrefix(prefix, assets[i].name)
  {
    if assets == [] then None
    else if IsPrefix(prefix, assets[0].name) then Some(assets[0])
    else
      var r := FindAsset(assets[1..], prefix);
      assert forall i :: 1 <= i < |assets| ==> assets[i] == assets[1..][i - 1];
      r
  }

  /** The checksum loop: the URL of the first asset named exactly `name`, or "" when there is none. */
  method ChecksumUrlLoop(assets: seq<Asset>, name: string) returns (url: string)
    ensures url == ChecksumUrl(assets, name)
  {
    url := "";
    for i := 0 to |assets|
      invariant forall j :: 0 <= j < i ==> assets[j].name != name
    {
      if assets[i].name == name {
        url := assets[i].url;
        ChecksumUrlAt(assets, name, i);
        return;
      }
    }
    ChecksumUrlNone(assets, name);
  }

  function ChecksumUrl(assets: seq<Asset>, name: string): string
  {
    if assets == [] then ""
    else if assets[0].name == name then assets[0].url
    else ChecksumUrl(assets[1..], name)
  }

  /** The first asset with the name decides the URL. */
  lemma {:induction false} ChecksumUrlAt(assets: seq<Asset>, name: string, i: nat)
    requires i < |assets| && assets[i].name == name && forall j :: 0 <= j < i ==> assets[j].name != name
    ensures ChecksumUrl(assets, name) == assets[i].url
  {
    if i > 0 {
      ChecksumUrlAt(assets[1..], name, i - 1);
    }
  }

  /** No asset with the name: no URL, and verification is skipped. */
  lemma {:induction false} ChecksumUrlNone(assets: seq<Asset>, name: string)
    requires forall j :: 0 <= j < |assets| ==> assets[j].name != name
    ensures ChecksumUrl(assets, name) == ""
  {
    if assets != [] {
      ChecksumUrlNone(assets[1..], name);
    }
  }

  // ---------------------------------------------------------------------------------------------
  // HTTP

  /** `httpGet`: a transport error, or any status outside [200, 300), is an error; else the body. */
  function HttpGet(transport: Result<(int, string), string>): (r: Result<string, string>)
    ensures transport.Ok? ==> (r.Ok? <==> 200 <= transport.value.0 < 300)
    ensures r.Ok? ==> transport.Ok? && transport.value.1 == r.value
  {
    match transport
    case Err(e) => Err(e)
    case Ok((status, body)) => if status < 200 || status >= 300 then Err("http status") else Ok(body)
  }

  // ---------------------------------------------------------------------------------------------
  // Digest check

  /** Go's `unicode.IsSpace`. */
  predicate GoSpace(c: char)
  {
    ('\t' <= c <= '\r') || c == ' ' || c == '\U{85}' || c == '\U{a0}' || c == '\U{1680}'
    || ('\U{2000}' <= c <= '\U{200a}') || c == '\U{2028}' || c == '\U{2029}' || c == '\U{202f}'
    || c == '\U{205f}' || c == '\U{3000}'
  }

  function GoTrimLeft(s: string): (r: string)
    ensures IsSuffix(r, s) && (r == [] || !GoSpace(r[0]))
    ensures forall i :: 0 <= i < |s| - |r| ==> GoSpace(s[i])
  {
    if s != [] && GoSpace(s[0]) then GoTrimLeft(s[1..]) else s
  }

  function GoTrimRight(s: string): (r: string)
    ensures IsPrefix(r, s) && (r == [] || !GoSpace(r[|r| - 1]))
  {
    if s != [] && GoSpace(s[|s| - 1]) then GoTrimRight(s[..|s| - 1]) else s
  }

  /** `strings.TrimSpace`. */
  function GoTrimSpace(s: string): (r: string)
    ensures r == [] || (!GoSpace(r[0]) && !GoSpace(r[|r| - 1]))
  {
    GoTrimRight(GoTrimLeft(s))
  }

  /** The run of non-space characters at the start. */
  function NonSpaceRun(s: string): (r: string)
    ensures IsPrefix(r, s) && (forall i :: 0 <= i < |r| ==> !GoSpace(r[i])) && (|r| < |s| ==> GoSpace(s[|r|]))
  {
    if s == [] || GoSpace(s[0]) then []
    else
      var t := NonSpaceRun(s[1..]);
      assert forall i :: 1 <= i <= |t| ==> ([s[0]] + t)[i] == t[i - 1];
      [s[0]] + t
  }

  /** `strings.Fields(s)[0]` when there is a field. */
  function FirstField(s: string): (r: Option<string>)
    ensures r.None? <==> forall i :: 0 <= i < |s| ==> GoSpace(s[i])
    ensures r.Some? ==> r.value != [] && (forall i :: 0 <= i < |r.value| ==> !GoSpace(r.value[i]))
  {
    var t := GoTrimLeft(s);
    if t == [] then None else Some(NonSpaceRun(t))
  }

  /** A field has no surrounding space: trimming it changes nothing. */
  lemma TrimField(f: string)
    requires forall i :: 0 <= i < |f| ==> !GoSpace(f[i])
    ensures GoTrimSpace(f) == f
  {
  }

  /** `strings.ToLower` on the letters of ASCII. */
  function AsciiLower(c: char): char
  {
    if 'A' <= c <= 'Z' then (c as int + 32) as char else c
  }

  /**
   * `strings.EqualFold(got, want)` for a lower-case hex digest `got`: equal up to the case of letters.
   * Only ASCII letters fold onto the hex letters, so ASCII folding decides it.
   */
  predicate EqualFold(got: string, want: string)
  {
    |got| == |want| && forall i :: 0 <= i < |got| ==> AsciiLower(got[i]) == AsciiLower(want[i])
  }

  /** `verifySha256` once the digest is computed: the lower-case hex against the trimmed expectation. */
  predicate DigestMatches(gotHex: string, expected: string)
  {
    EqualFold(gotHex, GoTrimSpace(expected))
  }

  /** The digest check accepts the digest itself and its upper-case spelling, and nothing of another length. */
  lemma DigestMatchesRule(gotHex: string, expected: string)
    requires forall i :: 0 <= i < |gotHex| ==> ('0' <= gotHex[i] <= '9' || 'a' <= gotHex[i] <= 'f')
    ensures DigestMatches(gotHex, gotHex)
    ensures DigestMatches(gotHex, expected) ==> |GoTrimSpace(expected)| == |gotHex|
    ensures DigestMatches(gotHex, expected) <==>
              |GoTrimSpace(expected)| == |gotHex| && forall i :: 0 <= i < |gotHex| ==> AsciiLower(GoTrimSpace(expected)[i]) == gotHex[i]
    ensures |gotHex| > 0 ==> !DigestMatches(gotHex, "")
  {
    assert forall i :: 0 <= i < |gotHex| ==> AsciiLower(gotHex[i]) == gotHex[i];
    TrimField(gotHex);
  }

  /** What the launcher does next. */
  datatype Step = Proceed | Exit(code: int) | Panic

  /**
   * As written: `strings.Fields(string(csb))[0]` indexes an empty slice when the checksum file is empty
   * or blank, and the launcher panics instead of reporting the error.
   */
  function ChecksumStepAsWritten(checksumUrl: string, fetch: Result<string, string>, gotHex: string): (s: Step)
    ensures s == Panic <==> checksumUrl != "" && fetch.Ok? && FirstField(fetch.value).None?
    ensures s == Proceed <==> checksumUrl == "" || (fetch.Ok? && FirstField(fetch.value).Some? && DigestMatches(gotHex, FirstField(fetch.value).value))
    ensures s != Proceed && s != Panic ==> s == Exit(1)
  {
    if checksumUrl == "" then Proceed
    else match fetch
      case Err(_) => Exit(1)
      case Ok(csb) =>
        match FirstField(csb)
        case None => Panic
        case Some(expected) => if DigestMatches(gotHex, expected) then Proceed else Exit(1)
  }

  /** An empty checksum file makes the launcher panic as written. */
  lemma EmptyChecksumPanics(gotHex: string)
    ensures ChecksumStepAsWritten("https://example.invalid/a.zip.sha256", Ok(""), gotHex) == Panic
  {
  }

  /**
   * The check as evidently intended: a checksum file without a digest is a failed verification (exit 1),
   * like every other checksum failure.
   */
  function ChecksumStep(checksumUrl: string, fetch: Result<string, string>, gotHex: string): (s: Step)
    ensures s != Panic
    ensures s == Proceed <==> checksumUrl == "" || (fetch.Ok? && FirstField(fetch.value).Some? && DigestMatches(gotHex, FirstField(fetch.value).value))
  {
    if checksumUrl == "" then Proceed
    else match fetch
      case Err(_) => Exit(1)
      case Ok(csb) =>
        match FirstField(csb)
        case None => Exit(1)
        case Some(expected) => if DigestMatches(gotHex, expected) then Proceed else Exit(1)
  }

  /** The two differ only on a fetched checksum file that holds no field. */
  lemma ChecksumStepsAgree(checksumUrl: string, fetch: Result<string, string>, gotHex: string)
    ensures ChecksumStepAsWritten(checksumUrl, fetch, gotHex) != ChecksumStep(checksumUrl, fetch, gotHex)
            <==> checksumUrl != "" && fetch.Ok? && FirstField(fetch.value).None?
  {
  }

  /** A fetched checksum proceeds only when its first field matches the digest up to letter case. */
  lemma ChecksumProceedsOnMatch(checksumUrl: string, csb: string, gotHex: string)
    requires checksumUrl != ""
    requires forall i :: 0 <= i < |gotHex| ==> ('0' <= gotHex[i] <= '9' || 'a' <= gotHex[i] <= 'f')
    ensures ChecksumStep(checksumUrl, Ok(csb), gotHex) == Proceed <==>
              exists f :: FirstField(csb) == Some(f) && |f| == |gotHex| && forall i :: 0 <= i < |f| ==> AsciiLower(f[i]) == gotHex[i]
  {
    match FirstField(csb)
    case None =>
    case Some(f) =>
      TrimField(f);
      DigestMatchesRule(gotHex, f);
  }

  /** The latest release: its tag and assets (`Err` when fetching or decoding it fails). */
  datatype Release = Release(tag: string, assets: seq<Asset>)

  /**
   * `main` up to the prompt: every failure exits with 1, except a published checksum file that holds
   * no field, on which `main` panics; the update goes on only when the release was read, an asset has
   * the prefix, its download worked, its checksum (if published) matches and the archive extracted.
   */
  function Prepare(release: Result<Release, string>, prefix: string, downloadOk: bool,
                   checksumFetch: Result<string, string>, gotHex: string, unzipOk: bool): (s: Step)
    ensures s != Proceed && s != Panic ==> s == Exit(1)
    ensures s == Proceed <==>
              release.Ok? && FindAsset(release.value.assets, prefix).Some? && downloadOk
              && ChecksumStepAsWritten(ChecksumUrl(release.value.assets, FindAsset(release.value.assets, prefix).value.name + ".sha256"),
                                       checksumFetch, gotHex) == Proceed
              && unzipOk
    ensures s == Proceed ==> release.Ok? && FindAsset(release.value.assets, prefix).Some? && downloadOk && unzipOk
    ensures s == Proceed && release.Ok? && FindAsset(release.value.assets, prefix).Some? ==>
              var name := FindAsset(release.value.assets, prefix).value.name + ".sha256";
              ChecksumUrl(release.value.assets, name) == ""
              || (checksumFetch.Ok? && FirstField(checksumFetch.value).Some? && DigestMatches(gotHex, FirstField(checksumFetch.value).value))
    ensures s == Panic <==>
              release.Ok? && FindAsset(release.value.assets, prefix).Some? && downloadOk
              && ChecksumUrl(release.value.assets, FindAsset(release.value.assets, prefix).value.name + ".sha256") != ""
              && checksumFetch.Ok? && FirstField(checksumFetch.value).None?
  {
    match release
    case Err(_) => Exit(1)
    case Ok(rel) =>
      match FindAsset(rel.assets, prefix)
      case None => Exit(1)
      case Some(asset) =>
        if !downloadOk then Exit(1)
        else
          var checked := ChecksumStepAsWritten(ChecksumUrl(rel.assets, asset.name + ".sha256"), checksumFetch, gotHex);
          if checked != Proceed then checked
          else if !unzipOk then Exit(1)
          else Proceed
  }

  // ---------------------------------------------------------------------------------------------
  // Backup name and prompt

  /** `project + "-bak-" + strings.ReplaceAll(tag, "/", "-")`. */
  function BackupDir(project: string, tag: string): (b: string)
    ensures IsPrefix(project + "-bak-", b) && |b| == |project| + 5 + |tag|
    ensures forall i :: |project| + 5 <= i < |b| ==> b[i] != '/' && (b[i] == tag[i - |project| - 5] || tag[i - |project| - 5] == '/')
  {
    project + "-bak-" + ReplaceChar(tag, '/', '-')
  }

  /** The backup never coincides with the project, and its tag part never adds a directory level. */
  lemma BackupDirDistinct(project: string, tag: string)
    ensures BackupDir(project, tag) != project
    ensures '/' !in BackupDir(project, tag)[|project| + 5..]
  {
  }

  /** The prompt goes ahead only on `strings.ToLower(strings.TrimSpace(resp)) == "y"`. */
  predicate Accepts(resp: string)
  {
    var t := GoTrimSpace(resp);
    |t| == 1 && AsciiLower(t[0]) == 'y'
  }

  /** The accepted answers are "y" and "Y", with any surrounding space. */
  lemma AcceptsRule(resp: string)
    ensures Accepts(resp) <==> GoTrimSpace(resp) == "y" || GoTrimSpace(resp) == "Y"
    ensures Accepts(" y\n") && !Accepts("yes") && !Accepts("")
  {
    assert GoTrimLeft(" y\n") == "y\n";
    assert GoTrimRight("y\n") == "y";
    assert GoTrimLeft("yes") == "yes";
    assert GoTrimRight("yes") == "yes";
  }

  /** With `-auto` there is no prompt; otherwise a refusal exits with 0. */
  function PromptStep(auto: bool, resp: string): (s: Step)
    ensures s == Proceed <==> auto || Accepts(resp)
    ensures s != Proceed ==> s == Exit(0)
  {
    if auto || Accepts(resp) then Proceed else Exit(0)
  }

  /**
   * The last step of `main`, once the new project is in place: `python scripts/start_server.py` runs
   * with the launcher's own streams, and a failure to run it exits with 1.
   */
  function StartStep(startOk: bool): (s: Step)
    ensures s == Proceed <==> startOk
    ensures s != Proceed ==> s == Exit(1)
  {
    if startOk then Proceed else Exit(1)
  }

  // ---------------------------------------------------------------------------------------------
  // Replacing the project

  /** Paths other than the three the replacement names keep their directories. */
  ghost predicate SameElsewhere(before: map<string, nat>, after: map<string, nat>, project: string, backup: string, extract: string)
  {
    forall p :: p != project && p != backup && p != extract ==>
      (p in after <==> p in before) && (p in after ==> after[p] == before[p])
  }

  /**
   * The end of `main` on the directories, as written: when the project exists the old backup is
   * removed and the project renamed to the backup; then the extracted release is renamed to the
   * project, and when that fails `os.Rename(backupDir, project)` is attempted, whether or not this run
   * made the backup.
   */
  function Replacement(d: map<string, nat>, project: string, backup: string, extract: string,
                       removeOk: bool, backupOk: bool, moveOk: bool, rollbackOk: bool): (r: (Step, map<string, nat>))
    requires project != backup && extract != project && extract != backup
    ensures r.0 == Proceed <==> (project in d ==> removeOk && backupOk) && moveOk && extract in d
    ensures r.0 != Proceed ==> r.0 == Exit(1)
    ensures SameElsewhere(d, r.1, project, backup, extract)
    ensures r.0 == Proceed ==> extract !in r.1 && project in r.1 && r.1[project] == d[extract]
    ensures r.0 == Proceed && project in d ==> backup in r.1 && r.1[backup] == d[project]
    ensures project in d && !removeOk ==> r.1 == d
    ensures project in d && removeOk && !backupOk ==> r.1 == d - {backup}
  {
    if project in d && !removeOk then (Exit(1), d)
    else if project in d && !backupOk then (Exit(1), d - {backup})
    else
      var staged := if project in d then (d - {backup} - {project})[backup := d[project]] else d;
      if moveOk && extract in staged then (Proceed, (staged - {extract})[project := staged[extract]])
      else if rollbackOk && backup in staged then (Exit(1), (staged - {backup})[project := staged[backup]])
      else (Exit(1), staged)
  }

  /**
   * A failed move after a backup is rolled back: the project is back in place, and only the backup of
   * an earlier run (removed before the project was moved) is gone.
   */
  lemma ReplacementRollsBack(d: map<string, nat>, project: string, backup: string, extract: string, moveOk: bool)
    requires project != backup && extract != project && extract != backup
    requires project in d && !(moveOk && extract in d)
    ensures Replacement(d, project, backup, extract, true, true, moveOk, true) == (Exit(1), d - {backup})
  {
    var staged := (d - {backup} - {project})[backup := d[project]];
    assert (staged - {backup})[project := d[project]] == d - {backup};
  }

  /**
   * As written, when there is no project and the move fails, a backup left by an earlier run with the
   * same tag is renamed into the project path.
   */
  lemma StaleBackupInstalled()
    ensures Replacement(map["p-bak-v1" := 7], "p", "p-bak-v1", "/tmp/x/extract", true, true, false, true)
            == (Exit(1), map["p" := 7])
  {
    var d := map["p-bak-v1" := 7];
    assert (d - {"p-bak-v1"})["p" := 7] == map["p" := 7];
  }

  /** The replacement as evidently intended: the rollback renames the backup back only when this run made it. */
  function ReplacementIntended(d: map<string, nat>, project: string, backup: string, extract: string,
                               removeOk: bool, backupOk: bool, moveOk: bool, rollbackOk: bool): (r: (Step, map<string, nat>))
    requires project != backup && extract != project && extract != backup
    ensures r.0 == Proceed <==> (project in d ==> removeOk && backupOk) && moveOk && extract in d
    ensures SameElsewhere(d, r.1, project, backup, extract)
  {
    if project in d && !removeOk then (Exit(1), d)
    else if project in d && !backupOk then (Exit(1), d - {backup})
    else
      var staged := if project in d then (d - {backup} - {project})[backup := d[project]] else d;
      if moveOk && extract in staged then (Proceed, (staged - {extract})[project := staged[extract]])
      else if project in d && rollbackOk then (Exit(1), (staged - {backup})[project := staged[backup]])
      else (Exit(1), staged)
  }

  /**
   * Corrected, a failed replacement never puts anything but the old project at the project path, and
   * the two versions agree on every run that had a project to back up or that succeeded.
   */
  lemma IntendedKeepsProjectPath(d: map<string, nat>, project: string, backup: string, extract: string,
                                 removeOk: bool, backupOk: bool, moveOk: bool, rollbackOk: bool)
    requires project != backup && extract != project && extract != backup
    ensures var r := ReplacementIntended(d, project, backup, extract, removeOk, backupOk, moveOk, rollbackOk);
            r.0 != Proceed && project in r.1 ==> project in d && r.1[project] == d[project]
    ensures project in d || (moveOk && extract in d) ==>
              ReplacementIntended(d, project, backup, extract, removeOk, backupOk, moveOk, rollbackOk)
              == Replacement(d, project, backup, extract, removeOk, backupOk, moveOk, rollbackOk)
  {
  }

  /** As written, the same property fails: `StaleBackupInstalled` puts 7 at a project path that was absent. */
  lemma AsWrittenBreaksProjectPath()
    ensures var r := Replacement(map["p-bak-v1" := 7], "p", "p-bak-v1", "/tmp/x/extract", true, true, false, true);
            r.0 != Proceed && "p" in r.1 && "p" !in map["p-bak-v1" := 7]
  {
    StaleBackupInstalled();
  }

  /** The directories of the file system the launcher touches, by path, with an identity for their contents. */
  class Disk {
    var dirs: map<string, nat>

    constructor (dirs0: map<string, nat>)
      ensures dirs == dirs0
    {
      dirs := dirs0;
    }

    /** `os.RemoveAll(p)`: succeeds also when `p` is absent; `ok` false when it fails. */
    method RemoveAll(p: string, ok: bool) returns (success: bool)
      modifies this
      ensures success == ok
      ensures dirs == if ok then old(dirs) - {p} else old(dirs)
    {
      success := ok;
      if ok {
        dirs := dirs - {p};
      }
    }

    /** `os.Rename(a, b)`: fails when `a` is missing or the file system refuses (`ok` false). */
    method Rename(a: string, b: string, ok: bool) returns (success: bool)
      modifies this
      ensures success <==> ok && a in old(dirs)
      ensures success ==> dirs == (old(dirs) - {a})[b := old(dirs)[a]]
      ensures !success ==> dirs == old(dirs)
    {
      success := ok && a in dirs;
      if success {
        dirs := (dirs - {a})[b := dirs[a]];
      }
    }

    /**
     * The end of `main`: an existing project is moved to the backup (after removing an old backup),
     * then the extracted release is moved into place; if that fails, the backup path is renamed back,
     * also when this run made no backup. The new directories are `Replacement` of the old ones.
     */
    method ReplaceProject(project: string, backup: string, extract: string,
                          removeOk: bool, backupOk: bool, moveOk: bool, rollbackOk: bool) returns (s: Step)
      requires project != backup && extract != project && extract != backup
      modifies this
      ensures (s, dirs) == Replacement(old(dirs), project, backup, extract, removeOk, backupOk, moveOk, rollbackOk)
      ensures s == Proceed <==> (project in old(dirs) ==> removeOk && backupOk) && moveOk && extract in old(dirs)
      ensures s != Proceed ==> s == Exit(1)
      ensures SameElsewhere(old(dirs), dirs, project, backup, extract)
      ensures s == Proceed ==> project in dirs && extract in old(dirs) && dirs[project] == old(dirs)[extract]
      ensures s == Proceed && project in old(dirs) ==> backup in dirs && dirs[backup] == old(dirs)[project]
      ensures project in old(dirs) && !removeOk ==> dirs == old(dirs)
      ensures project in old(dirs) && removeOk && !backupOk ==> dirs == old(dirs) - {backup}
      ensures project in old(dirs) && s != Proceed && removeOk && backupOk && rollbackOk ==> dirs == old(dirs) - {backup}
      ensures project !in old(dirs) && s != Proceed ==>
                dirs == if rollbackOk && backup in old(dirs) then (old(dirs) - {backup})[project := old(dirs)[backup]] else old(dirs)
    {
      if project in dirs {
        var removed := RemoveAll(backup, removeOk);
        if !removed {
          return Exit(1);
        }
        var moved := Rename(project, backup, backupOk);
        if !moved {
          return Exit(1);
        }
      }
      var placed := Rename(extract, project, moveOk);
      if !placed {
        var _ := Rename(backup, project, rollbackOk);
        return Exit(1);
      }
      return Proceed;
    }
  }
}
