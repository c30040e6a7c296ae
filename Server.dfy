/**
 * The web server's own handlers (ui/web/server.py): `/`, `/api/unlock`, `/api/activate`, the
 * credential listing and download, the `/tmp_uploads/{file_name}` route and the login gate in front
 * of the static pages. The activation
 * service's answers, decryption and JSON parsing are parameters; the disk is the `LocalStore` model
 * and a set of existing file paths.
 */
module Server {
  import opened Wrappers
  import opened Strs
  import opened SeqUtil
  import opened Entries
  import opened Json
  import opened Storage
  import opened Unlock
  import opened CredentialsCache
  import opened CredLoader
  import opened Files
  import Sorting

  // ----- /api/unlock -----

  /** The test of the unlock handler: a dict whose `type` is "service_account", or with both key fields. */
  predicate IsServiceAccount(v: Json)
  {
    v.JObj? && (Field(v, "type") == Some(JStr("service_account")) || HasKeyPair(v))
  }

  /** A dict the cache loader accepts is one the unlock handler accepts too. */
  lemma KeyPairIsServiceAccount(v: Json)
    requires HasKeyPair(v)
    ensures IsServiceAccount(v)
  {
  }

  /** The converse fails: a bare `{"type": "service_account"}` is cached here but skipped by the loader. */
  lemma TypeOnlyDiffers()
    ensures IsServiceAccount(JObj([("type", JStr("service_account"))]))
    ensures !HasKeyPair(JObj([("type", JStr("service_account"))]))
  {
    var v := JObj([("type", JStr("service_account"))]);
    assert Keys(v.fields) == ["type"];
    assert Field(v, "type") == Some(JStr("service_account"));
  }

  /** What the handler caches is a non-empty dict, so `bool(sa_info)` is True exactly when one was found. */
  lemma ServiceAccountTruthy(v: Json)
    requires IsServiceAccount(v)
    ensures Truthy(v)
  {
    assert HasField(v, "type") || HasField(v, "client_email");
    assert Keys(v.fields) != [];
  }

  /** Entry `e` of the unlocked credentials decodes to a service account. */
  predicate YieldsServiceAccount(decode: Decode, e: (string, string))
  {
    decode(e.1).Some? && IsServiceAccount(decode(e.1).value)
  }

  function YieldsIn(decode: Decode): ((string, string)) -> bool
  {
    e => YieldsServiceAccount(decode, e)
  }

  /** The value the selection loop breaks on, if any. */
  function FirstServiceAccount(t: Table<string, string>, decode: Decode): (r: Option<Json>)
    ensures r.Some? ==> IsServiceAccount(r.value)
  {
    match FirstTrue(MapSeq(t, YieldsIn(decode)))
    case None => None
    case Some(i) =>
      assert YieldsIn(decode)(t[i]);
      decode(t[i].1)
  }

  /**
   * The loop settles on the first credential, in unlock order, whose plaintext is a service account,
   * and finds nothing exactly when no credential's plaintext is one.
   */
  lemma FirstServiceAccountIsFirst(t: Table<string, string>, decode: Decode)
    ensures FirstServiceAccount(t, decode).None? <==> forall j :: 0 <= j < |t| ==> !YieldsServiceAccount(decode, t[j])
    ensures forall i :: FirstTrue(MapSeq(t, YieldsIn(decode))) == Some(i) ==>
              i < |t| && FirstServiceAccount(t, decode) == decode(t[i].1)
              && forall j :: 0 <= j < i ==> !YieldsServiceAccount(decode, t[j])
  {
    var p := YieldsIn(decode);
    FirstTrueExists(t, p);
    assert forall j :: 0 <= j < |t| ==> p(t[j]) == YieldsServiceAccount(decode, t[j]);
    forall i | FirstTrue(MapSeq(t, p)) == Some(i)
      ensures i < |t| && forall j :: 0 <= j < i ==> !YieldsServiceAccount(decode, t[j])
    {
      FirstTrueMap(t, p, i);
    }
  }

  /** `{k: len(v) for k, v in creds.items()}`. */
  function Summary(t: Table<string, string>): (r: Table<string, int>)
    ensures Keys(r) == Keys(t)
    ensures forall k :: Get(r, k).Some? ==> Get(t, k).Some? && Get(r, k).value == |Get(t, k).value|
  {
    if t == [] then []
    else
      var rest := Summary(t[1..]);
      var r := [(t[0].0, |t[0].1|)] + rest;
      assert r[1..] == rest;
      assert Keys(r) == [t[0].0] + Keys(rest);
      assert Keys(t) == [t[0].0] + Keys(t[1..]);
      r
  }

  /** The JSON answer `{"ok": true, "credentials": summary, "cached_service_account": ...}`. */
  datatype UnlockReply = UnlockReply(credentials: Table<string, int>, cachedServiceAccount: bool)

  /**
   * `api_unlock`: Err(status) for an HTTP error. A missing or empty password is 400, any exception of
   * `unlock_all` is 403; otherwise the first service account is cached for 15 minutes.
   */
  method ApiUnlock(pw: Option<string>, store: LocalStore, names: seq<string>, verify: Verify, decode: Decode,
                   cache: Cache, now: real) returns (r: Result<UnlockReply, int>)
    requires IsListing(store.creds, names)
    modifies cache
    ensures pw.None? || pw.value == "" ==> r == Err(400)
    ensures pw.Some? && pw.value != "" && UnlockResult(store.creds, names, pw.value, verify).Err? ==> r == Err(403)
    ensures pw.Some? && pw.value != "" && UnlockResult(store.creds, names, pw.value, verify).Ok? ==>
              var t := UnlockResult(store.creds, names, pw.value, verify).value;
              r == Ok(UnlockReply(Summary(t), FirstServiceAccount(t, decode).Some?))
              && (FirstServiceAccount(t, decode).Some? ==> cache.info == FirstServiceAccount(t, decode) && cache.expiresAt == Trunc(now) + 15 * 60)
    ensures !(pw.Some? && pw.value != "" && UnlockResult(store.creds, names, pw.value, verify).Ok?
              && FirstServiceAccount(UnlockResult(store.creds, names, pw.value, verify).value, decode).Some?) ==>
              cache.info == old(cache.info) && cache.expiresAt == old(cache.expiresAt)
  {
    if pw.None? || pw.value == "" {
      return Err(400);
    }
    var creds := UnlockAll(store, names, pw.value, verify);
    if creds.Err? {
      return Err(403);
    }
    var t := creds.value;
    var found := FindFirst(t, YieldsIn(decode));
    var sa: Option<Json> := None;
    if found.Some? {
      sa := decode(t[found.value].1);
    }
    if sa.Some? {
      cache.Set(sa.value, 15 * 60, now);
    }
    r := Ok(UnlockReply(Summary(t), sa.Some?));
  }

  // ----- /api/activate -----

  /** One entry of the envelope's `credentials` list: a dict with optional string fields, or something else. */
  datatype CredItem = CredItem(name: Option<string>, token: Option<string>, salt: Option<string>) | NotADict

  /** What one credential contributes: its saved path, or an entry of `errors` carrying its name. */
  datatype ItemOutcome = SavedAt(path: string) | Errored(name: Option<string>)

  /** The credential was written and `verify_token(token, salt, mpw)` returned. */
  predicate Verified(item: CredItem, mpw: string, verify: Verify)
  {
    item.CredItem? && item.name.Some? && item.token.Some? && item.salt.Some?
    && verify(item.token.value, item.salt.value, mpw).Ok?
  }

  /**
   * The inner `try`: save the credential, then verify it. A save that raises, a missing salt
   * (`b64decode(None)` raises) and a failed verification all land in `errors`; the files already written stay.
   */
  function ActivateItem(system: Os, credsDir: string, creds: map<string, Entry>, item: CredItem, mpw: string, verify: Verify): (r: (map<string, Entry>, ItemOutcome))
    requires item.CredItem?
    ensures r.0 == SaveResult(creds, item.name, item.token, item.salt).0
    ensures r.1.SavedAt? <==> SaveResult(creds, item.name, item.token, item.salt).1 && Verified(item, mpw, verify)
    ensures r.1.SavedAt? ==> r.1.path == PathJoin(system, credsDir, item.name.value)
    ensures r.1.Errored? ==> r.1.name == item.name
  {
    var saved := SaveResult(creds, item.name, item.token, item.salt);
    if !saved.1 || item.salt.None? then (saved.0, Errored(item.name))
    else match verify(item.token.value, item.salt.value, mpw)
      case Ok(_) => (saved.0, SavedAt(PathJoin(system, credsDir, item.name.value)))
      case Err(_) => (saved.0, Errored(item.name))
  }

  /** A credential that fails verification is still on disk, and is reported under its name. */
  lemma FailedVerificationStillWritten(system: Os, credsDir: string, creds: map<string, Entry>, item: CredItem, mpw: string, verify: Verify)
    requires item.CredItem? && item.salt.Some? && SaveResult(creds, item.name, item.token, item.salt).1
    requires verify(item.token.value, item.salt.value, mpw).Err?
    ensures var r := ActivateItem(system, credsDir, creds, item, mpw, verify);
            r.1 == Errored(item.name)
            && item.name.value in r.0 && r.0[item.name.value] == File(item.token.value)
            && item.name.value + ".salt" in r.0 && r.0[item.name.value + ".salt"] == File(item.salt.value)
  {
  }

  /** The loop's state: the credentials directory, the `saved` and `errors` lists, and whether it raised. */
  datatype Activation = Activation(creds: map<string, Entry>, saved: seq<string>, errors: seq<Option<string>>, crashed: bool)

  /** The loop over the first items; `crashed` once an item that is not a dict made `c.get` raise. */
  function ActivateLoop(system: Os, credsDir: string, creds: map<string, Entry>, items: seq<CredItem>, mpw: string, verify: Verify): (a: Activation)
    ensures |a.saved| + |a.errors| <= |items|
    ensures !a.crashed ==> |a.saved| + |a.errors| == |items|
  {
    if items == [] then Activation(creds, [], [], false)
    else
      var pre := ActivateLoop(system, credsDir, creds, items[..|items| - 1], mpw, verify);
      var item := items[|items| - 1];
      if pre.crashed then pre
      else if item.NotADict? then pre.(crashed := true)
      else
        var step := ActivateItem(system, credsDir, pre.creds, item, mpw, verify);
        match step.1
        case SavedAt(p) => Activation(step.0, pre.saved + [p], pre.errors, false)
        case Errored(n) => Activation(step.0, pre.saved, pre.errors + [n], false)
  }

  /** Once the loop raised, the later items change nothing. */
  lemma {:induction false} ActivateStopsAtCrash(system: Os, credsDir: string, creds: map<string, Entry>, items: seq<CredItem>, k: nat, mpw: string, verify: Verify)
    requires k <= |items| && ActivateLoop(system, credsDir, creds, items[..k], mpw, verify).crashed
    ensures ActivateLoop(system, credsDir, creds, items, mpw, verify) == ActivateLoop(system, credsDir, creds, items[..k], mpw, verify)
    decreases |items| - k
  {
    if k < |items| {
      assert items[..k + 1][..k] == items[..k];
      ActivateStopsAtCrash(system, credsDir, creds, items, k + 1, mpw, verify);
    } else {
      assert items[..k] == items;
    }
  }

  /** The paths of the credentials of `items` that verify, in order. */
  function VerifiedPaths(system: Os, credsDir: string, items: seq<CredItem>, mpw: string, verify: Verify): seq<string>
  {
    if items == [] then []
    else
      var item := items[|items| - 1];
      VerifiedPaths(system, credsDir, items[..|items| - 1], mpw, verify)
      + if Verified(item, mpw, verify) then [PathJoin(system, credsDir, item.name.value)] else []
  }

  /**
   * Without a malformed item every credential is accounted for once, in `saved` or in `errors`, and every
   * saved path belongs to a credential that verified; the loop raises exactly when some item is not a dict.
   */
  lemma {:induction false} ActivateAccounts(system: Os, credsDir: string, creds: map<string, Entry>, items: seq<CredItem>, mpw: string, verify: Verify)
    ensures ActivateLoop(system, credsDir, creds, items, mpw, verify).crashed <==> exists i :: 0 <= i < |items| && items[i].NotADict?
    ensures var a := ActivateLoop(system, credsDir, creds, items, mpw, verify);
            !a.crashed ==> |a.saved| + |a.errors| == |items|
    ensures var a := ActivateLoop(system, credsDir, creds, items, mpw, verify);
            forall k :: 0 <= k < |a.saved| ==> a.saved[k] in VerifiedPaths(system, credsDir, items, mpw, verify)
  {
    ActivateCrashes(system, credsDir, creds, items, mpw, verify);
    ActivateCounts(system, credsDir, creds, items, mpw, verify);
    ActivateSavesVerified(system, credsDir, creds, items, mpw, verify);
  }

  lemma {:induction false} ActivateCrashes(system: Os, credsDir: string, creds: map<string, Entry>, items: seq<CredItem>, mpw: string, verify: Verify)
    ensures ActivateLoop(system, credsDir, creds, items, mpw, verify).crashed <==> exists i :: 0 <= i < |items| && items[i].NotADict?
  {
    if items != [] {
      var pre := items[..|items| - 1];
      ActivateCrashes(system, credsDir, creds, pre, mpw, verify);
      assert forall i :: 0 <= i < |pre| ==> pre[i] == items[i];
    }
  }

  lemma {:induction false} ActivateCounts(system: Os, credsDir: string, creds: map<string, Entry>, items: seq<CredItem>, mpw: string, verify: Verify)
    ensures var a := ActivateLoop(system, credsDir, creds, items, mpw, verify);
            !a.crashed ==> |a.saved| + |a.errors| == |items|
  {
    if items != [] {
      ActivateCounts(system, credsDir, creds, items[..|items| - 1], mpw, verify);
    }
  }

  lemma {:induction false} ActivateSavesVerified(system: Os, credsDir: string, creds: map<string, Entry>, items: seq<CredItem>, mpw: string, verify: Verify)
    ensures var a := ActivateLoop(system, credsDir, creds, items, mpw, verify);
            forall k :: 0 <= k < |a.saved| ==> a.saved[k] in VerifiedPaths(system, credsDir, items, mpw, verify)
  {
    if items != [] {
      var pre := items[..|items| - 1];
      ActivateSavesVerified(system, credsDir, creds, pre, mpw, verify);
      var a := ActivateLoop(system, credsDir, creds, items, mpw, verify);
      var b := ActivateLoop(system, credsDir, creds, pre, mpw, verify);
      var v := VerifiedPaths(system, credsDir, items, mpw, verify);
      var w := VerifiedPaths(system, credsDir, pre, mpw, verify);
      assert v[..|w|] == w;
      ActivateLast(system, credsDir, creds, items, mpw, verify);
      forall k | 0 <= k < |a.saved|
        ensures a.saved[k] in v
      {
        if k < |b.saved| {
          assert a.saved[k] == b.saved[k] && b.saved[k] in w;
        } else {
          assert v[|w|] == a.saved[k];
        }
      }
    }
  }

  /** The last item adds at most one saved path, its own, and only when it verified. */
  lemma ActivateLast(system: Os, credsDir: string, creds: map<string, Entry>, items: seq<CredItem>, mpw: string, verify: Verify)
    requires items != []
    ensures var a := ActivateLoop(system, credsDir, creds, items, mpw, verify);
            var b := ActivateLoop(system, credsDir, creds, items[..|items| - 1], mpw, verify);
            |b.saved| <= |a.saved| <= |b.saved| + 1 && a.saved[..|b.saved|] == b.saved
            && (|a.saved| > |b.saved| ==>
                  Verified(items[|items| - 1], mpw, verify)
                  && a.saved[|b.saved|] == PathJoin(system, credsDir, items[|items| - 1].name.value))
  {
  }

  /** The state `save_state({"activated": True})` writes. */
  function ActivatedState(): Json
  {
    JObj([("activated", JBool(true))])
  }

  /** The answer `{"ok": true, "saved": [...], "errors": [...]}`; each error is named by its credential. */
  datatype ActivateReply = ActivateReply(saved: seq<string>, errors: seq<Option<string>>)

  /**
   * `api_activate` after the activation service answered (`envelope`: its credential list, or the
   * exception a call raised). 400 without a code or master password, 500 for any escaping exception.
   */
  method ApiActivate(code: Option<string>, mpw: Option<string>, envelope: Result<seq<CredItem>, string>,
                     store: LocalStore, verify: Verify) returns (r: Result<ActivateReply, int>)
    modifies store
    ensures code.None? || code.value == "" || mpw.None? || mpw.value == "" ==>
              r == Err(400) && store.creds == old(store.creds) && store.state == old(store.state)
    ensures code.Some? && code.value != "" && mpw.Some? && mpw.value != "" && envelope.Err? ==>
              r == Err(500) && store.creds == old(store.creds) && store.state == old(store.state)
    ensures code.Some? && code.value != "" && mpw.Some? && mpw.value != "" && envelope.Ok? ==>
              var a := ActivateLoop(store.system, store.credsDir, old(store.creds), envelope.value, mpw.value, verify);
              store.creds == a.creds
              && (a.crashed ==> r == Err(500) && store.state == old(store.state))
              && (!a.crashed ==> r == Ok(ActivateReply(a.saved, a.errors))
                                 && store.state == (if a.saved != [] then Some(Saved(ActivatedState())) else old(store.state)))
  {
    if code.None? || code.value == "" || mpw.None? || mpw.value == "" {
      return Err(400);
    }
    if envelope.Err? {
      return Err(500);
    }
    var items := envelope.value;
    ghost var creds0 := store.creds;
    var saved: seq<string> := [];
    var errors: seq<Option<string>> := [];
    var i := 0;
    while i < |items|
      invariant 0 <= i <= |items|
      invariant ActivateLoop(store.system, store.credsDir, creds0, items[..i], mpw.value, verify) == Activation(store.creds, saved, errors, false)
      invariant store.state == old(store.state)
    {
      assert items[..i + 1][..i] == items[..i];
      var item := items[i];
      if item.NotADict? {
        ActivateStopsAtCrash(store.system, store.credsDir, creds0, items, i + 1, mpw.value, verify);
        return Err(500);
      }
      ghost var before := store.creds;
      var p := store.SaveCredential(item.name, item.token, item.salt);
      if p.None? || item.salt.None? {
        errors := errors + [item.name];
      } else {
        match verify(item.token.value, item.salt.value, mpw.value) {
          case Ok(_) =>
            saved := saved + [p.value];
          case Err(_) =>
            errors := errors + [item.name];
        }
      }
      assert (store.creds, p.Some?) == SaveResult(before, item.name, item.token, item.salt);
      i := i + 1;
    }
    assert items[..i] == items;
    if saved != [] {
      store.SaveState(ActivatedState());
    }
    r := Ok(ActivateReply(saved, errors));
  }

  // ----- /tmp_uploads/{file_name} -----

  predicate IsComponent(c: string)
  {
    c != "" && c != "."
  }

  /** The components `Path` keeps of a '/'-separated string: empty and "." parts are dropped. */
  function Components(p: string): (r: seq<string>)
    ensures forall i :: 0 <= i < |r| ==> r[i] != "" && r[i] != "." && '/' !in r[i]
  {
    Filter(SplitOn(p, '/'), IsComponent)
  }

  /** Joining plain components with '/' and reading them back gives the same components. */
  lemma ComponentsOfJoin(ws: seq<string>)
    requires |ws| >= 1 && forall i :: 0 <= i < |ws| ==> IsComponent(ws[i]) && '/' !in ws[i]
    ensures Components(JoinOn(ws, '/')) == ws
  {
    SplitJoin(ws, '/');
    FilterAll(ws, IsComponent);
  }

  /** `resolve()` on a path without symbolic links: each ".." drops the component before it, and stays at the root. */
  function Normalize(ps: seq<string>): (r: seq<string>)
    ensures |r| <= |ps|
    ensures forall i :: 0 <= i < |r| ==> r[i] != ".." && r[i] in ps
  {
    if ps == [] then []
    else
      var pre := Normalize(ps[..|ps| - 1]);
      var x := ps[|ps| - 1];
      assert forall i :: 0 <= i < |pre| ==> pre[i] in ps;
      if x == ".." then (if pre == [] then [] else pre[..|pre| - 1])
      else pre + [x]
  }

  /** One more component: ".." drops the last resolved component, anything else is appended. */
  lemma NormalizeSnoc(ps: seq<string>, x: string)
    ensures Normalize(ps + [x])
            == if x == ".." then (if Normalize(ps) == [] then [] else Normalize(ps)[..|Normalize(ps)| - 1])
               else Normalize(ps) + [x]
  {
    assert (ps + [x])[..|ps|] == ps;
  }

  /** A path without ".." is already resolved, so resolving twice is resolving once. */
  lemma {:induction false} NormalizeFixed(ps: seq<string>)
    requires forall i :: 0 <= i < |ps| ==> ps[i] != ".."
    ensures Normalize(ps) == ps
  {
    if ps != [] {
      NormalizeFixed(ps[..|ps| - 1]);
      assert ps == ps[..|ps| - 1] + [ps[|ps| - 1]];
    }
  }

  lemma NormalizeIdempotent(ps: seq<string>)
    ensures Normalize(Normalize(ps)) == Normalize(ps)
  {
    NormalizeFixed(Normalize(ps));
  }

  /** "/a/b" for the components ["a", "b"]; the empty string for none. */
  function Render(ps: seq<string>): (r: string)
    ensures ps != [] ==> |r| > 0 && r[0] == '/'
  {
    if ps == [] then "" else Render(ps[..|ps| - 1]) + "/" + ps[|ps| - 1]
  }

  lemma {:induction false} RenderAppend(a: seq<string>, b: seq<string>)
    ensures Render(a + b) == Render(a) + Render(b)
    decreases |b|
  {
    if b != [] {
      var b' := b[..|b| - 1];
      assert (a + b)[..|a + b| - 1] == a + b';
      assert (a + b)[|a + b| - 1] == b[|b| - 1];
      RenderAppend(a, b');
    } else {
      assert a + b == a;
    }
  }

  /** `str(path)` of an absolute path: "/" for the root. */
  function PathString(ps: seq<string>): string
  {
    if ps == [] then "/" else Render(ps)
  }

  /** `(Path(os.getcwd()) / 'tmp_uploads').resolve()`, with `cwd` the components of the working directory. */
  function UploadBase(cwd: seq<string>): (r: seq<string>)
    ensures r == Normalize(cwd) + ["tmp_uploads"]
  {
    var ps := cwd + ["tmp_uploads"];
    assert ps[..|ps| - 1] == cwd;
    Normalize(ps)
  }

  /** `(base / file_name).resolve()`: an absolute `file_name` replaces the base. */
  function UploadTarget(cwd: seq<string>, fileName: string): seq<string>
  {
    Normalize(if IsPrefix("/", fileName) then Components(fileName) else cwd + ["tmp_uploads"] + Components(fileName))
  }

  /** The answer of the route: 403, 404, or the file at the resolved path. */
  datatype FileAnswer = Forbidden | NotFound | Serve(path: string)

  /** The route as written: the guard compares path strings, so a sibling such as `tmp_uploads_old` passes. */
  function ServeTmpUploadAsWritten(cwd: seq<string>, fileName: string, files: set<string>): (r: FileAnswer)
    ensures r.Serve? ==> r.path in files && IsPrefix(PathString(UploadBase(cwd)), r.path)
  {
    var base := PathString(UploadBase(cwd));
    var target := PathString(UploadTarget(cwd, fileName));
    if !IsPrefix(base, target) then Forbidden
    else if target !in files then NotFound
    else Serve(target)
  }

  /** `target.is_relative_to(base)`: the base's components start the target's. */
  predicate Within(base: seq<string>, target: seq<string>)
  {
    |base| <= |target| && target[..|base|] == base
  }

  /** The route with the guard it evidently intends: only the upload directory's own tree is served. */
  function ServeTmpUpload(cwd: seq<string>, fileName: string, files: set<string>): (r: FileAnswer)
    ensures r.Forbidden? <==> !Within(UploadBase(cwd), UploadTarget(cwd, fileName))
    ensures r.Serve? <==> Within(UploadBase(cwd), UploadTarget(cwd, fileName)) && PathString(UploadTarget(cwd, fileName)) in files
    ensures r.Serve? ==> r.path == PathString(UploadTarget(cwd, fileName))
  {
    var base := UploadBase(cwd);
    var target := UploadTarget(cwd, fileName);
    if !Within(base, target) then Forbidden
    else if PathString(target) !in files then NotFound
    else Serve(PathString(target))
  }

  /** Within the base, the path string extends the base's by a "/" and more components. */
  lemma WithinPathString(base: seq<string>, target: seq<string>)
    requires base != [] && Within(base, target)
    ensures PathString(target) == PathString(base) || IsPrefix(PathString(base) + "/", PathString(target))
  {
    var rest := target[|base|..];
    assert target == base + rest;
    RenderAppend(base, rest);
    if rest != [] {
      assert PathString(target) == Render(base) + Render(rest);
      assert (Render(base) + Render(rest))[..|Render(base)| + 1] == Render(base) + "/";
    } else {
      assert target == base;
    }
  }

  /** Every file the route serves is a file inside the upload directory's tree. */
  lemma ServedInsideUploads(cwd: seq<string>, fileName: string, files: set<string>)
    requires ServeTmpUpload(cwd, fileName, files).Serve?
    ensures var p := ServeTmpUpload(cwd, fileName, files).path;
            p in files && (IsPrefix(PathString(UploadBase(cwd)) + "/", p) || p == PathString(UploadBase(cwd)))
  {
    WithinPathString(UploadBase(cwd), UploadTarget(cwd, fileName));
  }

  /** The written guard lets through everything the intended one does, with the same answer. */
  lemma IntendedAgreesWhereAllowed(cwd: seq<string>, fileName: string, files: set<string>)
    requires !ServeTmpUpload(cwd, fileName, files).Forbidden?
    ensures ServeTmpUploadAsWritten(cwd, fileName, files) == ServeTmpUpload(cwd, fileName, files)
  {
    var base := PathString(UploadBase(cwd));
    var target := PathString(UploadTarget(cwd, fileName));
    WithinPathString(UploadBase(cwd), UploadTarget(cwd, fileName));
    if target != base {
      assert target[..|base|] == (base + "/")[..|base|];
    }
  }

  /** Resolving `<cwd>/tmp_uploads/../<n>/<f>` from a resolved working directory gives `<cwd>/<n>/<f>`. */
  lemma SiblingTarget(cwd: seq<string>, n: string, f: string)
    requires forall i :: 0 <= i < |cwd| ==> cwd[i] != ".."
    requires IsComponent(n) && '/' !in n && n != ".." && IsComponent(f) && '/' !in f && f != ".."
    ensures UploadTarget(cwd, "../" + n + "/" + f) == cwd + [n, f]
  {
    SiblingComponents(n, f);
    SiblingNormalize(cwd, n, f);
  }

  /** `"../<n>/<f>"` is relative and reads back as the components "..", n and f. */
  lemma SiblingComponents(n: string, f: string)
    requires IsComponent(n) && '/' !in n && IsComponent(f) && '/' !in f
    ensures !IsPrefix("/", "../" + n + "/" + f)
    ensures Components("../" + n + "/" + f) == ["..", n, f]
  {
    var ws := ["..", n, f];
    assert ws[1..] == [n, f] && [n, f][1..] == [f];
    assert JoinOn([n, f], '/') == n + "/" + f;
    assert JoinOn(ws, '/') == "../" + n + "/" + f;
    ComponentsOfJoin(ws);
  }

  /** Below a resolved directory, `tmp_uploads/..` cancels out. */
  lemma SiblingNormalize(cwd: seq<string>, n: string, f: string)
    requires forall i :: 0 <= i < |cwd| ==> cwd[i] != ".."
    requires IsComponent(n) && n != ".." && IsComponent(f) && f != ".."
    ensures Normalize(cwd + ["tmp_uploads"] + ["..", n, f]) == cwd + [n, f]
  {
    NormalizeFixed(cwd);
    var p1 := cwd + ["tmp_uploads"];
    NormalizeSnoc(cwd, "tmp_uploads");
    var p2 := p1 + [".."];
    NormalizeSnoc(p1, "..");
    var p3 := p2 + [n];
    NormalizeSnoc(p2, n);
    var p4 := p3 + [f];
    NormalizeSnoc(p3, f);
    SnocTwo(cwd, n, f);
    SnocThree(p1, "..", n, f);
    assert cwd + ["tmp_uploads"] + ["..", n, f] == p4;
  }

  /** The written guard compares strings: `<cwd>/tmp_uploads` is a prefix of `<cwd>/tmp_uploads<x>/<f>`. */
  lemma SiblingStringPrefix(cwd: seq<string>, x: string, f: string)
    ensures IsPrefix(PathString(cwd + ["tmp_uploads"]), PathString(cwd + ["tmp_uploads" + x, f]))
  {
    var n := "tmp_uploads" + x;
    var base := Render(cwd) + "/" + "tmp_uploads";
    RenderSnoc(cwd, "tmp_uploads");
    RenderSnoc(cwd, n);
    RenderSnoc(cwd + [n], f);
    assert cwd + [n] + [f] == cwd + [n, f];
    assert PathString(cwd + [n, f]) == base + (x + "/" + f);
    assert (base + (x + "/" + f))[..|base|] == base;
  }

  /**
   * From any resolved working directory, `GET /tmp_uploads/../tmp_uploads<x>/<f>` (for instance
   * `../tmp_uploads_old/a.csv`) serves a file of a sibling directory under the written guard, and is
   * refused under the intended one.
   */
  lemma SiblingServedAsWritten(cwd: seq<string>, x: string, f: string)
    requires forall i :: 0 <= i < |cwd| ==> cwd[i] != ".."
    requires x != "" && '/' !in x && IsComponent(f) && '/' !in f && f != ".."
    ensures var target := PathString(cwd + ["tmp_uploads" + x, f]);
            ServeTmpUploadAsWritten(cwd, "../tmp_uploads" + x + "/" + f, {target}) == Serve(target)
    ensures ServeTmpUpload(cwd, "../tmp_uploads" + x + "/" + f, {PathString(cwd + ["tmp_uploads" + x, f])}) == Forbidden
  {
    var n := "tmp_uploads" + x;
    assert n != ".." && n != "tmp_uploads";
    assert "../" + n + "/" + f == "../tmp_uploads" + x + "/" + f;
    SiblingTarget(cwd, n, f);
    var b := cwd + ["tmp_uploads"];
    var t := cwd + [n, f];
    assert UploadBase(cwd) == b by { NormalizeFixed(cwd); }
    SiblingStringPrefix(cwd, x, f);
    assert t[..|b|] == cwd + [n];
    assert (cwd + [n])[|cwd|] != b[|cwd|];
  }

  lemma RenderSnoc(ps: seq<string>, c: string)
    ensures Render(ps + [c]) == Render(ps) + "/" + c
  {
    assert (ps + [c])[..|ps|] == ps;
  }

  // ----- /static/{full_path} -----

  /**
   * Who asks: `session` is None where reading `request.session` raises (no session middleware), else the
   * `moodar_username` value, if any; `cookie` is the `moodar_logged_in` cookie.
   */
  datatype Visitor = Visitor(session: Option<Option<Json>>, cookie: Option<string>)

  predicate Authenticated(v: Visitor)
  {
    match v.session
    case Some(user) => user.Some? && Truthy(user.value)
    case None => v.cookie.Some? && v.cookie.value != ""
  }

  /** The pages anyone may see, by `endswith`. */
  predicate PublicPage(fullPath: string)
  {
    IsSuffix("welcome.html", fullPath) || IsSuffix("activation.html", fullPath)
  }

  datatype StaticAnswer = Page(path: string) | Missing

  /**
   * `protected_static`: a visitor who is not logged in and asks for an .html page that is not public gets
   * welcome.html when it exists; otherwise the requested file when it exists, else 404.
   */
  function ProtectedStatic(staticDir: string, fullPath: string, v: Visitor, files: set<string>): (r: StaticAnswer)
    ensures r.Page? ==> r.path in files
    ensures r.Page? ==> r.path == PyJoin(staticDir, fullPath) || r.path == Join(staticDir, "welcome.html")
  {
    var welcome := Join(staticDir, "welcome.html");
    var candidate := PyJoin(staticDir, fullPath);
    if IsSuffix(".html", fullPath) && !PublicPage(fullPath) && !Authenticated(v) && welcome in files then Page(welcome)
    else if candidate in files then Page(candidate)
    else Missing
  }

  /**
   * A visitor who is not logged in receives a non-public .html page only when welcome.html is missing;
   * while it exists, welcome.html is what they get.
   */
  lemma GatedPagesNeedLogin(staticDir: string, fullPath: string, v: Visitor, files: set<string>)
    requires !Authenticated(v) && IsSuffix(".html", fullPath) && !PublicPage(fullPath)
    ensures Join(staticDir, "welcome.html") in files ==> ProtectedStatic(staticDir, fullPath, v, files) == Page(Join(staticDir, "welcome.html"))
    ensures ProtectedStatic(staticDir, fullPath, v, files) == Page(PyJoin(staticDir, fullPath)) ==>
              Join(staticDir, "welcome.html") !in files || PyJoin(staticDir, fullPath) == Join(staticDir, "welcome.html")
  {
  }

  /** A logged-in visitor, and any request for a public page or a non-.html file, gets the file itself or 404. */
  lemma OpenRequestsServeTheFile(staticDir: string, fullPath: string, v: Visitor, files: set<string>)
    requires Authenticated(v) || !IsSuffix(".html", fullPath) || PublicPage(fullPath)
    ensures ProtectedStatic(staticDir, fullPath, v, files) == if PyJoin(staticDir, fullPath) in files then Page(PyJoin(staticDir, fullPath)) else Missing
  {
  }

  /** The public test is a suffix test: any page whose name ends in "welcome.html" is public. */
  lemma SuffixMakesPublic()
    ensures ProtectedStatic("/s", "old_welcome.html", Visitor(Some(None), None), {"/s/old_welcome.html", "/s/welcome.html"}) == Page("/s/old_welcome.html")
  {
    assert IsSuffix("welcome.html", "old_welcome.html") && IsSuffix(".html", "old_welcome.html");
    assert PyJoin("/s", "old_welcome.html") == "/s/old_welcome.html";
  }

  // ----- / -----

  /** `index`: welcome.html when it exists, else index.html when it exists, else 404. */
  function Index(staticDir: string, files: set<string>): (r: StaticAnswer)
    ensures r.Page? ==> r.path in files
    ensures r == Page(Join(staticDir, "welcome.html")) <==> Join(staticDir, "welcome.html") in files
    ensures r == Page(Join(staticDir, "index.html")) <==>
              Join(staticDir, "welcome.html") !in files && Join(staticDir, "index.html") in files
    ensures r.Missing? <==> Join(staticDir, "welcome.html") !in files && Join(staticDir, "index.html") !in files
  {
    var welcome := Join(staticDir, "welcome.html");
    var idx := Join(staticDir, "index.html");
    assert |welcome| != |idx|;
    if welcome in files then Page(welcome)
    else if idx in files then Page(idx)
    else Missing
  }

  // ----- /api/credentials -----

  /**
   * `p.suffix == '.enc'`: the name ends in ".enc" after at least one more character, since a name's
   * leading dot does not start a suffix.
   */
  predicate EncName(name: string)
  {
    |name| > 4 && IsSuffix(".enc", name)
  }

  /** Keeping some elements of a sorted sequence leaves it sorted. */
  lemma {:induction false} FilterKeepsSorted(s: seq<string>, p: string -> bool)
    requires Sorting.SortedBy(s, Sorting.Id)
    ensures Sorting.SortedBy(Filter(s, p), Sorting.Id)
  {
    if s != [] {
      var init := s[..|s| - 1];
      var last := s[|s| - 1];
      assert Sorting.SortedBy(init, Sorting.Id) by {
        forall i, j | 0 <= i < j < |init| ensures Sorting.LexLe(Sorting.Id(init[i]), Sorting.Id(init[j])) {
          assert init[i] == s[i] && init[j] == s[j];
        }
      }
      FilterKeepsSorted(init, p);
      var f := Filter(init, p);
      forall k | 0 <= k < |f| ensures Sorting.LexLe(f[k], last) {
        assert f[k] in init;
        var i :| 0 <= i < |init| && init[i] == f[k];
        assert Sorting.LexLe(Sorting.Id(s[i]), Sorting.Id(s[|s| - 1]));
      }
    }
  }

  /**
   * `api_credentials`: the `.enc` names of the credentials directory, sorted; none when the directory
   * does not exist. `listing` is the directory's entry names in the order `iterdir` yields them.
   */
  function CredentialNames(dirExists: bool, listing: seq<string>): (r: seq<string>)
    ensures !dirExists ==> r == []
    ensures forall i :: 0 <= i < |r| ==> EncName(r[i]) && r[i] in listing
    ensures dirExists ==> forall i :: 0 <= i < |listing| && EncName(listing[i]) ==> listing[i] in r
    ensures Sorting.SortedBy(r, Sorting.Id)
  {
    if !dirExists then []
    else
      var sorted := Sorting.SortStrings(listing);
      assert forall i :: 0 <= i < |sorted| ==> sorted[i] in multiset(listing);
      assert forall i :: 0 <= i < |listing| ==> listing[i] in multiset(sorted);
      FilterKeepsSorted(sorted, EncName);
      Filter(sorted, EncName)
  }

  /** `api_credential_download`: the file `creds_dir/name` when it exists, else 404. */
  function CredentialDownload(system: Os, credsDir: string, name: string, present: set<string>): (r: FileAnswer)
    ensures !r.Forbidden?
    ensures r.Serve? <==> PathJoin(system, credsDir, name) in present
    ensures r.Serve? ==> r.path == PathJoin(system, credsDir, name)
  {
    var p := PathJoin(system, credsDir, name);
    if p in present then Serve(p) else NotFound
  }

  /** Every name the listing route offers can be downloaded, as long as the directory's entries exist. */
  lemma ListedCredentialsDownload(system: Os, credsDir: string, listing: seq<string>, present: set<string>, name: string)
    requires forall i :: 0 <= i < |listing| ==> PathJoin(system, credsDir, listing[i]) in present
    requires name in CredentialNames(true, listing)
    ensures CredentialDownload(system, credsDir, name, present) == Serve(PathJoin(system, credsDir, name))
  {
    var r := CredentialNames(true, listing);
    var k :| 0 <= k < |r| && r[k] == name;
    assert name in listing;
  }
}
