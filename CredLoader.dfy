/**
 * Loading a service account from the local encrypted credentials without the web flow
 * (ui/web/api/cred_loader.py). Directories on disk are a map from path to entries; decryption and
 * JSON parsing are parameters.
 */
module CredLoader {
  import opened Wrappers
  import opened Strs
  import opened SeqUtil
  import opened Json
  import opened Storage
  import opened Unlock

  /** Existing directories, by path, with their entries by name. */
  type Dirs = map<string, map<string, Entry>>

  /**
   * `_find_creds_dir()`: DV_CRED_DIR when set and existing, else the store's credentials directory when the
   * store could be built (`storeDir` Some) and the directory exists, else `<repo>/credenciais`.
   */
  function FindCredsDir(env: Env, dirs: Dirs, storeDir: Option<string>, repoRoot: string): (r: string)
    ensures EnvSet(env, "DV_CRED_DIR") && env["DV_CRED_DIR"] in dirs ==> r == env["DV_CRED_DIR"]
    ensures !(EnvSet(env, "DV_CRED_DIR") && env["DV_CRED_DIR"] in dirs) && storeDir.Some? && storeDir.value in dirs ==> r == storeDir.value
    ensures r in dirs || r == repoRoot + "/credenciais"
  {
    if EnvSet(env, "DV_CRED_DIR") && env["DV_CRED_DIR"] in dirs then env["DV_CRED_DIR"]
    else if storeDir.Some? && storeDir.value in dirs then storeDir.value
    else repoRoot + "/credenciais"
  }

  /** Decoding a plaintext: `json.loads(plaintext.decode('utf-8'))`, None where either raises. */
  type Decode = string -> Option<Json>

  /**
   * What one listed entry yields inside the `try`: a `.enc` file (by `endswith`) with a readable salt file,
   * a successful decryption, and JSON text. None for every `continue`.
   */
  function EntryValue(entries: map<string, Entry>, name: string, pw: string, verify: Verify, decode: Decode): (r: Option<Json>)
    ensures r.Some? ==> name in entries && entries[name].File? && IsSuffix(".enc", name)
  {
    if !(name in entries && entries[name].File? && IsSuffix(".enc", name)) then None
    else if !(name + ".salt" in entries && entries[name + ".salt"].File?) then None
    else match verify(entries[name].text, entries[name + ".salt"].text, pw)
      case Err(_) => None
      case Ok(p) => decode(p)
  }

  /** The entry yields a dict with both `client_email` and `private_key`, which ends the loop. */
  predicate Accepts(entries: map<string, Entry>, name: string, pw: string, verify: Verify, decode: Decode)
  {
    var v := EntryValue(entries, name, pw, verify, decode);
    v.Some? && HasKeyPair(v.value)
  }

  function AcceptsIn(entries: map<string, Entry>, pw: string, verify: Verify, decode: Decode): string -> bool
  {
    name => Accepts(entries, name, pw, verify, decode)
  }

  /** `master_password or os.environ.get('DV_MASTER_PASSWORD')`, when truthy. */
  function MasterPassword(arg: Option<string>, env: Env): (r: Option<string>)
    ensures r.Some? ==> r.value != ""
    ensures arg.Some? && arg.value != "" ==> r == arg
  {
    if arg.Some? && arg.value != "" then arg
    else if EnvSet(env, "DV_MASTER_PASSWORD") then Some(env["DV_MASTER_PASSWORD"])
    else None
  }

  /**
   * `try_auto_load_service_account_from_local(master_password)`; `names` is the sorted listing of the chosen
   * directory, `verifyLoaded` whether `verify_token` could be imported.
   */
  method TryAutoLoad(arg: Option<string>, env: Env, dirs: Dirs, storeDir: Option<string>, repoRoot: string,
                     names: seq<string>, verifyLoaded: bool, verify: Verify, decode: Decode) returns (r: Option<Json>)
    requires var d := FindCredsDir(env, dirs, storeDir, repoRoot); d in dirs ==> IsListing(dirs[d], names)
    ensures MasterPassword(arg, env).None? || FindCredsDir(env, dirs, storeDir, repoRoot) !in dirs || !verifyLoaded ==> r.None?
    ensures r.Some? ==> HasKeyPair(r.value)
    ensures var d := FindCredsDir(env, dirs, storeDir, repoRoot);
            MasterPassword(arg, env).Some? && d in dirs && verifyLoaded ==>
              match FirstTrue(MapSeq(names, AcceptsIn(dirs[d], MasterPassword(arg, env).value, verify, decode)))
              case None => r.None?
              case Some(i) => r == EntryValue(dirs[d], names[i], MasterPassword(arg, env).value, verify, decode)
  {
    var mp := MasterPassword(arg, env);
    if mp.None? {
      return None;
    }
    var dir := FindCredsDir(env, dirs, storeDir, repoRoot);
    if dir !in dirs || !verifyLoaded {
      return None;
    }
    var entries := dirs[dir];
    var found := FindFirst(names, AcceptsIn(entries, mp.value, verify, decode));
    match found {
      case None =>
        return None;
      case Some(i) =>
        assert AcceptsIn(entries, mp.value, verify, decode)(names[i]);
        return EntryValue(entries, names[i], mp.value, verify, decode);
    }
  }

  /** The entry returned is the first accepted one of the listing: every earlier entry was skipped. */
  lemma LoadedIsFirstAccepted(entries: map<string, Entry>, names: seq<string>, pw: string, verify: Verify, decode: Decode, i: nat)
    requires FirstTrue(MapSeq(names, AcceptsIn(entries, pw, verify, decode))) == Some(i)
    ensures i < |names| && Accepts(entries, names[i], pw, verify, decode)
    ensures forall j :: 0 <= j < i ==> !Accepts(entries, names[j], pw, verify, decode)
  {
    var p := AcceptsIn(entries, pw, verify, decode);
    FirstTrueMap(names, p, i);
    assert forall j :: 0 <= j < |names| ==> p(names[j]) == Accepts(entries, names[j], pw, verify, decode);
  }

  /** A listing with no accepted entry gives None; one with an accepted entry always gives a value. */
  lemma LoadsIffSomeAccepted(entries: map<string, Entry>, names: seq<string>, pw: string, verify: Verify, decode: Decode)
    ensures FirstTrue(MapSeq(names, AcceptsIn(entries, pw, verify, decode))).Some? <==>
              exists j :: 0 <= j < |names| && Accepts(entries, names[j], pw, verify, decode)
  {
    var p := AcceptsIn(entries, pw, verify, decode);
    FirstTrueExists(names, p);
    assert forall j :: 0 <= j < |names| ==> p(names[j]) == Accepts(entries, names[j], pw, verify, decode);
  }

  /** A name spelled exactly ".enc" is tried here (`endswith`) although `unlock_all` (`Path.suffix`) skips it. */
  lemma BareEncNameDiffers()
    ensures IsSuffix(".enc", ".enc") && !EncSuffix(".enc")
  {
  }
}
