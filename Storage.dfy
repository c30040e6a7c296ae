/**
 * The local credential store (activation/storage.py): where the per-user data directory is, the
 * encrypted credential files in its `credenciais` sub-directory, and the `state.json` file.
 */
module Storage {
  import opened Wrappers
  import opened Json

  /** What `platform.system()` reports. */
  datatype Os = Windows | Darwin | OtherOs

  /** The process environment; `os.getenv(k)` is None for a missing key. */
  type Env = map<string, string>

  /** `os.getenv(k)` is set and non-empty, so that `os.getenv(k) or ...` picks it. */
  predicate EnvSet(env: Env, k: string)
  {
    k in env && env[k] != ""
  }

  function Sep(system: Os): char
  {
    if system == Windows then '\\' else '/'
  }

  /**
   * Joining a directory and a relative name with one separator of the given system. This is
   * `os.path.join(a, b)` and `Path(a) / b` only for a non-empty `a` without a trailing separator and a
   * `b` without "." or ".." components: `os.path.join` adds no separator after one that is already
   * there, and `Path` also normalises the result.
   */
  function PathJoin(system: Os, a: string, b: string): (r: string)
    ensures |r| == |a| + 1 + |b|
    ensures r[..|a|] == a && r[|a|] == Sep(system) && r[|a| + 1..] == b
  {
    a + [Sep(system)] + b
  }

  /**
   * The fallback `_user_data_dir` used when `appdirs` is missing. On Windows: LOCALAPPDATA, then APPDATA,
   * then ~/AppData/Local; on macOS: ~/Library/Application Support; elsewhere: XDG_DATA_HOME or ~/.local/share.
   */
  function UserDataDir(system: Os, home: string, env: Env, app: string): (r: string)
    ensures system == Windows && EnvSet(env, "LOCALAPPDATA") ==> r == PathJoin(system, env["LOCALAPPDATA"], app)
    ensures system == Windows && !EnvSet(env, "LOCALAPPDATA") && EnvSet(env, "APPDATA") ==> r == PathJoin(system, env["APPDATA"], app)
    ensures system == Windows && !EnvSet(env, "LOCALAPPDATA") && !EnvSet(env, "APPDATA") ==>
              r == PathJoin(system, PathJoin(system, PathJoin(system, home, "AppData"), "Local"), app)
    ensures system == Darwin ==> r == PathJoin(system, PathJoin(system, PathJoin(system, home, "Library"), "Application Support"), app)
    ensures system == OtherOs && EnvSet(env, "XDG_DATA_HOME") ==> r == PathJoin(system, env["XDG_DATA_HOME"], app)
    ensures system == OtherOs && !EnvSet(env, "XDG_DATA_HOME") ==> r == PathJoin(system, PathJoin(system, PathJoin(system, home, ".local"), "share"), app)
  {
    match system
    case Windows =>
      if EnvSet(env, "LOCALAPPDATA") then PathJoin(system, env["LOCALAPPDATA"], app)
      else if EnvSet(env, "APPDATA") then PathJoin(system, env["APPDATA"], app)
      else PathJoin(system, PathJoin(system, PathJoin(system, home, "AppData"), "Local"), app)
    case Darwin => PathJoin(system, PathJoin(system, PathJoin(system, home, "Library"), "Application Support"), app)
    case OtherOs =>
      if EnvSet(env, "XDG_DATA_HOME") then PathJoin(system, env["XDG_DATA_HOME"], app)
      else PathJoin(system, PathJoin(system, PathJoin(system, home, ".local"), "share"), app)
  }

  /** The application's directory is always the last component of the data directory. */
  lemma UserDataDirEndsWithApp(system: Os, home: string, env: Env, app: string)
    ensures var r := UserDataDir(system, home, env, app);
            |r| > |app| && r[|r| - |app| - 1] == Sep(system) && r[|r| - |app|..] == app
  {
  }

  /** Only the variables of the running system are consulted: XDG_DATA_HOME never matters on Windows or macOS. */
  lemma UserDataDirIgnoresXdg(system: Os, home: string, env: Env, app: string, xdg: string)
    requires system != OtherOs
    ensures UserDataDir(system, home, env["XDG_DATA_HOME" := xdg], app) == UserDataDir(system, home, env, app)
  {
    var env' := env["XDG_DATA_HOME" := xdg];
    assert EnvSet(env', "LOCALAPPDATA") == EnvSet(env, "LOCALAPPDATA");
    assert EnvSet(env', "APPDATA") == EnvSet(env, "APPDATA");
  }

  /**
   * `_user_data_dir(app_name)`: `appdirs.user_data_dir(app_name)` when `appdirs` is installed
   * (`appdirsDir` is what it answers, None when the import fails), else the fallback above.
   */
  function DataDir(appdirsDir: Option<string>, system: Os, home: string, env: Env, app: string): (r: string)
    ensures appdirsDir.Some? ==> r == appdirsDir.value
    ensures appdirsDir.None? ==> r == UserDataDir(system, home, env, app)
  {
    match appdirsDir
    case Some(d) => d
    case None => UserDataDir(system, home, env, app)
  }

  /** A directory entry: a regular file with its text, or a sub-directory. */
  datatype Entry = File(text: string) | Dir

  /** The state file's contents: what `json.dumps` wrote, or text `json.loads` rejects. */
  datatype StateContent = Saved(state: Json) | Unreadable

  /**
   * A name `Path(creds_dir) / name` turns into a file directly inside the directory. Both '/' and '\\'
   * count as separators here, on every system.
   */
  predicate PlainName(name: string)
  {
    name != "" && name != "." && name != ".." && '/' !in name && '\\' !in name
  }

  /**
   * When this model lets a save write a name: a plain name that is not a sub-directory. "", "." and
   * ".." name a directory, so `write_text` fails on them as here. A name with a separator is counted
   * as a failed write as well. The source instead writes wherever that name points (an absolute path,
   * a path that climbs out with "..", or a file in a sub-directory) and returns, but this model holds
   * only the entries directly inside the credentials directory.
   */
  predicate Writable(creds: map<string, Entry>, name: string)
  {
    PlainName(name) && !(name in creds && creds[name].Dir?)
  }

  /**
   * The credentials directory after `save_credential(name, token, salt)`, and whether it returned:
   * the token file is written first, then the salt file only when a salt is given.
   */
  function SaveResult(creds: map<string, Entry>, name: Option<string>, token: Option<string>, salt: Option<string>): (r: (map<string, Entry>, bool))
    ensures r.1 <==> name.Some? && token.Some? && Writable(creds, name.value) && (salt.Some? ==> Writable(creds, name.value + ".salt"))
    ensures r.1 ==> name.value in r.0 && r.0[name.value] == File(token.value)
    ensures r.1 && salt.Some? ==> name.value + ".salt" in r.0 && r.0[name.value + ".salt"] == File(salt.value)
    ensures r.1 && salt.None? ==> r.0 == creds[name.value := File(token.value)]
    ensures !r.1 ==> r.0 == creds || (name.Some? && token.Some? && r.0 == creds[name.value := File(token.value)])
  {
    if name.None? || token.None? || !Writable(creds, name.value) then (creds, false)
    else
      var c := creds[name.value := File(token.value)];
      if salt.None? then (c, true)
      else if Writable(creds, name.value + ".salt") then (c[name.value + ".salt" := File(salt.value)], true)
      else (c, false)
  }

  /** A save that returned changes only the token and salt entries. */
  lemma SaveTouchesOnlyItsFiles(creds: map<string, Entry>, name: string, token: string, salt: Option<string>, other: string)
    requires other != name && other != name + ".salt"
    ensures var r := SaveResult(creds, Some(name), Some(token), salt);
            (other in r.0 <==> other in creds) && (other in creds ==> r.0[other] == creds[other])
  {
  }

  /** `load_state`: the saved dict, or `{}` when the file is missing or is not JSON. */
  function StateOf(c: Option<StateContent>): (r: Json)
    ensures c == None || c == Some(Unreadable) ==> r == JObj([])
    ensures forall s :: c == Some(Saved(s)) ==> r == s
  {
    match c
    case Some(Saved(s)) => s
    case _ => JObj([])
  }

  class LocalStore {
    const system: Os
    const baseDir: string
    const credsDir: string
    const stateFile: string
    /** The entries directly inside `credsDir`, by name. */
    var creds: map<string, Entry>
    /** The state file, None while it does not exist. */
    var state: Option<StateContent>

    /**
     * `LocalStore(app_name)` over the disk as found: `creds0` in the credentials directory, `state0` in
     * state.json; `appdirsDir` is the answer of `appdirs`, None when it is not installed.
     */
    constructor(appdirsDir: Option<string>, system: Os, home: string, env: Env, appName: string,
                creds0: map<string, Entry>, state0: Option<StateContent>)
      ensures this.system == system
      ensures baseDir == DataDir(appdirsDir, system, home, env, appName)
      ensures credsDir == PathJoin(system, baseDir, "credenciais")
      ensures stateFile == PathJoin(system, baseDir, "state.json")
      ensures creds == creds0 && state == state0
    {
      this.system := system;
      baseDir := DataDir(appdirsDir, system, home, env, appName);
      credsDir := PathJoin(system, DataDir(appdirsDir, system, home, env, appName), "credenciais");
      stateFile := PathJoin(system, DataDir(appdirsDir, system, home, env, appName), "state.json");
      creds := creds0;
      state := state0;
    }

    /** `save_credential`: Some(creds_dir/name) when it returns, None when it raises. */
    method SaveCredential(name: Option<string>, token: Option<string>, salt: Option<string>) returns (r: Option<string>)
      modifies this
      ensures (creds, r.Some?) == SaveResult(old(creds), name, token, salt)
      ensures r.Some? ==> r.value == PathJoin(system, credsDir, name.value)
      ensures state == old(state)
    {
      if name.None? || token.None? || !Writable(creds, name.value) {
        return None;
      }
      var before := creds;
      creds := creds[name.value := File(token.value)];
      if salt.Some? {
        if !Writable(before, name.value + ".salt") {
          return None;
        }
        creds := creds[name.value + ".salt" := File(salt.value)];
      }
      r := Some(PathJoin(system, credsDir, name.value));
    }

    /** `load_state`. */
    method LoadState() returns (r: Json)
      ensures r == StateOf(state)
    {
      r := StateOf(state);
    }

    /** `save_state`: the file is replaced by the dumped dict. */
    method SaveState(s: Json)
      modifies this
      ensures state == Some(Saved(s)) && creds == old(creds)
    {
      state := Some(Saved(s));
    }
  }

}
