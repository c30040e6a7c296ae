/** The parts of the filesystem the model reads and writes: a map from path to contents. */
module Files {
  import opened Wrappers
  import opened Strs

  /**
   * What a file holds. `MarkerJson` is the JSON object `{"tmp_path": ..., "session_id": ...}` of an
   * awaiting-confirmation marker (a JSON null is None); `Csv` is a written table; `Text` is anything else.
   */
  datatype Content = Text(text: string) | MarkerJson(tmpPath: Option<string>, sessionId: Option<string>) | Csv(rows: seq<seq<string>>)

  type Fs = map<string, Content>

  /** `os.path.join(dir, name)` for a relative `name` on a POSIX system. */
  function Join(dir: string, name: string): string { dir + "/" + name }

  /** `os.path.join(dir, name)` in general: an absolute `name` replaces the directory. */
  function PyJoin(dir: string, name: string): (r: string)
    ensures |name| > 0 && name[0] == '/' ==> r == name
    ensures (|name| == 0 || name[0] != '/') ==> r == Join(dir, name)
  {
    if |name| > 0 && name[0] == '/' then name else Join(dir, name)
  }

  /** `os.path.basename`: the part after the last '/'. */
  function Basename(p: string): (r: string)
    ensures '/' !in r
    ensures IsSuffix(r, p)
  {
    match LastIndexOf(p, '/')
    case None => p
    case Some(k) => p[k + 1..]
  }

  lemma BasenameJoin(dir: string, name: string)
    requires '/' !in name
    ensures Basename(Join(dir, name)) == name
  {
    var p := Join(dir, name);
    assert p[|dir|] == '/';
    assert p[|dir| + 1..] == name;
  }
}
