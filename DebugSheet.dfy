/**
 * The credential and sheet debugging script (scripts/debug_sheet.py): decrypting the local credential
 * blobs, reading them as JSON or text, picking a service account, the strict file-name rules of the
 * Drive search and the access buckets, and the safe display of sheet cells. Decryption, UTF-8 decoding,
 * JSON parsing and every Drive or Sheets call are parameters.
 */
module DebugSheet {
  import opened Wrappers
  import opened Strs
  import opened SeqUtil
  import opened Entries
  import opened Json
  import opened Storage
  import Updater

  type Bytes = seq<bv8>

  /** `verify_token(token, salt_b64, password)`: the plaintext bytes, or the message of what it raises. */
  type Decrypt = (string, string, string) -> Result<Bytes, string>

  // ---------------------------------------------------------------------------------------------
  // decrypt_all

  /** What one listed entry contributes. `Raised`: a salt path that is a directory fails to be read outside the `try`. */
  datatype Outcome = Skipped | Decrypted(plain: Bytes) | Raised

  /**
   * One entry of the sorted listing: skipped unless it is a file whose name ends in ".enc" with a
   * "<name>.salt" beside it and decrypts; missing salts and decryption errors are only reported.
   */
  function OutcomeOf(dir: map<string, Entry>, name: string, pw: string, decrypt: Decrypt): (r: Outcome)
    ensures r.Decrypted? <==> (name in dir && dir[name].File? && IsSuffix(".enc", name)
                               && name + ".salt" in dir && dir[name + ".salt"].File?
                               && decrypt(dir[name].text, dir[name + ".salt"].text, pw).Ok?)
    ensures r.Decrypted? ==> decrypt(dir[name].text, dir[name + ".salt"].text, pw) == Ok(r.plain)
    ensures r.Raised? <==> (name in dir && dir[name].File? && IsSuffix(".enc", name)
                            && name + ".salt" in dir && dir[name + ".salt"].Dir?)
  {
    if name !in dir || !dir[name].File? || !IsSuffix(".enc", name) then Skipped
    else if name + ".salt" !in dir then Skipped
    else if dir[name + ".salt"].Dir? then Raised
    else match decrypt(dir[name].text, dir[name + ".salt"].text, pw)
      case Ok(p) => Decrypted(p)
      case Err(_) => Skipped
  }

  /** The results after the first entries of the listing; None once an exception escaped. */
  function Scan(dir: map<string, Entry>, names: seq<string>, pw: string, decrypt: Decrypt): Option<Table<string, Bytes>>
  {
    if names == [] then Some([])
    else
      var n := names[|names| - 1];
      match Scan(dir, names[..|names| - 1], pw, decrypt)
      case None => None
      case Some(acc) =>
        match OutcomeOf(dir, n, pw, decrypt)
        case Skipped => Some(acc)
        case Decrypted(p) => Some(Put(acc, n, p))
        case Raised => None
  }

  /** `decrypt_all`: an empty map when the directory is missing; None when an exception escaped. */
  function DecryptAll(exists_: bool, dir: map<string, Entry>, names: seq<string>, pw: string, decrypt: Decrypt): Option<Table<string, Bytes>>
  {
    if !exists_ then Some([]) else Scan(dir, names, pw, decrypt)
  }

  /** The loop of `decrypt_all` over the sorted listing. */
  method DecryptAllLoop(exists_: bool, dir: map<string, Entry>, names: seq<string>, pw: string, decrypt: Decrypt)
    returns (results: Option<Table<string, Bytes>>)
    ensures results == DecryptAll(exists_, dir, names, pw, decrypt)
  {
    if !exists_ {
      return Some([]);
    }
    var acc: Table<string, Bytes> := [];
    for i := 0 to |names|
      invariant Scan(dir, names[..i], pw, decrypt) == Some(acc)
    {
      assert names[..i + 1][..i] == names[..i];
      var name := names[i];
      if name in dir && dir[name].File? && IsSuffix(".enc", name) && name + ".salt" in dir {
        if dir[name + ".salt"].Dir? {
          results := None;
          ScanStopsAtRaise(dir, names, i + 1, pw, decrypt);
          return;
        }
        match decrypt(dir[name].text, dir[name + ".salt"].text, pw)
        case Ok(p) =>
          acc := Put(acc, name, p);
        case Err(_) =>
      }
    }
    assert names[..|names|] == names;
    results := Some(acc);
  }

  /** Once an exception escaped, the rest of the listing is never looked at. */
  lemma {:induction false} ScanStopsAtRaise(dir: map<string, Entry>, names: seq<string>, k: nat, pw: string, decrypt: Decrypt)
    requires k <= |names| && Scan(dir, names[..k], pw, decrypt) == None
    ensures Scan(dir, names, pw, decrypt) == None
    decreases |names| - k
  {
    if k < |names| {
      assert names[..k + 1][..k] == names[..k];
      ScanStopsAtRaise(dir, names, k + 1, pw, decrypt);
    } else {
      assert names[..k] == names;
    }
  }

  /**
   * Not all or nothing: when nothing raised, the result holds exactly the entries that decrypted, each
   * with its own plaintext, whatever happened to the others.
   */
  lemma {:induction false} ScanPartial(dir: map<string, Entry>, names: seq<string>, pw: string, decrypt: Decrypt)
    requires forall i :: 0 <= i < |names| ==> !OutcomeOf(dir, names[i], pw, decrypt).Raised?
    ensures Scan(dir, names, pw, decrypt).Some?
    ensures DistinctKeys(Scan(dir, names, pw, decrypt).value)
    ensures forall n :: HasKey(Scan(dir, names, pw, decrypt).value, n) <==> n in names && OutcomeOf(dir, n, pw, decrypt).Decrypted?
    ensures forall n :: HasKey(Scan(dir, names, pw, decrypt).value, n) ==>
              Get(Scan(dir, names, pw, decrypt).value, n) == Some(OutcomeOf(dir, n, pw, decrypt).plain)
  {
    if names != [] {
      var pre := names[..|names| - 1];
      var n := names[|names| - 1];
      assert forall i :: 0 <= i < |pre| ==> pre[i] == names[i];
      ScanPartial(dir, pre, pw, decrypt);
      var acc := Scan(dir, pre, pw, decrypt).value;
      assert names == pre + [n];
      match OutcomeOf(dir, n, pw, decrypt)
      case Skipped =>
      case Decrypted(p) =>
        PutDistinct(acc, n, p);
        forall q ensures Get(Put(acc, n, p), q) == if q == n then Some(p) else Get(acc, q) {
          GetPut(acc, n, p, q);
        }
    }
  }

  // ---------------------------------------------------------------------------------------------
  // pretty_print_decrypted and find_service_account

  /** The parsed form of one blob: `{'_raw_bytes_len': n}` when it is not UTF-8, its JSON value, or its text. */
  function ParsedValue(data: Bytes, decode: Bytes -> Option<string>, loads: string -> Option<Json>): (v: Json)
    ensures decode(data).None? ==> v == JObj([("_raw_bytes_len", JNum(|data|))])
    ensures decode(data).Some? && loads(decode(data).value).Some? ==> v == loads(decode(data).value).value
    ensures decode(data).Some? && loads(decode(data).value).None? ==> v == JStr(decode(data).value)
  {
    match decode(data)
    case None => JObj([("_raw_bytes_len", JNum(|data|))])
    case Some(text) =>
      match loads(text)
      case Some(j) => j
      case None => JStr(text)
  }

  /** `pretty_print_decrypted`: every blob under its own name, in the same order. */
  function PrettyPrint(results: Table<string, Bytes>, decode: Bytes -> Option<string>, loads: string -> Option<Json>): (parsed: Table<string, Json>)
    ensures |parsed| == |results|
    ensures forall i :: 0 <= i < |results| ==> parsed[i] == (results[i].0, ParsedValue(results[i].1, decode, loads))
  {
    seq(|results|, i requires 0 <= i < |results| => (results[i].0, ParsedValue(results[i].1, decode, loads)))
  }

  /** A dict with `type` "service_account", or with both `client_email` and `private_key`. */
  predicate IsServiceAccount(v: Json)
  {
    v.JObj? && (Field(v, "type") == Some(JStr("service_account")) || (HasField(v, "client_email") && HasField(v, "private_key")))
  }

  /** `find_service_account`: the first parsed entry that is a service account, else none. */
  function FindServiceAccount(parsed: Table<string, Json>): (r: Option<(string, Json)>)
    ensures r.Some? ==> exists i :: 0 <= i < |parsed| && parsed[i] == r.value && IsServiceAccount(parsed[i].1)
                                    && forall j :: 0 <= j < i ==> !IsServiceAccount(parsed[j].1)
    ensures r.None? <==> forall i :: 0 <= i < |parsed| ==> !IsServiceAccount(parsed[i].1)
  {
    var flags := MapSeq(parsed, (e: (string, Json)) => IsServiceAccount(e.1));
    match FirstTrue(flags)
    case None => None
    case Some(k) => Some(parsed[k])
  }

  /** The raw-length marker of an undecodable blob is never taken for a service account. */
  lemma RawMarkerIsNoAccount(n: nat)
    ensures !IsServiceAccount(JObj([("_raw_bytes_len", JNum(n))]))
  {
    var v := JObj([("_raw_bytes_len", JNum(n))]);
    assert Keys(v.fields) == ["_raw_bytes_len"];
  }

  /** The service account used comes from a blob that decoded as text and parsed as a JSON object. */
  lemma ServiceAccountFromJson(results: Table<string, Bytes>, decode: Bytes -> Option<string>, loads: string -> Option<Json>)
    requires FindServiceAccount(PrettyPrint(results, decode, loads)).Some?
    ensures var (name, obj) := FindServiceAccount(PrettyPrint(results, decode, loads)).value;
            exists i :: 0 <= i < |results| && results[i].0 == name
                        && decode(results[i].1).Some? && loads(decode(results[i].1).value) == Some(obj)
  {
    var parsed := PrettyPrint(results, decode, loads);
    var r := FindServiceAccount(parsed).value;
    var i :| 0 <= i < |parsed| && parsed[i] == r && IsServiceAccount(parsed[i].1);
    if decode(results[i].1).None? {
      RawMarkerIsNoAccount(|results[i].1|);
      assert false;
    }
  }

  // ---------------------------------------------------------------------------------------------
  // Strict file-name matching

  /** A file of the Drive listing: its `id`, `name` and `mimeType`, each possibly missing. */
  datatype Listed = Listed(id: Option<string>, name: Option<string>, mime: Option<string>)

  /** `f.get('name') or ''`. */
  function NameOf(f: Listed): string
  {
    if f.name.Some? then f.name.value else ""
  }

  /**
   * Case-sensitive: a wanted name with a dot must equal the file name, one without a dot must equal
   * the file name without its last extension.
   */
  predicate Matches(wanted: string, f: Listed)
  {
    if '.' in wanted then NameOf(f) == wanted else Updater.Stem(NameOf(f)) == wanted
  }

  /** The exact matches, else the files named exactly "<wanted>.xlsx" (possibly none). */
  function Selected(files: seq<Listed>, wanted: string): seq<Listed>
  {
    var exact := Filter(files, f => Matches(wanted, f));
    if exact != [] then exact else Filter(files, f => NameOf(f) == wanted + ".xlsx")
  }

  /** The matching loop shared by both search functions, then the fallback. */
  method SelectFiles(files: seq<Listed>, wanted: string) returns (chosen: seq<Listed>)
    ensures chosen == Selected(files, wanted)
  {
    var exact: seq<Listed> := [];
    for i := 0 to |files|
      invariant exact == Filter(files[..i], f => Matches(wanted, f))
    {
      var f := files[i];
      var fname := NameOf(f);
      var keep;
      if '.' in wanted {
        keep := fname == wanted;
      } else {
        var stem := match LastIndexOf(fname, '.') case None => fname case Some(k) => fname[..k];
        keep := stem == wanted;
      }
      FilterSnoc(files[..i], f, f => Matches(wanted, f));
      assert files[..i + 1] == files[..i] + [f];
      if keep {
        exact := exact + [f];
      }
    }
    assert files[..|files|] == files;
    if exact == [] {
      exact := Filter(files, f => NameOf(f) == wanted + ".xlsx");
    }
    chosen := exact;
  }

  /**
   * The ".xlsx" fallback applies only to a wanted name with a dot: without one, any file named
   * "<wanted>.xlsx" already matches exactly.
   */
  lemma SelectedNoDot(files: seq<Listed>, wanted: string)
    requires '.' !in wanted
    ensures Selected(files, wanted) == Filter(files, f => Matches(wanted, f))
  {
    var exact := Filter(files, f => Matches(wanted, f));
    var fallback := Filter(files, f => NameOf(f) == wanted + ".xlsx");
    if fallback != [] {
      Updater.StemOfXlsx(wanted);
      assert Matches(wanted, fallback[0]);
      assert fallback[0] in exact;
    }
  }

  /** Every selected file matches one of the two rules; when no file does, nothing is selected. */
  lemma SelectedRule(files: seq<Listed>, wanted: string)
    ensures forall f :: f in Selected(files, wanted) ==> f in files && (Matches(wanted, f) || NameOf(f) == wanted + ".xlsx")
    ensures (forall f :: f in files ==> !Matches(wanted, f) && NameOf(f) != wanted + ".xlsx") ==> Selected(files, wanted) == []
  {
    var chosen := Selected(files, wanted);
    forall f | f in chosen
      ensures f in files && (Matches(wanted, f) || NameOf(f) == wanted + ".xlsx")
    {
      var i :| 0 <= i < |chosen| && chosen[i] == f;
    }
    if chosen != [] {
      assert chosen[0] in chosen;
    }
  }

  // ---------------------------------------------------------------------------------------------
  // Access buckets

  /** What the download attempt left in `info['download']`. */
  datatype Download = NotTried | SavedTo(path: string) | DownloadError(error: string)

  /** What `evaluate_file_access` reported for one file. */
  datatype Access = Access(file: Listed, readable: bool, canEdit: bool, download: Download)

  datatype Bucket = Editable | ReadOnly | Downloaded | NoAccess

  /**
   * The bucket of one evaluated file, in the order of the checks: `elif info.get('download')` holds for
   * any download record, so an unreadable file whose download attempt failed is filed as downloaded too,
   * where `main` reports it as an attempted download.
   */
  function BucketOf(info: Access): (b: Bucket)
    ensures b == Editable <==> info.readable && info.canEdit
    ensures b == ReadOnly <==> info.readable && !info.canEdit
    ensures b == Downloaded <==> !info.readable && !info.download.NotTried?
    ensures b == NoAccess <==> !info.readable && info.download.NotTried?
  {
    if info.readable && info.canEdit then Editable
    else if info.readable then ReadOnly
    else if !info.download.NotTried? then Downloaded
    else NoAccess
  }

  /** A failed download lands in the downloaded bucket, as an attempted download. */
  lemma FailedDownloadCountsAsDownloaded()
    ensures BucketOf(Access(Listed(None, Some("mv.xlsx"), None), false, false, DownloadError("403"))) == Downloaded
  {
  }

  datatype Buckets = Buckets(readable: seq<Access>, editable: seq<Access>, downloaded: seq<Access>, noAccess: seq<Access>)

  function InBucket(k: Bucket): Access -> bool
  {
    (info: Access) => BucketOf(info) == k
  }

  function Bucketed(infos: seq<Access>): Buckets
  {
    Buckets(Filter(infos, InBucket(ReadOnly)), Filter(infos, InBucket(Editable)),
            Filter(infos, InBucket(Downloaded)), Filter(infos, InBucket(NoAccess)))
  }

  /** One more evaluated file goes to the end of its own bucket. */
  lemma BucketedStep(infos: seq<Access>, i: nat)
    requires i < |infos|
    ensures var b := Bucketed(infos[..i]);
            var x := infos[i];
            Bucketed(infos[..i + 1])
            == match BucketOf(x)
               case Editable => b.(editable := b.editable + [x])
               case ReadOnly => b.(readable := b.readable + [x])
               case Downloaded => b.(downloaded := b.downloaded + [x])
               case NoAccess => b.(noAccess := b.noAccess + [x])
  {
    var x := infos[i];
    assert infos[..i + 1] == infos[..i] + [x];
    FilterSnoc(infos[..i], x, InBucket(ReadOnly));
    FilterSnoc(infos[..i], x, InBucket(Editable));
    FilterSnoc(infos[..i], x, InBucket(Downloaded));
    FilterSnoc(infos[..i], x, InBucket(NoAccess));
  }

  /** The bucketing loop of `search_and_process_by_basename`. */
  method SortIntoBuckets(infos: seq<Access>) returns (b: Buckets)
    ensures b == Bucketed(infos)
  {
    b := Buckets([], [], [], []);
    for i := 0 to |infos|
      invariant b == Bucketed(infos[..i])
    {
      var info := infos[i];
      BucketedStep(infos, i);
      if info.readable && info.canEdit {
        b := b.(editable := b.editable + [info]);
      } else if info.readable && !info.canEdit {
        b := b.(readable := b.readable + [info]);
      } else if !info.download.NotTried? {
        b := b.(downloaded := b.downloaded + [info]);
      } else {
        b := b.(noAccess := b.noAccess + [info]);
      }
    }
    assert infos[..|infos|] == infos;
  }

  /** Every evaluated file lands in exactly one bucket: the four sizes add up to the number of files. */
  lemma {:induction false} BucketsPartition(infos: seq<Access>)
    ensures var b := Bucketed(infos);
            |b.readable| + |b.editable| + |b.downloaded| + |b.noAccess| == |infos|
    ensures var b := Bucketed(infos);
            forall x :: x in infos ==> (x in b.editable <==> BucketOf(x) == Editable) && (x in b.readable <==> BucketOf(x) == ReadOnly)
                                       && (x in b.downloaded <==> BucketOf(x) == Downloaded) && (x in b.noAccess <==> BucketOf(x) == NoAccess)
  {
    if infos != [] {
      var pre := infos[..|infos| - 1];
      var x := infos[|infos| - 1];
      BucketsPartition(pre);
      assert infos == pre + [x];
      FilterSnoc(pre, x, InBucket(ReadOnly));
      FilterSnoc(pre, x, InBucket(Editable));
      FilterSnoc(pre, x, InBucket(Downloaded));
      FilterSnoc(pre, x, InBucket(NoAccess));
    }
  }

  /** `search_and_process_by_basename` once the search answered: the buckets of the selected files. */
  function ProcessByBasename(search: Result<seq<Listed>, string>, wanted: string, evaluate: Listed -> Access): Result<Buckets, string>
  {
    match search
    case Err(e) => Err(e)
    case Ok(files) => Ok(Bucketed(MapSeq(Selected(files, wanted), evaluate)))
  }

  // ---------------------------------------------------------------------------------------------
  // Sheet preview display

  /** `safe_cell`: None is empty, and a string over 300 characters keeps 297 of them and gains "...". */
  function SafeCell(c: Option<string>): (r: string)
    ensures |r| <= 300
    ensures c.None? ==> r == ""
    ensures c.Some? ==> r == c.value || (|c.value| > 300 && |r| == 300 && r[..297] == c.value[..297] && r[297..] == "...")
    ensures c.Some? && |c.value| <= 300 ==> r == c.value
  {
    var s := if c.None? then "" else c.value;
    if |s| <= 300 then s else s[..297] + "..."
  }

  /** The displayed row: exactly the cells of columns A to D, padded with "", each made safe. */
  function DisplayRow(r: seq<string>): (out: seq<string>)
    ensures |out| == 4
    ensures forall i :: 0 <= i < 4 ==> out[i] == SafeCell(Some(if i < |r| then r[i] else ""))
  {
    seq(4, i requires 0 <= i < 4 => SafeCell(Some(if i < |r| then r[i] else "")))
  }

  /** Displaying is idempotent: a displayed row is displayed unchanged. */
  lemma DisplayRowIdempotent(r: seq<string>)
    ensures DisplayRow(DisplayRow(r)) == DisplayRow(r)
  {
    var d := DisplayRow(r);
    forall i | 0 <= i < 4 ensures DisplayRow(d)[i] == d[i] {
      assert SafeCell(Some(d[i])) == d[i];
    }
  }

  /** The data rows shown: `rows[1:157]`, at most 156 of them. */
  function DisplayedRows(rows: seq<seq<string>>): (out: seq<seq<string>>)
    ensures |out| <= 156 && (|rows| >= 1 ==> |out| == if |rows| <= 157 then |rows| - 1 else 156)
    ensures forall i :: 0 <= i < |out| ==> i + 1 < |rows| && out[i] == DisplayRow(rows[i + 1])
  {
    var data := if |rows| <= 1 then [] else rows[1..if |rows| <= 157 then |rows| else 157];
    MapSeq(data, DisplayRow)
  }
}
