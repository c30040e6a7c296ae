/**
 * `unlock_all` (activation/unlock.py): decrypts every `.enc` credential of the store with the master
 * password, all or nothing. Decryption (`verify_token`: PBKDF2 key derivation and Fernet) is a parameter.
 */
module Unlock {
  import opened Wrappers
  import opened Strs
  import opened Entries
  import opened Storage

  /** `verify_token(token, salt_b64, password)`: the plaintext, or the message of the exception it raises. */
  type Verify = (string, string, string) -> Result<string, string>

  /** `Path(name).suffix == '.enc'`: the name ends in ".enc" and that dot is not its first character. */
  predicate EncSuffix(name: string)
  {
    |name| > 4 && IsSuffix(".enc", name)
  }

  /** A regular file of the directory whose suffix is `.enc`: the entries `unlock_all` considers. */
  predicate IsEncFile(creds: map<string, Entry>, name: string)
  {
    name in creds && creds[name].File? && EncSuffix(name)
  }

  /** What one listed entry contributes. `Raised`: reading a salt that is a directory raises outside the `try`. */
  datatype Outcome = Skipped | Failed(msg: string) | Decrypted(plain: string) | Raised

  function OutcomeOf(creds: map<string, Entry>, name: string, pw: string, verify: Verify): (r: Outcome)
    ensures r.Skipped? <==> !IsEncFile(creds, name)
    ensures IsEncFile(creds, name) && name + ".salt" !in creds ==> r == Failed("missing salt")
    ensures r.Decrypted? ==> (name + ".salt" in creds && creds[name + ".salt"].File?
                               && verify(creds[name].text, creds[name + ".salt"].text, pw) == Ok(r.plain))
  {
    if !IsEncFile(creds, name) then Skipped
    else if name + ".salt" !in creds then Failed("missing salt")
    else if creds[name + ".salt"].Dir? then Raised
    else match verify(creds[name].text, creds[name + ".salt"].text, pw)
      case Ok(p) => Decrypted(p)
      case Err(m) => Failed(m)
  }

  /** The `results` and `errors` dicts. */
  datatype Acc = Acc(results: Table<string, string>, errors: map<string, string>)

  /** The loop over the first entries of the listing; None once an exception escaped. */
  function Scan(creds: map<string, Entry>, names: seq<string>, pw: string, verify: Verify): Option<Acc>
  {
    if names == [] then Some(Acc([], map[]))
    else
      var n := names[|names| - 1];
      match Scan(creds, names[..|names| - 1], pw, verify)
      case None => None
      case Some(acc) =>
        match OutcomeOf(creds, n, pw, verify)
        case Skipped => Some(acc)
        case Failed(m) => Some(acc.(errors := acc.errors[n := m]))
        case Decrypted(p) => Some(acc.(results := acc.results + [(n, p)]))
        case Raised => None
  }

  /** What `unlock_all` raises: `UnlockError` with the name -> message map, or any other exception. */
  datatype Failure = UnlockError(errors: map<string, string>) | OtherError

  function UnlockResult(creds: map<string, Entry>, names: seq<string>, pw: string, verify: Verify): (r: Result<Table<string, string>, Failure>)
    ensures names == [] ==> r == Ok([])
  {
    match Scan(creds, names, pw, verify)
    case None => Err(OtherError)
    case Some(acc) => if acc.errors != map[] then Err(UnlockError(acc.errors)) else Ok(acc.results)
  }

  /** The decrypted entries of a listing, in listing order. */
  function DecryptedEntries(creds: map<string, Entry>, names: seq<string>, pw: string, verify: Verify): Table<string, string>
  {
    if names == [] then []
    else
      var n := names[|names| - 1];
      DecryptedEntries(creds, names[..|names| - 1], pw, verify)
      + match OutcomeOf(creds, n, pw, verify) case Decrypted(p) => [(n, p)] case _ => []
  }

  /** The sorted directory listing: every entry of the directory once. */
  ghost predicate IsListing(creds: map<string, Entry>, names: seq<string>)
  {
    (forall n :: n in creds <==> n in names) && forall i, j :: 0 <= i < j < |names| ==> names[i] != names[j]
  }

  /**
   * What the loop collects when nothing raised: the results are the decrypted entries in listing order,
   * and the errors are exactly the failed entries with their messages.
   */
  lemma {:induction false} ScanSummary(creds: map<string, Entry>, names: seq<string>, pw: string, verify: Verify)
    requires forall i :: 0 <= i < |names| ==> !OutcomeOf(creds, names[i], pw, verify).Raised?
    ensures Scan(creds, names, pw, verify).Some?
    ensures Scan(creds, names, pw, verify).value.results == DecryptedEntries(creds, names, pw, verify)
    ensures forall n :: n in Scan(creds, names, pw, verify).value.errors <==> n in names && OutcomeOf(creds, n, pw, verify).Failed?
    ensures forall n :: n in Scan(creds, names, pw, verify).value.errors ==>
              Scan(creds, names, pw, verify).value.errors[n] == OutcomeOf(creds, n, pw, verify).msg
  {
    if names != [] {
      var pre := names[..|names| - 1];
      assert forall i :: 0 <= i < |pre| ==> pre[i] == names[i];
      ScanSummary(creds, pre, pw, verify);
      LastSplit(names);
    }
  }

  /** A name of a non-empty listing is one of the names before the last, or the last. */
  lemma LastSplit(names: seq<string>)
    requires names != []
    ensures forall n :: n in names <==> n in names[..|names| - 1] || n == names[|names| - 1]
  {
    assert names == names[..|names| - 1] + [names[|names| - 1]];
  }

  /** Once an exception escaped, the rest of the listing is never looked at. */
  lemma {:induction false} ScanStopsAtRaise(creds: map<string, Entry>, names: seq<string>, k: nat, pw: string, verify: Verify)
    requires k <= |names| && Scan(creds, names[..k], pw, verify) == None
    ensures Scan(creds, names, pw, verify) == None
    decreases |names| - k
  {
    if k < |names| {
      assert names[..k + 1][..k] == names[..k];
      ScanStopsAtRaise(creds, names, k + 1, pw, verify);
    } else {
      assert names[..k] == names;
    }
  }

  /** All or nothing: plaintexts come back only when no considered entry failed. */
  lemma UnlockAllOrNothing(creds: map<string, Entry>, names: seq<string>, pw: string, verify: Verify)
    requires forall i :: 0 <= i < |names| ==> !OutcomeOf(creds, names[i], pw, verify).Raised?
    ensures UnlockResult(creds, names, pw, verify).Ok? <==> forall i :: 0 <= i < |names| ==> !OutcomeOf(creds, names[i], pw, verify).Failed?
    ensures UnlockResult(creds, names, pw, verify).Err? ==> UnlockResult(creds, names, pw, verify).error.UnlockError?
  {
    ScanSummary(creds, names, pw, verify);
    var acc := Scan(creds, names, pw, verify).value;
    if exists i :: 0 <= i < |names| && OutcomeOf(creds, names[i], pw, verify).Failed? {
      var i :| 0 <= i < |names| && OutcomeOf(creds, names[i], pw, verify).Failed?;
      assert names[i] in acc.errors;
    }
  }

  /** On success every considered `.enc` file maps to its plaintext, in listing order. */
  lemma UnlockOkCoversEveryEnc(creds: map<string, Entry>, names: seq<string>, pw: string, verify: Verify)
    requires UnlockResult(creds, names, pw, verify).Ok?
    ensures UnlockResult(creds, names, pw, verify).value == DecryptedEntries(creds, names, pw, verify)
    ensures forall i :: 0 <= i < |names| && IsEncFile(creds, names[i]) ==>
              OutcomeOf(creds, names[i], pw, verify).Decrypted?
              && (names[i], OutcomeOf(creds, names[i], pw, verify).plain) in UnlockResult(creds, names, pw, verify).value
  {
    var t := UnlockResult(creds, names, pw, verify).value;
    if exists i :: 0 <= i < |names| && OutcomeOf(creds, names[i], pw, verify).Raised? {
      var i :| 0 <= i < |names| && OutcomeOf(creds, names[i], pw, verify).Raised?;
      RaisedFails(creds, names, i, pw, verify);
    }
    ScanSummary(creds, names, pw, verify);
    forall i | 0 <= i < |names| && IsEncFile(creds, names[i])
      ensures OutcomeOf(creds, names[i], pw, verify).Decrypted?
      ensures (names[i], OutcomeOf(creds, names[i], pw, verify).plain) in t
    {
      assert names[i] !in Scan(creds, names, pw, verify).value.errors;
      DecryptedListed(creds, names, i, pw, verify);
    }
  }

  /** An entry that raises makes the whole call raise something other than `UnlockError`. */
  lemma RaisedFails(creds: map<string, Entry>, names: seq<string>, i: nat, pw: string, verify: Verify)
    requires i < |names| && OutcomeOf(creds, names[i], pw, verify).Raised?
    ensures UnlockResult(creds, names, pw, verify) == Err(OtherError)
  {
    var pre := names[..i + 1];
    assert pre[..i] == names[..i];
    assert pre[|pre| - 1] == names[i];
    ScanStopsAtRaise(creds, names, i + 1, pw, verify);
  }

  lemma {:induction false} DecryptedListed(creds: map<string, Entry>, names: seq<string>, i: nat, pw: string, verify: Verify)
    requires i < |names| && OutcomeOf(creds, names[i], pw, verify).Decrypted?
    ensures (names[i], OutcomeOf(creds, names[i], pw, verify).plain) in DecryptedEntries(creds, names, pw, verify)
  {
    var pre := names[..|names| - 1];
    if i < |names| - 1 {
      assert pre[i] == names[i];
      DecryptedListed(creds, pre, i, pw, verify);
    }
  }

  /** An `.enc` file without its salt file is reported as "missing salt". */
  lemma MissingSaltReported(creds: map<string, Entry>, names: seq<string>, i: nat, pw: string, verify: Verify)
    requires i < |names| && IsEncFile(creds, names[i]) && names[i] + ".salt" !in creds
    requires forall j :: 0 <= j < |names| ==> !OutcomeOf(creds, names[j], pw, verify).Raised?
    ensures UnlockResult(creds, names, pw, verify).Err?
    ensures UnlockResult(creds, names, pw, verify).error.UnlockError?
    ensures names[i] in UnlockResult(creds, names, pw, verify).error.errors
    ensures UnlockResult(creds, names, pw, verify).error.errors[names[i]] == "missing salt"
  {
    ScanSummary(creds, names, pw, verify);
  }

  /** A credential `save_credential` stored with its salt is exactly what a later unlock decrypts or reports. */
  lemma SavedCredentialUnlocks(creds: map<string, Entry>, name: string, token: string, salt: string, pw: string, verify: Verify)
    requires EncSuffix(name) && SaveResult(creds, Some(name), Some(token), Some(salt)).1
    ensures var after := SaveResult(creds, Some(name), Some(token), Some(salt)).0;
            OutcomeOf(after, name, pw, verify) == match verify(token, salt, pw) case Ok(p) => Decrypted(p) case Err(m) => Failed(m)
  {
    assert name != name + ".salt";
  }

  /** `unlock_all(store, master_password)`: one pass over the sorted listing, then raise or return. */
  method UnlockAll(store: LocalStore, names: seq<string>, pw: string, verify: Verify) returns (r: Result<Table<string, string>, Failure>)
    requires IsListing(store.creds, names)
    ensures r == UnlockResult(store.creds, names, pw, verify)
  {
    r := UnlockEntries(store.creds, names, pw, verify);
  }

  /** The pass itself, over the entries of the credentials directory and their listing. */
  method UnlockEntries(creds: map<string, Entry>, names: seq<string>, pw: string, verify: Verify) returns (r: Result<Table<string, string>, Failure>)
    ensures r == UnlockResult(creds, names, pw, verify)
  {
    var results: Table<string, string> := [];
    var errors: map<string, string> := map[];
    var i := 0;
    while i < |names|
      invariant 0 <= i <= |names|
      invariant Scan(creds, names[..i], pw, verify) == Some(Acc(results, errors))
    {
      assert names[..i + 1][..i] == names[..i];
      var name := names[i];
      if !(name in creds && creds[name].File?) || !EncSuffix(name) {
        i := i + 1;
        continue;
      }
      var token := creds[name].text;
      var saltName := name + ".salt";
      if saltName !in creds {
        errors := errors[name := "missing salt"];
        i := i + 1;
        continue;
      }
      if creds[saltName].Dir? {
        ScanStopsAtRaise(creds, names, i + 1, pw, verify);
        return Err(OtherError);
      }
      var salt := creds[saltName].text;
      match verify(token, salt, pw) {
        case Ok(p) =>
          results := results + [(name, p)];
        case Err(m) =>
          errors := errors[name := m];
      }
      i := i + 1;
    }
    assert names[..i] == names;
    if errors != map[] {
      return Err(UnlockError(errors));
    }
    return Ok(results);
  }
}
