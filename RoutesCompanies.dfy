/**
 * The company routes of the web API (ui/web/api/routes_companies.py): listing the cached companies
 * with an admin link and an optional text filter, the refresh job that pages through the admin
 * company list and writes the caches, the legacy cache endpoint, and the refresh job's status.
 * The browser is left out: a visited page is its rows as read (each row's link and name) or a
 * navigation failure. The working directory listing and the file reads are parameters.
 */
module RoutesCompanies {
  import opened Wrappers
  import opened Strs
  import opened SeqUtil
  import opened Entries
  import opened Json
  import Sorting
  import Jobs
  import RoutesAuth

  // ---------------------------------------------------------------------------------------------
  // GET /api/companies

  /** A cache file the listing reads: `companies_cache_*.json`. */
  predicate IsCacheFile(f: string)
  {
    IsPrefix("companies_cache_", f) && IsSuffix(".json", f)
  }

  /** `files.sort(reverse=True); files[0]`: the greatest name in Python's string order. */
  function Greatest(files: seq<string>): (r: string)
    requires files != []
    ensures r in files && forall i :: 0 <= i < |files| ==> Sorting.LexLe(files[i], r)
  {
    if |files| == 1 then
      Sorting.LexLeRefl(files[0]);
      files[0]
    else
      var m := Greatest(files[1..]);
      assert forall i :: 1 <= i < |files| ==> files[i] == files[1..][i - 1];
      if Sorting.LexLe(files[0], m) then m
      else
        Sorting.LexLeTotal(files[0], m);
        Sorting.LexLeRefl(files[0]);
        assert forall i :: 1 <= i < |files| ==> Sorting.LexLe(files[i], files[0]) by {
          forall i | 1 <= i < |files| ensures Sorting.LexLe(files[i], files[0]) {
            Sorting.LexLeTrans(files[i], m, files[0]);
          }
        }
        files[0]
  }

  /** `str(v)` for a parsed value; lists and dicts (whose repr is not modelled) give "". */
  function PyStr(v: Json): string
  {
    match v
    case JNull => "None"
    case JBool(b) => if b then "True" else "False"
    case JNum(n) => if n < 0 then "-" + NatToString(-n) else NatToString(n)
    case JStr(s) => s
    case JArr(_) => ""
    case JObj(_) => ""
  }

  /** The admin page of a company: `/admin/corporate/company/<id>/change/`, or "" without an id. */
  function CompanyUrl(cid: Option<Json>): string
  {
    if cid.None? || cid.value.JNull? then "" else "/admin/corporate/company/" + PyStr(cid.value) + "/change/"
  }

  /** `_with_url`: a copy of the company dict with its `url` set. */
  function WithUrl(c: Json): Json
  {
    if c.JObj? then JObj(Put(c.fields, "url", JStr(CompanyUrl(Field(c, "id"))))) else c
  }

  /** `c.get('name', '')` as text; None when it is not a string, where `.lower()` raises. */
  function NameText(c: Json): Option<string>
  {
    match Field(c, "name")
    case None => Some("")
    case Some(v) => if v.JStr? then Some(v.s) else None
  }

  /** `str(c.get('id', ''))`. */
  function IdText(c: Json): string
  {
    match Field(c, "id")
    case None => ""
    case Some(v) => PyStr(v)
  }

  /** `ql in c.get('name', '').lower() or ql in str(c.get('id', ''))`. */
  function MatchesQuery(ql: string): Json -> bool
  {
    (c: Json) => NameText(c).Some? && (Contains(Lower(NameText(c).value), ql) || Contains(IdText(c), ql))
  }

  predicate AllObjects(items: seq<Json>)
  {
    forall i :: 0 <= i < |items| ==> items[i].JObj?
  }

  predicate AllNamesText(items: seq<Json>)
  {
    forall i :: 0 <= i < |items| ==> NameText(items[i]).Some?
  }

  /**
   * The answer for the parsed content of the latest cache (None when it cannot be read or parsed):
   * [] unless it is a list of dicts, and [] when a filter meets a name that is not a string, because
   * every exception turns into [].
   */
  function Listed(data: Option<Json>, q: string): (r: seq<Json>)
    ensures data.Some? && data.value.JArr? ==> |r| <= |data.value.items|
    ensures !(data.Some? && data.value.JArr?) ==> r == []
  {
    if data.None? || !data.value.JArr? || !AllObjects(data.value.items) then []
    else
      var transformed := MapSeq(data.value.items, WithUrl);
      if q == [] then transformed
      else if !AllNamesText(transformed) then []
      else Filter(transformed, MatchesQuery(Lower(q)))
  }

  /** `GET /api/companies`: `listing` is the working directory, `read` the parse of a file there. */
  function ApiCompanies(listing: seq<string>, read: string -> Option<Json>, q: string): seq<Json>
  {
    var files := Filter(listing, IsCacheFile);
    if files == [] then [] else Listed(read(Greatest(files)), q)
  }

  /** Only the greatest cache file name is read; without a cache file the list is empty. */
  lemma ApiCompaniesReadsLatest(listing: seq<string>, read: string -> Option<Json>, q: string)
    ensures (forall i :: 0 <= i < |listing| ==> !IsCacheFile(listing[i])) ==> ApiCompanies(listing, read, q) == []
    ensures (exists i :: 0 <= i < |listing| && IsCacheFile(listing[i])) ==>
              exists f :: f in listing && IsCacheFile(f)
                          && (forall i :: 0 <= i < |listing| && IsCacheFile(listing[i]) ==> Sorting.LexLe(listing[i], f))
                          && ApiCompanies(listing, read, q) == Listed(read(f), q)
  {
    var files := Filter(listing, IsCacheFile);
    if exists i :: 0 <= i < |listing| && IsCacheFile(listing[i]) {
      var i :| 0 <= i < |listing| && IsCacheFile(listing[i]);
      assert listing[i] in files;
      var f := Greatest(files);
      forall j | 0 <= j < |listing| && IsCacheFile(listing[j]) ensures Sorting.LexLe(listing[j], f) {
        assert listing[j] in files;
        var k :| 0 <= k < |files| && files[k] == listing[j];
      }
    }
  }

  /** The copy gains `url` and keeps every other field; the url is "" exactly when there is no id. */
  lemma WithUrlFields(c: Json, k: string)
    requires c.JObj?
    ensures WithUrl(c).JObj?
    ensures Field(WithUrl(c), "url") == Some(JStr(CompanyUrl(Field(c, "id"))))
    ensures k != "url" ==> Field(WithUrl(c), k) == Field(c, k)
    ensures CompanyUrl(Field(c, "id")) == "" <==> Field(c, "id").None? || Field(c, "id") == Some(JNull)
  {
    GetPut(c.fields, "url", JStr(CompanyUrl(Field(c, "id"))), k);
    GetPut(c.fields, "url", JStr(CompanyUrl(Field(c, "id"))), "url");
  }

  /**
   * A list of dicts is answered in full without a query; with one, a company is listed iff the
   * lower-cased query is in its lower-cased name or in its id, and the list keeps the cache's order.
   */
  lemma ListedFilter(items: seq<Json>, q: string)
    requires AllObjects(items)
    ensures q == [] ==> Listed(Some(JArr(items)), q) == MapSeq(items, WithUrl)
    ensures q != [] && AllNamesText(items) ==>
              Listed(Some(JArr(items)), q) == Filter(MapSeq(items, WithUrl), MatchesQuery(Lower(q)))
              && (forall i :: 0 <= i < |items| ==>
                    (WithUrl(items[i]) in Listed(Some(JArr(items)), q) <==>
                       Contains(Lower(NameText(items[i]).value), Lower(q)) || Contains(IdText(items[i]), Lower(q))))
  {
    var transformed := MapSeq(items, WithUrl);
    if q != [] && AllNamesText(items) {
      forall i | 0 <= i < |items| ensures NameText(transformed[i]) == NameText(items[i]) && IdText(transformed[i]) == IdText(items[i]) {
        WithUrlFields(items[i], "name");
        WithUrlFields(items[i], "id");
      }
      var r := Filter(transformed, MatchesQuery(Lower(q)));
      forall i | 0 <= i < |items|
        ensures WithUrl(items[i]) in r <==>
                  Contains(Lower(NameText(items[i]).value), Lower(q)) || Contains(IdText(items[i]), Lower(q))
      {
        assert transformed[i] == WithUrl(items[i]);
        if WithUrl(items[i]) in r {
          var k :| 0 <= k < |r| && r[k] == WithUrl(items[i]);
          assert MatchesQuery(Lower(q))(r[k]);
        }
      }
    }
  }

  /** Content that is not a list of dicts, and a filtered name that is not a string, give []. */
  lemma ListedErrors(data: Option<Json>, q: string)
    ensures data.None? || !data.value.JArr? ==> Listed(data, q) == []
    ensures data.Some? && data.value.JArr? && !AllObjects(data.value.items) ==> Listed(data, q) == []
    ensures (data.Some? && data.value.JArr? && AllObjects(data.value.items) && q != []
             && !AllNamesText(data.value.items)) ==> Listed(data, q) == []
  {
    if data.Some? && data.value.JArr? && AllObjects(data.value.items) && q != [] && !AllNamesText(data.value.items) {
      var items := data.value.items;
      var i :| 0 <= i < |items| && NameText(items[i]).None?;
      WithUrlFields(items[i], "name");
      assert NameText(MapSeq(items, WithUrl)[i]).None?;
    }
  }

  // ---------------------------------------------------------------------------------------------
  // POST /api/companies/refresh: credentials

  /** `x or y` over optional strings, None written as "". */
  function Or(x: string, y: string): string
  {
    if x != "" then x else y
  }

  /** One lookup in the login routes' credential map, applied when a value is still missing. */
  function FromLoginMap(u: string, p: string, sid: string, creds: map<string, RoutesAuth.SessionCreds>): (string, string)
  {
    if (u == "" || p == "") && sid != "" && sid in creds then (Or(u, creds[sid].username), Or(p, creds[sid].password))
    else (u, p)
  }

  /** The values kept in the HTTP session, used only when both are present. */
  function FromHttpSession(u: string, p: string, stored: Option<(string, string)>): (string, string)
  {
    if (u == "" || p == "") && stored.Some? && stored.value.0 != "" && stored.value.1 != "" then
      (Or(u, stored.value.0), Or(p, stored.value.1))
    else (u, p)
  }

  /**
   * The credential fallbacks of the refresh route: the payload's values, then the login map by the
   * browser session id, then the HTTP session, then the login map again; 400 when either is missing.
   */
  function RefreshCredentials(username: string, password: string, sid: string,
                              creds: map<string, RoutesAuth.SessionCreds>, stored: Option<(string, string)>): (r: Result<(string, string), nat>)
    ensures r.Ok? ==> r.value.0 != "" && r.value.1 != ""
    ensures r.Err? ==> r.error == 400
    ensures username != "" && password != "" ==> r == Ok((username, password))
  {
    var (u1, p1) := FromLoginMap(username, password, sid, creds);
    var (u2, p2) := FromHttpSession(u1, p1, stored);
    var (u3, p3) := FromLoginMap(u2, p2, sid, creds);
    if u3 == "" || p3 == "" then Err(400) else Ok((u3, p3))
  }

  /**
   * Given values always win, accepted credentials are never empty, and the second lookup in the login
   * map never changes what the first lookup and the HTTP session left.
   */
  lemma RefreshCredentialsRule(username: string, password: string, sid: string,
                               creds: map<string, RoutesAuth.SessionCreds>, stored: Option<(string, string)>)
    ensures var r := RefreshCredentials(username, password, sid, creds, stored);
            (r.Ok? ==> r.value.0 != "" && r.value.1 != "")
            && (username != "" && r.Ok? ==> r.value.0 == username)
            && (password != "" && r.Ok? ==> r.value.1 == password)
            && (username != "" && password != "" ==> r == Ok((username, password)))
            && (r.Err? ==> r == Err(400))
    ensures var (u1, p1) := FromLoginMap(username, password, sid, creds);
            var (u2, p2) := FromHttpSession(u1, p1, stored);
            FromLoginMap(u2, p2, sid, creds) == (u2, p2)
  {
  }

  /** Without a browser session id and without session values, only the payload counts. */
  lemma RefreshNeedsPayload(username: string, password: string, creds: map<string, RoutesAuth.SessionCreds>)
    ensures RefreshCredentials(username, password, "", creds, None) ==
              if username == "" || password == "" then Err(400) else Ok((username, password))
  {
  }

  // ---------------------------------------------------------------------------------------------
  // The refresh job: pagination

  /** The number of admin list pages the job visits at most. */
  const MaxPages := 500

  /** One table row as read: its link and its name, or a row whose reading raised (skipped). */
  datatype RowRead = Unreadable | Read(href: string, name: string)

  /** One visited page: its rows (none when the row query raised), or a navigation failure. */
  datatype Page = NavError | Rows(rows: seq<RowRead>)

  /** The page `?p=<p>`; pages past the given ones have no rows. */
  function PageAt(pages: seq<Page>, p: nat): Page
  {
    if p < |pages| then pages[p] else Rows([])
  }

  /** `re.search(r'/company/([0-9A-Za-z_-]+)', href)`. */
  function CompanyId(href: string): Option<string>
  {
    IdAfter("/company/", href)
  }

  /** The (id, name) pair a row offers: none unless it was read and its link holds a company id. */
  function RowPair(row: RowRead): (r: seq<(string, string)>)
    ensures |r| <= 1 && forall i :: 0 <= i < |r| ==> r[i].0 != ""
  {
    if row.Read? && CompanyId(row.href).Some? then [(CompanyId(row.href).value, row.name)] else []
  }

  /** The (id, name) pairs a row sequence offers, in order. */
  function Offered(rows: seq<RowRead>): (r: seq<(string, string)>)
    ensures forall i :: 0 <= i < |r| ==> r[i].0 != ""
  {
    if rows == [] then [] else Offered(rows[..|rows| - 1]) + RowPair(rows[|rows| - 1])
  }

  lemma OfferedSnoc(offered: seq<(string, string)>, rows: seq<RowRead>, j: nat)
    requires j < |rows|
    ensures offered + Offered(rows[..j + 1]) == (offered + Offered(rows[..j])) + RowPair(rows[j])
  {
    assert rows[..j + 1][..j] == rows[..j];
  }

  function Fst(x: (string, string)): string
  {
    x.0
  }

  /**
   * The pairs offered by the pages the loop visits from page `p`, given the pairs offered before; and
   * the number of the page after the last one visited. The loop stops at a navigation failure, a page
   * without rows, a page without a new id, or after page `MaxPages - 1`.
   */
  function Crawl(offered: seq<(string, string)>, pages: seq<Page>, p: nat): (r: (seq<(string, string)>, nat))
    requires p <= MaxPages
    ensures p <= r.1 <= MaxPages && IsPrefixOf(offered, r.0)
    decreases MaxPages - p
  {
    if p == MaxPages then (offered, p)
    else match PageAt(pages, p)
      case NavError => (offered, p + 1)
      case Rows(rows) =>
        if rows == [] then (offered, p + 1)
        else
          var next := offered + Offered(rows);
          if |DedupBy(next, Fst)| == |DedupBy(offered, Fst)| then (next, p + 1)
          else
            var r := Crawl(next, pages, p + 1);
            assert r.0[..|offered|] == r.0[..|next|][..|offered|];
            r
  }

  predicate IsPrefixOf<T(==)>(a: seq<T>, b: seq<T>)
  {
    |a| <= |b| && b[..|a|] == a
  }

  /** The companies the job collects: the first pair offered for each id, in the order first seen. */
  function Collected(pages: seq<Page>): seq<(string, string)>
  {
    DedupBy(Crawl([], pages, 0).0, Fst)
  }

  /** One row processed: a new id is recorded, a seen or missing one changes nothing. */
  method TakeRow(collected: seq<(string, string)>, seen: set<string>, ghost before: seq<(string, string)>, row: RowRead)
    returns (collected': seq<(string, string)>, seen': set<string>)
    requires collected == DedupBy(before, Fst)
    requires forall x :: x in seen <==> x in KeysOf(collected, Fst)
    ensures collected' == DedupBy(before + RowPair(row), Fst)
    ensures forall x :: x in seen' <==> x in KeysOf(collected', Fst)
  {
    collected', seen' := collected, seen;
    var cid := if row.Read? then CompanyId(row.href) else None;
    if cid.Some? {
      var x := (cid.value, row.name);
      assert RowPair(row) == [x];
      DedupBySnoc(before, x, Fst);
      if cid.value !in seen {
        seen' := seen + {cid.value};
        collected' := collected + [x];
        assert KeysOf(collected', Fst) == KeysOf(collected, Fst) + [cid.value];
      }
    } else {
      assert before + RowPair(row) == before;
    }
  }

  /** The rows of one page, processed in order. */
  method TakePage(collected: seq<(string, string)>, seen: set<string>, ghost offered: seq<(string, string)>, rows: seq<RowRead>)
    returns (collected': seq<(string, string)>, seen': set<string>)
    requires collected == DedupBy(offered, Fst)
    requires forall x :: x in seen <==> x in KeysOf(collected, Fst)
    ensures collected' == DedupBy(offered + Offered(rows), Fst)
    ensures forall x :: x in seen' <==> x in KeysOf(collected', Fst)
  {
    collected', seen' := collected, seen;
    assert offered + Offered(rows[..0]) == offered;
    var j := 0;
    while j < |rows|
      invariant 0 <= j <= |rows|
      invariant collected' == DedupBy(offered + Offered(rows[..j]), Fst)
      invariant forall x :: x in seen' <==> x in KeysOf(collected', Fst)
    {
      OfferedSnoc(offered, rows, j);
      collected', seen' := TakeRow(collected', seen', offered + Offered(rows[..j]), rows[j]);
      j := j + 1;
    }
    assert rows[..j] == rows;
  }

  /**
   * The page loop of the refresh job: `collected` and `seen_ids` grow page by page; `visited` is the
   * number of the page after the last one the loop navigated to.
   */
  method CollectCompanies(pages: seq<Page>) returns (collected: seq<(string, string)>, visited: nat)
    ensures collected == Collected(pages)
    ensures visited == Crawl([], pages, 0).1
  {
    ghost var result := Crawl([], pages, 0);
    collected := [];
    var seen: set<string> := {};
    ghost var offered: seq<(string, string)> := [];
    var p := 0;
    while p < MaxPages
      invariant 0 <= p <= MaxPages
      invariant collected == DedupBy(offered, Fst)
      invariant forall x :: x in seen <==> x in KeysOf(collected, Fst)
      invariant result == Crawl(offered, pages, p)
      decreases MaxPages - p
    {
      var page := PageAt(pages, p);
      CrawlStep(offered, pages, p);
      if page.NavError? || page.rows == [] {
        p := p + 1;
        break;
      }
      var before := |collected|;
      collected, seen := TakePage(collected, seen, offered, page.rows);
      offered := offered + Offered(page.rows);
      p := p + 1;
      if |collected| == before {
        break;
      }
    }
    visited := p;
  }

  /** One iteration of the page loop. */
  lemma CrawlStep(offered: seq<(string, string)>, pages: seq<Page>, p: nat)
    requires p < MaxPages
    ensures var page := PageAt(pages, p);
            Crawl(offered, pages, p) ==
              if page.NavError? || page.rows == [] then (offered, p + 1)
              else
                var next := offered + Offered(page.rows);
                if |DedupBy(next, Fst)| == |DedupBy(offered, Fst)| then (next, p + 1) else Crawl(next, pages, p + 1)
  {
  }

  /**
   * The collected companies have distinct, non-empty ids, each the first offered pair for its id, and
   * the loop never goes past page `MaxPages - 1`.
   */
  lemma CollectedShape(pages: seq<Page>)
    ensures DistinctBy(Collected(pages), Fst)
    ensures forall i :: 0 <= i < |Collected(pages)| ==> Collected(pages)[i].0 != ""
    ensures forall i :: 0 <= i < |Collected(pages)| ==>
              var s := Crawl([], pages, 0).0;
              var k := FirstTrue(KeyFlags(s, Fst, Collected(pages)[i].0));
              k.Some? && s[k.value] == Collected(pages)[i]
    ensures Crawl([], pages, 0).1 <= MaxPages
  {
    var s := Crawl([], pages, 0).0;
    assert forall i :: 0 <= i < |s| ==> s[i].0 != "" by {
      CrawlIds([], pages, 0);
    }
    DedupByKeeps(s, Fst, (x: (string, string)) => x.0 != "");
    forall i | 0 <= i < |Collected(pages)| ensures
      var k := FirstTrue(KeyFlags(s, Fst, Collected(pages)[i].0));
      k.Some? && s[k.value] == Collected(pages)[i]
    {
      DedupKeepsFirst(s, Fst, i);
    }
  }

  lemma {:induction false} CrawlIds(offered: seq<(string, string)>, pages: seq<Page>, p: nat)
    requires p <= MaxPages
    requires forall i :: 0 <= i < |offered| ==> offered[i].0 != ""
    ensures forall i :: 0 <= i < |Crawl(offered, pages, p).0| ==> Crawl(offered, pages, p).0[i].0 != ""
    decreases MaxPages - p
  {
    if p < MaxPages && PageAt(pages, p).Rows? && PageAt(pages, p).rows != [] {
      var next := offered + Offered(PageAt(pages, p).rows);
      assert forall i :: 0 <= i < |next| ==> next[i].0 != "";
      if |DedupBy(next, Fst)| != |DedupBy(offered, Fst)| {
        CrawlIds(next, pages, p + 1);
      }
    }
  }

  // ---------------------------------------------------------------------------------------------
  // The refresh job: the caches it writes

  /** `companies_cache_<stamp>.json`, with `stamp` the hour `%Y%m%d_%H`. */
  function CacheFileName(stamp: string): string
  {
    "companies_cache_" + stamp + ".json"
  }

  /** One collected company as dumped: `{'id': id, 'name': name}`. */
  function CompanyJson(x: (string, string)): Json
  {
    JObj([("id", JStr(x.0)), ("name", JStr(x.1))])
  }

  /** `{str(item['id']): item['name'] for item in collected}`. */
  function LegacyMap(collected: seq<(string, string)>): Table<string, string>
  {
    if collected == [] then []
    else Put(LegacyMap(collected[..|collected| - 1]), collected[|collected| - 1].0, collected[|collected| - 1].1)
  }

  /** With distinct ids, the legacy map holds exactly the collected pairs, in order. */
  lemma {:induction false} LegacyMapOfDistinct(collected: seq<(string, string)>)
    requires DistinctBy(collected, Fst)
    ensures LegacyMap(collected) == collected
  {
    if collected != [] {
      var init := collected[..|collected| - 1];
      var x := collected[|collected| - 1];
      LegacyMapOfDistinct(init);
      assert !HasKey(init, x.0) by {
        forall i | 0 <= i < |init| ensures Keys(init)[i] != x.0 {
          assert Fst(collected[i]) != Fst(collected[|collected| - 1]);
        }
      }
      PutFresh(init, x.0, x.1);
      assert init + [x] == collected;
    }
  }

  /** What one run of the refresh job did: its result, the cache it saved, the legacy cache it wrote. */
  datatype JobRun = JobRun(ok: bool, cache: Option<(string, Json)>, legacy: Option<Table<string, string>>)

  /**
   * The refresh job body: `sessionOk` whether a browser session with a driver was obtained, `loginOk`
   * whether the login step went through, `saveOk` whether the dated cache could be written, `legacyOk`
   * whether a secure directory was found and the legacy cache replaced (its failure is swallowed).
   */
  method RefreshJob(sessionOk: bool, loginOk: bool, pages: seq<Page>, stamp: string, saveOk: bool, legacyOk: bool)
    returns (run: JobRun)
    ensures !sessionOk || !loginOk ==> run == JobRun(false, None, None)
    ensures sessionOk && loginOk ==>
              run.ok == saveOk
              && run.cache == (if saveOk then Some((CacheFileName(stamp), JArr(MapSeq(Collected(pages), CompanyJson)))) else None)
              && run.legacy == (if saveOk && legacyOk && Collected(pages) != [] then Some(Collected(pages)) else None)
  {
    if !sessionOk || !loginOk {
      return JobRun(false, None, None);
    }
    var collected, _ := CollectCompanies(pages);
    if !saveOk {
      return JobRun(false, None, None);
    }
    var cache := Some((CacheFileName(stamp), JArr(MapSeq(collected, CompanyJson))));
    var legacy := LegacyMap(collected);
    CollectedShape(pages);
    LegacyMapOfDistinct(collected);
    if legacyOk && legacy != [] {
      run := JobRun(true, cache, Some(legacy));
    } else {
      run := JobRun(true, cache, None);
    }
  }

  /**
   * A cache the job saved is one the listing reads, and read back it lists every collected company
   * with its admin url, in the order collected.
   */
  lemma SavedCacheIsListed(collected: seq<(string, string)>, stamp: string)
    ensures IsCacheFile(CacheFileName(stamp))
    ensures Listed(Some(JArr(MapSeq(collected, CompanyJson))), "") ==
              MapSeq(collected, (x: (string, string)) =>
                JObj([("id", JStr(x.0)), ("name", JStr(x.1)), ("url", JStr("/admin/corporate/company/" + x.0 + "/change/"))]))
  {
    var n := CacheFileName(stamp);
    assert n[..|"companies_cache_"|] == "companies_cache_";
    assert n[|n| - |".json"|..] == ".json";
    var items := MapSeq(collected, CompanyJson);
    forall i | 0 <= i < |items| ensures WithUrl(items[i]) ==
      JObj([("id", JStr(collected[i].0)), ("name", JStr(collected[i].1)), ("url", JStr("/admin/corporate/company/" + collected[i].0 + "/change/"))])
    {
      var t := [("id", JStr(collected[i].0)), ("name", JStr(collected[i].1))];
      assert Keys(t) == ["id", "name"];
      PutFresh(t, "url", JStr(CompanyUrl(Field(items[i], "id"))));
    }
  }

  // ---------------------------------------------------------------------------------------------
  // GET /api/companies/legacy and GET /api/companies/{job_id}/status

  /** The legacy cache answer: its content when it exists and parses to a dict, else {}. */
  function ApiLegacy(exists_: bool, data: Option<Json>): (r: Json)
    ensures r.JObj?
    ensures exists_ && data.Some? && data.value.JObj? ==> r == data.value
    ensures !exists_ || data.None? || !data.value.JObj? ==> r == JObj([])
  {
    if exists_ && data.Some? && data.value.JObj? then data.value else JObj([])
  }

  /** `POST /api/companies/refresh`'s public id: `companies_refresh:` and ten hex digits of a uuid. */
  function PublicJobId(uuidHex: string): string
  {
    "companies_refresh:" + (if |uuidHex| <= 10 then uuidHex else uuidHex[..10])
  }

  /** The status lookup: the internal id recorded for the public id, or the id itself; 404 when unknown. */
  function StatusAnswer(publicToInternal: map<string, string>, jobs: map<string, Jobs.Job>, jobId: string): Result<Jobs.Status, nat>
  {
    var lookup := if jobId in publicToInternal && publicToInternal[jobId] != "" then publicToInternal[jobId] else jobId;
    if lookup in jobs then Ok(Jobs.Snapshot(jobs[lookup])) else Err(404)
  }

  /** A refresh that was accepted can be looked up by its public id at once, while other ids answer as before. */
  lemma SubmittedIsFound(publicToInternal: map<string, string>, jobs: map<string, Jobs.Job>, publicId: string,
                         internalId: string, now: real, other: string)
    requires internalId != ""
    ensures StatusAnswer(publicToInternal[publicId := internalId], jobs[internalId := Jobs.Job(Jobs.Pending, now, false)], publicId)
            == Ok(Jobs.Snapshot(Jobs.Job(Jobs.Pending, now, false)))
    ensures other != publicId && other != internalId
            && (other in publicToInternal ==> publicToInternal[other] != internalId) ==>
              StatusAnswer(publicToInternal[publicId := internalId], jobs[internalId := Jobs.Job(Jobs.Pending, now, false)], other)
              == StatusAnswer(publicToInternal, jobs, other)
  {
  }

  class CompanyRoutes {
    const manager: Jobs.JobManager
    var publicToInternal: map<string, string>

    constructor(m: Jobs.JobManager)
      ensures manager == m && publicToInternal == map[]
    {
      manager := m;
      publicToInternal := map[];
    }

    /**
     * `POST /api/companies/refresh`: 400 when credentials are missing after the fallbacks; otherwise the
     * job is submitted under the internal id `internalId` and the public id maps to it.
     */
    method Refresh(username: string, password: string, sid: string, creds: map<string, RoutesAuth.SessionCreds>,
                   stored: Option<(string, string)>, uuidHex: string, internalId: string, now: real)
      returns (r: Result<string, nat>)
      requires manager.Valid()
      modifies this, manager
      ensures manager.Valid()
      ensures RefreshCredentials(username, password, sid, creds, stored).Err? ==>
                r == Err(400) && publicToInternal == old(publicToInternal) && manager.jobs == old(manager.jobs)
      ensures RefreshCredentials(username, password, sid, creds, stored).Ok? ==>
                r == Ok(PublicJobId(uuidHex))
                && publicToInternal == old(publicToInternal)[PublicJobId(uuidHex) := internalId]
                && manager.jobs == old(manager.jobs)[internalId := Jobs.Job(Jobs.Pending, now, false)]
    {
      var publicId := PublicJobId(uuidHex);
      var c := RefreshCredentials(username, password, sid, creds, stored);
      if c.Err? {
        return Err(400);
      }
      var internal := manager.Submit(internalId, now);
      publicToInternal := publicToInternal[publicId := internal];
      r := Ok(publicId);
    }

    /** `GET /api/companies/{job_id}/status`. */
    method Status(jobId: string) returns (r: Result<Jobs.Status, nat>)
      ensures r == StatusAnswer(publicToInternal, manager.jobs, jobId)
    {
      var lookup := if jobId in publicToInternal && publicToInternal[jobId] != "" then publicToInternal[jobId] else jobId;
      var st := manager.Status(lookup);
      if st.None? {
        return Err(404);
      }
      r := Ok(st.value);
    }
  }
}
