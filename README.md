# DashboardAutomatizadoMoodar, modelled in Dafny

DashboardAutomatizadoMoodar automates work on the Moodar administration console. It runs a browser
through Selenium and talks to Google Sheets and Drive. This project models the core of that system
and proves properties of it:

- the shared browser-session pool and the background job table, with its "awaiting confirmation" flag;
- the import pipeline: upload, file-type detection and preview, CPF and e-mail bases, company resolution;
- the confirmation handshake around the import: the adapter writes an `.awaiting_confirm` marker and
  waits for it to vanish, and the HTTP routes find, confirm or cancel that marker;
- the credential vault: unlocking the encrypted local credentials with bounded retry, the local
  store's files, and the short-lived service-account cache;
- the web server's own handlers and the route modules for login, companies, appointments,
  acolhimentos and reports, together with the Sheets helpers they use;
- the company updater, the debugging and docker-context scripts, the comment stripper and the Go
  self-updating launcher.

Each core source file is one Dafny module of the same name, for example `ImportRoutes` for
`routes_import.py`. Each module follows the source's own form:
- state the source updates in place (the session registry, the job table, the public-to-internal id
  map, the upload directory, the per-job logs) is a `class` whose methods name what they modify;
- loops in the source are `while` or `for` loops with invariants, proved against specification functions;
- expression code is functions and lemmas.

The helper modules are:
- `Strs`: Python's string operations;
- `Sorting`: Python's string order and `sort`;
- `SeqUtil`: sequence helpers;
- `Entries`: insertion-ordered dictionaries;
- `Json`: parsed JSON values;
- `Files`: the file system as a map from path to contents;
- `Wrappers`: `Option` and `Result`.

Whatever the code reaches outside itself is an input to the model: the browser's answers, the
Google APIs, decryption, JSON parsing, clocks, fresh uuids and directory listings. Each handler or
public method is one atomic step, so the locks of the source disappear.

The model keeps these behaviours of the code as they are written, and states them as lemmas:
- the text-fallback detector keeps the last CPF-like column, not the first (`Detector.FallbackLastCpfWins`);
- a confirm button found by the CSS lookup is never clicked (`ImportRunner.CssButtonIgnored`);
- the runner never reports a session id, so a marker's `session_id` is always null and confirmation
  always falls back on the pool (`ImportRunner.RunImport`, `LegacyAdapter.StartFullRun`);
- the job ids "a:b" and "a_b" share one sanitized form (`LegacyAdapter.SanitizeCollides`);
- a file named exactly `.enc` is tried by the loader but skipped by `unlock_all` (`CredLoader.BareEncNameDiffers`);
- the acolhimentos list and get handlers turn their own 404 and 423 answers into 500
  (`RoutesAcolhimentos.GetHidesNotFoundAndLocked`);
- an empty tab title reports failure even when the tab was added (`Updater.EmptyTitleFails`);
- the `.xlsx` fallback of the Drive lookup never adds a file (`Updater.FallbackNeverAdds`).

## Model

| member | source | states |
|---|---|---|
| Appointments.IntervalDays | dv_admin_automator/backend/appointments.py:41 | the interval is 14 days exactly when the lower-cased tipo starts with "quinzenal", else 7 |
| Appointments.Quantity | dv_admin_automator/backend/appointments.py:42-45 | a given quantity is used as it is; without one, 3 for a fortnightly cycle and 5 for a weekly one |
| Appointments.Dates | dv_admin_automator/backend/appointments.py:48-49 | as many dates as the quantity (none for a negative one), the first at the start, each the interval after the previous, strictly increasing |
| Appointments.PartitionSizes | dv_admin_automator/backend/appointments.py:219-224 | every outcome lands in exactly one of created and failed, so the two add up to the total |
| Appointments.OwnSessionLeavesNoTrace | dv_admin_automator/backend/appointments.py:226-232 | a session the call created is closed again: for a fresh id the registry ends as it began |
| Appointments.UseSession | dv_admin_automator/backend/appointments.py:22-32 | the caller's manager is used as given and the registry is untouched; otherwise a new session is registered whose manager has a driver, or nothing changes when creating it raised |
| Appointments.ScheduleCycle | dv_admin_automator/backend/appointments.py:4-232 | no driver answers no_driver; otherwise one outcome per computed date, split into created and failed, with their total; a session the call created is closed again, leaving the registry as before |
| Appointments.UpToSlash | dv_admin_automator/backend/appointments.py:308 | the text up to the first '/', which holds no '/' and is followed by '/' when it stops early |
| Appointments.ParticipantId | dv_admin_automator/backend/appointments.py:308 | the id holds no '/', and is "" when the link has no participant marker |
| Appointments.ParticipantIdOf | dv_admin_automator/backend/appointments.py:308 | the id is the segment right after the first marker, up to the end or the next '/' |
| Appointments.ParticipantOf | dv_admin_automator/backend/appointments.py:303-354 | a result's id is always the one read from its url, and a row without a readable link has empty url, name and id |
| Appointments.RetryOnlyForNonDigits | dv_admin_automator/backend/appointments.py:287-298 | a digits-only query is never submitted twice, and any query is retried only when the first search showed nothing |
| Appointments.ReadParticipants | dv_admin_automator/backend/appointments.py:303-354 | the row loop produces one result per row, in order |
| Appointments.SearchParticipantRows | dv_admin_automator/backend/appointments.py:252-363 | without a driver the answer is []; otherwise one result per row shown for the query or its retry; a session the call created is closed again |
| Appointments.ApptOf | dv_admin_automator/backend/appointments.py:430-440 | patient, therapist, plan and device are the first, second, sixth and seventh cells; without an eighth cell the id is "" |
| Appointments.ApptsOf | dv_admin_automator/backend/appointments.py:412-446 | no more appointments than rows read |
| Appointments.Cycles | dv_admin_automator/backend/appointments.py:453-472 | no more cycles than appointments |
| Appointments.CyclesDistinct | dv_admin_automator/backend/appointments.py:453-472 | no two cycles share a (plan, therapist), and each counts at least one appointment |
| Appointments.CyclesCoverAll | dv_admin_automator/backend/appointments.py:456-460 | every appointment belongs to one of the cycles |
| Appointments.CycleNamedByFirst | dv_admin_automator/backend/appointments.py:459-468 | a cycle is named after the patient of the first appointment of its (plan, therapist) |
| Appointments.FindCycle | dv_admin_automator/backend/appointments.py:459 | the index of the example with the key, or past the end exactly when no example has it |
| Appointments.TallySeen | dv_admin_automator/backend/appointments.py:458 | an appointment whose key was seen bumps only that key's counter |
| Appointments.TallyNew | dv_admin_automator/backend/appointments.py:458-460 | an appointment with a new key opens a new counter at 1 with itself as example |
| Appointments.Tally | dv_admin_automator/backend/appointments.py:456-460 | one turn of the grouping loop keeps the counters equal to the number of appointments so far with each key |
| Appointments.TalliedCycles | dv_admin_automator/backend/appointments.py:464-472 | the counters and examples of the whole list are exactly its cycles |
| Appointments.GroupCycles | dv_admin_automator/backend/appointments.py:453-472 | the grouping loop builds exactly the cycles, and their counts add up to the number of appointments |
| Appointments.ReadAppts | dv_admin_automator/backend/appointments.py:412-446 | the row loop keeps exactly the rows of at least seven cells, in order |
| Appointments.GetParticipantHistory | dv_admin_automator/backend/appointments.py:366-489 | no driver, no search box, no row or no appointment answers {}; otherwise the history of the appointments in the first 20 rows, with their cycles; a session the call created is closed again |
| BrowserPool.ManagerOf | dv_admin_automator/browser/pool.py:27-32 | a manager is found iff a session is registered under the id |
| BrowserPool.Pool.constructor | dv_admin_automator/browser/pool.py:14-16 | a new pool has no sessions |
| BrowserPool.Pool.CreateSession | dv_admin_automator/browser/pool.py:18-25 | when `start` raises nothing is registered; otherwise the fresh id maps to the started manager and is returned |
| BrowserPool.Pool.GetManager | dv_admin_automator/browser/pool.py:27-32 | None iff the id is not registered, else its manager; the registry is not changed |
| BrowserPool.Pool.CloseSession | dv_admin_automator/browser/pool.py:34-45 | returns whether the id was registered; the entry is gone afterwards even when `quit` fails |
| BrowserPool.CloseKeepsOthers | dv_admin_automator/browser/pool.py:34-36 | closing one session leaves every other session's manager in place |
| BrowserPool.CreateThenGet | dv_admin_automator/browser/pool.py:18-32 | after a create the new id resolves to the manager just started and no other id changed |
| BrowserPool.CloseTwice | dv_admin_automator/browser/pool.py:34-38 | a second close of the same id finds nothing and changes nothing |
| BrowserPool.DefaultPool.constructor | dv_admin_automator/browser/pool.py:49 | there is no default pool at first |
| BrowserPool.DefaultPool.Get | dv_admin_automator/browser/pool.py:52-56 | the first call creates an empty pool and later calls return that same pool |
| CredentialsCache.Trunc | dv_admin_automator/ui/web/api/credentials_cache.py:12 | `int(x)` truncates toward zero: the result is within one of `x`, on the side of zero |
| CredentialsCache.Lookup | dv_admin_automator/ui/web/api/credentials_cache.py:13-17 | a value is returned only while the expiry is non-zero and still ahead, and it is the stored info |
| CredentialsCache.SetEntryWindow | dv_admin_automator/ui/web/api/credentials_cache.py:9-17 | an entry set at `t0` is returned from `t0` until `int(t0) + ttl` and never at or after `t0 + ttl` |
| CredentialsCache.ZeroExpiryIsEmpty | dv_admin_automator/ui/web/api/credentials_cache.py:15-16 | an expiry of 0 means empty whatever the time and the stored value |
| CredentialsCache.Cache.constructor | dv_admin_automator/ui/web/api/credentials_cache.py:5-8 | the initial cache holds no info and expiry 0 |
| CredentialsCache.Cache.Set | dv_admin_automator/ui/web/api/credentials_cache.py:9-12 | both the info and its expiry `int(now) + ttl` are overwritten |
| CredentialsCache.Cache.Get | dv_admin_automator/ui/web/api/credentials_cache.py:13-20 | returns the lookup; a live entry is kept, and an expired or empty one is cleared |
| CredentialsCache.Cache.Clear | dv_admin_automator/ui/web/api/credentials_cache.py:21-24 | the cache is emptied |
| CredentialsCache.ExpiredNeverReappears | dv_admin_automator/ui/web/api/credentials_cache.py:13-20 | once a lookup found nothing, a later lookup without a `set` in between finds nothing either |
| CredLoader.FindCredsDir | dv_admin_automator/ui/web/api/cred_loader.py:5-20 | an existing DV_CRED_DIR wins, then the store's existing credentials directory, else `<repo>/credenciais` |
| CredLoader.EntryValue | dv_admin_automator/ui/web/api/cred_loader.py:33-49 | an entry yields a value only when it is a file whose name ends with `.enc` |
| CredLoader.MasterPassword | dv_admin_automator/ui/web/api/cred_loader.py:22-24 | the password is the argument when it is non-empty, else DV_MASTER_PASSWORD, and never empty |
| CredLoader.TryAutoLoad | dv_admin_automator/ui/web/api/cred_loader.py:21-50 | None without a password, a directory or `verify_token`; otherwise the value of the first entry of the sorted listing that decrypts to a JSON object with `client_email` and `private_key`, or None when there is none |
| CredLoader.LoadedIsFirstAccepted | dv_admin_automator/ui/web/api/cred_loader.py:32-47 | the entry loaded is accepted and every earlier entry of the listing was skipped |
| CredLoader.LoadsIffSomeAccepted | dv_admin_automator/ui/web/api/cred_loader.py:32-50 | something is loaded iff some entry of the listing is accepted |
| CredLoader.BareEncNameDiffers | dv_admin_automator/ui/web/api/cred_loader.py:33 | a file named exactly `.enc` is tried here by `endswith`, although `unlock_all` skips it by `Path.suffix` |
| DebugSheet.OutcomeOf | scripts/debug_sheet.py:48-64 | an entry decrypts iff it is a file named `*.enc` with its `.salt` beside it and the decryption succeeds, and then it holds the decrypted text; an exception escapes iff the token or salt cannot be read |
| DebugSheet.DecryptAllLoop | scripts/debug_sheet.py:42-65 | the loop over the sorted listing returns exactly what the `decrypt_all` specification gives |
| DebugSheet.ScanStopsAtRaise | scripts/debug_sheet.py:48-64 | once an exception escapes, the rest of the listing is never looked at |
| DebugSheet.ScanPartial | scripts/debug_sheet.py:48-65 | when nothing raises, the result holds each decrypted entry once, with its own plaintext, whatever happened to the others |
| DebugSheet.ParsedValue | scripts/debug_sheet.py:76-86 | a blob that is not UTF-8 becomes `{'_raw_bytes_len': n}`; text that parses as JSON becomes its JSON value; any other text stays text |
| DebugSheet.PrettyPrint | scripts/debug_sheet.py:68-87 | every blob is parsed under its own name, in the same order |
| DebugSheet.FindServiceAccount | scripts/debug_sheet.py:116-123 | the first parsed entry that is a service account, or none iff no entry is one |
| DebugSheet.RawMarkerIsNoAccount | scripts/debug_sheet.py:79 | the raw-length marker of an undecodable blob is never taken for a service account |
| DebugSheet.ServiceAccountFromJson | scripts/debug_sheet.py:116-123 | the service account used comes from a blob that decoded as text and parsed as a JSON object |
| DebugSheet.SelectFiles | scripts/debug_sheet.py:340-364 | the matching loop returns exactly the selection the name rules define, the `.xlsx` fallback included |
| DebugSheet.SelectedNoDot | scripts/debug_sheet.py:338-364 | without a dot in the wanted name, the ".xlsx" fallback adds nothing: the selection is the exact matches |
| DebugSheet.SelectedRule | scripts/debug_sheet.py:338-364 | every selected file is one of the listed files and matches exactly or is named `<wanted>.xlsx`; when no file does either, nothing is selected |
| DebugSheet.FailedDownloadCountsAsDownloaded | scripts/debug_sheet.py:484-485 | a file that is not readable and whose download returned an error lands in the downloaded bucket, where the report lists it as an attempted download |
| DebugSheet.BucketOf | scripts/debug_sheet.py:480-487 | editable iff readable and editable; read-only iff readable and not editable; downloaded iff not readable and a download was attempted, whether it saved a file or failed; no access iff not readable and no download was attempted |
| DebugSheet.BucketedStep | scripts/debug_sheet.py:476-487 | one more evaluated file goes to the end of its own bucket and leaves the others alone |
| DebugSheet.SortIntoBuckets | scripts/debug_sheet.py:476-487 | the bucketing loop returns exactly the buckets the specification defines |
| DebugSheet.BucketsPartition | scripts/debug_sheet.py:476-489 | every evaluated file lands in exactly one bucket, so the four sizes add up to the number of files |
| DebugSheet.SafeCell | scripts/debug_sheet.py:528-530 | None shows as ""; text of at most 300 characters is kept; longer text keeps its first 297 characters and gains "...", 300 in all |
| DebugSheet.DisplayRow | scripts/debug_sheet.py:535-538 | exactly four cells, columns A to D, padded with "" and each made safe |
| DebugSheet.DisplayRowIdempotent | scripts/debug_sheet.py:535-538 | displaying a displayed row changes nothing |
| DebugSheet.DisplayedRows | scripts/debug_sheet.py:535 | the displayed rows are `rows[1:157]`: every row but the header, at most 156, each displayed |
| Detector.CpfBodyDigits | dv_admin_automator/backend/importer/detector.py:91 | a value matching the CPF pattern's body holds exactly eleven digits |
| Detector.CpfMatchIsCpfLike | dv_admin_automator/backend/importer/detector.py:91 | every value the detector takes for a CPF also passes the import's own eleven-digit CPF test |
| Detector.Hits | dv_admin_automator/backend/importer/detector.py:92-102 | per column, whether some value of its sample has the property |
| Detector.PickFirst | dv_admin_automator/backend/importer/detector.py:94-96 | with non-empty column names, a candidate is the first column that hits, and None when none does |
| Detector.PickTruthy | dv_admin_automator/backend/importer/detector.py:94-96 | with any names, the candidate is truthy iff some hitting column has a non-empty name, and None iff no column hits |
| Detector.TypeOf | dv_admin_automator/backend/importer/detector.py:103-108 | `cpf` iff both a CPF and a name candidate are truthy; else `email` iff an e-mail candidate is; else None |
| Detector.FirstUpToAll | dv_admin_automator/backend/importer/detector.py:92-102 | the candidates after the last column are the first-hit candidates |
| Detector.DetectColumns | dv_admin_automator/backend/importer/detector.py:92-102 | the column loop of the pandas and openpyxl paths computes the first-hit candidates |
| Detector.DetectColumnsFallback | dv_admin_automator/backend/importer/detector.py:141-156 | the column loop of the text fallback computes its candidates, with the CPF candidate overwritten at every hit |
| Detector.FallbackDiffersOnlyInCpf | dv_admin_automator/backend/importer/detector.py:118-156 | the fallback agrees with the other paths on e-mail and name, and on everything when at most one column holds CPFs |
| Detector.RowDictOfDistinct | dv_admin_automator/backend/importer/detector.py:48-51 | with distinct column names each column maps to the cell under it, or None past a short row's end |
| Detector.BuildRowDict | dv_admin_automator/backend/importer/detector.py:74-77 | the dict-building loop of both readers computes the row's dict |
| Detector.KeptRows | dv_admin_automator/backend/importer/detector.py:38-42 | the readers keep no more rows than there are |
| Detector.ReadHead | dv_admin_automator/backend/importer/detector.py:64-67 | the reading loop keeps the first rows, appending before it checks for `max_rows + 1` |
| Detector.SliceIsTail | dv_admin_automator/backend/importer/detector.py:47 | the data rows `rows[1:max_rows+1]` are always every row read after the header |
| Detector.ShapePreview | dv_admin_automator/backend/importer/detector.py:70-78 | the preview loop over the data rows computes the preview's shape |
| Detector.ShapeBounds | dv_admin_automator/backend/importer/detector.py:36-52 | an empty file gives the empty preview; a preview has the header as columns and at most `max_rows` data rows, none for a negative `max_rows` |
| Detector.Separator | dv_admin_automator/backend/importer/detector.py:61 | the separator is a tab iff the sample has more tabs than commas |
| Detector.Count | dv_admin_automator/backend/importer/detector.py:61 | the count is 0 iff the character does not occur |
| Detector.PreviewSamples | dv_admin_automator/backend/importer/detector.py:119 | one sample per preview column |
| Detector.FirstCandidatesRule | dv_admin_automator/backend/importer/detector.py:92-108 | the CPF candidate is present iff some column has a CPF-like value, and is then the first such column; the type is `cpf` iff a CPF-like and a two-word value both occur |
| Detector.FirstHitRule | dv_admin_automator/backend/importer/detector.py:94-102 | a candidate is present iff some column hits, and is then the non-empty name of the first such column |
| Detector.PandasPathRule | dv_admin_automator/backend/importer/detector.py:83-109 | on the pandas path the candidates come from each column's first twenty non-null values and the preview is the frame's head |
| Detector.FallbackLastCpfWins | dv_admin_automator/backend/importer/detector.py:138-163 | on the text fallback the CPF candidate is the last column with a CPF-like value |
| Detector.Detect | dv_admin_automator/backend/importer/detector.py:81-163 | the detection on each path computes `detect_file_type`'s result |
| DockerContext.ShouldExcludeTopLevel | scripts/prepare_docker_context.py:34-43 | a top-level entry is excluded iff its name is an excluded directory or an excluded file; "tests" and "requirements.txt" are excluded, and the package directories never are |
| DockerContext.Copied | scripts/prepare_docker_context.py:59-65 | one entry contributes exactly its own kept paths, each with its source content |
| DockerContext.ContextFromStep | scripts/prepare_docker_context.py:52-65 | one more top-level entry adds its own contribution when it is selected, and nothing otherwise |
| DockerContext.ContextRule | scripts/prepare_docker_context.py:46-65 | every path in the context comes from the source unchanged and lies under a top-level name that is neither excluded nor the destination's; a path below a top-level name lies in a copied directory and crosses no ignored name; every selected top-level entry is copied |
| DockerContext.ContextHasNoCaches | scripts/prepare_docker_context.py:62 | no path of the context passes through `__pycache__`, `tests` or `testes`, at any depth |
| DockerContext.OneLevelRules | scripts/prepare_docker_context.py:38-41 | a `requirements.txt` inside a copied directory is copied, and so is a top-level `x.pyc`; an `x.pyc` inside a copied directory is not |
| DockerContext.Destination.CopyContext | scripts/prepare_docker_context.py:46-65 | the destination exists afterwards and holds exactly the context of the source |
| DockerContext.Destination.Prepare | scripts/prepare_docker_context.py:68-82 | a missing source leaves the destination as it was; otherwise the destination holds exactly the context |
| DockerContext.ContextIdempotent | scripts/prepare_docker_context.py:46-65 | building the context again from a context gives that context back |
| ExecutorRunner.UnlockLoopBounds | dv_admin_automator/executor/runner.py:32-45 | at most `max_attempts` passwords are asked for, every printed count of attempts left is positive and below the maximum, and a positive maximum always tries once |
| ExecutorRunner.ExhaustedIffAllRejected | dv_admin_automator/executor/runner.py:32-48 | the loop ends with the attempts used up iff every remaining attempt raised `UnlockError`, and then every attempt prompted |
| ExecutorRunner.UnlockedIsFirstAccepted | dv_admin_automator/executor/runner.py:34-39 | a successful unlock holds the plaintexts of the first accepted password, after rejections only |
| ExecutorRunner.MaxAttempts | dv_admin_automator/executor/runner.py:30 | the maximum is 3 when DV_MAX_UNLOCK_ATTEMPTS is not set |
| ExecutorRunner.UnlockFailedIffAllRejected | dv_admin_automator/executor/runner.py:27-48 | `unlock_failed` is answered iff the store is activated, the maximum is positive and every allowed password was rejected; the answer is then a failure after all the prompts |
| ExecutorRunner.NoAttemptsProceeds | dv_admin_automator/executor/runner.py:29-49 | with a maximum of 0 or less no password is asked for and the run goes on to the browser without credentials |
| ExecutorRunner.InactiveNeverPrompts | dv_admin_automator/executor/runner.py:27 | a store that is not activated is never unlocked and no password is asked for |
| ExecutorRunner.UnlockLoopStep | dv_admin_automator/executor/runner.py:32-45 | one turn of the loop: a success stops with the plaintexts, another exception ends the run, and a rejection prints the attempts left and goes on while attempts remain |
| ExecutorRunner.UnlockAttempts | dv_admin_automator/executor/runner.py:29-45 | the while loop produces the run of the unlock loop over the attempts: the outcome, the prompts asked and the notices printed |
| ExecutorRunner.PromptLoop | dv_admin_automator/executor/runner.py:29-45 | the loop over `try_count`, with `unlock_all` run once per prompt, ends as `LoopFrom` says from the initial state |
| ExecutorRunner.LoopFromSpec | dv_admin_automator/executor/runner.py:29-45 | from any state with a caught error exactly when some attempt was made, the loop adds the remaining prompts and notices of `UnlockLoop` to those so far and, once attempts run out, reports the last error |
| ExecutorRunner.Runner.constructor | dv_admin_automator/executor/runner.py:16-20 | a new runner holds no decrypted credentials |
| ExecutorRunner.Runner.Run | dv_admin_automator/executor/runner.py:21-62 | the result, prompts and printed notices are those of the run; the credentials are kept when unlocked; the browser manager is quit exactly once |
| ExecutorRunner.Runner.RunBody | dv_admin_automator/executor/runner.py:22-59 | the `try` body gives the run's result, prompts and notices and does not quit the browser |
| ImportRoutes.LookupId | dv_admin_automator/ui/web/api/routes_import.py:62-68 | the internal id mapped to the public id when there is a non-empty one, else the public id itself |
| ImportRoutes.ClearAwaiting | dv_admin_automator/ui/web/api/routes_import.py:235-241 | only the job behind a non-empty internal id stops awaiting confirmation; every other job and the set of jobs stay the same |
| ImportRoutes.MarkerByName | dv_admin_automator/ui/web/api/routes_import.py:112-119 | no marker is found exactly when no listed name ends in the marker suffix and contains the sanitized job id |
| ImportRoutes.FindMarkerByName | dv_admin_automator/ui/web/api/routes_import.py:114-121 | the scan with its early break returns the first matching listed name, joined to the upload directory |
| ImportRoutes.SanitizedPlain | dv_admin_automator/ui/web/api/routes_import.py:109-110 | a sanitized job id holds neither '/' nor '=' |
| ImportRoutes.RunMarkerNamed | dv_admin_automator/backend/importer/legacy_adapter.py:320 | the marker a run writes is a plain file of the upload directory whose name the name search matches |
| ImportRoutes.RunMarkerListed | dv_admin_automator/ui/web/api/routes_import.py:112-119 | while a run's marker exists, the name search finds a marker for its job |
| ImportRoutes.LastSubAt | dv_admin_automator/ui/web/api/routes_import.py:130 | a position it returns is an occurrence of the pattern |
| ImportRoutes.MentionsAt | dv_admin_automator/ui/web/api/routes_import.py:127 | any occurrence of the pattern counts as a mention |
| ImportRoutes.AfterLast | dv_admin_automator/ui/web/api/routes_import.py:130 | the text after the last separator is a suffix of the line |
| ImportRoutes.LastSubAtAfter | dv_admin_automator/ui/web/api/routes_import.py:130 | when the text after an occurrence lacks the pattern's last character, that occurrence is the last one |
| ImportRoutes.AwaitLineSplit | dv_admin_automator/ui/web/api/routes_import.py:130 | split on "marker=", the adapter's log line yields the marker followed by ')' |
| ImportRoutes.LogMarkerKeepsParen | dv_admin_automator/ui/web/api/routes_import.py:126-136 | as written, the path read back from the adapter's own log line keeps the closing ')' and so differs from the marker |
| ImportRoutes.LogMarkerRoundTrip | dv_admin_automator/ui/web/api/routes_import.py:126-136 | as intended, the path read back from the adapter's log line is the marker itself |
| ImportRoutes.RunMarkerLoggable | dv_admin_automator/backend/importer/legacy_adapter.py:320 | the marker of a run in an absolute upload directory without '=' can be carried by the log line |
| ImportRoutes.MarkerByLogWith | dv_admin_automator/ui/web/api/routes_import.py:124-138 | with a given way of reading a path from a line, no marker is found exactly when no log line that mentions "marker=" and the marker suffix yields an existing path; a path found exists |
| ImportRoutes.AwaitLineMentions | dv_admin_automator/ui/web/api/routes_import.py:127 | the adapter's log line mentions both "marker=" and the marker suffix |
| ImportRoutes.AwaitLineLeadsAsWritten | dv_admin_automator/ui/web/api/routes_import.py:127-136 | as written, the adapter's log line leads to a file exactly when a file named like the marker followed by ')' exists |
| ImportRoutes.LogSearchIgnoresAwaitLine | dv_admin_automator/ui/web/api/routes_import.py:124-138 | as written, appending the adapter's marker line to the log does not change what the log search finds (given no file named like the marker plus ')'), so the search never reaches the marker through that line |
| ImportRoutes.FindMarkerByLog | dv_admin_automator/ui/web/api/routes_import.py:124-138 | the log loop returns the path, read as written (text after the last "marker=", stripped and unquoted), of the first line that mentions both markers and names an existing file |
| ImportRoutes.LogSearchSkips | dv_admin_automator/ui/web/api/routes_import.py:124-138 | a log line that leads nowhere, appended to the log, leaves the search's answer as it was |
| ImportRoutes.AwaitLineLeadsIntended | dv_admin_automator/ui/web/api/routes_import.py:127-136 | corrected: the adapter's log line for an existing marker leads to it |
| ImportRoutes.LogFindsMarkerIntended | dv_admin_automator/ui/web/api/routes_import.py:124-138 | corrected: once the adapter has logged its marker line, and no earlier line leads anywhere, the corrected log search finds that marker |
| ImportRoutes.MarkerByMeta | dv_admin_automator/ui/web/api/routes_import.py:141-161 | no marker is found exactly when no listed marker is readable and names an upload of the job; one found is a readable marker |
| ImportRoutes.FindCandidate | dv_admin_automator/ui/web/api/routes_import.py:114-164 | the name search wins when it finds a marker; otherwise the as-written log search wins when it finds one; none is found exactly when all three searches find none |
| ImportRoutes.FirstNamed | dv_admin_automator/ui/web/api/routes_import.py:211-212 | the first non-empty session id, or "" exactly when every id is empty |
| ImportRoutes.FallbackChoice | dv_admin_automator/ui/web/api/routes_import.py:196-214 | the first session on an import or dashboard page is chosen; without one, the first named session |
| ImportRoutes.ScanEnd | dv_admin_automator/ui/web/api/routes_import.py:196-214 | the scan visits no more sessions than the pool holds |
| ImportRoutes.StartFirst | dv_admin_automator/ui/web/api/routes_import.py:196-207 | the scan starts the driverless managers of the sessions it visits and changes nothing else |
| ImportRoutes.StartFirstStep | dv_admin_automator/ui/web/api/routes_import.py:204 | visiting one more session starts only that session's manager, and only when it has no driver and can be started |
| ImportRoutes.StartFirstDistinct | dv_admin_automator/ui/web/api/routes_import.py:196-207 | starting managers keeps every session id, so distinct ids stay distinct |
| ImportRoutes.ScanStopsAt | dv_admin_automator/ui/web/api/routes_import.py:208-211 | the first session on an import page ends the scan there and is the one chosen |
| ImportRoutes.ScanRunsThrough | dv_admin_automator/ui/web/api/routes_import.py:196-217 | without a session on an import page the scan visits every session and keeps the first named one |
| ImportRoutes.FirstNamedStep | dv_admin_automator/ui/web/api/routes_import.py:211-212 | the first named session only changes while none was named yet |
| ImportRoutes.FallbackFindsAny | dv_admin_automator/ui/web/api/routes_import.py:196-223 | with named sessions only, the fallback finds a session exactly when the pool has one |
| ImportRoutes.ChooseFallback | dv_admin_automator/ui/web/api/routes_import.py:186-217 | the scan loop chooses the fallback session and leaves the pool with exactly the visited managers started |
| ImportRoutes.ScanSessions | dv_admin_automator/ui/web/api/routes_import.py:196-213 | the loop over the session snapshot returns the first session on an import page, else the first named one, and starts exactly the driverless managers it visited |
| ImportRoutes.Visit | dv_admin_automator/ui/web/api/routes_import.py:203-207 | one visit starts the manager exactly when it has no driver and can be started, and reads its page only when it then has a driver |
| ImportRoutes.ConfirmAnswer | dv_admin_automator/ui/web/api/routes_import.py:101-253 | 404 exactly when no marker is found; a scheduled confirmation names the found, readable marker and a non-empty session, the marker's own session when it has one; the only errors are 400, 404 and 500 |
| ImportRoutes.CancelFs | dv_admin_automator/ui/web/api/routes_import.py:273-283 | with an existing marker the sentinel is written and the marker removed; otherwise the directory is unchanged |
| ImportRoutes.StatusAnswer | dv_admin_automator/ui/web/api/routes_import.py:57-92 | a job the table knows answers its snapshot; otherwise a marker for it answers done and awaiting confirmation, and its absence answers 404 |
| ImportRoutes.Routes.constructor | dv_admin_automator/ui/web/api/routes_import.py:22-24 | the routes start with no job logs |
| ImportRoutes.Routes.AppendLog | dv_admin_automator/ui/web/api/routes_import.py:22-24 | one line is appended to the job's log, creating it when missing; the files are unchanged |
| ImportRoutes.Routes.StartImport | dv_admin_automator/ui/web/api/routes_import.py:27-54 | no upload id answers 400 and a missing upload 404, changing nothing; otherwise a fresh public id gets a one-line log and a pending job mapped to its internal id |
| ImportRoutes.Routes.ImportStatus | dv_admin_automator/ui/web/api/routes_import.py:57-92 | the handler answers exactly as the status specification says |
| ImportRoutes.Routes.FindMarkerByMeta | dv_admin_automator/ui/web/api/routes_import.py:141-161 | the metadata loop returns the first readable marker naming an upload of the job |
| ImportRoutes.Routes.Confirm | dv_admin_automator/ui/web/api/routes_import.py:101-253 | the handler answers as the confirm specification says, and leaves the pool with the fallback scan's started managers |
| ImportRoutes.Routes.BgConfirm | dv_admin_automator/ui/web/api/routes_import.py:226-248 | success iff the session's manager has a driver and the confirm button was found and clicked; only then the marker is removed and the job stops awaiting, so the adapter's next poll ends the run |
| ImportRoutes.Routes.Cancel | dv_admin_automator/ui/web/api/routes_import.py:256-299 | always answers canceled; the sentinel is written next to the first marker of the job and the marker removed, and the job stops awaiting confirmation |
| ImportRoutes.Routes.SaveUpload | dv_admin_automator/ui/web/api/routes_import.py:341-351 | the upload is stored under a fresh name in the upload directory, holding the chunks read until the first empty one |
| ImportRoutes.ReadChunks | dv_admin_automator/ui/web/api/routes_import.py:346-350 | the copy loop yields exactly the chunks read before the first empty read, concatenated in order |
| ImportRoutes.Routes.Upload | dv_admin_automator/ui/web/api/routes_import.py:354-359 | no file name answers 400 and stores nothing; otherwise the upload is stored and its base name returned as the upload id |
| ImportRoutes.UploadIdRoundTrip | dv_admin_automator/ui/web/api/routes_import.py:33 | the upload id handed out leads the start handler back to the stored file |
| ImportRoutes.StatusAfterStart | dv_admin_automator/ui/web/api/routes_import.py:46-92 | right after a start, the status of the new public id is pending and not awaiting |
| ImportRoutes.StatusFromRunMarker | dv_admin_automator/ui/web/api/routes_import.py:70-89 | a job the table does not know, whose run left its marker, is reported done and awaiting confirmation |
| ImportRoutes.ConfirmFindsRunMarker | dv_admin_automator/ui/web/api/routes_import.py:101-253 | while a run waits, confirming its job finds a marker, and the confirmation is scheduled when every marker is readable and the pool has a session to fall back on |
| ImportRoutes.CancelThenPoll | dv_admin_automator/ui/web/api/routes_import.py:273-283 | cancelling a waiting run makes its next poll end the run as failed, leaving neither marker nor sentinel |
| ImportRunner.TargetUrls | dv_admin_automator/backend/importer/runner.py:45-55 | one or two import pages: the e-mail page unless the type is `cpf`, the CPF page unless the type is `email`, CPF first when both |
| ImportRunner.CssButtonIgnored | dv_admin_automator/backend/importer/runner.py:97-119 | a confirm button found by the CSS lookup is never clicked and makes the run wait only through the page-text heuristic |
| ImportRunner.AwaitNeedsXPath | dv_admin_automator/backend/importer/runner.py:99-119 | without the page-text heuristic, waiting for manual confirmation needs the CSS lookup to raise, XPath to find a button and auto-confirm to be off |
| ImportRunner.ResultOf | dv_admin_automator/backend/importer/runner.py:119-146 | the run's triple never carries a session id; it awaits confirmation iff the page did, and succeeds iff some page was processed |
| ImportRunner.SweepLeavesOld | dv_admin_automator/backend/importer/runner.py:151-163 | closing every session younger than 15 seconds leaves exactly the older sessions, in their order |
| ImportRunner.SweepYoung | dv_admin_automator/backend/importer/runner.py:150-165 | the finally-block sweep leaves the pool holding only the sessions at least 15 seconds old |
| ImportRunner.RunImport | dv_admin_automator/backend/importer/runner.py:12-165 | the triple never carries a session id, awaiting implies success, the bare `False` comes only from failed selenium imports, and a reused pool session leaves the pool unchanged |
| ImportRunner.ScanPages | dv_admin_automator/backend/importer/runner.py:57-145 | the URL loop stops at the first page that uploads or waits and reports exactly the outcome `Outcome` assigns to the pages; it reports no success when every page moves on |
| ImportRunner.ConfirmImportSession | dv_admin_automator/backend/importer/runner.py:166-204 | True iff the session has a manager with a driver, selenium imports, a confirm button is found and the click succeeds |
| ImportService.SiblingPassesGuard | dv_admin_automator/backend/importer/service.py:39 | a file in a sibling directory whose name extends `tmp_uploads` passes the written prefix guard but not the intended one |
| ImportService.IntendedWithinWritten | dv_admin_automator/backend/importer/service.py:39 | every file the intended guard accepts is accepted by the written one too |
| ImportService.CleanupAsWritten | dv_admin_automator/backend/importer/service.py:30-46 | the upload is removed exactly when the written prefix guard accepts it and the unlink succeeds; otherwise nothing changes |
| ImportService.CleanupIntended | dv_admin_automator/backend/importer/service.py:30-46 | corrected: it never adds a file, keeps every file but an upload inside the upload directory, and removes that upload when the unlink succeeds |
| ImportService.RunJob | dv_admin_automator/backend/importer/service.py:10-46 | a failed adapter import returns an error and deletes nothing; otherwise the job returns the adapter's answer, or raises iff the adapter raised, and in both cases the written cleanup has run |
| ImportService.RunJobKeepsOthers | dv_admin_automator/backend/importer/service.py:30-46 | whether the adapter returned or raised, the job never touches a file other than the upload, nor one whose path does not start with the upload directory's |
| ImportService.RaisingJobRemovesSibling | dv_admin_automator/backend/importer/service.py:17-46 | as written, when the adapter raises, the job raises and still deletes a file of the sibling directory `/srv/tmp_uploads_old` |
| ImportService.ImportService.constructor | dv_admin_automator/backend/importer/service.py:6-8 | a new service uses the given job manager and maps no public id |
| ImportService.ImportService.StartImport | dv_admin_automator/backend/importer/service.py:9-52 | one pending job is submitted under the manager's fresh id, the public id maps to it and is returned |
| ImportService.ImportService.GetInternalJobId | dv_admin_automator/backend/importer/service.py:53-54 | None for a public id never started, else the internal id recorded for it |
| ImportService.StartedJobKnown | dv_admin_automator/backend/importer/service.py:47-52 | after a start, the public id resolves to a job the manager knows, with the confirmation flag cleared |
| ImportService.DefaultService.constructor | dv_admin_automator/backend/importer/service.py:55 | there is no default service at first |
| ImportService.DefaultService.Get | dv_admin_automator/backend/importer/service.py:56-60 | the first call creates a service on the job manager and later calls return that same service |
| Jobs.Snapshot | dv_admin_automator/ui/web/jobs.py:39-44 | `done` iff the future finished; the exception is reported only for a finished future and is its exception; `cancelled` is false; the flag is the job's flag |
| Jobs.JobManager.constructor | dv_admin_automator/ui/web/jobs.py:10-13 | a new manager has no jobs, no running thread and the given number of workers |
| Jobs.JobManager.Submit | dv_admin_automator/ui/web/jobs.py:14-32 | the new id maps to a pending job submitted now with the flag cleared, other jobs are kept and the id is returned |
| Jobs.JobManager.Status | dv_admin_automator/ui/web/jobs.py:33-44 | None for an unknown id, otherwise the job's snapshot |
| Jobs.JobManager.SetAwaitingConfirmation | dv_admin_automator/ui/web/jobs.py:45-51 | returns whether the id is known; only that job's flag changes, and nothing changes for an unknown id |
| Jobs.JobManager.StartJob | dv_admin_automator/ui/web/jobs.py:16-18 | an idle worker thread starts a pending job and records its id as the thread's current job |
| Jobs.JobManager.FinishJob | dv_admin_automator/ui/web/jobs.py:22-28 | a running job finishes with or without an exception and nothing else changes |
| Jobs.JobManager.GetCurrentJobId | dv_admin_automator/ui/web/jobs.py:59-63 | a worker thread sees the id of the job it runs, and None when it never ran one |
| Jobs.JobManager.RunningBound | dv_admin_automator/ui/web/jobs.py:11 | no more jobs run at once than the executor has workers |
| Jobs.DefaultManager.constructor | dv_admin_automator/ui/web/jobs.py:52 | there is no default manager at first |
| Jobs.DefaultManager.Get | dv_admin_automator/ui/web/jobs.py:53-57 | the first call creates an empty manager with two workers, and later calls return that same manager |
| Launcher.FindAsset | launcher/main.go:60-67 | the first asset whose name starts with the prefix; none iff no asset name has the prefix |
| Launcher.ChecksumUrlLoop | launcher/main.go:166-173 | the loop returns the URL the checksum specification defines |
| Launcher.ChecksumUrlAt | launcher/main.go:168-172 | the first asset named `<asset>.sha256` decides the checksum URL |
| Launcher.ChecksumUrlNone | launcher/main.go:167-173 | without an asset of that name the URL stays "", so verification is skipped |
| Launcher.HttpGet | launcher/main.go:30-41 | after a successful transport, the result is the body iff the status is in [200, 300); a successful result is always that body |
| Launcher.GoTrimSpace | launcher/main.go:80 | the trimmed text neither starts nor ends with white space |
| Launcher.NonSpaceRun | launcher/main.go:181 | the leading run of non-space characters: a prefix with no space, followed by a space or the end |
| Launcher.FirstField | launcher/main.go:181 | there is no first field iff the text is all white space; a first field is non-empty and holds no space |
| Launcher.TrimField | launcher/main.go:80-81 | trimming a field changes nothing |
| Launcher.DigestMatchesRule | launcher/main.go:69-84 | for a lower-case hex digest: the check accepts the digest itself; it accepts an expected text iff the trimmed text has the digest's length and lowers to it character by character; it never accepts "" for a non-empty digest |
| Launcher.ChecksumStepAsWritten | launcher/main.go:174-190 | as written: it panics exactly when a checksum is published and fetched but holds no field; it goes on iff no checksum is published or the fetched first field matches the digest; otherwise it exits with 1 |
| Launcher.EmptyChecksumPanics | launcher/main.go:181 | as written, a checksum file that is fetched but empty makes `main` panic |
| Launcher.ChecksumStep | launcher/main.go:174-190 | corrected: it never panics; it goes on iff no checksum is published, or the checksum was fetched and its first field matches the digest |
| Launcher.ChecksumStepsAgree | launcher/main.go:174-190 | the as-written and corrected checks differ exactly on a fetched checksum file that holds no field |
| Launcher.ChecksumProceedsOnMatch | launcher/main.go:176-186 | a fetched checksum lets the update go on iff its first field equals the digest up to letter case |
| Launcher.Prepare | launcher/main.go:131-197 | every failure exits with 1 except a published checksum file with no field, on which `main` panics (exactly then); the update goes on exactly when the release was read, an asset has the prefix, the download and extraction worked, and the checksum (when one is published) was fetched and matches |
| Launcher.StartStep | launcher/main.go:234-242 | the launcher ends normally exactly when the server script ran, and otherwise exits with 1 |
| Launcher.BackupDir | launcher/main.go:199 | the backup path is `<project>-bak-` followed by the tag, with each '/' of the tag replaced by '-' |
| Launcher.BackupDirDistinct | launcher/main.go:199 | the backup path is never the project path, and its tag part holds no '/' |
| Launcher.AcceptsRule | launcher/main.go:206 | the prompt accepts exactly "y" or "Y", with any surrounding white space; "yes" and "" are refused |
| Launcher.PromptStep | launcher/main.go:202-210 | the update goes on iff `-auto` is set or the answer is accepted; otherwise it exits with 0 |
| Launcher.Disk.RemoveAll | launcher/main.go:215-218 | on success the path is gone, whether or not it existed; on failure nothing changes |
| Launcher.Disk.Rename | launcher/main.go:219 | succeeds iff the file system allows it and the source exists; then the target holds the source's contents and the source is gone; on failure nothing changes |
| Launcher.Replacement | launcher/main.go:212-232 | the step proceeds iff the extracted release exists, the move into place works and, when there is a project, removing the old backup and moving the project to the backup both work; a failure is exit 1; no path other than the project, the backup and the extract changes; success puts the release at the project and the old project at the backup; a failed removal changes nothing and a failed backup has only removed the old backup |
| Launcher.ReplacementRollsBack | launcher/main.go:226-231 | when the move into place fails after a backup, a successful rollback restores the project, and only the earlier backup is lost |
| Launcher.StaleBackupInstalled | launcher/main.go:226-231 | without a project, a failed move renames a backup left by an earlier run into the project path |
| Launcher.ReplacementIntended | launcher/main.go:212-232 | corrected replacement (rollback only after this run's backup): proceeds under the same conditions and changes no other path |
| Launcher.IntendedKeepsProjectPath | launcher/main.go:226-231 | corrected, a failed replacement leaves at the project path nothing but the old project, and the two versions agree whenever there was a project or the move worked |
| Launcher.AsWrittenBreaksProjectPath | launcher/main.go:226-231 | as written, a failed replacement can leave something at a project path that was empty |
| Launcher.Disk.ReplaceProject | launcher/main.go:212-232 | the new directories and the step are `Replacement` of the old directories: proceeds iff each needed step works, other paths untouched, the new state stated on every failure path, including the stale-backup rollback when there was no project |
| LegacyAdapter.Sample | dv_admin_automator/backend/importer/legacy_adapter.py:59 | a column's sample has at most 20 values |
| LegacyAdapter.Threshold | dv_admin_automator/backend/importer/legacy_adapter.py:64-66 | `max(1, n // 3)`: at least 1 and at least a third of the sample, and one of the two |
| LegacyAdapter.NameAsWritten | dv_admin_automator/backend/importer/legacy_adapter.py:58-70 | as written: raises iff no column has a non-empty sample; a detected name column is always the last column; a name is detected iff the last column with a non-empty sample has a name-like value |
| LegacyAdapter.DetectAsWritten | dv_admin_automator/backend/importer/legacy_adapter.py:48-71 | as written: the CPF and e-mail columns are the first columns passing their thresholds, and the name column is the as-written name part |
| LegacyAdapter.DetectColumnsByContent | dv_admin_automator/backend/importer/legacy_adapter.py:57-71 | the loop over the columns computes the as-written detection on the frame's samples |
| LegacyAdapter.DetectOnSamples | dv_admin_automator/backend/importer/legacy_adapter.py:57-71 | on the column labels and their samples, the loop and the name test after it give the as-written detection, including the NameError when every sample is empty |
| LegacyAdapter.ScanColumns | dv_admin_automator/backend/importer/legacy_adapter.py:58-68 | the loop leaves the state that `ScanStep` builds when applied to every column's sample in order |
| LegacyAdapter.ScanColumn | dv_admin_automator/backend/importer/legacy_adapter.py:59-68 | one pass: an empty sample changes nothing; otherwise the CPF and e-mail columns are set only when still unset and the sample reaches its threshold, and `name_count` becomes this sample's count |
| LegacyAdapter.ScanPrefixCpf | dv_admin_automator/backend/importer/legacy_adapter.py:58-65 | after the first `i` columns the CPF column is the first CPF-like column among them |
| LegacyAdapter.ScanPrefixEmail | dv_admin_automator/backend/importer/legacy_adapter.py:58-67 | after the first `i` columns the e-mail column is the first e-mail-like column among them |
| LegacyAdapter.ScanPrefixName | dv_admin_automator/backend/importer/legacy_adapter.py:58-68 | after the first `i` columns `name_count` is unset when every sample so far was empty, and otherwise is the count of the last column with a non-empty sample |
| LegacyAdapter.ScanAll | dv_admin_automator/backend/importer/legacy_adapter.py:57-68 | after every column: the first CPF-like column, the first e-mail-like column, and the name count of the last column with a non-empty sample |
| LegacyAdapter.NameIntended | dv_admin_automator/backend/importer/legacy_adapter.py:68-70 | corrected: the name column is the first column whose sample has a name-like value, None iff there is none, and nothing raises |
| LegacyAdapter.DetectIntended | dv_admin_automator/backend/importer/legacy_adapter.py:48-71 | corrected detection: first CPF-like column, first e-mail-like column, first name-like column |
| LegacyAdapter.NameMissedUnlessLast | dv_admin_automator/backend/importer/legacy_adapter.py:68-70 | as written, a name column that is not last is missed whenever the last column has values but no name-like one, while the corrected detection finds it |
| LegacyAdapter.NameColumnMissed | dv_admin_automator/backend/importer/legacy_adapter.py:58-70 | for the frame ["Nome", "CPF"] with row ["A B", "12345678900"] the written code detects no name column, the corrected one detects "Nome" |
| LegacyAdapter.FormatCpf | dv_admin_automator/backend/importer/legacy_adapter.py:89-91 | eleven digits become a 14-character `ddd.ddd.ddd-dd` |
| LegacyAdapter.CpfRoundTrip | dv_admin_automator/backend/importer/legacy_adapter.py:82-93 | removing the punctuation from a formatted CPF gives its digits back |
| LegacyAdapter.FormatCpfInjective | dv_admin_automator/backend/importer/legacy_adapter.py:89-93 | different digit strings give different formatted CPFs |
| LegacyAdapter.ColIndex | dv_admin_automator/backend/importer/legacy_adapter.py:82 | the position of a column label, None iff the frame has no such column |
| LegacyAdapter.CpfRowOf | dv_admin_automator/backend/importer/legacy_adapter.py:82-95 | a data row yields a CPF row iff its CPF cell has 11 digits; the row then carries the company and the CPF formatted as `ddd.ddd.ddd-dd` |
| LegacyAdapter.CpfCandidates | dv_admin_automator/backend/importer/legacy_adapter.py:82-95 | every CPF row before de-duplication is a formatted CPF of the given company |
| LegacyAdapter.CpfCandidatesComplete | dv_admin_automator/backend/importer/legacy_adapter.py:82-95 | every row whose CPF cell has 11 digits contributes a candidate |
| LegacyAdapter.CpfCandidatesSound | dv_admin_automator/backend/importer/legacy_adapter.py:82-95 | every candidate comes from a row whose CPF cell has 11 digits |
| LegacyAdapter.PrepareBaseCpf | dv_admin_automator/backend/importer/legacy_adapter.py:74-106 | None without both a CPF and a name column; otherwise formatted CPFs of the company, each CPF once |
| LegacyAdapter.PrepareBaseCpfComplete | dv_admin_automator/backend/importer/legacy_adapter.py:82-97 | every row with an 11-digit CPF is represented in the prepared base |
| LegacyAdapter.PrepareBaseCpfSound | dv_admin_automator/backend/importer/legacy_adapter.py:82-97 | every prepared row is the formatted CPF and stripped name of some data row |
| LegacyAdapter.EmailRowsOf | dv_admin_automator/backend/importer/legacy_adapter.py:131-132 | one row per address, in order, all for the same company |
| LegacyAdapter.EmailIds | dv_admin_automator/backend/importer/legacy_adapter.py:116-121 | every kept address is non-empty and matches the e-mail pattern |
| LegacyAdapter.UniqueEmails | dv_admin_automator/backend/importer/legacy_adapter.py:127 | the de-duplicated addresses are distinct and all well-formed |
| LegacyAdapter.PrepareBaseEmail | dv_admin_automator/backend/importer/legacy_adapter.py:109-137 | None without an e-mail column; otherwise distinct, non-empty, well-formed addresses of the company |
| LegacyAdapter.UniqueEmailsComplete | dv_admin_automator/backend/importer/legacy_adapter.py:116-127 | every well-formed address of the column survives the de-duplication |
| LegacyAdapter.EmailRowsComplete | dv_admin_automator/backend/importer/legacy_adapter.py:116-132 | every well-formed address of the column appears in the prepared base |
| LegacyAdapter.EmailShapeOneAt | dv_admin_automator/backend/importer/legacy_adapter.py:119 | an address accepted by `^[^@\s]+@[^@\s]+\.[^@\s]+$` has exactly one '@' and no whitespace |
| LegacyAdapter.FirstNameMatch | dv_admin_automator/backend/importer/legacy_adapter.py:251-259 | the id of the first entry whose string name matches exactly or by containment, None iff none does |
| LegacyAdapter.ResolveCompany | dv_admin_automator/backend/importer/legacy_adapter.py:238-278 | a given id wins; with neither id nor name nothing resolves and nothing is scraped; the admin pages are scraped only for a name without an id; a resolved id comes from the cache or the scraped map |
| LegacyAdapter.ExactBeforeContainment | dv_admin_automator/backend/importer/legacy_adapter.py:251-259 | an exact cache match wins even when an earlier cache entry only contains the name |
| LegacyAdapter.CacheBeforeScrape | dv_admin_automator/backend/importer/legacy_adapter.py:265-266 | a hit in the cache means the admin pages are not scraped |
| LegacyAdapter.AddRows | dv_admin_automator/backend/importer/legacy_adapter.py:188-207 | one page adds rows with a non-empty id and name and an id not seen yet, after the rows already collected |
| LegacyAdapter.AddPageRows | dv_admin_automator/backend/importer/legacy_adapter.py:188-207 | the row loop of one page leaves exactly the map the page specification defines |
| LegacyAdapter.Scrape | dv_admin_automator/backend/importer/legacy_adapter.py:179-213 | the page loop only extends the collected map and keeps its ids distinct |
| LegacyAdapter.FetchCompaniesMap | dv_admin_automator/backend/importer/legacy_adapter.py:166-217 | the map has distinct ids and non-empty ids and names; it is the scrape of the pages, or empty when no browser could be obtained |
| LegacyAdapter.Sanitize | dv_admin_automator/backend/importer/legacy_adapter.py:296-297 | every character outside `[A-Za-z0-9_.-]` becomes '_', and the length is kept |
| LegacyAdapter.SanitizeSafe | dv_admin_automator/backend/importer/legacy_adapter.py:296-297 | a sanitized id holds only safe characters, and sanitizing twice changes nothing |
| LegacyAdapter.SanitizeCollides | dv_admin_automator/backend/importer/legacy_adapter.py:296-299 | the job ids "a:b" and "a_b" share a sanitized form and so an upload path |
| LegacyAdapter.ResolveImportType | dv_admin_automator/backend/importer/legacy_adapter.py:281-283 | a given type is kept; `auto` becomes `cpf` iff both a CPF and a name column were detected, else `email` |
| LegacyAdapter.PreparedCsv | dv_admin_automator/backend/importer/legacy_adapter.py:279-288 | the prepared table starts with the header of its type (`company,id,name_employee` for cpf, `company,id` otherwise), and every data row starts with the resolved company id |
| LegacyAdapter.PrepareUpload | dv_admin_automator/backend/importer/legacy_adapter.py:230-292 | an upload happens iff the file was read, the written column detection did not raise, a company id resolved and the table prepared for the resolved type has a data row; the upload is then exactly that table, every data row of it carrying the company id; nothing is uploaded otherwise |
| LegacyAdapter.AutoRunWithoutNameOrEmail | dv_admin_automator/backend/importer/legacy_adapter.py:281-292 | an `auto` run whose written detection finds neither a name nor an e-mail column prepares nothing |
| LegacyAdapter.DetectWithoutEmail | dv_admin_automator/backend/importer/legacy_adapter.py:57-70 | without an e-mail-like sample and with no name found, the written detection reports neither column |
| LegacyAdapter.AutoRunMissesNameThenCpf | dv_admin_automator/backend/importer/legacy_adapter.py:230-292 | an `auto` run over the frame ["Nome", "CPF"] with the row ["A B", "12345678900"] prepares nothing, because the written detection misses the name column |
| LegacyAdapter.StartFullRun | dv_admin_automator/backend/importer/legacy_adapter.py:294-358 | a prepared table whose CSV is written lands in `tmp_uploads/import_<safe job id>.csv`; no CSV, no runner or a bare False returns False; otherwise the run waits iff the runner reports awaiting and else returns the runner's ok; waiting writes the marker `<tmp_path>.awaiting_confirm` with the tmp path and a null session id; no other file changes, and a run that prepared nothing returns False and writes nothing |
| LegacyAdapter.Upload | dv_admin_automator/backend/importer/legacy_adapter.py:294-358 | the write, runner load and runner call of a prepared table, with the same outcomes as the whole run |
| LegacyAdapter.PollMarker | dv_admin_automator/backend/importer/legacy_adapter.py:332-346 | while the marker exists the job waits; afterwards a `.canceled` sentinel is removed and gives False, and its absence gives True |
| LegacyAdapter.PollLeavesOnlyWithoutMarker | dv_admin_automator/backend/importer/legacy_adapter.py:332-346 | the job leaves the wait only once the marker is gone, never leaves the sentinel behind, and succeeds iff there was no sentinel |
| LegacyAdapter.AnnounceAwaiting | dv_admin_automator/backend/importer/legacy_adapter.py:321-329 | the job's own current id is flagged as awaiting confirmation; without a current id nothing changes |
| Parsers.CsvCell | dv_admin_automator/backend/importer/parsers.py:26-28 | a cell is present iff the record reaches that column and the cell is not empty, and is then the record's cell |
| Parsers.CsvRowKeys | dv_admin_automator/backend/importer/parsers.py:28 | every row dict has exactly the column names as keys and never an empty string as a value |
| Parsers.CsvRowHasKey | dv_admin_automator/backend/importer/parsers.py:28 | a row dict has a key iff it is a column name |
| Parsers.CsvRowDistinct | dv_admin_automator/backend/importer/parsers.py:28 | a row dict holds each key once |
| Parsers.CsvRowNoEmpty | dv_admin_automator/backend/importer/parsers.py:28 | no value of a row dict is the empty string |
| Parsers.CsvRowOfDistinct | dv_admin_automator/backend/importer/parsers.py:26-28 | with distinct column names each column maps to the cell under it, in column order |
| Parsers.DataCount | dv_admin_automator/backend/importer/parsers.py:23-25 | the loop keeps no more than the available records and no more than `rows`, none for `rows <= 0`, and all of them when fewer than `rows` are available |
| Parsers.ReadCsvPreview | dv_admin_automator/backend/importer/parsers.py:13-30 | the row loop with its break at index `rows` computes the csv preview |
| Parsers.CsvPreviewShape | dv_admin_automator/backend/importer/parsers.py:17-30 | an empty file gives the empty preview; otherwise the columns are the stripped header, the row count is the kept count, and every row has exactly the columns as keys and no empty-string value |
| Parsers.CsvPreviewCells | dv_admin_automator/backend/importer/parsers.py:23-29 | with distinct column names, row `i` maps each column to the cell of record `i + 1` |
| Parsers.ParsePreview | dv_admin_automator/backend/importer/parsers.py:31-37 | a missing path raises FileNotFoundError; otherwise the pandas preview, and when pandas raises the csv preview, whose own failure to open propagates |
| RemoveComments.InDocstringLoop | tools/remove_comments.py:79-83 | the loop answers true iff some range `(a, b)` has `a <= line <= b` |
| RemoveComments.DocRanges | tools/remove_comments.py:36-39 | no ranges when docstring removal is off or the source does not parse |
| RemoveComments.FilterTokens | tools/remove_comments.py:92-101 | the token loop keeps exactly the tokens the filter specification keeps, in order |
| RemoveComments.KeptRule | tools/remove_comments.py:92-101 | no comment survives; a string token is dropped only when removal is on and its first line is in a range; every other token survives, in the original order |
| RemoveComments.KeptWithoutRemoval | tools/remove_comments.py:77 | with removal off or an unparsable source, the kept tokens are exactly the non-comment tokens, in order |
| RemoveComments.RemoveCommentsAndDocstrings | tools/remove_comments.py:76-110 | a tokenize failure or an untokenize failure gives back the source unchanged |
| RemoveComments.FirstBreak | tools/remove_comments.py:120 | the first line boundary: no boundary before it, and a boundary at it unless it is the end |
| RemoveComments.SplitLines | tools/remove_comments.py:120 | no line of `splitlines()` holds a line boundary |
| RemoveComments.SplitJoin | tools/remove_comments.py:121 | non-empty lines without boundaries, joined by "\n" and optionally ended by "\n", split back into themselves |
| RemoveComments.AsWrittenDropsFinalNewline | tools/remove_comments.py:121 | as written, the trailing "\n" is never appended: no line of `splitlines()` ends with "\n" |
| RemoveComments.FinalNewlineExample | tools/remove_comments.py:120-121 | "x = 1\n" comes out as "x = 1" as written, and as "x = 1\n" once corrected |
| RemoveComments.BlankLinesRemovedRoundTrip | tools/remove_comments.py:117-121 | splitting the corrected output gives back exactly the non-blank lines; it ends in "\n" exactly when the input does (given a non-blank line) |
| RemoveComments.BackupAppendsBak | tools/remove_comments.py:130 | `with_suffix(suffix + '.bak')` is the name with ".bak" appended, whatever its suffix |
| RemoveComments.ProcessFile | tools/remove_comments.py:113-143 | a dry run only prints; in place with backup writes the original to `<name>.bak` and then the cleaned text to the file; nothing else is ever written but the file, its backup or the output file |
| RemoveComments.MainExit | tools/remove_comments.py:166-177 | exit code 2 iff an output file is given and the path is not a single file, else 0 |
| RoutesAcolhimentos.ExactNamesFirst | dv_admin_automator/ui/web/api/routes_acolhimentos.py:165-206 | an empty header has no key; a header whose stripped form is an exact name gets that name's key before any rule is tried |
| RoutesAcolhimentos.FirstRuleWins | dv_admin_automator/ui/web/api/routes_acolhimentos.py:207-226 | without an exact name, the first substring rule that fires on the lower-cased header decides, whatever later rules would say |
| RoutesAcolhimentos.NoRuleNoKey | dv_admin_automator/ui/web/api/routes_acolhimentos.py:207-228 | a header without an exact name, that no rule matches and that is no uuid header, has no key |
| RoutesAcolhimentos.FirstNonEmptyBlank | dv_admin_automator/ui/web/api/routes_acolhimentos.py:124-142 | a field's value is '' exactly when every one of its aliases is missing from the row or holds '' |
| RoutesAcolhimentos.FirstNonEmptyWitness | dv_admin_automator/ui/web/api/routes_acolhimentos.py:124-142 | a non-empty field value is the value of some alias, and every alias listed before it is missing or empty |
| RoutesAcolhimentos.FirstNonEmptyTwo | dv_admin_automator/ui/web/api/routes_acolhimentos.py:123 | with two aliases (uuid, then ID) the value is the first non-blank one's, else '' |
| RoutesAcolhimentos.RecordShape | dv_admin_automator/ui/web/api/routes_acolhimentos.py:121-145 | a record holds every field once, in order; its uuid is never empty: 'uuid' first, then 'ID', then the 1-based position |
| RoutesAcolhimentos.SheetRecords | dv_admin_automator/ui/web/api/routes_acolhimentos.py:115-149 | no records iff the read failed or found no rows; otherwise one record per row, in order |
| RoutesAcolhimentos.ReadRows | dv_admin_automator/ui/web/api/routes_acolhimentos.py:121-146 | the loop builds one record per row, in order |
| RoutesAcolhimentos.ReadSheet | dv_admin_automator/ui/web/api/routes_acolhimentos.py:115-149 | the loop of `_read_sheet` returns exactly the records the specification defines |
| RoutesAcolhimentos.Reread | dv_admin_automator/ui/web/api/routes_acolhimentos.py:236-249 | the rows are read iff the first read worked, or credentials were auto-loaded and the second read worked; a failure is 423 when locked and 500 otherwise |
| RoutesAcolhimentos.ReadWithRetry | dv_admin_automator/ui/web/api/routes_acolhimentos.py:236-249 | the read, with its retry after an auto-load, gives exactly the answer the retry rule defines |
| RoutesAcolhimentos.LockedWithoutCredentials | dv_admin_automator/ui/web/api/routes_acolhimentos.py:150-164 | with nothing cached and no local key to load, nothing is auto-loaded and the handler is locked |
| RoutesAcolhimentos.CatchAll | dv_admin_automator/ui/web/api/routes_acolhimentos.py:251-252 | the blanket handler turns every raised status into 500 and lets every answer through |
| RoutesAcolhimentos.ListOutcome | dv_admin_automator/ui/web/api/routes_acolhimentos.py:232-235 | a missing sheet id raises 500 |
| RoutesAcolhimentos.ApiAcolhimentosList | dv_admin_automator/ui/web/api/routes_acolhimentos.py:229-252 | the list handler answers the body's outcome after its catch-all |
| RoutesAcolhimentos.RecordIndex | dv_admin_automator/ui/web/api/routes_acolhimentos.py:272-282 | the record an id names, when there is one, is in range |
| RoutesAcolhimentos.RowNumber | dv_admin_automator/ui/web/api/routes_acolhimentos.py:275-281 | `row_N` names index N only when N is in range |
| RoutesAcolhimentos.RecordIndexPrefersUuid | dv_admin_automator/ui/web/api/routes_acolhimentos.py:272-282 | a uuid match wins over a `row_N` reading of the same id, and the first match wins; without a uuid match the `row_N` reading decides |
| RoutesAcolhimentos.RowNumberOf | dv_admin_automator/ui/web/api/routes_acolhimentos.py:275-279 | `row_<N>` names index N exactly when N is below the number of records |
| RoutesAcolhimentos.FindRecord | dv_admin_automator/ui/web/api/routes_acolhimentos.py:318-328 | the lookup loops return exactly the index the specification defines |
| RoutesAcolhimentos.GetOutcomeCodes | dv_admin_automator/ui/web/api/routes_acolhimentos.py:266-282 | the get handler's body raises 423 for a locked sheet and 404 for an unknown record |
| RoutesAcolhimentos.ApiAcolhimentoGet | dv_admin_automator/ui/web/api/routes_acolhimentos.py:253-284 | the get handler answers the body's outcome after its catch-all |
| RoutesAcolhimentos.GetHidesNotFoundAndLocked | dv_admin_automator/ui/web/api/routes_acolhimentos.py:282-284 | an unknown record and a locked sheet both reach the client as 500, not as 404 and 423 |
| RoutesAcolhimentos.PatchedCells | dv_admin_automator/ui/web/api/routes_acolhimentos.py:331-335 | the headers stay the same and in order; exactly the headers whose normalized key is in the change set are overwritten; every other cell keeps its value |
| RoutesAcolhimentos.PatchNothing | dv_admin_automator/ui/web/api/routes_acolhimentos.py:331-335 | an empty change set leaves the row as it was |
| RoutesAcolhimentos.PatchRow | dv_admin_automator/ui/web/api/routes_acolhimentos.py:332-335 | the overwrite loop produces exactly the patched row |
| RoutesAcolhimentos.PatchWrite | dv_admin_automator/ui/web/api/routes_acolhimentos.py:331-341 | a row is written iff the index is within the raw rows, and it is then the patched raw row; a row is answered only after a successful write |
| RoutesAcolhimentos.PatchLocked | dv_admin_automator/ui/web/api/routes_acolhimentos.py:293-303 | PATCH on a locked sheet answers 423 and writes nothing |
| RoutesAcolhimentos.PatchTargetsNamedRecord | dv_admin_automator/ui/web/api/routes_acolhimentos.py:305-343 | PATCH writes only to the record the id names in the normalized rows; a row is answered only after a successful write; an unknown id is 404 |
| RoutesAcolhimentos.ApiAcolhimentoPatch | dv_admin_automator/ui/web/api/routes_acolhimentos.py:285-345 | the PATCH handler answers and writes exactly what the specification defines, keeping 404 and 423 |
| RoutesAcolhimentos.WriteBack | dv_admin_automator/ui/web/api/routes_acolhimentos.py:331-341 | the end of the handler answers and writes exactly what the write-back specification defines |
| RoutesAppointments.Choice | dv_admin_automator/ui/web/api/routes_appointments.py:48-73 | the fallback choice, when there is one, is a session of the pool that has a driver |
| RoutesAppointments.ChooseSession | dv_admin_automator/ui/web/api/routes_appointments.py:49-71 | the selection loop returns exactly the fallback choice the specification defines |
| RoutesAppointments.ChoicePrefersAppPage | dv_admin_automator/ui/web/api/routes_appointments.py:49-73 | a session on an application page is chosen when one exists, and it is the first such session; otherwise the first session with a driver; nothing iff no session has a driver |
| RoutesAppointments.FindById | dv_admin_automator/ui/web/api/routes_appointments.py:125-131 | the scan returns the manager of the first session whose id is the requested one |
| RoutesAppointments.ApiSchedule | dv_admin_automator/ui/web/api/routes_appointments.py:23-95 | 400 (no active browser session) iff neither the requested session nor any fallback is available; otherwise the scheduler runs with the requested session's manager, else the fallback's |
| RoutesAppointments.RequestedSessionWins | dv_admin_automator/ui/web/api/routes_appointments.py:34-37 | a requested session that the pool knows is always the one used, whatever else is open |
| RoutesAppointments.ScheduleRefusesOnlyWithoutDriver | dv_admin_automator/ui/web/api/routes_appointments.py:41-82 | scheduling refuses iff the requested session is not known and no session of the pool has a driver |
| RoutesAppointments.HistorySession | dv_admin_automator/ui/web/api/routes_appointments.py:112-133 | an explicit id resolves only to itself, with no manager when the pool does not know it |
| RoutesAppointments.HistoryQuery | dv_admin_automator/ui/web/api/routes_appointments.py:210-224 | with a participant id, 404 for an empty history and the history otherwise; without one, 400 unless a participant is named, else the search results |
| RoutesAppointments.ApiHistory | dv_admin_automator/ui/web/api/routes_appointments.py:101-226 | an unknown requested session with stored credentials gets a new session and a login job, or 500 when the session cannot be started; without stored credentials 404; otherwise the query answer, with the pool and jobs unchanged |
| RoutesAppointments.NoSessionSearchesWithoutManager | dv_admin_automator/ui/web/api/routes_appointments.py:134-170 | without an id and without a session with a driver, the search runs with no manager |
| RoutesAuth.DetectLogin | dv_admin_automator/ui/web/api/routes_auth.py:131-152 | the detection loop succeeds iff the page URL starts with the dashboard prefix or some selector probe found an element |
| RoutesAuth.Recorded | dv_admin_automator/ui/web/api/routes_auth.py:153-158 | the job writes its outcome only into the pending record of its own job id; every other record, and the set of job ids, is unchanged |
| RoutesAuth.CompleteStatus | dv_admin_automator/ui/web/api/routes_auth.py:39-51 | completion is allowed iff a job id is given, a pending record and a job exist for it, the job is done, and the job recorded success |
| RoutesAuth.FailedLoginNeverCompletes | dv_admin_automator/ui/web/api/routes_auth.py:50-51 | a login whose job recorded a failure is refused with 400 |
| RoutesAuth.UnrecordedLoginNeverCompletes | dv_admin_automator/ui/web/api/routes_auth.py:48-51 | before its job has recorded anything, a login is refused with 400, whether or not the job has finished |
| RoutesAuth.RecordedSuccessCompletes | dv_admin_automator/ui/web/api/routes_auth.py:39-51 | a finished job that recorded success completes, and another job's outcome never changes that |
| RoutesAuth.AuthState.Login | dv_admin_automator/ui/web/api/routes_auth.py:10-37 | 400 without username or password, changing nothing; otherwise a job is submitted and a pending record registered under its id; a started session is added to the pool, holds the credentials, and is returned |
| RoutesAuth.AuthState.LoginJob | dv_admin_automator/ui/web/api/routes_auth.py:96-163 | the credentials table never changes; when the browser steps ran, the outcome goes into the pending record of the job the worker runs; otherwise nothing is recorded |
| RoutesAuth.AuthState.CompleteLogin | dv_admin_automator/ui/web/api/routes_auth.py:38-80 | a refused completion changes nothing; an allowed one removes the pending record, copies the credentials to the browser session when there is one, and writes the user to the HTTP session, or sets the fallback cookie when the session is not writable |
| RoutesAuth.AuthState.JobStatus | dv_admin_automator/ui/web/api/routes_auth.py:81-87 | 404 exactly for a job the manager does not know; otherwise the job's status, with its confirmation flag and never cancelled |
| RoutesCompanies.Greatest | dv_admin_automator/ui/web/api/routes_companies.py:22-23 | the chosen cache file is one of the listed names and no listed name sorts after it |
| RoutesCompanies.ApiCompaniesReadsLatest | dv_admin_automator/ui/web/api/routes_companies.py:17-23 | without a cache file the answer is []; otherwise only the greatest cache file name is read and its content decides the answer |
| RoutesCompanies.WithUrlFields | dv_admin_automator/ui/web/api/routes_companies.py:28-36 | the copy gains the admin url and keeps every other field; the url is "" exactly when the id is missing or null |
| RoutesCompanies.ListedFilter | dv_admin_automator/ui/web/api/routes_companies.py:37-41 | without a query every company is answered in the cache's order; with one, a company is listed iff the lower-cased query is in its lower-cased name or in its id |
| RoutesCompanies.Listed | dv_admin_automator/ui/web/api/routes_companies.py:24-44 | content that is not a list answers []; a list never answers more companies than it holds |
| RoutesCompanies.ListedErrors | dv_admin_automator/ui/web/api/routes_companies.py:24-44 | content that is not a list, a list holding a non-dict, or a non-text name under a query, all answer [] |
| RoutesCompanies.RefreshCredentialsRule | dv_admin_automator/ui/web/api/routes_companies.py:54-88 | accepted credentials are never empty, given values always win, both given means accepted as given, and otherwise the answer is 400; the second login-map lookup never changes what the first and the HTTP session left |
| RoutesCompanies.RefreshCredentials | dv_admin_automator/ui/web/api/routes_companies.py:54-88 | accepted credentials are never empty, a refusal is 400, and credentials given in the payload are used as they are |
| RoutesCompanies.RefreshNeedsPayload | dv_admin_automator/ui/web/api/routes_companies.py:55-88 | without a browser session id and without session values, only the payload counts |
| RoutesCompanies.RowPair | dv_admin_automator/ui/web/api/routes_companies.py:159-213 | a row offers at most one (id, name) pair, and its id is never empty |
| RoutesCompanies.Offered | dv_admin_automator/ui/web/api/routes_companies.py:159-213 | every pair the rows offer has a non-empty id |
| RoutesCompanies.Crawl | dv_admin_automator/ui/web/api/routes_companies.py:140-221 | the loop visits pages from p up to at most page 500, and the pairs it has offered only grow |
| RoutesCompanies.TakeRow | dv_admin_automator/ui/web/api/routes_companies.py:210-213 | one row keeps the collected list equal to the first pair of each offered id, and the seen ids equal to the collected ids |
| RoutesCompanies.TakePage | dv_admin_automator/ui/web/api/routes_companies.py:158-215 | a page of rows keeps the collected list equal to the first pair of each id offered so far, with the seen ids in step |
| RoutesCompanies.CollectCompanies | dv_admin_automator/ui/web/api/routes_companies.py:138-221 | the page loop collects exactly the first pair of each id offered on the pages it visits, and stops where the crawl specification stops |
| RoutesCompanies.CrawlStep | dv_admin_automator/ui/web/api/routes_companies.py:142-221 | one iteration: a navigation error or an empty page stops; a page without a new id stops after it; otherwise the next page follows |
| RoutesCompanies.CollectedShape | dv_admin_automator/ui/web/api/routes_companies.py:138-221 | the collected companies have distinct non-empty ids, each the first offered pair for its id, and no page past 499 is visited |
| RoutesCompanies.CrawlIds | dv_admin_automator/ui/web/api/routes_companies.py:159-213 | every pair the crawl offers has a non-empty id |
| RoutesCompanies.LegacyMapOfDistinct | dv_admin_automator/ui/web/api/routes_companies.py:250 | with distinct ids, the legacy id-to-name map holds exactly the collected pairs, in order |
| RoutesCompanies.RefreshJob | dv_admin_automator/ui/web/api/routes_companies.py:96-275 | no browser session or a failed login fails without saving; otherwise the job succeeds iff the dated cache is written, holding the collected companies, and the legacy cache is replaced only when there is a company and a secure directory |
| RoutesCompanies.SavedCacheIsListed | dv_admin_automator/ui/web/api/routes_companies.py:222-227 | a cache the job writes is one the listing reads, and read back it lists every collected company with its admin url, in collection order |
| RoutesCompanies.ApiLegacy | dv_admin_automator/ui/web/api/routes_companies.py:291-306 | the answer is the legacy cache when it exists and parses to a dict, else the empty dict |
| RoutesCompanies.SubmittedIsFound | dv_admin_automator/ui/web/api/routes_companies.py:286-287 | right after submission the public id answers the new pending job, while other ids answer as before |
| RoutesCompanies.CompanyRoutes.constructor | dv_admin_automator/ui/web/api/routes_companies.py:15 | the routes start with no public job id mapped |
| RoutesCompanies.CompanyRoutes.Refresh | dv_admin_automator/ui/web/api/routes_companies.py:46-289 | missing credentials answer 400 and change nothing; otherwise the job is submitted as pending under a new internal id and the public id maps to it, nothing else changing |
| RoutesCompanies.CompanyRoutes.Status | dv_admin_automator/ui/web/api/routes_companies.py:312-319 | the status is looked up under the mapped internal id, or the given id when none is mapped; an unknown job answers 404 |
| RoutesReports.DayMonthYear | dv_admin_automator/ui/web/api/routes_reports.py:38-44 | a day/month/year reading, when there is one, is a date that exists |
| RoutesReports.ParseDate | dv_admin_automator/ui/web/api/routes_reports.py:32-37 | a missing, empty or blank text has no date |
| RoutesReports.DayMonthYearOfPieces | dv_admin_automator/ui/web/api/routes_reports.py:39-43 | text whose first three '/'-pieces are the decimal day, month and year reads as that date iff the date exists |
| RoutesReports.DayMonthYearReads | dv_admin_automator/ui/web/api/routes_reports.py:39-43 | `d/m/y` text reads back as the date exactly when the date exists |
| RoutesReports.DayMonthYearIgnoresRest | dv_admin_automator/ui/web/api/routes_reports.py:40-42 | pieces after the third are ignored: `1/2/2020/x` still reads as 1 February 2020 |
| RoutesReports.ParseDateDayFirst | dv_admin_automator/ui/web/api/routes_reports.py:32-43 | a day-first date is read day first, whatever the later formats would make of it |
| RoutesReports.ParseDateImpossibleDay | dv_admin_automator/ui/web/api/routes_reports.py:38-45 | an impossible day/month/year, such as 31/2/2021, is left to the later formats |
| RoutesReports.Earliest | dv_admin_automator/ui/web/api/routes_reports.py:128-132 | the earliest date of the list, none iff the list has no date; it is one of the dates and no date is earlier |
| RoutesReports.Latest | dv_admin_automator/ui/web/api/routes_reports.py:133-141 | the latest date of the list, none iff the list has no date; it is one of the dates and no date is later |
| RoutesReports.IsAcolhimentoApptIff | dv_admin_automator/ui/web/api/routes_reports.py:80-92 | an appointment is an acolhimento iff it is a non-empty dict and one of its string values mentions "acolhimento" in any case |
| RoutesReports.GroupsDistinct | dv_admin_automator/ui/web/api/routes_reports.py:107-112 | each grouping key appears once |
| RoutesReports.GroupsKeys | dv_admin_automator/ui/web/api/routes_reports.py:107-112 | the group keys are the distinct keys of the rows, in the order they first appear |
| RoutesReports.GroupsGet | dv_admin_automator/ui/web/api/routes_reports.py:107-112 | the group of a key holds exactly the rows with that key, in order; a key that no row has has no group |
| RoutesReports.GroupRows | dv_admin_automator/ui/web/api/routes_reports.py:107-112 | the grouping loop builds exactly the groups the specification defines |
| RoutesReports.GroupsShape | dv_admin_automator/ui/web/api/routes_reports.py:107-112 | there is one group per distinct key, and each group is the non-empty list of the rows with its key |
| RoutesReports.FilterRows | dv_admin_automator/ui/web/api/routes_reports.py:94-106 | the filter loop keeps exactly the rows that pass the company and date filters, in order |
| RoutesReports.PassesFilters | dv_admin_automator/ui/web/api/routes_reports.py:97-103 | a row survives the three `continue` tests exactly when it matches the company (when one is given) and has a request date within each given bound |
| RoutesReports.FilteredRowsMatch | dv_admin_automator/ui/web/api/routes_reports.py:94-106 | a kept row matches the company after stripping; when a bound is given the row has a request date, and that date lies within the bounds |
| RoutesReports.SummaryCounts | dv_admin_automator/ui/web/api/routes_reports.py:119-151 | the completed and pending consultations split the group's rows; completed is 0 iff no row is finished or conferred; the dates shown are the group's earliest request date and latest conference date |
| RoutesReports.DateSpan | dv_admin_automator/ui/web/api/routes_reports.py:126-141 | the dates loop computes the earliest request date and the latest conference date of the group |
| RoutesReports.SummarizeGroup | dv_admin_automator/ui/web/api/routes_reports.py:119-151 | one group's line is exactly the summary the specification defines |
| RoutesReports.Tally | dv_admin_automator/ui/web/api/routes_reports.py:152-156 | appending a line bumps exactly the counters its status falls under |
| RoutesReports.Aggregate | dv_admin_automator/ui/web/api/routes_reports.py:113-157 | one line per group, in group order, with the counters of those lines |
| RoutesReports.GroupAndAggregate | dv_admin_automator/ui/web/api/routes_reports.py:93-159 | the whole aggregation returns exactly the report the specification defines |
| RoutesReports.CountDisjoint | dv_admin_automator/ui/web/api/routes_reports.py:152-156 | two conditions that never hold together count at most the whole list |
| RoutesReports.ReportShape | dv_admin_automator/ui/web/api/routes_reports.py:93-159 | one line per distinct patient key among the kept rows, sorted by lower-cased name and a permutation of the group lines; no patient counts as both in acolhimento and finished |
| RoutesReports.PatientLine | dv_admin_automator/ui/web/api/routes_reports.py:119-151 | each patient's line counts the kept rows with that key, takes its status from the last of them, splits them into completed and pending, and appears in the report |
| RoutesReports.ReportJobStatusOrder | dv_admin_automator/ui/web/api/routes_reports.py:988-995 | the status is ready iff a result file is recorded; running iff not ready and an internal job is recorded; not found iff neither and there are no logs; pending otherwise |
| RoutesReports.ReportJob | dv_admin_automator/ui/web/api/routes_reports.py:973-995 | a status is answered iff no download is asked for, with the job's logs (or none) and its recorded result; a download is served iff asked for and the job has a non-empty result whose file exists, and it is that file; "not ready" iff asked for without such a result |
| RoutesReports.ReportJobDownload | dv_admin_automator/ui/web/api/routes_reports.py:979-987 | a download is served iff the job has a recorded result whose file exists, and it is that file; "not ready" iff no result is recorded |
| Server.KeyPairIsServiceAccount | dv_admin_automator/ui/web/server.py:183 | a dict with both `client_email` and `private_key` (what the credential loader accepts) is a service account for the unlock handler too |
| Server.TypeOnlyDiffers | dv_admin_automator/ui/web/server.py:183 | the converse fails: a bare `{"type": "service_account"}` passes the unlock handler's test but has no key pair |
| Server.ServiceAccountTruthy | dv_admin_automator/ui/web/server.py:183-194 | a service account is a non-empty dict, so `cached_service_account` is true exactly when one was found |
| Server.FirstServiceAccount | dv_admin_automator/ui/web/server.py:172-185 | the value the loop breaks on is always a service account |
| Server.FirstServiceAccountIsFirst | dv_admin_automator/ui/web/server.py:172-185 | the loop settles on the first credential, in unlock order, whose plaintext is a service account, and finds nothing iff no credential's plaintext is one |
| Server.Summary | dv_admin_automator/ui/web/server.py:193 | the summary has the credentials' names as keys, in order, each mapped to the length of its plaintext |
| Server.ApiUnlock | dv_admin_automator/ui/web/server.py:163-196 | a missing or empty password is 400; a failing `unlock_all` is 403; otherwise the reply is the summary and whether a service account was found, which is then cached for 15 minutes; without one the cache is untouched |
| Server.ActivateItem | dv_admin_automator/ui/web/server.py:96-103 | the credential's files are written whatever happens next; it is saved at its joined path iff the save succeeded and the token verifies; an error is reported under the item's name |
| Server.FailedVerificationStillWritten | dv_admin_automator/ui/web/server.py:98-103 | a credential that fails verification is reported as an error, yet its token and salt files stay on disk |
| Server.ActivateStopsAtCrash | dv_admin_automator/ui/web/server.py:93-108 | once an item that is not a dict makes the loop raise, the later items change nothing |
| Server.ActivateLoop | dv_admin_automator/ui/web/server.py:93-108 | each item adds at most one entry to the saved or the errors list, and exactly one when the loop does not raise |
| Server.ActivateAccounts | dv_admin_automator/ui/web/server.py:93-104 | the loop raises iff some item is not a dict; otherwise every credential lands once in `saved` or in `errors`; every saved path belongs to a credential that verified |
| Server.ActivateLast | dv_admin_automator/ui/web/server.py:93-102 | the last item adds at most one saved path, its own, and only when it verified |
| Server.ApiActivate | dv_admin_automator/ui/web/server.py:78-108 | 400 without a code or a master password; 500 when the service call or the loop raises, with the files already written kept; otherwise the saved paths and errors, and the activated state is recorded iff something was saved |
| Server.Components | dv_admin_automator/ui/web/server.py:260-261 | the components a path keeps are non-empty, never ".", and hold no '/' |
| Server.ComponentsOfJoin | dv_admin_automator/ui/web/server.py:260-261 | joining plain components with '/' and reading them back gives the same components |
| Server.Normalize | dv_admin_automator/ui/web/server.py:261 | `resolve()` on a path without links never lengthens it and leaves no ".."; every component kept comes from the path |
| Server.NormalizeFixed | dv_admin_automator/ui/web/server.py:261 | a path without ".." is already resolved |
| Server.NormalizeSnoc | dv_admin_automator/ui/web/server.py:261 | resolving one more component: ".." drops the last resolved component (and stays at the root), anything else is appended |
| Server.NormalizeIdempotent | dv_admin_automator/ui/web/server.py:261-263 | resolving twice is resolving once |
| Server.Render | dv_admin_automator/ui/web/server.py:263 | a non-empty path's string starts with '/' |
| Server.UploadBase | dv_admin_automator/ui/web/server.py:260-263 | the upload base is the resolved working directory followed by `tmp_uploads` |
| Server.ServeTmpUploadAsWritten | dv_admin_automator/ui/web/server.py:258-271 | as written, a served path is an existing file whose string merely starts with the base's string |
| Server.ServeTmpUpload | dv_admin_automator/ui/web/server.py:258-271 | corrected: 403 exactly when the resolved target is not inside the upload directory; the file is served exactly when it is inside and exists, and it is the resolved target |
| Server.Index | dv_admin_automator/ui/web/server.py:69-77 | `/` serves welcome.html exactly when it exists, index.html exactly when only it exists, and 404 when neither does; a served page exists |
| Server.CredentialNames | dv_admin_automator/ui/web/server.py:197-206 | no names without the credentials directory; otherwise exactly the directory's `.enc` names, in sorted order |
| Server.FilterKeepsSorted | dv_admin_automator/ui/web/server.py:202-205 | keeping the `.enc` names of a sorted listing leaves them sorted |
| Server.CredentialDownload | dv_admin_automator/ui/web/server.py:207-213 | the file `creds_dir/name` is served exactly when it exists, else 404 |
| Server.ListedCredentialsDownload | dv_admin_automator/ui/web/server.py:197-213 | every name the listing offers downloads as its own file, while the directory's entries exist |
| Server.WithinPathString | dv_admin_automator/ui/web/server.py:263 | a path inside the base has the base's string, or the base's string followed by '/', as a prefix |
| Server.ServedInsideUploads | dv_admin_automator/ui/web/server.py:258-271 | corrected: every served file is the upload directory or lies inside its tree |
| Server.IntendedAgreesWhereAllowed | dv_admin_automator/ui/web/server.py:262-268 | wherever the corrected guard allows a request, the written guard gives the same answer |
| Server.SiblingTarget | dv_admin_automator/ui/web/server.py:261 | resolving `<cwd>/tmp_uploads/../<n>/<f>` gives `<cwd>/<n>/<f>` |
| Server.SiblingStringPrefix | dv_admin_automator/ui/web/server.py:263 | the string `<cwd>/tmp_uploads` is a prefix of `<cwd>/tmp_uploads<x>/<f>` |
| Server.SiblingServedAsWritten | dv_admin_automator/ui/web/server.py:258-268 | `GET /tmp_uploads/../tmp_uploads<x>/<f>` serves a file of a sibling directory under the written guard, and is refused with 403 under the corrected one |
| Server.ProtectedStatic | dv_admin_automator/ui/web/server.py:47-67 | a served page is an existing file: either the requested one or `welcome.html` |
| Server.GatedPagesNeedLogin | dv_admin_automator/ui/web/server.py:49-63 | a visitor who is not logged in and asks for a non-public .html page gets `welcome.html` while it exists, and the page itself only when it does not |
| Server.OpenRequestsServeTheFile | dv_admin_automator/ui/web/server.py:64-67 | a logged-in visitor, a public page or a non-.html file gets the requested file when it exists, else 404 |
| Server.SuffixMakesPublic | dv_admin_automator/ui/web/server.py:50-51 | the public test is a suffix test: `old_welcome.html` is served without login |
| SheetsClient.CredentialsOf | dv_admin_automator/ui/web/api/sheets_client.py:17-42 | truthy cached info is used first; otherwise the key file named by GOOGLE_SA_JSON_PATH, else by GOOGLE_APPLICATION_CREDENTIALS; none iff neither is set |
| SheetsClient.ColLetter | dv_admin_automator/ui/web/api/sheets_client.py:78-83 | the letters form a column name, and are empty iff the number is not positive |
| SheetsClient.ColumnNumber | dv_admin_automator/ui/web/api/sheets_client.py:78-83 | the decoded number is 0 iff the name is empty |
| SheetsClient.ColIndexToLetter | dv_admin_automator/ui/web/api/sheets_client.py:78-83 | the `divmod` loop computes exactly the bijective base-26 column name |
| SheetsClient.ColLetterExamples | dv_admin_automator/ui/web/api/sheets_client.py:78-83 | 1 is "A", 26 "Z", 27 "AA", 52 "AZ", 53 "BA", 702 "ZZ", 703 "AAA" |
| SheetsClient.ColumnNumberOfLetter | dv_admin_automator/ui/web/api/sheets_client.py:78-83 | decoding the letters of a column gives its number back |
| SheetsClient.LetterOfColumnNumber | dv_admin_automator/ui/web/api/sheets_client.py:78-83 | every column name is the letters of the number it decodes to |
| SheetsClient.ColLetterInjective | dv_admin_automator/ui/web/api/sheets_client.py:78-83 | different positive columns never share letters |
| SheetsClient.RowOfGet | dv_admin_automator/ui/web/api/sheets_client.py:66-68 | a row dict maps exactly the headers, each to the cell under its last occurrence, or '' past the row's end |
| SheetsClient.RowOf | dv_admin_automator/ui/web/api/sheets_client.py:66-68 | a row dict has a key iff it is one of the headers |
| SheetsClient.RowOfDistinct | dv_admin_automator/ui/web/api/sheets_client.py:66-68 | with distinct headers, header i maps to cell i |
| SheetsClient.RowOfOnlyHeaderCells | dv_admin_automator/ui/web/api/sheets_client.py:67-68 | only the first cells, one per header, matter; extra cells are dropped |
| SheetsClient.RowOfDistinctKeys | dv_admin_automator/ui/web/api/sheets_client.py:66-68 | a row dict holds each key once |
| SheetsClient.BuildRow | dv_admin_automator/ui/web/api/sheets_client.py:66-68 | the inner loop builds exactly the row dict the specification defines |
| SheetsClient.BuildRows | dv_admin_automator/ui/web/api/sheets_client.py:64-69 | the outer loop yields one row dict per line after the header, in the lines' order |
| SheetsClient.ReadSheetRows | dv_admin_automator/ui/web/api/sheets_client.py:43-77 | rows come back iff the sheet id is non-empty, credentials exist and the API call succeeded; they are then the rows of the grid |
| SheetsClient.SheetRowsCount | dv_admin_automator/ui/web/api/sheets_client.py:61-70 | an empty grid gives no rows; otherwise one row per line below the header, each keyed by exactly the stripped headers |
| SheetsClient.MergedRow | dv_admin_automator/ui/web/api/sheets_client.py:105-111 | the written row has one cell per header |
| SheetsClient.MergeKeepsUntouched | dv_admin_automator/ui/web/api/sheets_client.py:107-111 | a header absent from the changes, raw and stripped, keeps the existing cell |
| SheetsClient.MergeRawHeaderFirst | dv_admin_automator/ui/web/api/sheets_client.py:107-109 | a raw header in the changes takes the new value, before its stripped form |
| SheetsClient.MergeNoChanges | dv_admin_automator/ui/web/api/sheets_client.py:105-111 | with no changes the existing row is rewritten as it was |
| SheetsClient.MergeIdempotent | dv_admin_automator/ui/web/api/sheets_client.py:105-111 | merging the same changes a second time changes nothing |
| SheetsClient.MergeRow | dv_admin_automator/ui/web/api/sheets_client.py:105-111 | the loop builds exactly the merged row |
| SheetsClient.WriteRowByIndex | dv_admin_automator/ui/web/api/sheets_client.py:84-121 | no credentials, a failed header read or an empty header row returns False with nothing sent; a failed read of the row does too; otherwise the merged row is sent to `A<row+2>:<last><row+2>` and the answer is the update's outcome |
| SheetsClient.TargetSpansHeaders | dv_admin_automator/ui/web/api/sheets_client.py:100-102 | the written range spans exactly one column per header, from column A |
| Storage.PathJoin | dv_admin_automator/activation/storage.py:31 | the joined path is `a`, one separator of the running system, then `b` |
| Storage.UserDataDir | dv_admin_automator/activation/storage.py:18-39 | the fallback data directory: on Windows LOCALAPPDATA, else APPDATA, else home/AppData/Local; on macOS home/Library/Application Support; elsewhere XDG_DATA_HOME, else home/.local/share; each followed by the application name |
| Storage.UserDataDirEndsWithApp | dv_admin_automator/activation/storage.py:18-39 | on every system the application name is the last component of the data directory |
| Storage.UserDataDirIgnoresXdg | dv_admin_automator/activation/storage.py:28-39 | XDG_DATA_HOME is never consulted on Windows or macOS |
| Storage.SaveResult | dv_admin_automator/activation/storage.py:57-63 | a save returns iff name and token are given and the token file (and the salt file, when a salt is given) can be written; the token file holds the token and the salt file the salt; a failure can leave the token file written |
| Storage.SaveTouchesOnlyItsFiles | dv_admin_automator/activation/storage.py:57-63 | a save changes no entry of the credentials directory other than `name` and `name.salt` |
| Storage.StateOf | dv_admin_automator/activation/storage.py:65-71 | the loaded state is the saved JSON, or `{}` when the file is missing or not JSON |
| Storage.DataDir | dv_admin_automator/activation/storage.py:10-39 | the data directory is the one `appdirs` names when it is installed, and the fallback directory otherwise |
| Storage.LocalStore.constructor | dv_admin_automator/activation/storage.py:43-47 | the base directory is the application's data directory (from `appdirs` or the fallback), with `credenciais` and `state.json` below it |
| Storage.LocalStore.SaveCredential | dv_admin_automator/activation/storage.py:57-63 | the credentials directory becomes the save result; the returned path is `creds_dir/name`; the state file is untouched |
| Storage.LocalStore.LoadState | dv_admin_automator/activation/storage.py:65-71 | returns the state as `load_state` reads it |
| Storage.LocalStore.SaveState | dv_admin_automator/activation/storage.py:73-75 | the state file holds the dumped dict afterwards and the credentials are untouched |
| Unlock.OutcomeOf | dv_admin_automator/activation/unlock.py:17-33 | an entry is skipped iff it is not a file with suffix `.enc`; an `.enc` file without its salt file fails with "missing salt"; a decrypted entry is what `verify_token` returned for its token, salt and password |
| Unlock.UnlockResult | dv_admin_automator/activation/unlock.py:11-39 | an empty credentials directory unlocks to an empty result |
| Unlock.ScanSummary | dv_admin_automator/activation/unlock.py:14-33 | when nothing raises, the results are the decrypted entries in listing order and the errors are exactly the failed entries, each with its message |
| Unlock.ScanStopsAtRaise | dv_admin_automator/activation/unlock.py:16-30 | once an exception escapes, the rest of the listing is never looked at |
| Unlock.UnlockAllOrNothing | dv_admin_automator/activation/unlock.py:35-39 | plaintexts come back iff no considered entry failed; otherwise the call raises `UnlockError` |
| Unlock.UnlockOkCoversEveryEnc | dv_admin_automator/activation/unlock.py:16-39 | on success every `.enc` file of the listing maps to its plaintext, in listing order |
| Unlock.RaisedFails | dv_admin_automator/activation/unlock.py:23-28 | an entry whose reading raises makes the whole call raise something other than `UnlockError` |
| Unlock.DecryptedListed | dv_admin_automator/activation/unlock.py:29-31 | every decrypted entry is among the collected results with its plaintext |
| Unlock.MissingSaltReported | dv_admin_automator/activation/unlock.py:24-27 | an `.enc` file without a salt file makes the call raise `UnlockError` whose errors map that name to "missing salt" |
| Unlock.SavedCredentialUnlocks | dv_admin_automator/activation/unlock.py:20-33 | a credential saved with its salt is decrypted by a later unlock exactly when `verify_token` accepts it, and reported with its message otherwise |
| Unlock.UnlockAll | dv_admin_automator/activation/unlock.py:11-39 | the loop over the sorted listing returns the unlock result |
| Unlock.UnlockEntries | dv_admin_automator/activation/unlock.py:17-39 | the pass over the entries of the credentials directory: the plaintexts when no entry failed, `UnlockError` with the per-entry messages otherwise, any other exception when a salt cannot be read |
| Updater.FoldCharClean | dv_admin_automator/backend/importer/updater.py:28-29 | every character the accent fold leaves is clean (no combining mark, no upper case) once lower-cased |
| Updater.ReplaceEachKeepsAbsent | dv_admin_automator/backend/importer/updater.py:30-31 | replacing the pieces by ' ' in turn never brings back a space-free piece that was absent |
| Updater.ReplaceEachRemoves | dv_admin_automator/backend/importer/updater.py:30-31 | after the replacement loop none of the replaced pieces occurs in the text |
| Updater.NameWordsChars | dv_admin_automator/backend/importer/updater.py:28-32 | every character of every word left by the normalization is clean and is not white space |
| Updater.NameWordsNoToken | dv_admin_automator/backend/importer/updater.py:30-32 | no word of the normalized name contains "ltda", "sa", "grupo", ',' or '.' |
| Updater.NormalizeNameShape | dv_admin_automator/backend/importer/updater.py:24-33 | "" maps to ""; otherwise the result is lower-case and accent-free, contains none of the removed pieces, and has single spaces between words and none at either end |
| Updater.Best | dv_admin_automator/backend/importer/updater.py:43-49 | the scan from (None, -1) ends with a score no lower than every score; it finds no index iff every score is at most -1; a found index holds the best score |
| Updater.BestStep | dv_admin_automator/backend/importer/updater.py:46-49 | one more candidate replaces the best only when its score is strictly greater |
| Updater.FuzzyBestMatch | dv_admin_automator/backend/importer/updater.py:34-50 | the loop returns exactly the best match the scan specification defines |
| Updater.BestMatch | dv_admin_automator/backend/importer/updater.py:34-50 | a query that normalizes to "" matches nothing with score 0; a match is a candidate index whose score is the greatest of all and strictly greater than every earlier candidate's |
| Updater.BestMatchIsFirstMax | dv_admin_automator/backend/importer/updater.py:34-50 | with a non-negative scorer the match is the first candidate of highest score; a query that normalizes to "" gives (None, 0); no candidates gives (None, -1) |
| Updater.LinkIdReads | dv_admin_automator/backend/importer/updater.py:261-264 | a link holding the sheet path yields the id run that follows it; any id found is non-empty and follows the sheet path in the link |
| Updater.CompanyDecisionRule | dv_admin_automator/backend/importer/updater.py:212-227 | "no candidates" iff the scan finds no index; a match records the scan's score and the row's first cell; the action is "create" iff the score is below the review score; a dry run writes no date |
| Updater.LastDotBefore | dv_admin_automator/backend/importer/updater.py:166 | the last '.' of `stem.ext` is the one before the extension when the extension has no dot |
| Updater.StemOfXlsx | dv_admin_automator/backend/importer/updater.py:166-167 | `rsplit('.', 1)[0]` of `<basename>.xlsx` is the base name |
| Updater.FindDriveFileByBasename | dv_admin_automator/backend/importer/updater.py:166-168 | every returned file was listed and has the base name as its stem or is named `<basename>.xlsx`; every listed file with that stem is returned, and when none has it every `<basename>.xlsx` is |
| Updater.FallbackNeverAdds | dv_admin_automator/backend/importer/updater.py:166-168 | the `.xlsx` fallback never adds anything: the result is always the files whose stem is the base name |
| Updater.DateColumnChoice | dv_admin_automator/backend/importer/updater.py:87-90 | the first header naming the last update wins; without one the date goes under the fourth header, else under the fixed name |
| Updater.WriteDateToRow | dv_admin_automator/backend/importer/updater.py:84-97 | writes `{column: date}` at the row's sheet line, merged into the existing row; fails with nothing sent when credentials, header or row fetch are missing; otherwise reports the update's outcome |
| Updater.DateWriteTouchesOneColumn | dv_admin_automator/backend/importer/updater.py:87-93 | writing the date changes no cell under any other column |
| Updater.SanitizeTitle | dv_admin_automator/backend/importer/updater.py:104 | same length as the title; each backslash, slash, star, question mark or bracket becomes '-', and every other character is kept |
| Updater.SanitizeTitleClean | dv_admin_automator/backend/importer/updater.py:104 | the sanitized title has no forbidden character, and sanitizing it again changes nothing |
| Updater.TriedTitlesShape | dv_admin_automator/backend/importer/updater.py:100-106 | the title is tried first; a second title is tried iff the title holds a forbidden character; at most two titles are tried |
| Updater.AddSheetTabAndPaste | dv_admin_automator/backend/importer/updater.py:98-136 | the first title whose tab is added is used; none added means failure; success iff the used title is non-empty and the paste succeeds |
| Updater.SanitizedAfterRefusal | dv_admin_automator/backend/importer/updater.py:109-119 | the sanitized title is used when the raw title is refused and the sanitized one accepted |
| Updater.EmptyTitleFails | dv_admin_automator/backend/importer/updater.py:120-122 | with an empty title the only title tried is "", so the operation reports failure even when the tab is added |

## Left out

- Selenium and the browser: every page lookup, click and URL probe is an input. This covers the login,
  scheduling, search, import and company-scrape flows, `browser/manager.py`, `browser/service.py`,
  `pages/base_page.py` and the keepalive routes.
- Cryptography: PBKDF2-HMAC-SHA256 key derivation (section 5.2 of RFC 8018), base64 and base64url
  (sections 4 and 5 of RFC 4648) and Fernet decryption. `verify_token` is a function parameter that
  returns the plaintext or fails.
- SHA-256 (FIPS 180-4) in the launcher is a parameter; only the digest comparison is modelled.
- Network clients: the activation client and its retries, the activation proxy routes, every Google
  Sheets and Drive call, and the launcher's GitHub requests. Their answers are inputs.
- Zip extraction in the launcher is left out.
- Concurrency: the thread pool, `threading.Lock`, thread-local storage, FastAPI background tasks and
  `time.sleep` polling. Each public method is one atomic step, and a job's progress is an
  environment step.
- The cancelled job state: nothing in the code cancels a future, so `status` never reports it.
- Library parsers are inputs: pandas and openpyxl readers, the csv module's tokenizer (section 2 of
  RFC 4180), `json.loads`, `ast` and `tokenize`. The same goes for `read_file_smart` and
  `write_csv_with_fallback`.
- Date parsing: only the day/month/year branch of `_parse_date` is modelled. The later formats
  (`fromisoformat`, `strptime`, `dateutil`) are one parameter.
- Unicode: NFKD decomposition in `normalize_name` is a table covering Latin-1.
- Unicode: `lower()` is modelled on ASCII and the Latin-1 capitals.
- Unicode: `\d` is modelled as ASCII digits.
- Unicode: Go's `EqualFold` and `ToLower` are modelled on ASCII.
- Unicode: text is code points, so invalid UTF-8 and decoding errors are not modelled.
- `int()` on text: digit-group underscores are not accepted, and floats are not modelled.
- JSON numbers are integers only.
- `str()` of a parsed list or dict is the empty text.
- Fuzzy scoring (rapidfuzz `token_set_ratio` or difflib's ratio) is a function parameter. The constant
  `SCORE_AUTO` is defined in the source but never read, so it is not modelled.
- Report rendering: ReportLab PDF output and CSV bytes are left out. `_generate_csv_bytes` and
  `_generate_general_pdf_bytes` are called but defined nowhere in the file.
- Report routes: the appointment enrichment run by report jobs, `api_report_company` and
  `api_report_general` are left out.
- The unused `_read_csv` and `_sample_data` helpers of the acolhimentos routes are not modelled.
- Process and CLI glue: `cli.py`, `activation/cli.py`, `config/loader.py`, `config/schema.py`,
  `utils/logging.py`, `scripts/start_server.py`, `serve_in_thread`, the websocket demo, `api_run`
  and `tools/example_input.py`.
- Log text: the wording of logs and printed messages is dropped. The import log lines are kept where
  a handler's answer depends on them: the log search for the marker and the report job status.
- Updater: only the decision of `process_company_update` is modelled. These Drive and Sheets actions
  are left out:
  - the nested `handle_sheet`;
  - `create_native_sheet_and_paste`;
  - `_safe_delete`;
  - `_get_google_service`, `get_sheets_service` and `get_drive_service`;
  - `main`.
- debug_sheet: the fetch, list and download calls, `evaluate_file_access` (an input giving each file's
  access), `analyze_and_print`, the column-C link inspection, `find_creds_dir` and `main` are left out.
- remove_comments: `find_docstring_ranges` takes the `ast` result as an input. `iter_py_files` and the
  file loop of `main` are left out.
- prepare_docker_context: `copy2` metadata and `shutil` errors are not modelled.
- prepare_docker_context: fnmatch's case folding on Windows is not modelled.
- Launcher: standard input is a given answer line. The tokenizing of `Scanln` is not modelled.
- The `GET /session` debug route of the login routes is left out: it only echoes the HTTP session and the cookies.
- Server.CredentialNames: names are sorted by code point; on Windows `pathlib` compares names case-insensitively, which is not modelled.
- Server.CredentialDownload: a directory entry passes the existence test like a file; the failure to send it is not modelled.
- Storage.SaveResult: a credential name that holds a separator ('/' or '\\', on every system) is modelled as a failed write. storage.py:59-60 writes wherever such a name points and returns: an absolute name anywhere, a name with ".." outside the credentials directory, "sub/x" into a sub-directory. The model holds only the entries directly inside the credentials directory.
- Storage.LocalStore.SaveCredential: inherits the treatment of names with a separator as failed writes from Storage.SaveResult.
- Server.ActivateItem: inherits the treatment of names with a separator as failed writes from Storage.SaveResult, so such a credential lands in `errors` instead of `saved`. Its saved path is the plain join `creds_dir/name`, not `str(p.resolve())` (absolute, with links resolved).
- Server.ActivateAccounts: the split between saved and errors follows Server.ActivateItem, with the same two differences.
- Storage.PathJoin: always inserts one separator. `os.path.join` adds none after an `a` that already ends in one (an `XDG_DATA_HOME` of `/data/`, say) and returns `b` for an empty `a`, and `Path()` also normalises; directory values from the environment are taken to have no trailing separator.
- Printing and logging are left out.

## Findings

| source | as written | input that shows it | evidently intended | confidence | as-written member | corrected member |
|---|---|---|---|---|---|---|
| dv_admin_automator/backend/importer/legacy_adapter.py:68-70 | the name test sits after the column loop, so it only looks at the last column that has a non-empty sample; a frame whose columns all lack a non-empty sample raises NameError | columns ["Nome", "CPF"] with the row ["A B", "12345678900"]: no name column is detected | the name column is the first column whose sample holds a value longer than two characters that contains a space | not executed | LegacyAdapter.NameAsWritten, LegacyAdapter.NameColumnMissed, LegacyAdapter.NameMissedUnlessLast, LegacyAdapter.AutoRunMissesNameThenCpf | LegacyAdapter.NameIntended |
| dv_admin_automator/ui/web/api/routes_import.py:130 | the marker path is read from a log line as the text after the last `marker=`, stripped, but the adapter's line closes with `)`, so the path keeps the `)` and never names an existing file | the line `upload completed; awaiting manual confirmation (marker=/u/a.awaiting_confirm)` reads back `/u/a.awaiting_confirm)` | the closing parenthesis is dropped and the marker path is read back | not executed | ImportRoutes.LogMarkerKeepsParen, ImportRoutes.AwaitLineLeadsAsWritten, ImportRoutes.LogSearchIgnoresAwaitLine | ImportRoutes.LogMarkerRoundTrip, ImportRoutes.AwaitLineLeadsIntended, ImportRoutes.LogFindsMarkerIntended |
| dv_admin_automator/backend/importer/service.py:39 | the upload is deleted when its resolved path string starts with the upload directory's string, which a sibling directory also satisfies | upload directory `/srv/tmp_uploads`, target `/srv/tmp_uploads_old/a.csv`: the target passes the guard | only files inside the upload directory are deleted | not executed | ImportService.CleanupAsWritten, ImportService.SiblingPassesGuard, ImportService.RaisingJobRemovesSibling | ImportService.CleanupIntended, ImportService.IntendedWithinWritten |
| dv_admin_automator/ui/web/server.py:263 | the same string-prefix guard protects `/tmp_uploads/{file_name}`, so a file in a sibling directory whose name extends `tmp_uploads` is served | `GET /tmp_uploads/../tmp_uploadsX/f` serves `<cwd>/tmp_uploadsX/f` when that file exists | answer 403 for anything outside the upload directory | not executed | Server.ServeTmpUploadAsWritten, Server.SiblingServedAsWritten | Server.ServeTmpUpload, Server.ServedInsideUploads, Server.IntendedAgreesWhereAllowed |
| tools/remove_comments.py:121 | the trailing newline is added only when the last line of `splitlines()` ends with a newline, which never happens, so removing blank lines also drops the final newline | `x = 1\n` becomes `x = 1` | the output ends with a newline exactly when the input did | not executed | RemoveComments.AsWrittenDropsFinalNewline, RemoveComments.FinalNewlineExample | RemoveComments.BlankLinesRemovedRoundTrip |
| launcher/main.go:181 | the expected digest is the first field of the checksum file, taken without checking that there is one | a published checksum asset that is empty or blank makes `main` panic with an index out of range | a checksum file without a field fails the verification with exit code 1 | not executed | Launcher.ChecksumStepAsWritten, Launcher.EmptyChecksumPanics, Launcher.Prepare | Launcher.ChecksumStep, Launcher.ChecksumStepsAgree |
| launcher/main.go:230 | when the move into place fails, the backup path is renamed to the project path even when this run made no backup | no project directory, a directory `p-bak-v1` left by an earlier update with the same tag, and a failing move: the old backup becomes the project | roll back only when this run moved the project to the backup | not executed | Launcher.Replacement, Launcher.StaleBackupInstalled, Launcher.AsWrittenBreaksProjectPath, Launcher.Disk.ReplaceProject | Launcher.ReplacementIntended, Launcher.IntendedKeepsProjectPath |
