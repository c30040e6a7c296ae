/**
 * The import service of dv_admin_automator/backend/importer/service.py: it submits an import job to
 * the job manager, remembers which internal job id each public id got, and the job itself runs the
 * legacy adapter and then removes the upload when it lies under the upload directory.
 */
module ImportService {
  import opened Wrappers
  import opened Calls
  import opened Strs
  import opened Files
  import Jobs

  /** What the job function returns: `{"success": ...}`, with an `"error"` when the adapter cannot be loaded. */
  datatype JobResult = JobResult(success: bool, error: Option<string>)

  /**
   * The upload-removal guard as written: the resolved target's path string starts with the resolved
   * upload directory's path string, and the target exists.
   */
  predicate RemovableAsWritten(fs: Fs, baseRes: string, target: string)
  {
    IsPrefix(baseRes, target) && target in fs
  }

  /** The guard as evidently intended: the target lies inside the upload directory. */
  predicate RemovableIntended(fs: Fs, baseRes: string, target: string)
  {
    IsPrefix(baseRes + "/", target) && target in fs
  }

  /** A sibling directory whose name extends the upload directory's passes the written guard. */
  lemma SiblingPassesGuard()
    ensures RemovableAsWritten(map["/srv/tmp_uploads_old/a.csv" := Text("x")], "/srv/tmp_uploads", "/srv/tmp_uploads_old/a.csv")
    ensures !RemovableIntended(map["/srv/tmp_uploads_old/a.csv" := Text("x")], "/srv/tmp_uploads", "/srv/tmp_uploads_old/a.csv")
  {
    assert "/srv/tmp_uploads_old/a.csv"[..|"/srv/tmp_uploads"|] == "/srv/tmp_uploads";
    assert "/srv/tmp_uploads_old/a.csv"[|"/srv/tmp_uploads"|] == '_';
  }

  /** Whatever the intended guard accepts, the written one accepts too: the written guard only adds cases. */
  lemma IntendedWithinWritten(fs: Fs, baseRes: string, target: string)
    requires RemovableIntended(fs, baseRes, target)
    ensures RemovableAsWritten(fs, baseRes, target)
  {
    assert target[..|baseRes|] == (baseRes + "/")[..|baseRes|];
  }

  /**
   * The cleanup of the finally block as written: the target is unlinked when the written guard accepts
   * it; `unlinkOk` is whether `target.unlink()` succeeds, and a failed unlink is only logged.
   */
  function CleanupAsWritten(fs: Fs, baseRes: string, target: string, unlinkOk: bool): (fs': Fs)
    ensures RemovableAsWritten(fs, baseRes, target) && unlinkOk ==> fs' == fs - {target}
    ensures !(RemovableAsWritten(fs, baseRes, target) && unlinkOk) ==> fs' == fs
  {
    if RemovableAsWritten(fs, baseRes, target) && unlinkOk then fs - {target} else fs
  }

  /** The cleanup as evidently intended: the same, behind the intended guard. */
  function CleanupIntended(fs: Fs, baseRes: string, target: string, unlinkOk: bool): (fs': Fs)
    ensures fs'.Keys <= fs.Keys
    ensures forall p :: p in fs && (p != target || !IsPrefix(baseRes + "/", p)) ==> p in fs' && fs'[p] == fs[p]
    ensures target in fs && IsPrefix(baseRes + "/", target) && unlinkOk ==> target !in fs'
  {
    if RemovableIntended(fs, baseRes, target) && unlinkOk then fs - {target} else fs
  }

  /**
   * The job body. `adapterLoaded` is whether `from .legacy_adapter import run_import_full` succeeds,
   * `run` what `run_import_full` did (returned its flag or raised), `target` and `baseRes` the resolved
   * upload path and upload directory. The try/finally has no except clause: the cleanup runs whether
   * the adapter returned or raised, and an exception then escapes the job to the job manager.
   */
  function RunJob(fs: Fs, adapterLoaded: bool, run: Call<bool>, baseRes: string, target: string, unlinkOk: bool)
    : (r: (Call<JobResult>, Fs))
    ensures !adapterLoaded ==> r.0.Returned? && !r.0.value.success && r.0.value.error.Some? && r.1 == fs
    ensures adapterLoaded ==> (r.0.Raised? <==> run.Raised?)
    ensures adapterLoaded && run.Returned? ==> r.0 == Returned(JobResult(run.value, None))
    ensures adapterLoaded && RemovableAsWritten(fs, baseRes, target) && unlinkOk ==> r.1 == fs - {target}
    ensures !(adapterLoaded && RemovableAsWritten(fs, baseRes, target) && unlinkOk) ==> r.1 == fs
  {
    if !adapterLoaded then (Returned(JobResult(false, Some("failed to import legacy_adapter"))), fs)
    else
      var fs1 := CleanupAsWritten(fs, baseRes, target, unlinkOk);
      match run
      case Raised => (Raised, fs1)
      case Returned(ok) => (Returned(JobResult(ok, None)), fs1)
  }

  /**
   * The job never touches a file other than the upload, nor one whose path does not start with the
   * upload directory's, whether the adapter returned or raised.
   */
  lemma RunJobKeepsOthers(fs: Fs, adapterLoaded: bool, run: Call<bool>, baseRes: string, target: string, unlinkOk: bool, p: string)
    requires p in fs && (p != target || !IsPrefix(baseRes, p))
    ensures p in RunJob(fs, adapterLoaded, run, baseRes, target, unlinkOk).1
    ensures RunJob(fs, adapterLoaded, run, baseRes, target, unlinkOk).1[p] == fs[p]
  {
  }

  /** As written, a raising adapter still has a sibling directory's file removed by the cleanup. */
  lemma RaisingJobRemovesSibling()
    ensures var fs := map["/srv/tmp_uploads_old/a.csv" := Text("x")];
            RunJob(fs, true, Raised, "/srv/tmp_uploads", "/srv/tmp_uploads_old/a.csv", true) == (Raised, map[])
  {
    SiblingPassesGuard();
    var fs := map["/srv/tmp_uploads_old/a.csv" := Text("x")];
    assert fs - {"/srv/tmp_uploads_old/a.csv"} == map[];
  }

  class ImportService {
    const manager: Jobs.JobManager
    var publicToInternal: map<string, string>

    /** `ImportService()`: bound to the default job manager, with no jobs yet. */
    constructor(m: Jobs.JobManager)
      ensures manager == m && publicToInternal == map[]
    {
      manager := m;
      publicToInternal := map[];
    }

    /**
     * `start_import`: submit the job (the manager draws the fresh internal id `internalId`), record
     * public → internal, and return the public id.
     */
    method StartImport(jobId: string, internalId: string, now: real) returns (r: string)
      requires manager.Valid()
      modifies this, manager
      ensures manager.Valid()
      ensures r == jobId
      ensures publicToInternal == old(publicToInternal)[jobId := internalId]
      ensures manager.jobs == old(manager.jobs)[internalId := Jobs.Job(Jobs.Pending, now, false)]
      ensures manager.threadJob == old(manager.threadJob)
    {
      var internal := manager.Submit(internalId, now);
      publicToInternal := publicToInternal[jobId := internal];
      r := jobId;
    }

    /** `get_internal_job_id`: None for a public id never started. */
    method GetInternalJobId(publicId: string) returns (r: Option<string>)
      ensures publicId !in publicToInternal ==> r.None?
      ensures publicId in publicToInternal ==> r == Some(publicToInternal[publicId])
    {
      if publicId in publicToInternal {
        r := Some(publicToInternal[publicId]);
      } else {
        r := None;
      }
    }
  }

  /** After `start_import`, the public id resolves to a job the manager knows, with the flag cleared. */
  lemma StartedJobKnown(p2i: map<string, string>, jobs: map<string, Jobs.Job>, jobId: string, internalId: string, now: real)
    ensures var p2i' := p2i[jobId := internalId];
            var jobs' := jobs[internalId := Jobs.Job(Jobs.Pending, now, false)];
            jobId in p2i' && p2i'[jobId] in jobs' && !jobs'[p2i'[jobId]].awaiting
  {
  }

  /** `get_default_import_service`: one service, created on first use. */
  class DefaultService {
    var service: ImportService?

    constructor()
      ensures service == null
    {
      service := null;
    }

    method Get(m: Jobs.JobManager) returns (s: ImportService)
      modifies this
      ensures old(service) != null ==> s == old(service)
      ensures old(service) == null ==> fresh(s) && s.manager == m && s.publicToInternal == map[]
      ensures service == s
    {
      if service == null {
        service := new ImportService(m);
      }
      s := service;
    }
  }
}
