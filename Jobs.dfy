/**
 * The background job table (dv_admin_automator/ui/web/jobs.py). Each job has a future whose progress
 * is an environment step (a worker thread picks it up, later it finishes), and an
 * `awaiting_confirmation` flag that handlers flip. A worker thread remembers the id of the job it
 * last ran: that is what `get_current_job_id` reads.
 */
module Jobs {
  import opened Wrappers

  /** The state of a job's future. A raised exception is kept as its `str()`. */
  datatype JobState = Pending | Running(worker: nat) | Finished(exception: Option<string>)

  datatype Job = Job(state: JobState, submittedAt: real, awaiting: bool)

  /** The dictionary `status` answers with. */
  datatype Status = Status(done: bool, cancelled: bool, exception: Option<string>, awaitingConfirmation: bool)

  /** The snapshot of one job: the exception is only reported for a finished future. */
  function Snapshot(j: Job): (s: Status)
    ensures s.done <==> j.state.Finished?
    ensures !s.done ==> s.exception.None?
    ensures s.done ==> s.exception == j.state.exception
    ensures !s.cancelled
    ensures s.awaitingConfirmation == j.awaiting
  {
    Status(j.state.Finished?, false, if j.state.Finished? then j.state.exception else None, j.awaiting)
  }

  /** Jobs whose future is running. */
  ghost function RunningIds(jobs: map<string, Job>): set<string>
  {
    set id | id in jobs && jobs[id].state.Running?
  }

  class JobManager {
    const maxWorkers: nat
    var jobs: map<string, Job>
    /** Per worker thread, the job id its thread-local `current_job_id` holds. */
    var threadJob: map<nat, string>

    /** Each running job occupies a worker below `maxWorkers`, whose thread-local id is that job. */
    ghost predicate Valid()
      reads this
    {
      forall id :: id in jobs && jobs[id].state.Running? ==>
        jobs[id].state.worker < maxWorkers && jobs[id].state.worker in threadJob
        && threadJob[jobs[id].state.worker] == id
    }

    /** `JobManager(max_workers=2)` as the default manager builds it. */
    constructor(workers: nat)
      ensures Valid() && maxWorkers == workers && jobs == map[] && threadJob == map[]
    {
      maxWorkers := workers;
      jobs := map[];
      threadJob := map[];
    }

    /** `submit`: the fresh id `id` (a random token) gets a pending job with the flag cleared. */
    method Submit(id: string, now: real) returns (r: string)
      requires Valid()
      modifies this
      ensures Valid()
      ensures r == id
      ensures jobs == old(jobs)[id := Job(Pending, now, false)]
      ensures threadJob == old(threadJob)
      ensures old(jobs).Keys <= jobs.Keys
    {
      jobs := jobs[id := Job(Pending, now, false)];
      r := id;
    }

    /** `status`: None for an unknown id, otherwise the job's snapshot. */
    method Status(id: string) returns (r: Option<Status>)
      ensures id !in jobs ==> r.None?
      ensures id in jobs ==> r.Some? && r.value.awaitingConfirmation == jobs[id].awaiting
      ensures id in jobs ==> (r.value.done <==> jobs[id].state.Finished?)
      ensures r.Some? && !r.value.done ==> r.value.exception.None?
      ensures id in jobs ==> r == Some(Snapshot(jobs[id]))
    {
      if id !in jobs {
        return None;
      }
      r := Some(Snapshot(jobs[id]));
    }

    /** `set_awaiting_confirmation`: False and no change for an unknown id; otherwise only that flag moves. */
    method SetAwaitingConfirmation(id: string, value: bool) returns (ok: bool)
      requires Valid()
      modifies this
      ensures Valid()
      ensures ok == (id in old(jobs))
      ensures !ok ==> jobs == old(jobs)
      ensures ok ==> jobs == old(jobs)[id := old(jobs)[id].(awaiting := value)]
      ensures threadJob == old(threadJob)
    {
      if id !in jobs {
        return false;
      }
      jobs := jobs[id := jobs[id].(awaiting := value)];
      ok := true;
    }

    /** Environment step: an idle worker thread starts a pending job and sets its thread-local id. */
    method StartJob(id: string, worker: nat)
      requires Valid()
      requires id in jobs && jobs[id].state.Pending?
      requires worker < maxWorkers
      requires forall j :: j in jobs && jobs[j].state.Running? ==> jobs[j].state.worker != worker
      modifies this
      ensures Valid()
      ensures jobs == old(jobs)[id := old(jobs)[id].(state := Running(worker))]
      ensures threadJob == old(threadJob)[worker := id]
    {
      jobs := jobs[id := jobs[id].(state := Running(worker))];
      threadJob := threadJob[worker := id];
    }

    /** Environment step: a running job's future completes, possibly with an exception. */
    method FinishJob(id: string, exception: Option<string>)
      requires Valid()
      requires id in jobs && jobs[id].state.Running?
      modifies this
      ensures Valid()
      ensures jobs == old(jobs)[id := old(jobs)[id].(state := Finished(exception))]
      ensures threadJob == old(threadJob)
    {
      jobs := jobs[id := jobs[id].(state := Finished(exception))];
    }

    /** `get_current_job_id` as seen from worker thread `worker`: the id of the job that thread runs. */
    method GetCurrentJobId(worker: nat) returns (r: Option<string>)
      requires Valid()
      ensures forall id :: id in jobs && jobs[id].state == Running(worker) ==> r == Some(id)
      ensures worker !in threadJob ==> r.None?
    {
      if worker in threadJob {
        r := Some(threadJob[worker]);
      } else {
        r := None;
      }
    }

    /** At most `maxWorkers` jobs are running at any time. */
    lemma RunningBound()
      requires Valid()
      ensures |RunningIds(jobs)| <= maxWorkers
    {
      var ids := RunningIds(jobs);
      var f := map id | id in ids :: jobs[id].state.worker;
      var ws := set id | id in ids :: f[id];
      InjectiveImage(ids, f);
      SubsetOfRange(ws, maxWorkers);
    }
  }

  /** An injective map has an image as large as its domain. */
  lemma {:induction false} InjectiveImage(s: set<string>, f: map<string, nat>)
    requires s <= f.Keys
    requires forall a, b :: a in s && b in s && f[a] == f[b] ==> a == b
    ensures |set x | x in s :: f[x]| == |s|
    decreases |s|
  {
    if s != {} {
      var x :| x in s;
      var rest := s - {x};
      InjectiveImage(rest, f);
      assert (set y | y in s :: f[y]) == (set y | y in rest :: f[y]) + {f[x]};
      assert f[x] !in (set y | y in rest :: f[y]);
    } else {
      assert (set y | y in s :: f[y]) == {};
    }
  }

  /** A set of naturals below `n` has at most `n` elements. */
  lemma {:induction false} SubsetOfRange(ws: set<nat>, n: nat)
    requires forall w :: w in ws ==> w < n
    ensures |ws| <= n
    decreases n
  {
    if n > 0 {
      SubsetOfRange(ws - {n - 1}, n - 1);
    } else {
      assert ws == {};
    }
  }

  /** `get_default_manager`: one manager (two workers), created on first use. */
  class DefaultManager {
    var manager: JobManager?

    constructor()
      ensures manager == null
    {
      manager := null;
    }

    method Get() returns (m: JobManager)
      modifies this
      ensures old(manager) != null ==> m == old(manager)
      ensures old(manager) == null ==> fresh(m) && m.Valid() && m.maxWorkers == 2 && m.jobs == map[]
      ensures manager == m
    {
      if manager == null {
        manager := new JobManager(2);
      }
      m := manager;
    }
  }
}
