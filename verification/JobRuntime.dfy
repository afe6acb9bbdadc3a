/**
  The job service and dispatcher as code over their shared state: the rows of the job table, the
  task registry and the set of background tasks. Every method is proved to be one event of `Jobs`, and
  so to keep the registry and the rows in order.
 */
module JobRuntimes {
  import opened Common
  import opened Jobs

  class JobRuntime {
    var jobs: map<JobId, Job>
    ghost var reclaims: map<JobId, nat>
    var tasks: map<TaskId, Task>
    var registry: map<JobId, TaskId>
    var background: set<TaskId>
    var callbacks: set<TaskId>
    var listed: set<JobId>
    var nextTask: TaskId

    ghost function Snapshot(): System
      reads this
    {
      System(jobs, reclaims, tasks, registry, background, callbacks, listed, nextTask)
    }

    /** The registry names the live tasks, and the rows are as every run leaves them. */
    ghost predicate Valid()
      reads this
    {
      Registered(Snapshot()) && RowsOk(Snapshot())
    }

    /** No row but that of `j` has changed. */
    static ghost predicate OnlyRow(before: map<JobId, Job>, after: map<JobId, Job>, j: JobId) {
      after.Keys == before.Keys && forall k :: k in after && k != j ==> after[k] == before[k]
    }

    /** No task but `t` has changed, and it is still a task for the same job. */
    static ghost predicate OnlyTask(before: map<TaskId, Task>, after: map<TaskId, Task>, t: TaskId) {
      && after.Keys == before.Keys && (forall u :: u in after && u != t ==> after[u] == before[u])
      && (t in after ==> after[t].job == before[t].job)
    }

    static lemma KeepsValid(s: System, e: Event)
      requires Registered(s) && RowsOk(s) && Allowed(s, e)
      ensures Registered(Step(s, e)) && RowsOk(Step(s, e))
    {
      StepKeepsRegistered(s, e);
      StepKeepsRows(s, e);
    }

    constructor ()
      ensures Snapshot() == INITIAL
    {
      jobs, reclaims, tasks, registry := map[], map[], map[], map[];
      background, callbacks, listed, nextTask := {}, {}, {}, 0;
    }

    // -------------------------------------------------------------- service calls

    method CreateOrResumeProjectJob(j: JobId, maxAttempts: int, stale: bool) returns (shouldDispatch: bool)
      modifies this
      ensures Snapshot() == Step(old(Snapshot()), CreateOrResume(j, maxAttempts))
      ensures shouldDispatch <==>
        || j !in old(jobs)
        || old(jobs)[j].status == Cancelled
        || (old(jobs)[j].status == Failed && old(jobs)[j].attempts < old(jobs)[j].maxAttempts)
        || (old(jobs)[j].status == Pending && stale)
      ensures forall k :: k in jobs <==> k in old(jobs) || k == j
      ensures forall k :: k in old(jobs) && k != j ==> jobs[k] == old(jobs)[k]
      ensures j !in old(jobs) ==> jobs[j] == Job(Pending, 0, 0, maxAttempts, false, None)
      ensures j in old(jobs) ==>
        var was := old(jobs)[j];
        jobs[j] == if was.status == Cancelled then
                     Job(Pending, 0, was.attempts, if was.attempts < was.maxAttempts then was.maxAttempts else was.attempts + 1, false, None)
                   else if was.status == Failed && was.attempts < was.maxAttempts then
                     Job(Pending, 0, was.attempts, was.maxAttempts, false, None)
                   else was
      ensures old(Valid()) && (j in old(jobs) || maxAttempts >= 1) ==> Valid()
    {
      if Valid() && (j in jobs || maxAttempts >= 1) { KeepsValid(Snapshot(), CreateOrResume(j, maxAttempts)); }
      shouldDispatch := false;
      if j !in jobs {
        jobs := jobs[j := Job(Pending, 0, 0, maxAttempts, false, None)];
        reclaims := reclaims[j := 0];
        return true;
      }
      var job := jobs[j];
      if job.status == Cancelled {
        job := job.(status := Pending, progress := 0, error := None, completed := false);
        job := job.(maxAttempts := Max(job.maxAttempts, job.attempts + 1));
        shouldDispatch := true;
      } else if job.status == Failed && job.attempts < job.maxAttempts {
        job := job.(status := Pending, progress := 0, error := None, completed := false);
        shouldDispatch := true;
      } else if job.status == Pending && stale {
        shouldDispatch := true;
      }
      jobs := jobs[j := job];
    }

    /** Requests cancellation of the live task too; when and where the task then ends is left open. */
    method CancelGenerationJob(j: JobId) returns (found: bool, requested: Option<TaskId>)
      modifies this`jobs
      ensures found == (j in old(jobs))
      ensures Snapshot() == Step(old(Snapshot()), Cancel(j))
      ensures requested == if found && j in registry && registry[j] in tasks && tasks[registry[j]].phase != Done
                           then Some(registry[j]) else None
      ensures jobs == if found && old(jobs)[j].status != Succeeded && old(jobs)[j].status != Cancelled
                      then old(jobs)[j := old(jobs)[j].(status := Cancelled, completed := true)] else old(jobs)
      ensures old(Valid()) ==> Valid()
    {
      if Valid() { KeepsValid(Snapshot(), Cancel(j)); }
      if j !in jobs {
        return false, None;
      }
      if jobs[j].status != Succeeded && jobs[j].status != Cancelled {
        jobs := jobs[j := jobs[j].(status := Cancelled, completed := true)];
      }
      found, requested := true, None;
      if j in registry && registry[j] in tasks && tasks[registry[j]].phase != Done {
        requested := Some(registry[j]);
      }
      assert jobs == Step(old(Snapshot()), Cancel(j)).jobs;
    }

    method RetryGenerationJob(j: JobId) returns (accepted: bool)
      modifies this`jobs
      ensures accepted == (j in old(jobs) && old(jobs)[j].status == Failed && old(jobs)[j].attempts < old(jobs)[j].maxAttempts)
      ensures jobs == if accepted then old(jobs)[j := old(jobs)[j].(status := Pending, error := None, completed := false)] else old(jobs)
      ensures Snapshot() == Step(old(Snapshot()), Retry(j))
      ensures old(Valid()) ==> Valid()
    {
      if Valid() { KeepsValid(Snapshot(), Retry(j)); }
      if j !in jobs || jobs[j].status != Failed || jobs[j].attempts >= jobs[j].maxAttempts {
        assert j in jobs ==> jobs[j := jobs[j]] == jobs;
        return false;
      }
      jobs := jobs[j := jobs[j].(status := Pending, error := None, completed := false)];
      return true;
    }

    /** Creates a task for the job unless its registered task is still live. */
    method DispatchProjectJob(j: JobId) returns (created: bool)
      modifies this
      ensures created == !(j in old(registry) && old(registry)[j] in old(tasks) && old(tasks)[old(registry)[j]].phase != Done)
      ensures jobs == old(jobs) && listed == old(listed) && (!created ==> tasks == old(tasks) && registry == old(registry))
      ensures created ==>
        && tasks == old(tasks)[old(nextTask) := Task(j, Scheduled)] && registry == old(registry)[j := old(nextTask)]
        && background == old(background) + {old(nextTask)} && nextTask == old(nextTask) + 1
      ensures Snapshot() == AfterDispatch(old(Snapshot()), j)
    {
      if j in registry && registry[j] in tasks && tasks[registry[j]].phase != Done {
        return false;
      }
      tasks := tasks[nextTask := Task(j, Scheduled)];
      background := background + {nextTask};
      registry := registry[j := nextTask];
      nextTask := nextTask + 1;
      return true;
    }

    /** Enqueue: create or resume, then dispatch if told to. A dispatch it makes finds the row PENDING; the
        job gets a task that will start it unless an older live task is past its start. */
    method EnqueueProjectStep(j: JobId, maxAttempts: int, stale: bool)
      modifies this
      ensures Snapshot() == Step(old(Snapshot()), Enqueue(j, maxAttempts, stale))
      ensures if || j !in old(jobs)
                 || old(jobs)[j].status == Cancelled
                 || (old(jobs)[j].status == Failed && old(jobs)[j].attempts < old(jobs)[j].maxAttempts)
                 || (old(jobs)[j].status == Pending && stale)
              then
                && j in jobs && jobs[j].status == Pending && HasLiveTask(Snapshot(), j)
                && (tasks[registry[j]].phase == Scheduled <==>
                      !HasLiveTask(old(Snapshot()), j) || old(tasks)[old(registry)[j]].phase == Scheduled)
              else Snapshot() == old(Snapshot())
      ensures jobs[j].status == Pending && !(j in old(jobs) && old(jobs)[j].status == Pending) ==> HasLiveTask(Snapshot(), j)
      ensures old(Valid()) && (j in old(jobs) || maxAttempts >= 1) ==> Valid()
    {
      if Valid() && (j in jobs || maxAttempts >= 1) { KeepsValid(Snapshot(), Enqueue(j, maxAttempts, stale)); }
      EnqueuedWillStartIff(Snapshot(), j, maxAttempts, stale);
      var shouldDispatch := CreateOrResumeProjectJob(j, maxAttempts, stale);
      if shouldDispatch && CanRun(jobs[j]) {
        var _ := DispatchProjectJob(j);
      }
    }

    // -------------------------------------------------------------- start-up recovery

    /** The two queries of recovery: the PENDING and RUNNING rows among `found`, those old enough. */
    method ListStaleJobs(found: set<JobId>)
      modifies this`listed
      ensures Snapshot() == Step(old(Snapshot()), ListStale(found))
      ensures forall j :: j in listed <==>
        j in old(listed) || (j in found && j in jobs && (jobs[j].status == Pending || jobs[j].status == Running))
    {
      listed := listed + set j | j in found && j in jobs && (jobs[j].status == Pending || jobs[j].status == Running);
    }

    static predicate SameEntry(before: map<JobId, TaskId>, after: map<JobId, TaskId>, j: JobId) {
      (j in after <==> j in before) && (j in after ==> after[j] == before[j])
    }

    /** The recovery loop: `events` are the dispatches made since `before`. */
    static ghost predicate Recovered(before: System, events: seq<Event>, now: System) {
      && now == Run(before, events) && Registered(now)
      && (forall i :: 0 <= i < |events| ==> events[i].Recover?)
      && now.jobs == before.jobs && now.listed <= before.listed
      && (forall j :: j in before.listed && j !in now.listed ==> HasLiveTask(now, j))
      && (forall j :: j !in before.listed || HasLiveTask(before, j) ==> SameEntry(before.registry, now.registry, j))
      && (forall j :: HasLiveTask(before, j) ==> HasLiveTask(now, j))
    }

    static lemma RecoverOne(before: System, events: seq<Event>, now: System, j: JobId)
      requires Recovered(before, events, now) && j in now.listed
      ensures Recovered(before, events + [Recover(j)], Step(now, Recover(j)))
    {
      assert (events + [Recover(j)])[..|events|] == events;
      RecoverKeepsRegistered(now, j);
    }

    static lemma {:induction false} RecoveriesKeepRows(before: System, events: seq<Event>)
      requires Registered(before) && RowsOk(before) && forall i :: 0 <= i < |events| ==> events[i].Recover?
      ensures RowsOk(Run(before, events))
      decreases |events|
    {
      if events != [] {
        RecoveriesKeepRows(before, events[..|events| - 1]);
        RunKeepsRegistered(before, events[..|events| - 1]);
        RecoverKeepsRows(Run(before, events[..|events| - 1]), events[|events| - 1].job);
      }
    }

    /** Dispatches every listed job, whatever its row says by now. No row is written, no other job gets a
        task, and afterwards every listed job has a live one. */
    method RecoverListedJobs() returns (ghost events: seq<Event>)
      requires Registered(Snapshot())
      modifies this
      ensures Snapshot() == Run(old(Snapshot()), events) && forall i :: 0 <= i < |events| ==> events[i].Recover?
      ensures Registered(Snapshot()) && (old(Valid()) ==> Valid())
      ensures jobs == old(jobs) && listed == {}
      ensures forall j :: j in old(listed) ==> HasLiveTask(Snapshot(), j)
      ensures forall j :: j !in old(listed) || HasLiveTask(old(Snapshot()), j) ==> SameEntry(old(registry), registry, j)
    {
      ghost var before := Snapshot();
      events := [];
      while listed != {}
        invariant Recovered(before, events, Snapshot())
        decreases |listed|
      {
        var j :| j in listed;
        RecoverOne(before, events, Snapshot(), j);
        events := events + [Recover(j)];
        listed := listed - {j};
        var _ := DispatchProjectJob(j);
      }
      if RowsOk(before) { RecoveriesKeepRows(before, events); }
    }

    // -------------------------------------------------------------- the runner and its task

    /** `job'` is `job` with a new attempt under way: one more counted, some progress shown, no old outcome. */
    static ghost predicate Begun(job: Job, job': Job) {
      && job'.status == Running && job'.attempts == job.attempts + 1 && job'.maxAttempts == job.maxAttempts
      && job'.progress == (if job.progress < 5 then 5 else job.progress) && job'.error.None? && !job'.completed
    }

    /** It counts an attempt exactly on a PENDING or RUNNING row, which is then RUNNING, and a reclaim
        exactly on a RUNNING one; any other row, a FAILED one, is left as it stands. */
    method MarkJobRunning(j: JobId)
      requires j in jobs
      modifies this`jobs, this`reclaims
      ensures OnlyRow(old(jobs), jobs, j)
      ensures var job := old(jobs)[j];
              if job.status == Pending || job.status == Running then Begun(job, jobs[j]) else jobs[j] == job
      ensures jobs[j] == Started(old(jobs)[j])
      ensures reclaims == if old(jobs)[j].status == Running && j in old(reclaims)
                          then old(reclaims)[j := old(reclaims)[j] + 1] else old(reclaims)
    {
      var job := jobs[j];
      if job.status != Pending && job.status != Running {
        return;
      }
      if job.status == Running && j in reclaims {
        reclaims := reclaims[j := reclaims[j] + 1];
      }
      job := job.(status := Running, progress := Max(job.progress, 5), attempts := job.attempts + 1);
      job := job.(completed := false, error := None);
      jobs := jobs[j := job];
    }

    /** The runner up to and including `mark_job_running`. It enters its body if and only if the job
        exists and can run, and otherwise writes no row. */
    method RunnerStart(t: TaskId) returns (running: bool)
      requires InPhase(Snapshot(), t, Scheduled)
      modifies this
      ensures OnlyTask(old(tasks), tasks, t) && InPhase(Snapshot(), t, if running then Body else Finishing)
      ensures running <==>
        var j := tasks[t].job;
        j in old(jobs) && old(jobs)[j].status != Succeeded && old(jobs)[j].status != Cancelled
        && (old(jobs)[j].status == Failed ==> old(jobs)[j].attempts < old(jobs)[j].maxAttempts)
      ensures OnlyRow(old(jobs), jobs, tasks[t].job) && (!running ==> jobs == old(jobs))
      ensures Snapshot() == Step(old(Snapshot()), Start(t)) && (old(Valid()) ==> Valid())
    {
      ghost var before := Snapshot();
      var j := tasks[t].job;
      running := j in jobs && CanRun(jobs[j]);
      if running {
        MarkJobRunning(j);
        assert jobs == before.jobs[j := Started(before.jobs[j])];
      }
      tasks := tasks[t := tasks[t].(phase := if running then Body else Finishing)];
      assert Snapshot() == Step(before, Start(t));
      if Registered(before) && RowsOk(before) { KeepsValid(before, Start(t)); }
    }

    /** Progress stays in 0..99, so 100 is left to success; nothing else is written. */
    method MarkJobProgress(t: TaskId, progress: int)
      requires InPhase(Snapshot(), t, Body) && tasks[t].job in jobs
      modifies this`jobs
      ensures OnlyRow(old(jobs), jobs, tasks[t].job)
      ensures var j := tasks[t].job;
              && jobs[j].progress == (if progress < 0 then 0 else if progress > 99 then 99 else progress)
              && jobs[j] == old(jobs)[j].(progress := jobs[j].progress)
      ensures Snapshot() == Step(old(Snapshot()), Progress(t, progress)) && (old(Valid()) ==> Valid())
    {
      if Valid() { KeepsValid(Snapshot(), Progress(t, progress)); }
      var j := tasks[t].job;
      jobs := jobs[j := jobs[j].(progress := Max(0, Min(99, progress)))];
    }

    /** The end of a run whose body returned: re-read the row, and succeed unless it was cancelled. */
    method RunnerSucceed(t: TaskId) returns (succeeded: bool)
      requires InPhase(Snapshot(), t, Body) && tasks[t].job in jobs
      modifies this
      ensures OnlyTask(old(tasks), tasks, t) && OnlyRow(old(jobs), jobs, tasks[t].job)
      ensures succeeded == (old(jobs)[tasks[t].job].status != Cancelled)
      ensures var j := tasks[t].job;
              if succeeded then jobs[j] == old(jobs)[j].(status := Succeeded, progress := 100, completed := true)
              else jobs[j] == old(jobs)[j]
      ensures Snapshot() == Step(old(Snapshot()), Succeed(t)) && (old(Valid()) ==> Valid())
    {
      if Valid() { KeepsValid(Snapshot(), Succeed(t)); }
      var j := tasks[t].job;
      succeeded := jobs[j].status != Cancelled;
      if succeeded {
        jobs := jobs[j := jobs[j].(status := Succeeded, progress := 100, completed := true)];
      }
      tasks := tasks[t := tasks[t].(phase := Finishing)];
    }

    /** The end of a run whose body raised, or whose step is unknown: the row ends FAILED and completed,
        even if it was cancelled meanwhile, with its attempts and progress kept. */
    method RunnerFail(t: TaskId, error: string)
      requires InPhase(Snapshot(), t, Body) && tasks[t].job in jobs
      modifies this
      ensures OnlyTask(old(tasks), tasks, t) && OnlyRow(old(jobs), jobs, tasks[t].job)
      ensures var j := tasks[t].job;
              && jobs[j].status == Failed && jobs[j].completed && jobs[j].error == Some(error)
              && jobs[j].attempts == old(jobs)[j].attempts && jobs[j].maxAttempts == old(jobs)[j].maxAttempts
              && jobs[j].progress == old(jobs)[j].progress
              && !InPhase(Snapshot(), t, Body)
      ensures Snapshot() == Step(old(Snapshot()), Fail(t, error)) && (old(Valid()) ==> Valid())
    {
      if Valid() { KeepsValid(Snapshot(), Fail(t, error)); }
      var j := tasks[t].job;
      jobs := jobs[j := jobs[j].(status := Failed, error := Some(error), completed := true)];
      tasks := tasks[t := tasks[t].(phase := Finishing)];
    }

    /** A task ends: it is no longer live, but stays registered until its callback has run. */
    method TaskEnds(t: TaskId)
      requires Live(Snapshot(), t)
      modifies this`tasks, this`callbacks
      ensures OnlyTask(old(tasks), tasks, t) && !Live(Snapshot(), t)
      ensures forall u :: u in callbacks <==> u in old(callbacks) || u == t
      ensures Snapshot() == Step(old(Snapshot()), End(t)) && (old(Valid()) ==> Valid())
    {
      if Valid() { KeepsValid(Snapshot(), End(t)); }
      tasks := tasks[t := tasks[t].(phase := Done)];
      callbacks := callbacks + {t};
    }

    /** The done-callback. It removes the entry of its job if and only if that entry still names its own
        task, and no entry of another job; so a job with a live task keeps it. */
    method ForgetProjectTask(t: TaskId)
      requires t in callbacks && t in tasks
      modifies this`callbacks, this`background, this`registry
      ensures var j := tasks[t].job;
              && (j in registry <==> j in old(registry) && old(registry)[j] != t)
              && (forall k :: k != j || (k in old(registry) && old(registry)[k] != t) ==> SameEntry(old(registry), registry, k))
      ensures t !in background && t !in callbacks
      ensures forall u :: u != t ==> (u in background <==> u in old(background)) && (u in callbacks <==> u in old(callbacks))
      ensures old(Valid()) ==> Valid() && forall k :: HasLiveTask(old(Snapshot()), k) ==> HasLiveTask(Snapshot(), k)
      ensures Snapshot() == Step(old(Snapshot()), Callback(t))
    {
      if Valid() { KeepsValid(Snapshot(), Callback(t)); }
      var j := tasks[t].job;
      callbacks := callbacks - {t};
      background := background - {t};
      if j in registry && registry[j] == t {
        registry := registry - {j};
      }
    }
  }
}
