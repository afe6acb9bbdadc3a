/**
  The lifecycle of a generation job and the in-process dispatcher: job rows, the task registry and
  the events that act on them. Each service call, and each stretch of a runner between two points
  where other code may run, is one event.
 */
module Jobs {
  import opened Common

  type JobId = nat
  type TaskId = nat

  datatype Status = Pending | Running | Succeeded | Failed | Cancelled | RetryScheduled

  /** A job row; `completed` tells whether `completed_at` is set. */
  datatype Job = Job(
    status: Status,
    progress: int,
    attempts: nat,
    maxAttempts: int,
    completed: bool,
    error: Option<string>)

  /** Where a background task is: created; past `mark_job_running`; past its last write to the row;
      finished (`task.done()`). */
  datatype Phase = Scheduled | Body | Finishing | Done

  datatype Task = Task(job: JobId, phase: Phase)

  /** `registry` is `_running_project_tasks`, `background` is `_running_background_tasks`, `callbacks`
      holds finished tasks whose done-callback has not run yet. `reclaims` counts, for each job, how
      often a runner took over a row that was already RUNNING. `listed` holds the jobs that start-up
      recovery has read as stale and has yet to dispatch. */
  datatype System = System(
    jobs: map<JobId, Job>,
    reclaims: map<JobId, nat>,
    tasks: map<TaskId, Task>,
    registry: map<JobId, TaskId>,
    background: set<TaskId>,
    callbacks: set<TaskId>,
    listed: set<JobId>,
    nextTask: TaskId)

  const INITIAL := System(map[], map[], map[], map[], {}, {}, {}, 0)

  // ---------------------------------------------------------------- rows

  /** `project_job_can_run`. */
  predicate CanRun(job: Job) {
    job.status != Succeeded && job.status != Cancelled
    && !(job.status == Failed && job.attempts >= job.maxAttempts)
  }

  function Max(a: int, b: int): int { if a < b then b else a }
  function Min(a: int, b: int): int { if a < b then a else b }

  function NewJob(maxAttempts: int): Job {
    Job(Pending, 0, 0, maxAttempts, false, None)
  }

  function Requeued(job: Job): Job {
    job.(status := Pending, progress := 0, error := None, completed := false)
  }

  /** `create_or_resume_project_job` on an existing row. */
  function Resumed(job: Job): Job {
    if job.status == Cancelled then Requeued(job).(maxAttempts := Max(job.maxAttempts, job.attempts + 1))
    else if job.status == Failed && job.attempts < job.maxAttempts then Requeued(job)
    else job
  }

  /** `mark_job_running`. */
  function Started(job: Job): Job {
    if job.status == Pending || job.status == Running then
      job.(status := Running, progress := Max(job.progress, 5), attempts := job.attempts + 1,
           completed := false, error := None)
    else job
  }

  function Advanced(job: Job, progress: int): Job {
    job.(progress := Max(0, Min(99, progress)))
  }

  function MarkedFailed(job: Job, error: string): Job {
    job.(status := Failed, error := Some(error), completed := true)
  }

  function MarkedSucceeded(job: Job): Job {
    job.(status := Succeeded, progress := 100, completed := true)
  }

  function MarkedCancelled(job: Job): Job {
    if job.status == Succeeded || job.status == Cancelled then job
    else job.(status := Cancelled, completed := true)
  }

  predicate Retryable(job: Job) {
    job.status == Failed && job.attempts < job.maxAttempts
  }

  function Retried(job: Job): Job {
    if Retryable(job) then job.(status := Pending, error := None, completed := false) else job
  }

  // ---------------------------------------------------------------- events

  datatype Event =
    | CreateOrResume(job: JobId, maxAttempts: int)
    | Cancel(job: JobId)
    | Retry(job: JobId)
    | Enqueue(job: JobId, maxAttempts: int, stale: bool)
    | ListStale(found: set<JobId>)
    | Recover(job: JobId)
    | Start(task: TaskId)
    | Progress(task: TaskId, progress: int)
    | Succeed(task: TaskId)
    | Fail(task: TaskId, error: string)
    | End(task: TaskId)
    | Callback(task: TaskId)
    | Restart

  predicate Live(s: System, t: TaskId) {
    t in s.tasks && s.tasks[t].phase != Done
  }

  predicate InPhase(s: System, t: TaskId, phase: Phase) {
    t in s.tasks && s.tasks[t].phase == phase
  }

  predicate HasLiveTask(s: System, j: JobId) {
    j in s.registry && Live(s, s.registry[j])
  }

  function PutJob(s: System, j: JobId, job: Job): System {
    s.(jobs := s.jobs[j := job])
  }

  function SetPhase(s: System, t: TaskId, phase: Phase): System
    requires t in s.tasks
  {
    s.(tasks := s.tasks[t := s.tasks[t].(phase := phase)])
  }

  function AfterCreateOrResume(s: System, j: JobId, maxAttempts: int): System {
    if j in s.jobs then PutJob(s, j, Resumed(s.jobs[j]))
    else PutJob(s, j, NewJob(maxAttempts)).(reclaims := s.reclaims[j := 0])
  }

  /** Whether the caller is told to dispatch. */
  predicate ShouldDispatch(s: System, j: JobId, stale: bool) {
    j !in s.jobs
    || s.jobs[j].status == Cancelled
    || (s.jobs[j].status == Failed && s.jobs[j].attempts < s.jobs[j].maxAttempts)
    || (s.jobs[j].status == Pending && stale)
  }

  /** A new task, unless the registered one is still live. */
  function AfterDispatch(s: System, j: JobId): System {
    if HasLiveTask(s, j) then s
    else s.(tasks := s.tasks[s.nextTask := Task(j, Scheduled)],
            registry := s.registry[j := s.nextTask],
            background := s.background + {s.nextTask},
            nextTask := s.nextTask + 1)
  }

  /** Enqueue: create or resume, and dispatch if told to. */
  function AfterEnqueue(s: System, j: JobId, maxAttempts: int, stale: bool): System {
    var resumed := AfterCreateOrResume(s, j, maxAttempts);
    if ShouldDispatch(s, j, stale) then AfterDispatch(resumed, j) else resumed
  }

  predicate Recoverable(s: System, j: JobId) {
    j in s.jobs && (s.jobs[j].status == Pending || s.jobs[j].status == Running)
  }

  /** Recovery reads the rows once: `found` are those old enough, of which it lists the PENDING and RUNNING ones. */
  function AfterListStale(s: System, found: set<JobId>): System {
    s.(listed := s.listed + set j | j in found && Recoverable(s, j))
  }

  /** Recovery dispatches a listed job without another look at its row. */
  function AfterRecover(s: System, j: JobId): System {
    if j in s.listed then AfterDispatch(s.(listed := s.listed - {j}), j) else s
  }

  /** The runner's opening: it returns or raises at once unless the job exists and can run. */
  function AfterStart(s: System, t: TaskId): System {
    if !InPhase(s, t, Scheduled) then s
    else
      var j := s.tasks[t].job;
      if j !in s.jobs || !CanRun(s.jobs[j]) then SetPhase(s, t, Finishing)
      else
        var reclaims := if s.jobs[j].status == Running && j in s.reclaims
                        then s.reclaims[j := s.reclaims[j] + 1] else s.reclaims;
        SetPhase(PutJob(s, j, Started(s.jobs[j])), t, Body).(reclaims := reclaims)
  }

  function AfterProgress(s: System, t: TaskId, progress: int): System {
    if InPhase(s, t, Body) && s.tasks[t].job in s.jobs then
      PutJob(s, s.tasks[t].job, Advanced(s.jobs[s.tasks[t].job], progress))
    else s
  }

  /** The re-check before success: a cancelled row is left alone. */
  function AfterSucceed(s: System, t: TaskId): System {
    if InPhase(s, t, Body) && s.tasks[t].job in s.jobs then
      var j := s.tasks[t].job;
      SetPhase(if s.jobs[j].status == Cancelled then s else PutJob(s, j, MarkedSucceeded(s.jobs[j])), t, Finishing)
    else s
  }

  /** A failure is written without any re-check. */
  function AfterFail(s: System, t: TaskId, error: string): System {
    if InPhase(s, t, Body) && s.tasks[t].job in s.jobs then
      SetPhase(PutJob(s, s.tasks[t].job, MarkedFailed(s.jobs[s.tasks[t].job], error)), t, Finishing)
    else s
  }

  /** The task ends: it returned, raised, or was cancelled, at whatever point it had reached. */
  function AfterEnd(s: System, t: TaskId): System {
    if Live(s, t) then SetPhase(s, t, Done).(callbacks := s.callbacks + {t}) else s
  }

  /** The done-callback: forget the task, and its registration if it is still the registered one. */
  function AfterCallback(s: System, t: TaskId): System {
    if t in s.callbacks && t in s.tasks then
      var j := s.tasks[t].job;
      s.(callbacks := s.callbacks - {t},
         background := s.background - {t},
         registry := if j in s.registry && s.registry[j] == t then s.registry - {j} else s.registry)
    else s
  }

  function Step(s: System, e: Event): System {
    match e
    case CreateOrResume(j, maxAttempts) => AfterCreateOrResume(s, j, maxAttempts)
    case Cancel(j) => if j in s.jobs then PutJob(s, j, MarkedCancelled(s.jobs[j])) else s
    case Retry(j) => if j in s.jobs then PutJob(s, j, Retried(s.jobs[j])) else s
    case Enqueue(j, maxAttempts, stale) => AfterEnqueue(s, j, maxAttempts, stale)
    case ListStale(found) => AfterListStale(s, found)
    case Recover(j) => AfterRecover(s, j)
    case Start(t) => AfterStart(s, t)
    case Progress(t, progress) => AfterProgress(s, t, progress)
    case Succeed(t) => AfterSucceed(s, t)
    case Fail(t, error) => AfterFail(s, t, error)
    case End(t) => AfterEnd(s, t)
    case Callback(t) => AfterCallback(s, t)
    case Restart => s.(tasks := map[], registry := map[], background := {}, callbacks := {}, listed := {})
  }

  function Run(s: System, events: seq<Event>): System
    decreases |events|
  {
    if events == [] then s else Step(Run(s, events[..|events| - 1]), events[|events| - 1])
  }

  // ---------------------------------------------------------------- the dispatcher

  /** The registry names every live task, and nothing but live tasks and finished ones whose callback
      is still due. */
  ghost predicate Registered(s: System) {
    && (forall t :: t in s.tasks ==> t < s.nextTask)
    && (forall t :: Live(s, t) ==> s.tasks[t].job in s.registry && s.registry[s.tasks[t].job] == t)
    && (forall j :: j in s.registry ==>
          s.registry[j] in s.tasks && s.tasks[s.registry[j]].job == j
          && (Live(s, s.registry[j]) || s.registry[j] in s.callbacks))
    && (forall t :: t in s.callbacks ==> InPhase(s, t, Done))
    && (forall t :: t in s.background <==> Live(s, t) || t in s.callbacks)
  }

  lemma DispatchKeepsRegistered(s: System, j: JobId)
    requires Registered(s)
    ensures Registered(AfterDispatch(s, j))
  {
  }

  lemma EnqueueKeepsRegistered(s: System, j: JobId, maxAttempts: int, stale: bool)
    requires Registered(s)
    ensures Registered(AfterEnqueue(s, j, maxAttempts, stale))
  {
    var resumed := AfterCreateOrResume(s, j, maxAttempts);
    MovingOnKeepsRegistered(s, resumed, 0);
    DispatchKeepsRegistered(resumed, j);
  }

  lemma RecoverKeepsRegistered(s: System, j: JobId)
    requires Registered(s)
    ensures Registered(AfterRecover(s, j))
  {
    var taken := s.(listed := s.listed - {j});
    MovingOnKeepsRegistered(s, taken, 0);
    DispatchKeepsRegistered(taken, j);
  }

  /** An enqueue of a job that is new, CANCELLED, FAILED with attempts left, or PENDING and stale leaves it
      PENDING with a live task, and that task has yet to start it exactly if the job had no live task, or
      one that had yet to start: the task of a run that was just cancelled keeps the enqueue from making
      one. Any other enqueue touches neither rows nor tasks. */
  lemma EnqueuedWillStartIff(s: System, j: JobId, maxAttempts: int, stale: bool)
    ensures var after := Step(s, Enqueue(j, maxAttempts, stale));
            if || j !in s.jobs
               || s.jobs[j].status == Cancelled
               || (s.jobs[j].status == Failed && s.jobs[j].attempts < s.jobs[j].maxAttempts)
               || (s.jobs[j].status == Pending && stale)
            then
              && j in after.jobs && after.jobs[j].status == Pending && HasLiveTask(after, j)
              && (after.tasks[after.registry[j]].phase == Scheduled <==>
                    !HasLiveTask(s, j) || s.tasks[s.registry[j]].phase == Scheduled)
            else after == s
  {
    if j in s.jobs { assert s.jobs[j := s.jobs[j]] == s.jobs; }
  }

  /** A task that has yet to start a PENDING row puts it to RUNNING, with one more attempt. */
  lemma ScheduledTaskStarts(s: System, j: JobId)
    requires Registered(s) && j in s.jobs && s.jobs[j].status == Pending
    requires HasLiveTask(s, j) && s.tasks[s.registry[j]].phase == Scheduled
    ensures var t := s.registry[j]; var after := Step(s, Start(t));
            && InPhase(after, t, Body) && after.jobs[j].status == Running
            && after.jobs[j].attempts == s.jobs[j].attempts + 1 && after.jobs[j].maxAttempts == s.jobs[j].maxAttempts
  {
  }

  /** No enqueue that creates a row or turns one PENDING leaves it without a live task. */
  lemma EnqueueLeavesNoneWaiting(s: System, j: JobId, maxAttempts: int, stale: bool, k: JobId)
    requires var after := Step(s, Enqueue(j, maxAttempts, stale));
             k in after.jobs && after.jobs[k].status == Pending && !(k in s.jobs && s.jobs[k].status == Pending)
    ensures k == j && HasLiveTask(Step(s, Enqueue(j, maxAttempts, stale)), k)
  {
    EnqueuedWillStartIff(s, j, maxAttempts, stale);
  }

  /** What a resumed row looks like: all of the old outcome is gone, the attempts are kept, and the limit is
      raised only where they have reached it, and then by just one attempt. */
  lemma ResumedCanRun(s: System, j: JobId, maxAttempts: int)
    requires j in s.jobs
    ensures var was, now := s.jobs[j], Step(s, CreateOrResume(j, maxAttempts)).jobs[j];
            if was.status == Cancelled || (was.status == Failed && was.attempts < was.maxAttempts) then
              && now.status == Pending && now.progress == 0 && !now.completed && now.error == None
              && now.attempts == was.attempts && now.attempts < now.maxAttempts
              && now.maxAttempts == if was.attempts < was.maxAttempts then was.maxAttempts else was.attempts + 1
            else now == was
  {
  }

  /** In the exceptional case nothing may ever run the job: when the old task, past its last write, ends and
      is forgotten, the row is PENDING and no task is left. */
  lemma EnqueuedIsStranded(s: System, j: JobId, maxAttempts: int, stale: bool)
    requires Registered(s) && j in s.registry && InPhase(s, s.registry[j], Finishing)
    requires || j !in s.jobs
             || s.jobs[j].status == Cancelled
             || (s.jobs[j].status == Failed && s.jobs[j].attempts < s.jobs[j].maxAttempts)
             || (s.jobs[j].status == Pending && stale)
    ensures var t := s.registry[j];
            var after := Step(Step(Step(s, Enqueue(j, maxAttempts, stale)), End(t)), Callback(t));
            j in after.jobs && after.jobs[j].status == Pending && !HasLiveTask(after, j) && j !in after.registry
  {
    assert HasLiveTask(s, j);
  }

  /** After a restart, recovery gives a task to exactly those of the jobs found old enough that are PENDING
      or RUNNING; the task then starts the row, whichever of the two it is. */
  lemma RecoveryStartsIff(s: System, found: set<JobId>, j: JobId)
    requires Registered(s)
    ensures var after := Step(Step(Step(s, Restart), ListStale(found)), Recover(j));
            && (HasLiveTask(after, j) <==> j in found && j in s.jobs && (s.jobs[j].status == Pending || s.jobs[j].status == Running))
            && (HasLiveTask(after, j) ==>
                  var begun := Step(after, Start(after.registry[j]));
                  begun.jobs[j].status == Running && begun.jobs[j].attempts == s.jobs[j].attempts + 1)
  {
    var s2 := Step(Step(s, Restart), ListStale(found));
    assert s2.registry == map[] && s2.jobs == s.jobs;
  }

  lemma CallbackKeepsRegistered(s: System, t: TaskId)
    requires Registered(s)
    ensures Registered(AfterCallback(s, t))
  {
  }

  lemma EndKeepsRegistered(s: System, t: TaskId)
    requires Registered(s)
    ensures Registered(AfterEnd(s, t))
  {
  }

  /** `s'` has the tasks and the registry of `s`, apart perhaps from a task that moved on without ending. */
  ghost predicate MovedOn(s: System, s': System, t: TaskId) {
    && s'.registry == s.registry && s'.background == s.background && s'.callbacks == s.callbacks && s'.nextTask == s.nextTask
    && (s'.tasks == s.tasks
        || (Live(s, t) && Live(s', t) && s'.tasks == s.tasks[t := s'.tasks[t]] && s'.tasks[t].job == s.tasks[t].job))
  }

  lemma MovingOnKeepsRegistered(s: System, s': System, t: TaskId)
    requires Registered(s) && MovedOn(s, s', t)
    ensures Registered(s')
  {
    assert forall u :: Live(s', u) <==> Live(s, u);
  }

  lemma OtherMovesOn(s: System, e: Event, t: TaskId)
    requires !e.Enqueue? && !e.Recover? && !e.Callback? && !e.End? && !e.Restart?
    requires e.Start? || e.Progress? || e.Succeed? || e.Fail? ==> e.task == t
    ensures MovedOn(s, Step(s, e), t)
  {
  }

  /** Events that leave every task where it is, or move one on without ending it. */
  lemma OtherKeepsRegistered(s: System, e: Event)
    requires Registered(s) && !e.Enqueue? && !e.Recover? && !e.Callback? && !e.End?
    ensures Registered(Step(s, e))
  {
    if !e.Restart? {
      var t := if e.Start? || e.Progress? || e.Succeed? || e.Fail? then e.task else 0;
      OtherMovesOn(s, e, t);
      MovingOnKeepsRegistered(s, Step(s, e), t);
    }
  }

  lemma StepKeepsRegistered(s: System, e: Event)
    requires Registered(s)
    ensures Registered(Step(s, e))
  {
    match e
    case Enqueue(j, maxAttempts, stale) => EnqueueKeepsRegistered(s, j, maxAttempts, stale);
    case Recover(j) => RecoverKeepsRegistered(s, j);
    case Callback(t) => CallbackKeepsRegistered(s, t);
    case End(t) => EndKeepsRegistered(s, t);
    case _ => OtherKeepsRegistered(s, e);
  }

  lemma {:induction false} RunKeepsRegistered(s: System, events: seq<Event>)
    requires Registered(s)
    ensures Registered(Run(s, events))
    decreases |events|
  {
    if events != [] {
      RunKeepsRegistered(s, events[..|events| - 1]);
      StepKeepsRegistered(Run(s, events[..|events| - 1]), events[|events| - 1]);
    }
  }

  /** In every interleaving a job has at most one live task, it is the registered one, and it is held
      in the background set. */
  lemma OneLiveTask(events: seq<Event>, t: TaskId, u: TaskId)
    ensures var s := Run(INITIAL, events);
            && (Live(s, t) ==> HasLiveTask(s, s.tasks[t].job) && s.registry[s.tasks[t].job] == t && t in s.background)
            && (Live(s, t) && Live(s, u) && s.tasks[t].job == s.tasks[u].job ==> t == u)
  {
    RunKeepsRegistered(INITIAL, events);
  }

  /** However late, the callback of one task never removes the registration of another; and once every
      task is done and every callback has run, nothing is left registered. */
  lemma CallbacksOnlyForgetThemselves(events: seq<Event>, t: TaskId, j: JobId)
    ensures var s := Run(INITIAL, events); var after := Step(s, Callback(t));
            && (j in s.registry && s.registry[j] != t ==> j in after.registry && after.registry[j] == s.registry[j])
            && (Live(s, t) ==> after == s)
            && (s.callbacks == {} && (forall u :: !Live(s, u)) ==> s.registry == map[] && s.background == {})
  {
    RunKeepsRegistered(INITIAL, events);
    var s := Run(INITIAL, events);
    if s.callbacks == {} && forall u :: !Live(s, u) {
      assert forall k :: k !in s.registry;
      assert forall u :: u !in s.background;
    }
  }

  // ---------------------------------------------------------------- the rows

  predicate Terminal(status: Status) {
    status == Succeeded || status == Failed || status == Cancelled
  }

  /** What every reachable row satisfies, given how often it was reclaimed. */
  predicate RowOk(job: Job, reclaimed: nat) {
    && job.status != RetryScheduled
    && 0 <= job.progress <= 100
    && (job.progress == 100 <==> job.status == Succeeded)
    && (job.completed <==> Terminal(job.status))
    && (job.status == Pending ==> job.attempts < job.maxAttempts)
    && job.attempts <= job.maxAttempts + reclaimed
  }

  /** Every row is in order, and no runner is in its body over a row that has succeeded. */
  ghost predicate RowsOk(s: System) {
    && s.reclaims.Keys == s.jobs.Keys
    && (forall j :: j in s.jobs ==> RowOk(s.jobs[j], s.reclaims[j]))
    && (forall t :: InPhase(s, t, Body) ==> s.tasks[t].job in s.jobs && s.jobs[s.tasks[t].job].status != Succeeded)
  }

  /** A new job must be allowed at least one attempt. */
  predicate Allowed(s: System, e: Event) {
    (e.CreateOrResume? || e.Enqueue?) && e.job !in s.jobs ==> e.maxAttempts >= 1
  }

  lemma RowRequeues(job: Job, reclaimed: nat)
    requires RowOk(job, reclaimed)
    ensures RowOk(Resumed(job), reclaimed) && RowOk(Retried(job), reclaimed) && RowOk(MarkedCancelled(job), reclaimed)
    ensures job.status != Succeeded ==>
      Resumed(job).status != Succeeded && Retried(job).status != Succeeded && MarkedCancelled(job).status != Succeeded
  {
  }

  lemma RowRuns(job: Job, reclaimed: nat, progress: int, error: string)
    requires RowOk(job, reclaimed) && job.status != Succeeded
    ensures RowOk(Started(job), if job.status == Running then reclaimed + 1 else reclaimed)
    ensures RowOk(Advanced(job, progress), reclaimed) && RowOk(MarkedFailed(job, error), reclaimed)
    ensures RowOk(MarkedSucceeded(job), reclaimed)
    ensures Started(job).status != Succeeded && Advanced(job, progress).status != Succeeded
  {
  }

  /** Rewriting one row with another that is in order. */
  lemma PutKeepsRows(s: System, j: JobId, job: Job)
    requires RowsOk(s) && j in s.jobs && RowOk(job, s.reclaims[j])
    requires job.status == Succeeded ==> forall t :: InPhase(s, t, Body) ==> s.tasks[t].job != j
    ensures RowsOk(PutJob(s, j, job))
  {
    var after := PutJob(s, j, job);
    assert forall t :: InPhase(after, t, Body) == InPhase(s, t, Body);
  }

  /** A task leaving its body, or not in it. */
  lemma PhaseKeepsRows(s: System, t: TaskId, phase: Phase)
    requires RowsOk(s) && t in s.tasks && phase != Body
    ensures RowsOk(SetPhase(s, t, phase))
  {
    var after := SetPhase(s, t, phase);
    assert forall u :: InPhase(after, u, Body) ==> InPhase(s, u, Body);
  }

  lemma ServiceKeepsRows(s: System, e: Event)
    requires RowsOk(s) && Allowed(s, e) && (e.CreateOrResume? || e.Cancel? || e.Retry?)
    ensures RowsOk(Step(s, e))
  {
    var j := e.job;
    if j in s.jobs {
      RowRequeues(s.jobs[j], s.reclaims[j]);
      PutKeepsRows(s, j, if e.CreateOrResume? then Resumed(s.jobs[j]) else if e.Cancel? then MarkedCancelled(s.jobs[j]) else Retried(s.jobs[j]));
    } else if e.CreateOrResume? {
      var after := Step(s, e);
      assert forall t :: InPhase(after, t, Body) ==> InPhase(s, t, Body);
    }
  }

  /** A dispatch writes no row, and its task is not in its body. */
  lemma DispatchKeepsRows(s: System, j: JobId)
    requires Registered(s) && RowsOk(s)
    ensures RowsOk(AfterDispatch(s, j))
  {
    var after := AfterDispatch(s, j);
    assert forall t :: InPhase(after, t, Body) ==> InPhase(s, t, Body) && after.tasks[t] == s.tasks[t];
  }

  lemma EnqueueKeepsRows(s: System, j: JobId, maxAttempts: int, stale: bool)
    requires Registered(s) && RowsOk(s) && Allowed(s, Enqueue(j, maxAttempts, stale))
    ensures RowsOk(AfterEnqueue(s, j, maxAttempts, stale))
  {
    ServiceKeepsRows(s, CreateOrResume(j, maxAttempts));
    OtherKeepsRegistered(s, CreateOrResume(j, maxAttempts));
    DispatchKeepsRows(AfterCreateOrResume(s, j, maxAttempts), j);
  }

  lemma RecoverKeepsRows(s: System, j: JobId)
    requires Registered(s) && RowsOk(s)
    ensures RowsOk(AfterRecover(s, j))
  {
    var taken := s.(listed := s.listed - {j});
    assert forall t :: InPhase(taken, t, Body) == InPhase(s, t, Body);
    MovingOnKeepsRegistered(s, taken, 0);
    DispatchKeepsRows(taken, j);
  }

  lemma StartKeepsRows(s: System, t: TaskId)
    requires RowsOk(s)
    ensures RowsOk(AfterStart(s, t))
  {
    if InPhase(s, t, Scheduled) {
      var j := s.tasks[t].job;
      if j !in s.jobs || !CanRun(s.jobs[j]) {
        PhaseKeepsRows(s, t, Finishing);
      } else {
        RowRuns(s.jobs[j], s.reclaims[j], 0, "");
        var after := AfterStart(s, t);
        assert forall u :: InPhase(after, u, Body) ==> u == t || InPhase(s, u, Body);
      }
    }
  }

  lemma SucceedKeepsRows(s: System, t: TaskId)
    requires Registered(s) && RowsOk(s) && InPhase(s, t, Body)
    ensures RowsOk(AfterSucceed(s, t))
  {
    var j := s.tasks[t].job;
    PhaseKeepsRows(s, t, Finishing);
    if s.jobs[j].status != Cancelled {
      OnlyBody(s, t);
      RowRuns(s.jobs[j], s.reclaims[j], 0, "");
      PutKeepsRows(SetPhase(s, t, Finishing), j, MarkedSucceeded(s.jobs[j]));
    }
  }

  lemma FailKeepsRows(s: System, t: TaskId, error: string)
    requires RowsOk(s) && InPhase(s, t, Body)
    ensures RowsOk(AfterFail(s, t, error))
  {
    var j := s.tasks[t].job;
    RowRuns(s.jobs[j], s.reclaims[j], 0, error);
    PutKeepsRows(s, j, MarkedFailed(s.jobs[j], error));
    PhaseKeepsRows(PutJob(s, j, MarkedFailed(s.jobs[j], error)), t, Finishing);
  }

  lemma ProgressKeepsRows(s: System, t: TaskId, progress: int)
    requires RowsOk(s) && InPhase(s, t, Body)
    ensures RowsOk(AfterProgress(s, t, progress))
  {
    var j := s.tasks[t].job;
    RowRuns(s.jobs[j], s.reclaims[j], progress, "");
    PutKeepsRows(s, j, Advanced(s.jobs[j], progress));
  }

  /** The single-runner guarantee: once `t` leaves its body no other task is in one over the same job. */
  lemma OnlyBody(s: System, t: TaskId)
    requires Registered(s) && InPhase(s, t, Body)
    ensures forall u :: InPhase(SetPhase(s, t, Finishing), u, Body) ==> s.tasks[u].job != s.tasks[t].job
  {
    var after := SetPhase(s, t, Finishing);
    forall u | InPhase(after, u, Body) ensures s.tasks[u].job != s.tasks[t].job {
      assert Live(s, t) && Live(s, u) && u != t;
    }
  }

  lemma StepKeepsRows(s: System, e: Event)
    requires Registered(s) && RowsOk(s) && Allowed(s, e)
    ensures RowsOk(Step(s, e))
  {
    match e
    case CreateOrResume(_, _) => ServiceKeepsRows(s, e);
    case Enqueue(j, maxAttempts, stale) => EnqueueKeepsRows(s, j, maxAttempts, stale);
    case Recover(j) => RecoverKeepsRows(s, j);
    case Cancel(_) => ServiceKeepsRows(s, e);
    case Retry(_) => ServiceKeepsRows(s, e);
    case Start(t) => StartKeepsRows(s, t);
    case Progress(t, progress) => if InPhase(s, t, Body) { ProgressKeepsRows(s, t, progress); }
    case Succeed(t) => if InPhase(s, t, Body) { SucceedKeepsRows(s, t); }
    case Fail(t, error) => if InPhase(s, t, Body) { FailKeepsRows(s, t, error); }
    case End(t) => if Live(s, t) { PhaseKeepsRows(s, t, Done); }
    case _ =>
      var after := Step(s, e);
      assert forall t :: InPhase(after, t, Body) ==> InPhase(s, t, Body);
  }

  /** The one way to a disordered row: creating a job that may never be attempted. */
  lemma CreateKeepsRowsIff(s: System, j: JobId, maxAttempts: int)
    requires Registered(s) && RowsOk(s) && j !in s.jobs
    ensures RowsOk(Step(s, CreateOrResume(j, maxAttempts))) <==> maxAttempts >= 1
  {
    var after := Step(s, CreateOrResume(j, maxAttempts));
    if maxAttempts >= 1 {
      StepKeepsRows(s, CreateOrResume(j, maxAttempts));
    } else {
      assert j in after.jobs && !RowOk(after.jobs[j], after.reclaims[j]);
    }
  }

  ghost predicate AllAllowed(s: System, events: seq<Event>)
    decreases |events|
  {
    events != [] ==>
      AllAllowed(s, events[..|events| - 1]) && Allowed(Run(s, events[..|events| - 1]), events[|events| - 1])
  }

  lemma {:induction false} RunKeepsRows(s: System, events: seq<Event>)
    requires Registered(s) && RowsOk(s) && AllAllowed(s, events)
    ensures RowsOk(Run(s, events))
    decreases |events|
  {
    if events != [] {
      RunKeepsRows(s, events[..|events| - 1]);
      RunKeepsRegistered(s, events[..|events| - 1]);
      StepKeepsRows(Run(s, events[..|events| - 1]), events[|events| - 1]);
    }
  }

  // ---------------------------------------------------------------- one row

  predicate RunsOn(s: System, t: TaskId, j: JobId) {
    InPhase(s, t, Body) && s.tasks[t].job == j
  }

  /** What an event makes of one existing row. */
  function RowAfter(s: System, e: Event, j: JobId): Job
    requires j in s.jobs
  {
    var job := s.jobs[j];
    match e
    case CreateOrResume(k, _) => if k == j then Resumed(job) else job
    case Enqueue(k, _, _) => if k == j then Resumed(job) else job
    case Cancel(k) => if k == j then MarkedCancelled(job) else job
    case Retry(k) => if k == j then Retried(job) else job
    case Start(t) => if InPhase(s, t, Scheduled) && s.tasks[t].job == j && CanRun(job) then Started(job) else job
    case Progress(t, progress) => if RunsOn(s, t, j) then Advanced(job, progress) else job
    case Succeed(t) => if RunsOn(s, t, j) && job.status != Cancelled then MarkedSucceeded(job) else job
    case Fail(t, error) => if RunsOn(s, t, j) then MarkedFailed(job, error) else job
    case _ => job
  }

  lemma StepWritesRow(s: System, e: Event, j: JobId, after: System)
    requires j in s.jobs && after == Step(s, e)
    ensures j in after.jobs && after.jobs[j] == RowAfter(s, e, j)
  {
  }

  // ---------------------------------------------------------------- attempts

  /** A runner starts on job `j` while its row is PENDING or RUNNING. */
  predicate BeginsAttempt(s: System, e: Event, j: JobId) {
    e.Start? && InPhase(s, e.task, Scheduled) && s.tasks[e.task].job == j && j in s.jobs
    && (s.jobs[j].status == Pending || s.jobs[j].status == Running)
  }

  ghost function AttemptsBegun(s: System, events: seq<Event>, j: JobId): nat
    decreases |events|
  {
    if events == [] then 0
    else AttemptsBegun(s, events[..|events| - 1], j)
         + if BeginsAttempt(Run(s, events[..|events| - 1]), events[|events| - 1], j) then 1 else 0
  }

  lemma StepCountsAttempts(s: System, e: Event, j: JobId)
    requires j in s.jobs
    ensures j in Step(s, e).jobs
    ensures Step(s, e).jobs[j].attempts == s.jobs[j].attempts + if BeginsAttempt(s, e, j) then 1 else 0
  {
    StepWritesRow(s, e, j, Step(s, e));
  }

  /** No event but such a start counts an attempt, and none resets the count: over every run the
      attempts recorded are exactly the attempts begun. */
  lemma {:induction false} AttemptsAreStarts(s: System, events: seq<Event>, j: JobId)
    requires j in s.jobs
    ensures j in Run(s, events).jobs
    ensures Run(s, events).jobs[j].attempts == s.jobs[j].attempts + AttemptsBegun(s, events, j)
    decreases |events|
  {
    if events != [] {
      AttemptsAreStarts(s, events[..|events| - 1], j);
      StepCountsAttempts(Run(s, events[..|events| - 1]), events[|events| - 1], j);
    }
  }

  // ---------------------------------------------------------------- success is final

  lemma StepKeepsSucceeded(s: System, e: Event, j: JobId)
    requires Registered(s) && RowsOk(s) && j in s.jobs && s.jobs[j].status == Succeeded
    ensures j in Step(s, e).jobs && Step(s, e).jobs[j] == s.jobs[j]
  {
    StepWritesRow(s, e, j, Step(s, e));
  }

  /** A succeeded row is never written again. */
  lemma {:induction false} SucceededIsFinal(s: System, events: seq<Event>, j: JobId)
    requires Registered(s) && RowsOk(s) && AllAllowed(s, events)
    requires j in s.jobs && s.jobs[j].status == Succeeded
    ensures j in Run(s, events).jobs && Run(s, events).jobs[j] == s.jobs[j]
    decreases |events|
  {
    if events != [] {
      var front := events[..|events| - 1];
      SucceededIsFinal(s, front, j);
      RunKeepsRegistered(s, front);
      RunKeepsRows(s, front);
      StepKeepsSucceeded(Run(s, front), events[|events| - 1], j);
    }
  }

  // ---------------------------------------------------------------- cancelling

  /** The event requeues job `j`. */
  predicate Requeues(e: Event, j: JobId) {
    (e.CreateOrResume? || e.Enqueue? || e.Retry?) && e.job == j
  }

  ghost predicate NoRequeues(events: seq<Event>, j: JobId) {
    forall i :: 0 <= i < |events| ==> !Requeues(events[i], j)
  }

  /** Recovery puts a new task on `j`, which it listed earlier, while the row is FAILED with attempts left. */
  predicate RevivesFailed(s: System, e: Event, j: JobId) {
    e == Recover(j) && j in s.listed && j in s.jobs && s.jobs[j].status == Failed && CanRun(s.jobs[j]) && !HasLiveTask(s, j)
  }

  /** A cancelled job, also after a runner that was still in its body has turned the row to FAILED:
      nothing under way can bring it to SUCCEEDED. */
  ghost predicate Stopped(s: System, j: JobId) {
    && j in s.jobs
    && (s.jobs[j].status == Cancelled
        || (s.jobs[j].status == Failed
            && forall t :: t in s.tasks && s.tasks[t].job == j ==>
                 s.tasks[t].phase != Body && (s.tasks[t].phase == Scheduled ==> !CanRun(s.jobs[j]))))
  }

  lemma CancelStops(s: System, j: JobId)
    requires j in s.jobs && s.jobs[j].status != Succeeded
    ensures Stopped(Step(s, Cancel(j)), j)
  {
  }

  lemma StepKeepsStopped(s: System, e: Event, j: JobId)
    requires Registered(s) && Stopped(s, j) && !Requeues(e, j) && !RevivesFailed(s, e, j)
    ensures Stopped(Step(s, e), j)
  {
    match e
    case Enqueue(k, maxAttempts, _) =>
      EnqueueOtherKeepsStopped(s, k, maxAttempts, j);
    case Recover(k) => RecoverKeepsStopped(s, k, j);
    case Start(t) => StartKeepsStopped(s, t, j);
    case _ =>
  }

  /** A new task for another job, or for one that may not run, leaves `j` stopped. */
  lemma DispatchKeepsStopped(s: System, k: JobId, j: JobId)
    requires Registered(s) && Stopped(s, j)
    requires k != j || HasLiveTask(s, j) || !CanRun(s.jobs[j])
    ensures Stopped(AfterDispatch(s, k), j)
  {
  }

  lemma EnqueueOtherKeepsStopped(s: System, k: JobId, maxAttempts: int, j: JobId)
    requires Registered(s) && Stopped(s, j) && k != j
    ensures Stopped(AfterCreateOrResume(s, k, maxAttempts), j)
    ensures Stopped(AfterDispatch(AfterCreateOrResume(s, k, maxAttempts), k), j)
  {
    var resumed := AfterCreateOrResume(s, k, maxAttempts);
    MovingOnKeepsRegistered(s, resumed, 0);
    DispatchKeepsStopped(resumed, k, j);
  }

  lemma RecoverKeepsStopped(s: System, k: JobId, j: JobId)
    requires Registered(s) && Stopped(s, j) && !RevivesFailed(s, Recover(k), j)
    ensures Stopped(AfterRecover(s, k), j)
  {
    var taken := s.(listed := s.listed - {k});
    MovingOnKeepsRegistered(s, taken, 0);
    if k in s.listed { DispatchKeepsStopped(taken, k, j); }
  }

  lemma StartKeepsStopped(s: System, t: TaskId, j: JobId)
    requires Registered(s) && Stopped(s, j)
    ensures Stopped(AfterStart(s, t), j)
  {
  }

  /** A recovery dispatch undoes a cancel exactly if it revives the failed row. */
  lemma RecoverKeepsStoppedIff(s: System, j: JobId)
    requires Registered(s) && Stopped(s, j)
    ensures Stopped(Step(s, Recover(j)), j) <==> !RevivesFailed(s, Recover(j), j)
  {
    var after := Step(s, Recover(j));
    if RevivesFailed(s, Recover(j), j) {
      assert InPhase(after, s.nextTask, Scheduled);
    } else {
      RecoverKeepsStopped(s, j, j);
    }
  }

  ghost predicate LeavesAlone(s: System, events: seq<Event>, j: JobId)
    decreases |events|
  {
    events != [] ==>
      && LeavesAlone(s, events[..|events| - 1], j)
      && !Requeues(events[|events| - 1], j)
      && !RevivesFailed(Run(s, events[..|events| - 1]), events[|events| - 1], j)
  }

  lemma {:induction false} RunKeepsStopped(s: System, events: seq<Event>, j: JobId)
    requires Registered(s) && Stopped(s, j) && LeavesAlone(s, events, j)
    ensures Stopped(Run(s, events), j)
    decreases |events|
  {
    if events != [] {
      RunKeepsStopped(s, events[..|events| - 1], j);
      RunKeepsRegistered(s, events[..|events| - 1]);
      StepKeepsStopped(Run(s, events[..|events| - 1]), events[|events| - 1], j);
    }
  }

  /** A job cancelled before it succeeds stays out of SUCCEEDED in every run that does not requeue it
      and whose recovery dispatches find no FAILED row with attempts left. */
  lemma CancelledNeverSucceeds(s: System, j: JobId, events: seq<Event>)
    requires Registered(s) && j in s.jobs && s.jobs[j].status != Succeeded
    requires LeavesAlone(Step(s, Cancel(j)), events, j)
    ensures var after := Run(Step(s, Cancel(j)), events);
            j in after.jobs && (after.jobs[j].status == Cancelled || after.jobs[j].status == Failed)
  {
    CancelStops(s, j);
    StepKeepsRegistered(s, Cancel(j));
    RunKeepsStopped(Step(s, Cancel(j)), events, j);
  }

  // ---------------------------------------------------------------- when a cancel is final

  ghost predicate InBody(s: System, j: JobId) {
    exists t :: InPhase(s, t, Body) && s.tasks[t].job == j
  }

  /** A cancel now could still be undone without a requeue: recovery holds the job on its list, a runner
      is in its body over it, and it has attempts left. */
  ghost predicate Undoable(s: System, j: JobId) {
    j in s.listed && InBody(s, j) && j in s.jobs && s.jobs[j].attempts < s.jobs[j].maxAttempts
  }

  /** Stopped for good. */
  ghost predicate StoppedForGood(s: System, j: JobId) {
    && Stopped(s, j)
    && (j !in s.listed
        || s.jobs[j].attempts >= s.jobs[j].maxAttempts
        || (s.jobs[j].status == Cancelled && !InBody(s, j)))
  }

  lemma StepKeepsStoppedForGood(s: System, e: Event, j: JobId)
    requires Registered(s) && StoppedForGood(s, j) && !Requeues(e, j)
    ensures StoppedForGood(Step(s, e), j)
  {
    StepKeepsStopped(s, e, j);
    StoppedRow(s, e, j);
    StoppedStaysUnlisted(s, e, j);
    if s.jobs[j].status == Cancelled && !InBody(s, j) {
      StaysOutOfBody(s, e, j);
    }
  }

  /** Without a requeue a stopped row keeps its count and its limit. */
  lemma StoppedRow(s: System, e: Event, j: JobId)
    requires Stopped(s, j) && !Requeues(e, j)
    ensures j in Step(s, e).jobs
    ensures Step(s, e).jobs[j].attempts == s.jobs[j].attempts && Step(s, e).jobs[j].maxAttempts == s.jobs[j].maxAttempts
  {
    StepWritesRow(s, e, j, Step(s, e));
  }

  /** A stopped row is neither PENDING nor RUNNING, so recovery never lists it. */
  lemma StoppedStaysUnlisted(s: System, e: Event, j: JobId)
    requires Stopped(s, j)
    ensures j in Step(s, e).listed ==> j in s.listed
  {
  }

  lemma StaysOutOfBody(s: System, e: Event, j: JobId)
    requires j in s.jobs && s.jobs[j].status == Cancelled && !InBody(s, j) && !Requeues(e, j)
    ensures j in Step(s, e).jobs && Step(s, e).jobs[j].status == Cancelled && !InBody(Step(s, e), j)
  {
    forall t | InPhase(Step(s, e), t, Body) ensures Step(s, e).tasks[t].job != j {
      EntersBody(s, e, t);
    }
    if e.Progress? || e.Succeed? || e.Fail? {
      assert InPhase(s, e.task, Body) ==> s.tasks[e.task].job != j;
    }
  }

  /** A task in its body was there before, or has just started on a job that can run. */
  lemma EntersBody(s: System, e: Event, t: TaskId)
    requires InPhase(Step(s, e), t, Body)
    ensures t in s.tasks && Step(s, e).tasks[t].job == s.tasks[t].job
    ensures InPhase(s, t, Body) || (e == Start(t) && s.tasks[t].job in s.jobs && CanRun(s.jobs[s.tasks[t].job]))
  {
  }

  lemma {:induction false} RunKeepsStoppedForGood(s: System, events: seq<Event>, j: JobId)
    requires Registered(s) && StoppedForGood(s, j) && NoRequeues(events, j)
    ensures StoppedForGood(Run(s, events), j)
    decreases |events|
  {
    if events != [] {
      var front, last := events[..|events| - 1], events[|events| - 1];
      assert !Requeues(events[|events| - 1], j);
      RunKeepsStoppedForGood(s, front, j);
      RunKeepsRegistered(s, front);
      StepKeepsStoppedForGood(Run(s, front), last, j);
    }
  }

  ghost predicate Succeeds(s: System, events: seq<Event>, j: JobId) {
    j in Run(s, events).jobs && Run(s, events).jobs[j].status == Succeeded
  }

  /** A cancel holds against every run without a requeue if and only if it could not be undone: unless
      recovery holds a stale listing of the job, nothing but a resume or a retry leads from CANCELLED
      to SUCCEEDED. */
  lemma CancelIsFinalIff(s: System, j: JobId)
    requires Registered(s) && j in s.jobs && s.jobs[j].status != Succeeded
    ensures (forall events :: NoRequeues(events, j) ==> !Succeeds(Step(s, Cancel(j)), events, j)) <==> !Undoable(s, j)
  {
    var cancelled := Step(s, Cancel(j));
    assert forall t :: InPhase(cancelled, t, Body) == InPhase(s, t, Body);
    StepKeepsRegistered(s, Cancel(j));
    if Undoable(s, j) {
      var t :| InPhase(s, t, Body) && s.tasks[t].job == j;
      UndoneCancel(cancelled, j, t);
      assert NoRequeues(Undoing(cancelled, j, t), j);
    } else {
      CancelStops(s, j);
      assert StoppedForGood(cancelled, j);
      forall events | NoRequeues(events, j) ensures !Succeeds(cancelled, events, j) {
        RunKeepsStoppedForGood(cancelled, events, j);
      }
    }
  }

  /** The running task fails and ends; recovery, which listed the job earlier, dispatches it again. */
  function Undoing(s: System, j: JobId, t: TaskId): seq<Event> {
    [Fail(t, ""), End(t), Recover(j), Start(s.nextTask), Succeed(s.nextTask)]
  }

  lemma UndoneCancel(s: System, j: JobId, t: TaskId)
    requires Registered(s) && j in s.jobs && j in s.listed && s.jobs[j].status == Cancelled
    requires InPhase(s, t, Body) && s.tasks[t].job == j && s.jobs[j].attempts < s.jobs[j].maxAttempts
    ensures Succeeds(s, Undoing(s, j, t), j)
  {
    var s2 := Step(Step(s, Fail(t, "")), End(t));
    FailedTaskIsGone(s, j, t);
    assert s2.nextTask == s.nextTask;
    RevivedTaskRuns(s2, j);
    RunOfFive(s, Fail(t, ""), End(t), Recover(j), Start(s.nextTask), Succeed(s.nextTask));
  }

  lemma FailedTaskIsGone(s: System, j: JobId, t: TaskId)
    requires Registered(s) && j in s.jobs && j in s.listed && InPhase(s, t, Body) && s.tasks[t].job == j
    requires s.jobs[j].attempts < s.jobs[j].maxAttempts
    ensures var s2 := Step(Step(s, Fail(t, "")), End(t));
            Registered(s2) && RevivesFailed(s2, Recover(j), j) && s2.nextTask == s.nextTask
  {
    StepKeepsRegistered(s, Fail(t, ""));
    StepKeepsRegistered(Step(s, Fail(t, "")), End(t));
    assert Live(s, t);
  }

  /** A revived row runs without counting an attempt. */
  lemma RevivedTaskRuns(s: System, j: JobId)
    requires Registered(s) && RevivesFailed(s, Recover(j), j)
    ensures var t := s.nextTask;
            var after := Step(Step(Step(s, Recover(j)), Start(t)), Succeed(t));
            j in after.jobs && after.jobs[j].status == Succeeded && after.jobs[j].attempts == s.jobs[j].attempts
  {
    var t := s.nextTask;
    var s1 := Step(s, Recover(j));
    assert s1.jobs == s.jobs && InPhase(s1, t, Scheduled) && s1.tasks[t].job == j;
    var s2 := Step(s1, Start(t));
    assert s2.jobs[j] == s.jobs[j] && InPhase(s2, t, Body) && s2.tasks[t].job == j;
  }

  lemma RunOfFive(s: System, a: Event, b: Event, c: Event, d: Event, e: Event)
    ensures Run(s, [a, b, c, d, e]) == Step(Step(Step(Step(Step(s, a), b), c), d), e)
  {
    assert [a, b, c, d, e][..4] == [a, b, c, d] && [a, b, c, d][..3] == [a, b, c];
    assert [a, b, c][..2] == [a, b] && [a, b][..1] == [a] && [a][..0] == [];
    assert Run(s, [a]) == Step(s, a);
    assert Run(s, [a, b]) == Step(Step(s, a), b);
    assert Run(s, [a, b, c]) == Step(Step(Step(s, a), b), c);
  }

  /** From an empty system: a job is enqueued, the process restarts, recovery lists the job, and before
      it is dispatched the user enqueues it again and its runner starts. */
  const EXPOSED_RUN := [Enqueue(0, 3, false), Restart, ListStale({0}), Enqueue(0, 3, true), Start(1)]

  /** There a cancel can be undone: the run goes on to SUCCEEDED without a requeue. */
  lemma CancelIsUndone()
    ensures var s := Run(INITIAL, EXPOSED_RUN);
            && Undoable(s, 0) && Step(s, Cancel(0)).jobs[0].status == Cancelled
            && exists events :: NoRequeues(events, 0) && Succeeds(Step(s, Cancel(0)), events, 0)
  {
    var s := Run(INITIAL, EXPOSED_RUN);
    ExposedRun();
    assert InPhase(s, 1, Body) && s.tasks[1].job == 0;
    RunKeepsRegistered(INITIAL, EXPOSED_RUN);
    CancelIsFinalIff(s, 0);
  }

  const ENQUEUED_AGAIN :=
    System(map[0 := NewJob(3)], map[0 := 0], map[1 := Task(0, Scheduled)], map[0 := 1], {1}, {}, {0}, 2)

  lemma ListedAndEnqueued()
    ensures Step(Step(Step(Step(INITIAL, Enqueue(0, 3, false)), Restart), ListStale({0})), Enqueue(0, 3, true)) == ENQUEUED_AGAIN
  {
    var s1 := Step(INITIAL, Enqueue(0, 3, false));
    assert s1.jobs == map[0 := NewJob(3)] && s1.reclaims == map[0 := 0] && s1.nextTask == 1;
    var s3 := Step(Step(s1, Restart), ListStale({0}));
    assert s3 == System(map[0 := NewJob(3)], map[0 := 0], map[], map[], {}, {}, {0}, 1);
  }

  lemma ExposedRun()
    ensures var s := Run(INITIAL, EXPOSED_RUN);
            s == Step(ENQUEUED_AGAIN, Start(1)) && s.listed == {0} && InPhase(s, 1, Body) && s.tasks[1].job == 0
            && s.jobs == map[0 := Started(NewJob(3))]
  {
    RunOfFive(INITIAL, Enqueue(0, 3, false), Restart, ListStale({0}), Enqueue(0, 3, true), Start(1));
    ListedAndEnqueued();
  }

  /** A runner that fails after the cancel does move the row from CANCELLED to FAILED. */
  lemma FailingRunLeavesCancelled(s: System, t: TaskId, error: string)
    requires RowsOk(s) && InPhase(s, t, Body)
    ensures var j := s.tasks[t].job; var after := Step(Step(s, Cancel(j)), Fail(t, error));
            Step(s, Cancel(j)).jobs[j].status == Cancelled && after.jobs[j].status == Failed
  {
  }
}
