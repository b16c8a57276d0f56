/**
  Background jobs of one group, as a step machine.  A step is what happens between two points
  where job_mutex is free: a job coroutine up to its next yield or driver callback, a command
  from outside, or one turn of a loop of the main thread that releases the mutex in callbacks
  or while it waits.

  Commands and completions run in the main thread, one at a time; while the main thread waits
  for cancelled members, only their completions run.  Job coroutines and drained sections go on
  all the time.
*/
module JobGroup {
  import opened Options

  type JobId = nat

  // ----- the tables -----

  datatype Status = Created | Running | Paused | Ready | Standby | Waiting | Pending | Aborting | Concluded | Null

  /** JobSTT */
  predicate Allowed(from: Status, to: Status) {
    match from
    case Created => to == Running || to == Aborting || to == Null
    case Running => to == Paused || to == Ready || to == Waiting || to == Aborting
    case Paused => to == Running
    case Ready => to == Standby || to == Waiting || to == Aborting
    case Standby => to == Ready
    case Waiting => to == Pending || to == Aborting
    case Pending => to == Aborting || to == Concluded
    case Aborting => to == Aborting || to == Concluded
    case Concluded => to == Null
    case Null => false
  }

  datatype Verb = CancelVerb | PauseVerb | ResumeVerb | FinalizeVerb | DismissVerb

  /** JobVerbTable */
  predicate Accepts(status: Status, verb: Verb) {
    match verb
    case CancelVerb => status != Aborting && status != Concluded && status != Null
    case PauseVerb => !Completed(status)
    case ResumeVerb => !Completed(status)
    case FinalizeVerb => status == Pending
    case DismissVerb => status == Concluded
  }

  predicate Completed(status: Status) {
    status.Waiting? || status.Pending? || status.Aborting? || status.Concluded? || status.Null?
  }

  // ----- state -----

  /** Where the coroutine of a job is: before its first pause point, in the pause callback of the
      driver, paused, in the resume callback, in the driver's run function, sleeping or
      yielding there, or done. */
  datatype Coroutine = NotStarted | AtEntry | Pausing | PauseYield(saved: Status) | Resuming | InRun | RunYield | Done

  /** The side of a job that its coroutine and pauses are about. */
  datatype Run = Run(
    co: Coroutine,
    busy: bool,
    paused: bool,
    deferred: bool,           // deferred to the main loop
    exitPending: bool,        // job_exit is scheduled
    pauseCount: int,
    userPaused: bool,
    drains: nat,              // open drained sections
    erring: nat,              // error stops that have counted their pause but not marked it yet
    surplus: nat)             // pauses that nothing will ever resume

  datatype Job = Job(
    run: Run,
    status: Status,
    failed: bool,             // ret is not 0
    cancelled: bool,
    force: bool,
    autoFinalize: bool,
    autoDismiss: bool,
    inGroup: bool,
    refcnt: int,
    commits: nat,
    aborts: nat,
    cleans: nat)

  /** What the main thread is in the middle of.  A completion holds a reference to the job
      that it is about, and so does each loop over the group. */
  datatype Main =
    | Idle
    | Preparing(fromExit: bool, origin: JobId, todo: set<JobId>)
    | Finalizing(fromExit: bool, origin: JobId, todo: set<JobId>)
    | Cancelling(fromExit: bool, origin: JobId, todo: set<JobId>)
    | AbortLoop(fromExit: bool, origin: JobId)

  /** Why the group aborts: the member first failed or was cancelled, or the group was finalized
      for first and the prepare callback of failing failed. */
  datatype Cause = NoCause | BadMember(first: JobId) | BadPrepare(first: JobId, failing: JobId)

  /** pending records that the group was moved to status pending as a whole, and success that
      all its prepare callbacks succeeded. */
  datatype State = State(jobs: map<JobId, Job>, aborting: bool, cause: Cause, pending: bool, success: bool, main: Main)

  /** A step leads on, trips over an assertion, or is not possible now. */
  datatype Outcome = Next(s: State) | Tripped | Disabled

  function Members(s: State): set<JobId> {
    set j | j in s.jobs && s.jobs[j].inGroup
  }

  predicate Started(r: Run) {
    !r.co.NotStarted?
  }

  function With(s: State, j: JobId, job: Job): State {
    s.(jobs := s.jobs[j := job])
  }

  /** A step on one job whose result may be that an assertion failed. */
  function Lift(s: State, j: JobId, job: Option<Job>): Outcome {
    if job == None then Tripped else Next(With(s, j, job.value))
  }

  // ----- one job -----

  /** job_state_transition_locked */
  function Transition(j: Job, to: Status): Option<Job> {
    if Allowed(j.status, to) then Some(j.(status := to)) else None
  }

  /** job_enter_cond_locked */
  function Enter(r: Run): Run {
    if Started(r) && !r.deferred && !r.busy then r.(busy := true) else r
  }

  /** job_pause_locked */
  function Pause(r: Run): Run {
    var r' := r.(pauseCount := r.pauseCount + 1);
    if r'.paused then r' else Enter(r')
  }

  /** job_resume_locked; whether the job is kicked also depends on its timer. */
  function Resume(r: Run, kick: bool): Option<Run> {
    if r.pauseCount <= 0 then None
    else
      var r' := r.(pauseCount := r.pauseCount - 1);
      Some(if r'.pauseCount == 0 && kick then Enter(r') else r')
  }

  /** job_update_rc_locked */
  function UpdateRc(j: Job): Option<Job> {
    if j.failed || j.force then Transition(j.(failed := true), Aborting) else Some(j)
  }

  /** job_do_dismiss_locked */
  function Dismiss(j: Job): Option<Job> {
    if !Allowed(j.status, Null) then None
    else
      Some(j.(run := j.run.(busy := false, paused := false, deferred := true),
              inGroup := false, status := Null, refcnt := j.refcnt - 1))
  }

  /** job_conclude_locked */
  function Conclude(j: Job): Option<Job> {
    var j' := Transition(j, Concluded);
    if j'.Some? && (j.autoDismiss || !Started(j.run)) then Dismiss(j'.value) else j'
  }

  /** job_finalize_single_locked */
  function FinalizeSingle(j: Job): Option<Job> {
    if !Completed(j.status) || UpdateRc(j) == None then None
    else
      var j' := UpdateRc(j).value;
      Conclude(j'.(
        commits := if j'.failed then j'.commits else j'.commits + 1,
        aborts := if j'.failed then j'.aborts + 1 else j'.aborts,
        cleans := j'.cleans + 1,
        inGroup := false))
  }

  /** job_cancel_async_locked; force is what the driver's cancel callback made of the request. */
  function CancelAsync(j: Job, force: bool): Option<Job> {
    if j.run.userPaused && j.run.pauseCount <= 0 then None
    else
      var r := if j.run.userPaused then j.run.(userPaused := false, pauseCount := j.run.pauseCount - 1) else j.run;
      Some(if force || !r.deferred then j.(run := r, cancelled := true, force := j.force || force) else j.(run := r))
  }

  // ----- the coroutine -----

  /** The start of job_pause_point_locked. */
  function PausePoint(r: Run, force: bool): Run {
    if r.pauseCount > 0 && !force then r.(co := Pausing) else r.(co := InRun)
  }

  /** The middle of it, behind the driver's pause callback. */
  function AfterPausing(j: Job): Option<Job> {
    if j.run.pauseCount > 0 && !j.force then
      Transition(j.(run := j.run.(paused := true, busy := false, co := PauseYield(j.status))), if j.status == Ready
          then Standby else Paused)
    else Some(j.(run := j.run.(co := Resuming)))
  }

  datatype RunChoice = Yield | CallPausePoint | BecomeReady | Finish(failed: bool)

  /** What the driver's run function does next. */
  function RunStep(j: Job, choice: RunChoice): Option<Job> {
    match choice
    case Yield =>
      if !j.run.busy then None
      else if j.force then Some(j)
      else if j.run.pauseCount <= 0 then Some(j.(run := j.run.(busy := false, co := RunYield)))
      else Some(j.(run := PausePoint(j.run, j.force)))
    case CallPausePoint => Some(j.(run := PausePoint(j.run, j.force)))
    case BecomeReady => Transition(j, Ready)
    case Finish(failed) =>
      Some(j.(failed := failed, run := j.run.(deferred := true, busy := true, exitPending := true, co := Done)))
  }

  /** A driver becomes ready at most once, and finishes when none of its requests is left. */
  predicate DriverMay(j: Job, choice: RunChoice) {
    && (choice.BecomeReady? ==> j.status == Running)
    && (choice.Finish? ==> j.run.erring == 0)
  }

  /** An error stop wakes the job, and so releases the mutex before it has marked the pause. */
  predicate OpensWindow(r: Run) {
    !r.userPaused && !r.paused && Started(r) && !r.deferred && !r.busy
  }

  /** block_job_error_action with action stop, up to where it may release the mutex. */
  function ErrorStop(r: Run): Run {
    if r.userPaused then r
    else if OpensWindow(r) then Pause(r).(erring := r.erring + 1)
    else Pause(r).(userPaused := true)
  }

  /** Its end, if it had to release the mutex. */
  function ErrorStopEnd(r: Run): Run
    requires r.erring > 0
  {
    r.(erring := r.erring - 1, userPaused := true, surplus := if r.userPaused then r.surplus + 1 else r.surplus)
  }

  datatype JobOutcome = JobNext(j: Job) | JobTripped | JobDisabled

  function OrJobTripped(j: Option<Job>): JobOutcome {
    if j == None then JobTripped else JobNext(j.value)
  }

  /** The next step of the coroutine. */
  function CoroutineAction(j: Job, choice: RunChoice): JobOutcome {
    match j.run.co
    case NotStarted => JobDisabled
    case AtEntry => JobNext(j.(run := PausePoint(j.run, j.force)))
    case Pausing => OrJobTripped(AfterPausing(j))
    case PauseYield(saved) => if !j.run.busy then JobDisabled else OrJobTripped(Unpause(j, saved))
    case Resuming => JobNext(j.(run := j.run.(co := InRun)))
    case InRun => if DriverMay(j, choice) then OrJobTripped(RunStep(j, choice)) else JobDisabled
    case RunYield => if !j.run.busy then JobDisabled else JobNext(j.(run := PausePoint(j.run, j.force)))
    case Done => JobDisabled
  }

  /** The end of a pause. */
  function Unpause(j: Job, saved: Status): Option<Job> {
    Transition(j.(run := j.run.(paused := false, co := Resuming)), saved)
  }

  function CoroutineStep(s: State, j: JobId, choice: RunChoice): Outcome
    requires j in s.jobs
  {
    var job := CoroutineAction(s.jobs[j], choice);
    if job.JobDisabled? then Disabled else if job.JobTripped? then Tripped else Next(With(s, j, job.j))
  }

  // ----- the group -----

  function AddRef(s: State, j: JobId, n: int): State {
    if j in s.jobs then With(s, j, s.jobs[j].(refcnt := s.jobs[j].refcnt + n)) else s
  }

  /** job_completed_txn_abort_locked, up to its first loop. */
  function StartAbort(s: State, fromExit: bool, origin: JobId, cause: Cause): State {
    AddRef(s, origin, 1).(aborting := true, cause := cause, main := Cancelling(fromExit, origin, Members(s) - {origin}))
  }

  /** job_do_finalize_locked, up to its first loop. */
  function StartFinalize(s: State, fromExit: bool, origin: JobId): State {
    AddRef(s, origin, 1).(main := Preparing(fromExit, origin, Members(s)))
  }

  function AllPending(s: State): State {
    s.(jobs := map j | j in s.jobs :: if s.jobs[j].inGroup then s.jobs[j].(status := Pending)
        else s.jobs[j], pending := true)
  }

  predicate NoneFailed(s: State) {
    forall k :: k in Members(s) && Completed(s.jobs[k].status) ==> !s.jobs[k].failed
  }

  predicate AllCompleted(s: State) {
    forall k :: k in Members(s) ==> Completed(s.jobs[k].status)
  }

  predicate MayBePending(s: State) {
    forall k :: k in Members(s) ==> Allowed(s.jobs[k].status, Pending)
  }

  predicate AllAutomatic(s: State) {
    forall k :: k in Members(s) ==> s.jobs[k].autoFinalize
  }

  /** job_completed_txn_success_locked */
  function CompletedSuccess(s: State, fromExit: bool, j: JobId): Outcome
    requires j in s.jobs
  {
    var job := Transition(s.jobs[j], Waiting);
    if job == None then Tripped else WaitOrFinalize(With(s, j, job.value), fromExit, j)
  }

  /** Its rest, when the job waits: the last member to complete takes the group along.  The loop
      over the members asserts that those it comes by have not failed; here all have to. */
  function WaitOrFinalize(s: State, fromExit: bool, j: JobId): Outcome {
    if !NoneFailed(s) then Tripped
    else if !AllCompleted(s) then Next(Leave(s, fromExit, j))
    else if !MayBePending(s) then Tripped
    else if !AllAutomatic(s) then Next(Leave(AllPending(s), fromExit, j))
    else Next(StartFinalize(AllPending(s), fromExit, j))
  }

  /** The end of job_exit drops the reference that its start took. */
  function Leave(s: State, fromExit: bool, j: JobId): State {
    if fromExit then AddRef(s, j, -1) else s
  }

  /** job_completed_locked */
  function CompleteJob(s: State, fromExit: bool, j: JobId): Outcome
    requires j in s.jobs
  {
    if !s.jobs[j].inGroup || Completed(s.jobs[j].status) then Tripped
    else
      var job := UpdateRc(s.jobs[j]);
      if job == None then Tripped
      else
        var s' := With(s, j, job.value);
        if !job.value.failed then CompletedSuccess(s', fromExit, j)
        else if s'.aborting then Next(Leave(s', fromExit, j))
        else Next(StartAbort(s', fromExit, j, BadMember(j)))
  }

  /** job_exit */
  function ExitStep(s: State, j: JobId): Outcome
    requires j in s.jobs
  {
    if !s.jobs[j].run.exitPending || !(s.main.Idle? || s.main.AbortLoop?) then Disabled
    else CompleteJob(AddRef(With(s, j, s.jobs[j].(run := s.jobs[j].run.(exitPending := false, busy := false))), j, 1),
        true, j)
  }

  /** A driver that has a cancel callback has to accept a forced cancel, and any cancel of a job
      that was not started. */
  predicate CancelAccepted(j: Job, force: bool, result: bool) {
    force || !Started(j.run) ==> result
  }

  /** job_user_cancel_locked */
  function CancelStep(s: State, j: JobId, force: bool, result: bool): Outcome
    requires j in s.jobs
  {
    if !s.main.Idle? || !Accepts(s.jobs[j].status, CancelVerb) || !CancelAccepted(s.jobs[j], force, result)
        then Disabled
    else if CancelAsync(s.jobs[j], result) == None then Tripped
    else
      var job := CancelAsync(s.jobs[j], result).value;
      if !Started(job.run) then CompleteJob(With(s, j, job), false, j)
      else if job.run.deferred then
        if !job.force then Next(With(s, j, job))
        else if s.aborting then Next(With(s, j, job))
        else Next(StartAbort(With(s, j, job), false, j, BadMember(j)))
      else Next(With(s, j, job.(run := Enter(job.run))))
  }

  /** The loops of the main thread, one turn at a time. */
  function MainStep(s: State, k: JobId, prepareOk: bool): Outcome {
    match s.main
    case Idle => Disabled
    case Preparing(fromExit, origin, todo) =>
      if todo == {} then Next(s.(success := true, main := Finalizing(fromExit, origin, Members(s))))
      else if k !in todo || k !in s.jobs then Disabled
      else PrepareOne(s, k, prepareOk)
    case Finalizing(fromExit, origin, todo) =>
      if todo == {} then Next(Released(s, fromExit, origin).(main := Idle))
      else if k !in todo || k !in s.jobs then Disabled
      else if FinalizeSingle(s.jobs[k]) == None then Tripped
      else Next(With(s, k, FinalizeSingle(s.jobs[k]).value).(main := Finalizing(fromExit, origin, todo - {k})))
    case Cancelling(fromExit, origin, todo) =>
      if todo == {} then Next(s.(main := AbortLoop(fromExit, origin)))
      else if k !in todo || k !in s.jobs then Disabled
      else if CancelAsync(s.jobs[k], true) == None then Tripped
      else Next(With(s, k, CancelAsync(s.jobs[k], true).value).(main := Cancelling(fromExit, origin, todo - {k})))
    case AbortLoop(fromExit, origin) =>
      if Members(s) == {} then Next(Released(s, fromExit, origin).(main := Idle))
      else if k !in Members(s) then Disabled
      else if !Completed(s.jobs[k].status) then (if s.jobs[k].cancelled then Disabled else Tripped)
      else Lift(s, k, FinalizeSingle(s.jobs[k]))
  }

  /** job_prepare_locked; a failure ends the loop and aborts the group. */
  function PrepareOne(s: State, k: JobId, ok: bool): Outcome
    requires s.main.Preparing? && k in s.jobs
  {
    var job := if s.jobs[k].failed then Some(s.jobs[k]) else UpdateRc(s.jobs[k].(failed := !ok));
    if job == None then Tripped
    else
      var s' := With(s, k, job.value);
      if job.value.failed then Next(StartAbort(AddRef(s', s.main.origin, -1), s.main.fromExit, s.main.origin,
          BadPrepare(s.main.origin, k)))
      else Next(s'.(main := Preparing(s.main.fromExit, s.main.origin, s.main.todo - {k})))
  }

  // ----- all steps -----

  datatype Action =
    | StartJob(j: JobId)
    | RunJob(j: JobId, choice: RunChoice)
    | Kick(j: JobId)
    | UserPause(j: JobId)
    | UserResume(j: JobId, kick: bool)
    | DrainBegin(j: JobId)
    | DrainEnd(j: JobId, kick: bool)
    | ErrorStopJob(j: JobId)
    | ErrorStopJobEnd(j: JobId)
    | UserCancel(j: JobId, force: bool, result: bool)
    | UserFinalize(j: JobId)
    | UserDismiss(j: JobId)
    | EarlyFail(j: JobId)
    | Exit(j: JobId)
    | MainTurn(j: JobId, prepareOk: bool)

  /** job_start */
  function StartStep(s: State, j: JobId): Outcome
    requires j in s.jobs
  {
    var job := s.jobs[j];
    if !s.main.Idle? || job.status != Created then Disabled
    else if Started(job.run) || !job.run.paused then Tripped
    else
      var r := job.run.(co := AtEntry, pauseCount := job.run.pauseCount - 1, busy := true, paused := false);
      Lift(s, j, Transition(job.(run := r), Running))
  }

  /** The actions that only concern the coroutine side of a job. */
  predicate OnRun(a: Action) {
    a.Kick? || a.UserPause? || a.UserResume? || a.DrainBegin? || a.DrainEnd? || a.ErrorStopJob? || a.ErrorStopJobEnd?
  }

  datatype RunOutcome = RunNext(r: Run) | RunTripped | RunDisabled

  function OrTripped(r: Option<Run>): RunOutcome {
    if r == None then RunTripped else RunNext(r.value)
  }

  function RunAction(r: Run, status: Status, idle: bool, a: Action): RunOutcome
    requires OnRun(a)
  {
    match a
    case Kick(_) => RunNext(Enter(r))
    case UserPause(_) => if !idle || !Accepts(status, PauseVerb) || r.userPaused then RunDisabled
        else RunNext(Pause(r.(userPaused := true)))
    case UserResume(_, kick) =>
      if !idle || !r.userPaused || r.pauseCount <= 0 || !Accepts(status, ResumeVerb) then RunDisabled
      else OrTripped(Resume(r.(userPaused := false), kick))
    case DrainBegin(_) => RunNext(Pause(r.(drains := r.drains + 1)))
    case DrainEnd(_, kick) => if r.drains == 0 then RunDisabled else OrTripped(Resume(r.(drains := r.drains - 1), kick))
    case ErrorStopJob(_) => if !Started(r) || r.co == Done then RunDisabled else RunNext(ErrorStop(r))
    case ErrorStopJobEnd(_) => if r.erring == 0 then RunDisabled else RunNext(ErrorStopEnd(r))
  }

  function RunActionStep(s: State, a: Action): Outcome
    requires OnRun(a) && a.j in s.jobs
  {
    var job := s.jobs[a.j];
    var r := RunAction(job.run, job.status, s.main.Idle?, a);
    if r.RunDisabled? then Disabled else if r.RunTripped? then Tripped else Next(With(s, a.j, job.(run := r.r)))
  }

  function CommandStep(s: State, a: Action): Outcome
    requires (a.UserFinalize? || a.UserDismiss? || a.EarlyFail?) && a.j in s.jobs
  {
    var job := s.jobs[a.j];
    if !s.main.Idle? then Disabled
    else if a.UserFinalize? then (if !Accepts(job.status, FinalizeVerb) then Disabled
        else Next(StartFinalize(s, false, a.j)))
    else if a.UserDismiss? then (if !Accepts(job.status, DismissVerb) then Disabled else Lift(s, a.j, Dismiss(job)))
    else if job.status != Created then Disabled
    else Lift(s, a.j, Dismiss(job))
  }

  function Step(s: State, a: Action): Outcome {
    if a.MainTurn? then MainStep(s, a.j, a.prepareOk)
    else if a.j !in s.jobs || s.jobs[a.j].refcnt <= 0 then Disabled
    else if OnRun(a) then RunActionStep(s, a)
    else if a.RunJob? then CoroutineStep(s, a.j, a.choice)
    else if a.StartJob? then StartStep(s, a.j)
    else if a.UserCancel? then CancelStep(s, a.j, a.force, a.result)
    else if a.Exit? then ExitStep(s, a.j)
    else CommandStep(s, a)
  }

  ghost predicate Reaches(s: State, run: seq<Action>, s': State)
    decreases run
  {
    if run == [] then s' == s
    else Step(s, run[0]).Next? && Reaches(Step(s, run[0]).s, run[1..], s')
  }

  /** job_create for every member of a new group. */
  predicate FreshJob(j: Job) {
    && j.run == Run(NotStarted, false, true, false, false, 1, false, 0, 0, 0)
    && j.status == Created && !j.failed && !j.cancelled && !j.force && j.inGroup && j.refcnt == 1
    && j.commits == 0 && j.aborts == 0 && j.cleans == 0
  }

  ghost predicate Init(s: State) {
    (forall j :: j in s.jobs ==> FreshJob(s.jobs[j])) && !s.aborting && s.cause == NoCause && !s.pending &&
        !s.success && s.main == Idle
  }

  // ----- the invariant -----

  function One(b: bool): int {
    if b then 1 else 0
  }

  /** Every pause is accounted for. */
  predicate PauseInv(r: Run) {
    r.pauseCount == One(!Started(r)) + One(r.userPaused) + r.drains + r.erring + r.surplus
  }

  predicate Active(status: Status) {
    status.Running? || status.Ready?
  }

  predicate CoroutineInv(r: Run, status: Status, failed: bool) {
    match r.co
    case NotStarted =>
      && (status.Created? || status.Aborting? || status.Concluded? || status.Null?)
      && !r.exitPending && (status == Created ==> r.paused && !r.deferred && !failed)
    case PauseYield(saved) =>
      && Active(saved) && status == (if saved == Ready then Standby else Paused)
      && r.paused && !r.deferred && !r.exitPending && !failed
    case Done => r.deferred && (if r.exitPending then Active(status) else Completed(status)) && r.erring == 0
    case _ => Active(status) && !r.paused && !r.deferred && !r.exitPending && !failed && (r.co != RunYield ==> r.busy)
  }

  /** What has become of a job that left the group: it was finalized once, or dismissed before
      it was started. */
  predicate LeftInv(j: Job) {
    || (j.cleans == 1 && j.commits + j.aborts == 1 && (j.aborts == 1 <==> j.failed))
    || (j.cleans == 0 && j.commits == 0 && j.aborts == 0 && !Started(j.run))
  }

  predicate StatusInv(j: Job, aborting: bool, pending: bool) {
    && (j.inGroup <==> !j.status.Concluded? && !j.status.Null?)
    && (j.force ==> j.cancelled) && (j.status == Aborting ==> j.failed)
    && (j.inGroup ==> j.commits == 0 && j.aborts == 0 && j.cleans == 0)
    && (!j.inGroup ==> LeftInv(j))
    && (j.inGroup && !aborting ==>
        (j.status == Pending <==> pending) && (Completed(j.status) ==> !j.failed && !j.force && j.status != Aborting))
  }

  /** What the main thread counts on while it works on the group. */
  predicate MainInv(main: Main, aborting: bool, k: JobId, j: Job) {
    match main
    case Idle => j.inGroup ==> !aborting
    case Preparing(_, origin, todo) => (j.inGroup ==> !aborting && j.status == Pending) && (k in todo ==> j.inGroup) &&
        (k == origin ==> j.inGroup)
    case Finalizing(_, origin, todo) => (j.inGroup ==> !aborting && j.status == Pending) && (k in todo <==> j.inGroup)
    case Cancelling(_, origin, todo) =>
      && aborting && (k in todo ==> j.inGroup && k != origin) && (k == origin ==> j.inGroup)
      && (j.inGroup ==> if k == origin then Completed(j.status) || j.force else k in todo || j.force)
    case AbortLoop(_, origin) => aborting && (j.inGroup ==> if k == origin then Completed(j.status) || j.force
        else j.force)
  }

  function MainRefs(main: Main, k: JobId): int {
    if main.Idle? || main.origin != k then 0 else 1 + One(main.fromExit)
  }

  /** A prepare callback failed when the group was finalized for k. */
  predicate FinalizedFor(cause: Cause, k: JobId) {
    cause.BadPrepare? && cause.first == k
  }

  /** How members come out, depending on why the group aborts, if it does. */
  predicate OutcomeInv(s: State, k: JobId, j: Job) {
    var cause := s.cause;
    && (s.success && j.inGroup ==> s.main.Finalizing?)
    && (!s.aborting && !s.success ==> j.cleans == 0)
    && (j.cleans == 1 ==> if cause == NoCause then !j.failed else FinalizedFor(cause, k) || j.failed)
    && (cause == BadMember(k) && j.inGroup ==> j.failed || j.force)
    && (FinalizedFor(cause, k) && j.inGroup ==> !j.force && (j.status.Pending? || j.status.Aborting?))
    && (FinalizedFor(cause, k) && (j.inGroup || j.cleans == 1) ==> (j.failed <==> cause.failing == k))
  }

  predicate JobInv(s: State, k: JobId, j: Job) {
    && PauseInv(j.run) && CoroutineInv(j.run, j.status, j.failed) && GroupInv(s, k, j)
  }

  predicate GroupInv(s: State, k: JobId, j: Job) {
    && StatusInv(j, s.aborting, s.pending) && MainInv(s.main, s.aborting, k, j) && OutcomeInv(s, k, j)
    && j.refcnt == One(j.status != Null) + MainRefs(s.main, k)
  }

  ghost predicate Inv(s: State) {
    && (forall k :: k in s.jobs ==> JobInv(s, k, s.jobs[k]))
    && (!s.main.Idle? ==> s.main.origin in s.jobs)
    && (s.main.Preparing? || s.main.Finalizing? || s.main.Cancelling? ==> s.main.todo <= s.jobs.Keys)
    && (s.main.Cancelling? || s.main.AbortLoop? ==>
        s.cause == BadMember(s.main.origin) || FinalizedFor(s.cause, s.main.origin))
    && (s.aborting <==> s.cause != NoCause) && !(s.aborting && s.success) && (s.main.Finalizing? ==> s.success)
    && (s.main.Idle? || s.main.Preparing? || s.main.Finalizing? || s.aborting)
  }

  lemma OneJobKeepsInv(s: State, j: JobId, job: Job)
    requires Inv(s) && j in s.jobs && JobInv(s, j, job)
    ensures Inv(With(s, j, job))
  {
    var s' := With(s, j, job);
    forall k | k in s'.jobs
      ensures JobInv(s', k, s'.jobs[k])
    {
      assert JobInv(s, k, if k == j then job else s.jobs[k]);
    }
  }

  /** The coroutine and pause side of a job is of no concern to its group. */
  lemma RunMoves(s: State, k: JobId, j: Job, r: Run)
    requires JobInv(s, k, j) && PauseInv(r) && CoroutineInv(r, j.status, j.failed) && Started(r) == Started(j.run)
    ensures JobInv(s, k, j.(run := r))
  {
  }

  lemma RunKeepsInv(s: State, j: JobId, r: Run)
    requires Inv(s) && j in s.jobs && PauseInv(r) && CoroutineInv(r, s.jobs[j].status, s.jobs[j].failed) &&
             Started(r) == Started(s.jobs[j].run)
    ensures Inv(With(s, j, s.jobs[j].(run := r)))
  {
    RunMoves(s, j, s.jobs[j], r);
    OneJobKeepsInv(s, j, s.jobs[j].(run := r));
  }

  /** A change of status among those of a job that runs. */
  lemma StatusMoves(s: State, k: JobId, j: Job, status: Status, r: Run)
    requires JobInv(s, k, j) && !Completed(j.status) && !Completed(status) && j.status != Created && status != Created
    requires PauseInv(r) && CoroutineInv(r, status, j.failed) && Started(r) && Started(j.run)
    ensures JobInv(s, k, j.(run := r, status := status))
  {
  }

  lemma AfterPausingOk(s: State, k: JobId, j: Job)
    requires JobInv(s, k, j) && j.run.co.Pausing?
    ensures AfterPausing(j).Some? && JobInv(s, k, AfterPausing(j).value)
  {
    var j' := AfterPausing(j).value;
    StatusMoves(s, k, j, j'.status, j'.run);
  }

  lemma UnpauseOk(s: State, k: JobId, j: Job)
    requires JobInv(s, k, j) && j.run.co.PauseYield? && j.run.busy
    ensures Unpause(j, j.run.co.saved).Some? && JobInv(s, k, Unpause(j, j.run.co.saved).value)
  {
    StatusMoves(s, k, j, j.run.co.saved, j.run.(paused := false, co := Resuming));
  }

  lemma FinishOk(s: State, k: JobId, j: Job, failed: bool)
    requires JobInv(s, k, j) && j.run.co.InRun? && j.run.erring == 0
    ensures JobInv(s, k, RunStep(j, Finish(failed)).value)
  {
  }

  lemma RunStepOk(s: State, k: JobId, j: Job, choice: RunChoice)
    requires JobInv(s, k, j) && j.run.co.InRun? && DriverMay(j, choice)
    ensures RunStep(j, choice).Some? && JobInv(s, k, RunStep(j, choice).value)
  {
    if choice.Finish? {
      FinishOk(s, k, j, choice.failed);
    } else if choice.BecomeReady? {
      StatusMoves(s, k, j, Ready, j.run);
    } else {
      RunMoves(s, k, j, RunStep(j, choice).value.run);
    }
  }

  lemma CoroutineActionOk(s: State, k: JobId, j: Job, choice: RunChoice)
    requires JobInv(s, k, j)
    ensures !CoroutineAction(j, choice).JobTripped?
    ensures CoroutineAction(j, choice).JobNext? ==> JobInv(s, k, CoroutineAction(j, choice).j)
  {
    if j.run.co.Pausing? {
      AfterPausingOk(s, k, j);
    } else if j.run.co.PauseYield? {
      if j.run.busy {
        UnpauseOk(s, k, j);
      }
    } else if j.run.co.InRun? {
      if DriverMay(j, choice) {
        RunStepOk(s, k, j, choice);
      }
    } else if j.run.co.Resuming? {
      RunMoves(s, k, j, j.run.(co := InRun));
    } else if j.run.co.AtEntry? || (j.run.co.RunYield? && j.run.busy) {
      PausePointOk(s, k, j);
    }
  }

  lemma PausePointOk(s: State, k: JobId, j: Job)
    requires JobInv(s, k, j) && (j.run.co.AtEntry? || j.run.co.InRun? || j.run.co.RunYield?) && j.run.busy
    ensures JobInv(s, k, j.(run := PausePoint(j.run, j.force)))
  {
    RunMoves(s, k, j, PausePoint(j.run, j.force));
  }

  lemma CoroutineKeepsInv(s: State, j: JobId, choice: RunChoice)
    requires Inv(s) && j in s.jobs
    ensures CoroutineStep(s, j, choice) != Tripped
    ensures CoroutineStep(s, j, choice).Next? ==> Inv(CoroutineStep(s, j, choice).s)
  {
    CoroutineActionOk(s, j, s.jobs[j], choice);
    if CoroutineStep(s, j, choice).Next? {
      OneJobKeepsInv(s, j, CoroutineAction(s.jobs[j], choice).j);
    }
  }

  /** The job after job_start. */
  function StartedJob(j: Job): Job {
    j.(status := Running,
       run := j.run.(co := AtEntry, pauseCount := j.run.pauseCount - 1, busy := true, paused := false))
  }

  lemma StartedOk(s: State, k: JobId, j: Job)
    requires JobInv(s, k, j) && j.status == Created && s.main.Idle?
    ensures !Started(j.run) && j.run.paused && JobInv(s, k, StartedJob(j))
  {
  }

  lemma StartOk(s: State, j: JobId)
    requires Inv(s) && j in s.jobs
    ensures StartStep(s, j) != Tripped && (StartStep(s, j).Next? ==> Inv(StartStep(s, j).s))
  {
    if StartStep(s, j) != Disabled {
      StartedOk(s, j, s.jobs[j]);
      OneJobKeepsInv(s, j, StartedJob(s.jobs[j]));
    }
  }

  lemma EnterRun(r: Run, status: Status, failed: bool)
    requires CoroutineInv(r, status, failed)
    ensures CoroutineInv(Enter(r), status, failed) && Enter(r) == r.(busy := Enter(r).busy)
  {
  }

  /** Pausing is in order when the new pause is accounted for. */
  lemma PauseRun(r: Run, status: Status, failed: bool)
    requires CoroutineInv(r, status, failed) && PauseInv(r.(pauseCount := r.pauseCount + 1))
    ensures CoroutineInv(Pause(r), status, failed) && PauseInv(Pause(r)) && Pause(r).co == r.co
  {
    var r' := r.(pauseCount := r.pauseCount + 1);
    EnterRun(r', status, failed);
  }

  /** So is resuming when the old one no longer is. */
  lemma ResumeRun(r: Run, status: Status, failed: bool, kick: bool)
    requires CoroutineInv(r, status, failed) && r.pauseCount > 0 && PauseInv(r.(pauseCount := r.pauseCount - 1))
    ensures Resume(r, kick).Some? && CoroutineInv(Resume(r, kick).value, status, failed) &&
            PauseInv(Resume(r, kick).value) && Resume(r, kick).value.co == r.co
  {
    var r' := r.(pauseCount := r.pauseCount - 1);
    EnterRun(r', status, failed);
  }

  predicate RunOutcomeOk(r: Run, status: Status, failed: bool, r': RunOutcome) {
    !r'.RunTripped? && (r'.RunNext? ==>
        PauseInv(r'.r) && CoroutineInv(r'.r, status, failed) && Started(r'.r) == Started(r))
  }

  lemma PauseActionOk(r: Run, status: Status, failed: bool, idle: bool, a: Action)
    requires (a.UserPause? || a.DrainBegin?) && PauseInv(r) && CoroutineInv(r, status, failed)
    ensures RunOutcomeOk(r, status, failed, RunAction(r, status, idle, a))
  {
    if a.DrainBegin? {
      PauseRun(r.(drains := r.drains + 1), status, failed);
    } else if !r.userPaused {
      PauseRun(r.(userPaused := true), status, failed);
    }
  }

  lemma ResumeActionOk(r: Run, status: Status, failed: bool, idle: bool, a: Action)
    requires (a.UserResume? || a.DrainEnd?) && PauseInv(r) && CoroutineInv(r, status, failed)
    ensures RunOutcomeOk(r, status, failed, RunAction(r, status, idle, a))
  {
    if a.DrainEnd? {
      if r.drains > 0 {
        ResumeRun(r.(drains := r.drains - 1), status, failed, a.kick);
      }
    } else if r.userPaused {
      ResumeRun(r.(userPaused := false), status, failed, a.kick);
    }
  }

  /** Pauses, resumptions, kicks and error stops. */
  lemma RunActionOk(r: Run, status: Status, failed: bool, idle: bool, a: Action)
    requires OnRun(a) && PauseInv(r) && CoroutineInv(r, status, failed)
    ensures RunOutcomeOk(r, status, failed, RunAction(r, status, idle, a))
  {
    if a.UserPause? || a.DrainBegin? {
      PauseActionOk(r, status, failed, idle, a);
    } else if a.UserResume? || a.DrainEnd? {
      ResumeActionOk(r, status, failed, idle, a);
    } else if a.Kick? {
      EnterRun(r, status, failed);
    } else if a.ErrorStopJob? && Started(r) && r.co != Done {
      ErrorStopRun(r, status, failed);
    }
  }

  lemma ErrorStopRun(r: Run, status: Status, failed: bool)
    requires CoroutineInv(r, status, failed) && PauseInv(r) && Started(r) && r.co != Done
    ensures CoroutineInv(ErrorStop(r), status, failed) && PauseInv(ErrorStop(r)) && ErrorStop(r).co == r.co
  {
  }

  lemma RunActionKeepsInv(s: State, a: Action)
    requires Inv(s) && OnRun(a) && a.j in s.jobs
    ensures RunActionStep(s, a) != Tripped && (RunActionStep(s, a).Next? ==> Inv(RunActionStep(s, a).s))
  {
    var job := s.jobs[a.j];
    assert JobInv(s, a.j, job);
    RunActionOk(job.run, job.status, job.failed, s.main.Idle?, a);
    if RunActionStep(s, a).Next? {
      RunKeepsInv(s, a.j, RunAction(job.run, job.status, s.main.Idle?, a).r);
    }
  }

  // ----- completion -----

  lemma DismissKeepsInv(s: State, j: JobId)
    requires Inv(s) && j in s.jobs && s.main.Idle? && (s.jobs[j].status == Created || s.jobs[j].status == Concluded)
    ensures Dismiss(s.jobs[j]).Some? && Inv(With(s, j, Dismiss(s.jobs[j]).value))
  {
    assert JobInv(s, j, s.jobs[j]);
    OneJobKeepsInv(s, j, Dismiss(s.jobs[j]).value);
  }

  /** A job whose run function has returned, or that was cancelled before it was started, and
      that is not completed yet. */
  predicate ReadyToComplete(j: Job) {
    j.inGroup && !Completed(j.status) && (if Started(j.run) then j.run.co == Done && !j.run.exitPending else j.force)
  }

  /** j as job_completed_locked finds it, apart from the reference of job_exit. */
  predicate Completing(s: State, k: JobId, j: Job) {
    && ReadyToComplete(j) && PauseInv(j.run) && GroupInv(s, k, j)
    && (Started(j.run) ==> Active(j.status) && j.run.deferred && j.run.erring == 0)
    && (!Started(j.run) ==> j.status == Created && !j.run.exitPending && !j.failed)
  }

  /** A job fails while its group aborts already. */
  lemma FailsInAbort(s: State, k: JobId, j: Job)
    requires Completing(s, k, j) && s.aborting && (j.failed || j.force)
    ensures UpdateRc(j).Some? && UpdateRc(j).value.failed && JobInv(s, k, UpdateRc(j).value)
  {
  }

  /** While a group aborts, whoever completes has been cancelled by force. */
  lemma CompletesFailed(s: State, k: JobId, j: Job)
    requires Completing(s, k, j) && s.aborting && s.main.AbortLoop?
    ensures j.failed || j.force
  {
  }

  /** A job waits for the others. */
  lemma WaitsOk(s: State, k: JobId, j: Job)
    requires Completing(s, k, j) && !s.aborting && !j.failed && !j.force
    ensures Transition(j, Waiting).Some? && JobInv(s, k, Transition(j, Waiting).value)
  {
  }

  // ----- aborting -----

  /** A job that does not change when the abort of its group starts. */
  lemma OtherInAbort(s: State, s': State, k: JobId, j: Job)
    requires JobInv(s, k, j) && !s.aborting && !s.success && (s.main.Idle? || s.main.Preparing?)
    requires s'.aborting && s'.success == s.success && s'.main.Cancelling? && s'.main.origin != k &&
             (k in s'.main.todo <==> j.inGroup)
    requires MainRefs(s.main, k) == 0 && s'.cause != NoCause && s'.cause.first == s'.main.origin
    ensures JobInv(s', k, j)
  {
  }

  /** The job that fails, or is cancelled by force, and so starts the abort. */
  lemma OriginInAbort(s: State, s': State, k: JobId, j: Job, j': Job)
    requires Completing(s, k, j) && (j.failed || j.force) && !s.aborting && !s.success && s.main.Idle?
    requires s'.aborting && s'.success == s.success && s'.main.Cancelling? && s'.main.origin == k &&
             k !in s'.main.todo && s'.cause == BadMember(k)
    requires UpdateRc(j).Some? ==> j' == UpdateRc(j).value.(refcnt := j.refcnt + MainRefs(s'.main, k))
    ensures UpdateRc(j).Some? && UpdateRc(j).value.failed && JobInv(s', k, j')
  {
  }

  /** The same for a job whose run function has returned: its status is left for later. */
  lemma CancelledInAbort(s: State, s': State, k: JobId, j: Job, result: bool, j': Job)
    requires JobInv(s, k, j) && j.inGroup && !s.aborting && !s.success && s.main.Idle? && j.run.deferred &&
             Started(j.run)
    requires s'.aborting && s'.success == s.success && s'.main.Cancelling? && s'.main.origin == k &&
             k !in s'.main.todo && s'.cause == BadMember(k)
    requires CancelAsync(j, result).Some? && CancelAsync(j, result).value.force
    requires j' == CancelAsync(j, result).value.(refcnt := j.refcnt + MainRefs(s'.main, k))
    ensures JobInv(s', k, j')
  {
  }

  lemma CancelDefined(j: Job, force: bool)
    requires PauseInv(j.run)
    ensures CancelAsync(j, force).Some? && PauseInv(CancelAsync(j, force).value.run)
    ensures CancelAsync(j, force).value.run.co == j.run.co && CancelAsync(j, force).value.run.deferred == j.run.deferred
  {
  }

  /** A job that is cancelled while it runs. */
  lemma CancelledWhileRunning(s: State, k: JobId, j: Job, result: bool)
    requires JobInv(s, k, j) && s.main.Idle? && Accepts(j.status, CancelVerb) && !j.run.deferred && Started(j.run)
    ensures CancelAsync(j, result).Some?
    ensures var j' := CancelAsync(j, result).value; JobInv(s, k, j'.(run := Enter(j'.run)))
  {
    CancelDefined(j, result);
  }

  lemma CancelIgnored(s: State, k: JobId, j: Job)
    requires JobInv(s, k, j) && j.run.deferred
    ensures CancelAsync(j, false).Some? && JobInv(s, k, CancelAsync(j, false).value)
  {
    CancelDefined(j, false);
    RunMoves(s, k, j, CancelAsync(j, false).value.run);
  }

  /** Everything that starts an abort. */
  lemma StartAbortForm(s: State, j: JobId, fromExit: bool, job: Job, s': State)
    requires j in s.jobs && s.jobs[j].inGroup && job.inGroup &&
             s' == StartAbort(With(s, j, job), fromExit, j, BadMember(j))
    ensures s' == s.(jobs := s'.jobs, aborting := true, cause := BadMember(j),
                     main := Cancelling(fromExit, j, Members(s) - {j}))
    ensures s'.jobs.Keys == s.jobs.Keys && Members(s') == Members(s) && forall k :: k in s.jobs && k != j ==>
            s'.jobs[k] == s.jobs[k]
  {
    assert Members(With(s, j, job)) == Members(s);
  }

  lemma StartAbortKeepsInv(s: State, j: JobId, fromExit: bool, job: Job, s': State)
    requires Inv(s) && s.main.Idle? && j in Members(s)
    requires s' == StartAbort(With(s, j, job), fromExit, j, BadMember(j)) && job.inGroup && JobInv(s', j, s'.jobs[j])
    ensures Inv(s')
  {
    assert JobInv(s, j, s.jobs[j]);
    StartAbortForm(s, j, fromExit, job, s');
    forall k | k in s'.jobs
      ensures JobInv(s', k, s'.jobs[k])
    {
      if k != j {
        OtherInAbort(s, s', k, s.jobs[k]);
      }
    }
  }

  /** What cancelling comes to for a job that was not started. */
  lemma CancelOfUnstarted(s: State, j: JobId, job': Job)
    requires j in s.jobs && s.main.Idle? && Accepts(s.jobs[j].status, CancelVerb) && !Started(s.jobs[j].run) &&
             !s.aborting
    requires CancelAsync(s.jobs[j], true) == Some(job') && job'.inGroup && job'.status == Created && job'.force
    ensures CancelStep(s, j, true, true) == Next(StartAbort(With(s, j, UpdateRc(job').value), false, j, BadMember(j)))
  {
    WithTwice(s, j, job', UpdateRc(job').value);
  }

  lemma CancelUnstartedKeepsInv(s: State, j: JobId)
    requires Inv(s) && j in s.jobs && s.main.Idle? && Accepts(s.jobs[j].status, CancelVerb) && !Started(s.jobs[j].run)
    ensures CancelStep(s, j, true, true).Next? && Inv(CancelStep(s, j, true, true).s)
  {
    assert JobInv(s, j, s.jobs[j]);
    CancelDefined(s.jobs[j], true);
    var job' := CancelAsync(s.jobs[j], true).value;
    CancelOfUnstarted(s, j, job');
    UnstartedAborts(s, j, job', CancelStep(s, j, true, true).s);
  }

  lemma UnstartedAborts(s: State, j: JobId, job': Job, s': State)
    requires Inv(s) && j in s.jobs && s.main.Idle? && s.jobs[j].status == Created &&
             CancelAsync(s.jobs[j], true) == Some(job')
    requires UpdateRc(job').Some? && s' == StartAbort(With(s, j, UpdateRc(job').value), false, j, BadMember(j))
    ensures Inv(s')
  {
    assert JobInv(s, j, s.jobs[j]);
    assert Completing(s, j, job');
    OriginInAbort(s, s', j, job', s'.jobs[j]);
    StartAbortKeepsInv(s, j, false, UpdateRc(job').value, s');
  }

  lemma ForcedAbortKeepsInv(s: State, j: JobId, result: bool, job': Job)
    requires Inv(s) && j in s.jobs && s.main.Idle? && Accepts(s.jobs[j].status, CancelVerb) &&
             Started(s.jobs[j].run) && s.jobs[j].run.deferred
    requires CancelAsync(s.jobs[j], result) == Some(job') && job'.force
    ensures !s.aborting && Inv(StartAbort(With(s, j, job'), false, j, BadMember(j)))
  {
    assert JobInv(s, j, s.jobs[j]);
    var s' := StartAbort(With(s, j, job'), false, j, BadMember(j));
    CancelledInAbort(s, s', j, s.jobs[j], result, s'.jobs[j]);
    StartAbortKeepsInv(s, j, false, job', s');
  }

  lemma CancelDeferredKeepsInv(s: State, j: JobId, force: bool, result: bool)
    requires Inv(s) && j in s.jobs && s.main.Idle? && Accepts(s.jobs[j].status, CancelVerb) &&
             Started(s.jobs[j].run) && s.jobs[j].run.deferred
    requires CancelAccepted(s.jobs[j], force, result)
    ensures CancelStep(s, j, force, result).Next? && Inv(CancelStep(s, j, force, result).s)
  {
    var job := s.jobs[j];
    assert JobInv(s, j, job);
    CancelDefined(job, result);
    var job' := CancelAsync(job, result).value;
    if job'.force {
      ForcedAbortKeepsInv(s, j, result, job');
    } else {
      CancelIgnored(s, j, job);
      OneJobKeepsInv(s, j, job');
    }
  }

  lemma CancelKeepsInv(s: State, j: JobId, force: bool, result: bool)
    requires Inv(s) && j in s.jobs
    ensures CancelStep(s, j, force, result) != Tripped
    ensures CancelStep(s, j, force, result).Next? ==> Inv(CancelStep(s, j, force, result).s)
  {
    var job := s.jobs[j];
    if s.main.Idle? && Accepts(job.status, CancelVerb) && CancelAccepted(job, force, result) {
      if !Started(job.run) {
        CancelUnstartedKeepsInv(s, j);
      } else if job.run.deferred {
        CancelDeferredKeepsInv(s, j, force, result);
      } else {
        CancelledWhileRunning(s, j, job, result);
        var job' := CancelAsync(job, result).value;
        OneJobKeepsInv(s, j, job'.(run := Enter(job'.run)));
      }
    }
  }

  // ----- job_exit -----

  lemma WithTwice(s: State, j: JobId, a: Job, b: Job)
    ensures With(With(s, j, a), j, b) == With(s, j, b)
  {
    assert s.jobs[j := a][j := b] == s.jobs[j := b];
  }

  /** The job as job_exit hands it to job_completed_locked, without the reference it takes. */
  function Exiting(j: Job): Job {
    j.(run := j.run.(exitPending := false, busy := false))
  }

  lemma ExitingIsCompleting(s: State, k: JobId, j: Job)
    requires JobInv(s, k, j) && j.run.exitPending
    ensures Completing(s, k, Exiting(j)) && Started(j.run) && j.inGroup
  {
  }

  /** What job_exit comes to when the job has failed or was cancelled by force. */
  lemma ExitOfFailed(s: State, j: JobId, job: Job)
    requires j in s.jobs && s.jobs[j].run.exitPending && (s.main.Idle? || s.main.AbortLoop?) &&
             job == Exiting(s.jobs[j])
    requires job.inGroup && !Completed(job.status) && Allowed(job.status, Aborting) && (job.failed || job.force)
    ensures var job' := UpdateRc(job).value;
            ExitStep(s, j) == Next(if s.aborting then With(s, j, job')
                else StartAbort(With(s, j, job'.(refcnt := job.refcnt + 1)), true, j, BadMember(j)))
  {
    var job' := UpdateRc(job).value;
    var withRef := job.(refcnt := job.refcnt + 1);
    WithTwice(s, j, job, withRef);
    WithTwice(s, j, withRef, job'.(refcnt := job.refcnt + 1));
    WithTwice(s, j, job'.(refcnt := job.refcnt + 1), job');
  }

  lemma ExitInAbortKeepsInv(s: State, j: JobId)
    requires Inv(s) && j in s.jobs && s.jobs[j].run.exitPending && s.main.AbortLoop?
    ensures ExitStep(s, j).Next? && Inv(ExitStep(s, j).s)
  {
    var job := Exiting(s.jobs[j]);
    ExitingIsCompleting(s, j, s.jobs[j]);
    CompletesFailed(s, j, job);
    FailsInAbort(s, j, job);
    OneJobKeepsInv(s, j, UpdateRc(job).value);
    ExitOfFailed(s, j, job);
  }

  lemma ExitFailsKeepsInv(s: State, j: JobId)
    requires Inv(s) && j in s.jobs && s.jobs[j].run.exitPending && s.main.Idle? && (s.jobs[j].failed || s.jobs[j].force)
    ensures ExitStep(s, j).Next? && Inv(ExitStep(s, j).s)
  {
    var job := Exiting(s.jobs[j]);
    ExitingIsCompleting(s, j, s.jobs[j]);
    assert JobInv(s, j, s.jobs[j]);
    var job' := UpdateRc(job).value.(refcnt := job.refcnt + 1);
    var s' := StartAbort(With(s, j, job'), true, j, BadMember(j));
    OriginInAbort(s, s', j, job, s'.jobs[j]);
    StartAbortKeepsInv(s, j, true, job', s');
    ExitOfFailed(s, j, job);
  }

  // ----- success -----

  lemma PendingTogether(s: State, s': State, k: JobId, j: Job)
    requires JobInv(s, k, j) && s.main.Idle? && !s.aborting && !s.pending && !s.success && j.inGroup &&
             Completed(j.status)
    requires s'.aborting == s.aborting && s'.pending && s'.success == s.success && s'.cause == s.cause && s'.main.Idle?
    ensures !j.failed && Allowed(j.status, Pending) && JobInv(s', k, j.(status := Pending))
  {
  }

  lemma OutsideWhilePending(s: State, s': State, k: JobId, j: Job)
    requires JobInv(s, k, j) && s.main.Idle? && !j.inGroup
    requires s'.aborting == s.aborting && s'.success == s.success && s'.cause == s.cause && s'.main.Idle?
    ensures JobInv(s', k, j)
  {
  }

  lemma AllPendingKeepsInv(s: State)
    requires Inv(s) && s.main.Idle? && !s.aborting && !s.pending && !s.success && AllCompleted(s)
    ensures Inv(AllPending(s)) && Members(AllPending(s)) == Members(s)
    ensures MayBePending(s) && NoneFailed(s)
  {
    var s' := AllPending(s);
    forall k | k in s'.jobs
      ensures JobInv(s', k, s'.jobs[k])
      ensures s.jobs[k].inGroup ==> !s.jobs[k].failed && Allowed(s.jobs[k].status, Pending)
    {
      if s.jobs[k].inGroup {
        PendingTogether(s, s', k, s.jobs[k]);
      } else {
        OutsideWhilePending(s, s', k, s.jobs[k]);
      }
    }
  }

  lemma FinalizeStarts(s: State, s': State, k: JobId, j: Job)
    requires JobInv(s, k, j) && s.main.Idle? && !s.aborting && s.pending && !s.success
    requires s' == s.(jobs := s'.jobs, main := s'.main) && s'.main.Preparing? && (k in s'.main.todo <==> j.inGroup) &&
             (k == s'.main.origin ==> j.inGroup)
    ensures JobInv(s', k, j.(refcnt := j.refcnt + MainRefs(s'.main, k)))
  {
  }

  lemma StartFinalizeJob(s: State, fromExit: bool, j: JobId, s0: State, k: JobId)
    requires j in s.jobs && k in s.jobs && s0 == (if fromExit then AddRef(s, j, 1) else s)
    ensures Members(s0) == Members(s)
    ensures StartFinalize(s0, fromExit, j) ==
              s.(jobs := StartFinalize(s0, fromExit, j).jobs, main := Preparing(fromExit, j, Members(s)))
    ensures StartFinalize(s0, fromExit, j).jobs.Keys == s.jobs.Keys
    ensures StartFinalize(s0, fromExit, j).jobs[k] ==
              s.jobs[k].(refcnt := s.jobs[k].refcnt + MainRefs(Preparing(fromExit, j, Members(s)), k))
  {
  }

  lemma StartFinalizeKeepsInv(s: State, fromExit: bool, j: JobId, s0: State)
    requires Inv(s) && s.main.Idle? && j in Members(s) && s.pending
    requires j in s0.jobs && s0 == (if fromExit then AddRef(s, j, 1) else s)
    ensures Inv(StartFinalize(s0, fromExit, j))
  {
    var s' := StartFinalize(s0, fromExit, j);
    StartFinalizeJob(s, fromExit, j, s0, j);
    assert JobInv(s, j, s.jobs[j]);
    forall k | k in s'.jobs
      ensures JobInv(s', k, s'.jobs[k])
    {
      StartFinalizeJob(s, fromExit, j, s0, k);
      FinalizeStarts(s, s', k, s.jobs[k]);
    }
  }

  lemma AddRefTwice(s: State, j: JobId, m: int, n: int)
    requires j in s.jobs && m + n == 0
    ensures AddRef(AddRef(s, j, m), j, n) == s
  {
    assert AddRef(AddRef(s, j, m), j, n).jobs == s.jobs;
  }

  /** The reference of job_exit makes no difference to the group. */
  lemma PendingWithRef(s: State, j: JobId)
    requires j in s.jobs
    ensures Members(AddRef(s, j, 1)) == Members(s) && AllPending(AddRef(s, j, 1)) == AddRef(AllPending(s), j, 1)
    ensures Members(AllPending(s)) == Members(s)
  {
    assert AllPending(AddRef(s, j, 1)).jobs == AddRef(AllPending(s), j, 1).jobs;
  }

  /** job_completed_txn_success_locked, when s is the state with the job waiting, without the
      reference of job_exit. */
  function Succeed(s: State, j: JobId): Outcome
    requires j in s.jobs
  {
    if !NoneFailed(s) then Tripped
    else if !AllCompleted(s) then Next(s)
    else if !MayBePending(s) then Tripped
    else if !AllAutomatic(s) then Next(AllPending(s))
    else Next(StartFinalize(AddRef(AllPending(s), j, 1), true, j))
  }

  lemma SameGroupWithRef(s: State, j: JobId)
    requires j in s.jobs
    ensures NoneFailed(AddRef(s, j, 1)) == NoneFailed(s) && AllCompleted(AddRef(s, j, 1)) == AllCompleted(s) &&
            MayBePending(AddRef(s, j, 1)) == MayBePending(s)
    ensures AllAutomatic(AddRef(s, j, 1)) == AllAutomatic(s)
  {
    var s1 := AddRef(s, j, 1);
    assert Members(s1) == Members(s);
    assert forall k :: k in s.jobs ==> s1.jobs[k] == s.jobs[k].(refcnt := s1.jobs[k].refcnt);
  }

  lemma SuccessWithRef(s: State, j: JobId)
    requires j in s.jobs
    ensures WaitOrFinalize(AddRef(s, j, 1), true, j) == Succeed(s, j)
  {
    SameGroupWithRef(s, j);
    PendingWithRef(s, j);
    AddRefTwice(s, j, 1, -1);
    AddRefTwice(AllPending(s), j, 1, -1);
  }

  lemma SuccessForm(s: State, j: JobId, job: Job)
    requires j in s.jobs && s.jobs[j] == job.(refcnt := job.refcnt + 1) && Allowed(job.status, Waiting)
    ensures CompletedSuccess(s, true, j) == Succeed(With(s, j, job.(status := Waiting)), j)
  {
    var waiting := job.(status := Waiting);
    WithTwice(s, j, waiting, waiting.(refcnt := job.refcnt + 1));
    SuccessWithRef(With(s, j, waiting), j);
  }

  lemma ExitOfSuccessful(s: State, j: JobId, job: Job)
    requires j in s.jobs && s.jobs[j].run.exitPending && s.main.Idle? && job == Exiting(s.jobs[j])
    requires job.inGroup && !Completed(job.status) && Allowed(job.status, Waiting) && !job.failed && !job.force
    ensures ExitStep(s, j) == Succeed(With(s, j, job.(status := Waiting)), j)
  {
    var withRef := job.(refcnt := job.refcnt + 1);
    WithTwice(s, j, job, withRef);
    WithTwice(s, j, withRef, withRef);
    WithTwice(s, j, withRef, job.(status := Waiting));
    SuccessForm(With(s, j, withRef), j, job);
  }

  lemma CompletedHaveNotFailed(s: State)
    requires Inv(s) && !s.aborting
    ensures NoneFailed(s)
  {
    forall k | k in Members(s) && Completed(s.jobs[k].status)
      ensures !s.jobs[k].failed
    {
      assert JobInv(s, k, s.jobs[k]);
    }
  }

  lemma SucceedKeepsInv(s: State, j: JobId)
    requires Inv(s) && j in Members(s) && s.main.Idle? && s.jobs[j].status == Waiting
    ensures Succeed(s, j).Next? && Inv(Succeed(s, j).s)
  {
    assert JobInv(s, j, s.jobs[j]);
    CompletedHaveNotFailed(s);
    if AllCompleted(s) {
      AllPendingKeepsInv(s);
      StartFinalizeKeepsInv(AllPending(s), true, j, AddRef(AllPending(s), j, 1));
    }
  }

  lemma ExitSucceedsKeepsInv(s: State, j: JobId)
    requires Inv(s) && j in s.jobs && s.jobs[j].run.exitPending && s.main.Idle? && !s.jobs[j].failed && !s.jobs[j].force
    ensures ExitStep(s, j).Next? && Inv(ExitStep(s, j).s)
  {
    var job := Exiting(s.jobs[j]);
    ExitingIsCompleting(s, j, s.jobs[j]);
    assert JobInv(s, j, s.jobs[j]);
    WaitsOk(s, j, job);
    OneJobKeepsInv(s, j, job.(status := Waiting));
    SucceedKeepsInv(With(s, j, job.(status := Waiting)), j);
    ExitOfSuccessful(s, j, job);
  }

  lemma ExitKeepsInv(s: State, j: JobId)
    requires Inv(s) && j in s.jobs
    ensures ExitStep(s, j) != Tripped && (ExitStep(s, j).Next? ==> Inv(ExitStep(s, j).s))
  {
    if ExitStep(s, j) != Disabled {
      if s.main.AbortLoop? {
        ExitInAbortKeepsInv(s, j);
      } else if s.jobs[j].failed || s.jobs[j].force {
        ExitFailsKeepsInv(s, j);
      } else {
        ExitSucceedsKeepsInv(s, j);
      }
    }
  }

  // ----- the loops of the main thread -----

  /** A job that a turn of a loop leaves alone. */
  lemma OtherInLoop(s: State, s': State, k: JobId, j: Job)
    requires JobInv(s, k, j) && !s.main.Idle? && !s'.main.Idle?
    requires s'.aborting == s.aborting && s'.cause == s.cause && s'.pending == s.pending
    requires s'.main.origin == s.main.origin && s'.main.fromExit == s.main.fromExit
    requires (s.main.Preparing? && s'.main.Preparing? && s'.success == s.success &&
             (k in s'.main.todo <==> k in s.main.todo))
          || (s.main.Finalizing? && s'.main.Finalizing? && s'.success == s.success &&
              (k in s'.main.todo <==> k in s.main.todo))
          || (s.main.Cancelling? && s'.main.Cancelling? && s'.success == s.success &&
              (k in s'.main.todo <==> k in s.main.todo))
          || (s.main.Preparing? && s'.main.Finalizing? && !s.aborting && s'.success &&
              (k in s'.main.todo <==> j.inGroup))
          || (s.main.Cancelling? && s'.main.AbortLoop? && s'.success == s.success && s.main.todo == {})
    ensures JobInv(s', k, j)
  {
  }

  /** A loop over the group comes to its end. */
  lemma OtherAtEnd(s: State, s': State, k: JobId, j: Job, j': Job)
    requires JobInv(s, k, j) && (s.main.Finalizing? || s.main.AbortLoop?) && s'.main.Idle? && !j.inGroup
    requires s'.aborting == s.aborting && s'.cause == s.cause && s'.pending == s.pending && s'.success == s.success
    requires j' == j.(refcnt := j.refcnt - MainRefs(s.main, k))
    ensures JobInv(s', k, j')
  {
  }

  /** The references of the loop, and of job_exit if that is where it came from, are dropped. */
  function Released(s: State, fromExit: bool, j: JobId): State {
    Leave(AddRef(s, j, -1), fromExit, j)
  }

  lemma ReleasedJob(s: State, fromExit: bool, j: JobId, k: JobId)
    requires j in s.jobs && k in s.jobs
    ensures k in Released(s, fromExit, j).jobs &&
            Released(s, fromExit, j).jobs[k] == (if k == j
                then s.jobs[k].(refcnt := s.jobs[k].refcnt - 1 - One(fromExit)) else s.jobs[k])
    ensures Released(s, fromExit, j) == s.(jobs := Released(s, fromExit, j).jobs)
  {
  }

  lemma NoneLeft(s: State, k: JobId)
    requires k in s.jobs && JobInv(s, k, s.jobs[k]) &&
             ((s.main.Finalizing? && s.main.todo == {}) || (s.main.AbortLoop? && Members(s) == {}))
    ensures !s.jobs[k].inGroup
  {
    assert k in Members(s) <==> s.jobs[k].inGroup;
  }

  lemma EmptyLoopEnds(s: State, s': State)
    requires Inv(s) && (s.main.Finalizing? || s.main.AbortLoop?) && forall k :: k in s.jobs ==> !s.jobs[k].inGroup
    requires s' == Released(s, s.main.fromExit, s.main.origin).(main := Idle)
    ensures Inv(s')
  {
    ReleasedJob(s, s.main.fromExit, s.main.origin, s.main.origin);
    forall k | k in s'.jobs
      ensures JobInv(s', k, s'.jobs[k])
    {
      ReleasedJob(s, s.main.fromExit, s.main.origin, k);
      OtherAtEnd(s, s', k, s.jobs[k], s'.jobs[k]);
    }
  }

  lemma LoopEndKeepsInv(s: State)
    requires Inv(s) && ((s.main.Finalizing? && s.main.todo == {}) || (s.main.AbortLoop? && Members(s) == {}))
    ensures Inv(Released(s, s.main.fromExit, s.main.origin).(main := Idle))
  {
    forall k | k in s.jobs
      ensures !s.jobs[k].inGroup
    {
      NoneLeft(s, k);
    }
    EmptyLoopEnds(s, Released(s, s.main.fromExit, s.main.origin).(main := Idle));
  }

  lemma PreparedKeepsInv(s: State)
    requires Inv(s) && s.main.Preparing?
    ensures Inv(s.(success := true, main := Finalizing(s.main.fromExit, s.main.origin, Members(s))))
  {
    var s' := s.(success := true, main := Finalizing(s.main.fromExit, s.main.origin, Members(s)));
    assert JobInv(s, s.main.origin, s.jobs[s.main.origin]);
    forall k | k in s'.jobs
      ensures JobInv(s', k, s'.jobs[k])
    {
      OtherInLoop(s, s', k, s.jobs[k]);
    }
  }

  lemma CancelledAllKeepsInv(s: State)
    requires Inv(s) && s.main.Cancelling? && s.main.todo == {}
    ensures Inv(s.(main := AbortLoop(s.main.fromExit, s.main.origin)))
  {
    var s' := s.(main := AbortLoop(s.main.fromExit, s.main.origin));
    forall k | k in s'.jobs
      ensures JobInv(s', k, s'.jobs[k])
    {
      OtherInLoop(s, s', k, s.jobs[k]);
    }
  }

  /** A turn of a loop that deals with job k. */
  lemma TurnKeepsInv(s: State, k: JobId, job: Job, main: Main)
    requires Inv(s) && !s.main.Idle? && !main.Idle? && k in s.jobs && main.origin == s.main.origin &&
             main.fromExit == s.main.fromExit
    requires (s.main.Preparing? && main.Preparing?) || (s.main.Finalizing? && main.Finalizing?) ||
             (s.main.Cancelling? && main.Cancelling?)
    requires main.todo == s.main.todo - {k} && JobInv(s.(main := main), k, job)
    ensures Inv(With(s, k, job).(main := main))
  {
    var s' := With(s, k, job).(main := main);
    forall k' | k' in s'.jobs
      ensures JobInv(s', k', s'.jobs[k'])
    {
      if k' != k {
        OtherInLoop(s, s', k', s.jobs[k']);
      } else {
        assert JobInv(s.(main := main), k, job);
      }
    }
  }

  lemma CommitOk(s: State, s': State, k: JobId, j: Job)
    requires JobInv(s, k, j) && s.main.Finalizing? && k in s.main.todo && s.success && s.cause == NoCause
    requires s' == s.(main := Finalizing(s.main.fromExit, s.main.origin, s.main.todo - {k}))
    ensures FinalizeSingle(j).Some? && JobInv(s', k, FinalizeSingle(j).value) && FinalizeSingle(j).value.commits == 1
  {
  }

  lemma CancelMemberOk(s: State, s': State, k: JobId, j: Job)
    requires JobInv(s, k, j) && s.main.Cancelling? && k in s.main.todo && s.aborting && s.cause != NoCause &&
             s.cause.first == s.main.origin
    requires s' == s.(main := Cancelling(s.main.fromExit, s.main.origin, s.main.todo - {k}))
    ensures CancelAsync(j, true).Some? && JobInv(s', k, CancelAsync(j, true).value)
  {
    CancelDefined(j, true);
  }

  /** In an aborting group a completed member is aborted, unless a prepare callback of another
      member failed and this is the job that the group was finalized for. */
  lemma AbortOk(s: State, k: JobId, j: Job)
    requires JobInv(s, k, j) && s.main.AbortLoop? && s.aborting && j.inGroup && Completed(j.status)
    requires s.cause == BadMember(s.main.origin) || FinalizedFor(s.cause, s.main.origin)
    ensures FinalizeSingle(j).Some? && JobInv(s, k, FinalizeSingle(j).value)
    ensures FinalizeSingle(j).value.aborts == 1 || (FinalizedFor(s.cause, k) && s.cause.failing != k)
  {
  }

  /** What a failing prepare callback comes to. */
  lemma PrepareFails(s: State, k: JobId, job': Job)
    requires s.main.Preparing? && k in s.jobs && s.main.origin in s.jobs && s.jobs[k].inGroup &&
             s.jobs[k].status == Pending && !s.jobs[k].failed
    requires job' == s.jobs[k].(failed := true, status := Aborting)
    ensures PrepareOne(s, k, false) ==
              Next(s.(jobs := s.jobs[k := job'], aborting := true, cause := BadPrepare(s.main.origin, k),
                      main := Cancelling(s.main.fromExit, s.main.origin, Members(s) - {s.main.origin})))
  {
    var o := s.main.origin;
    var s1 := With(s, k, job');
    assert AddRef(AddRef(s1, o, -1), o, 1).jobs == s1.jobs;
    assert Members(AddRef(s1, o, -1)) == Members(s);
  }

  lemma PrepareFailsInv(s: State, s': State, k: JobId, job': Job)
    requires Inv(s) && s.main.Preparing? && k in s.main.todo && k in s.jobs &&
             job' == s.jobs[k].(failed := true, status := Aborting)
    requires s' == s.(jobs := s.jobs[k := job'], aborting := true, cause := BadPrepare(s.main.origin, k),
                      main := Cancelling(s.main.fromExit, s.main.origin, Members(s) - {s.main.origin}))
    ensures Inv(s')
  {
    PrepareFailsJobs(s, s', k, job');
    assert JobInv(s, k, s.jobs[k]);
    forall k' | k' in s'.jobs
      ensures JobInv(s', k', s'.jobs[k'])
    {
      if k' != k && k' != s.main.origin {
        OtherInAbort(s, s', k', s.jobs[k']);
      }
    }
  }

  lemma PrepareFailsKeepsInv(s: State, k: JobId)
    requires Inv(s) && s.main.Preparing? && k in s.main.todo
    ensures PrepareOne(s, k, false).Next? && Inv(PrepareOne(s, k, false).s)
  {
    assert JobInv(s, k, s.jobs[k]);
    var job' := s.jobs[k].(failed := true, status := Aborting);
    PrepareFails(s, k, job');
    PrepareFailsInv(s, PrepareOne(s, k, false).s, k, job');
  }

  lemma PrepareSucceedsKeepsInv(s: State, k: JobId)
    requires Inv(s) && s.main.Preparing? && k in s.main.todo
    ensures PrepareOne(s, k, true).Next? && Inv(PrepareOne(s, k, true).s)
  {
    var main := Preparing(s.main.fromExit, s.main.origin, s.main.todo - {k});
    assert JobInv(s, k, s.jobs[k]);
    assert JobInv(s.(main := main), k, s.jobs[k]);
    TurnKeepsInv(s, k, s.jobs[k], main);
    assert s.jobs[k].(failed := false) == s.jobs[k];
  }

  lemma PrepareFailsJobs(s: State, s': State, k: JobId, job': Job)
    requires Inv(s) && s.main.Preparing? && k in s.main.todo && k in s.jobs &&
             job' == s.jobs[k].(failed := true, status := Aborting)
    requires s'.jobs == s.jobs[k := job'] && s'.aborting && s'.pending == s.pending && s'.success == s.success
    requires s'.main == Cancelling(s.main.fromExit, s.main.origin, Members(s) - {s.main.origin}) &&
             s'.cause == BadPrepare(s.main.origin, k)
    ensures JobInv(s', k, job') && JobInv(s', s.main.origin, s'.jobs[s.main.origin])
  {
    assert JobInv(s, k, s.jobs[k]) && JobInv(s, s.main.origin, s.jobs[s.main.origin]);
  }

  lemma MainKeepsInv(s: State, k: JobId, prepareOk: bool)
    requires Inv(s)
    ensures MainStep(s, k, prepareOk) != Tripped &&
            (MainStep(s, k, prepareOk).Next? ==> Inv(MainStep(s, k, prepareOk).s))
  {
    if s.main.Preparing? {
      if s.main.todo == {} {
        PreparedKeepsInv(s);
      } else if k in s.main.todo {
        if prepareOk {
          PrepareSucceedsKeepsInv(s, k);
        } else {
          PrepareFailsKeepsInv(s, k);
        }
      }
    } else if s.main.Finalizing? {
      if s.main.todo == {} {
        LoopEndKeepsInv(s);
      } else if k in s.main.todo {
        var main := Finalizing(s.main.fromExit, s.main.origin, s.main.todo - {k});
        CommitOk(s, s.(main := main), k, s.jobs[k]);
        TurnKeepsInv(s, k, FinalizeSingle(s.jobs[k]).value, main);
      }
    } else if s.main.Cancelling? {
      if s.main.todo == {} {
        CancelledAllKeepsInv(s);
      } else if k in s.main.todo {
        var main := Cancelling(s.main.fromExit, s.main.origin, s.main.todo - {k});
        CancelMemberOk(s, s.(main := main), k, s.jobs[k]);
        TurnKeepsInv(s, k, CancelAsync(s.jobs[k], true).value, main);
      }
    } else if s.main.AbortLoop? {
      if Members(s) == {} {
        LoopEndKeepsInv(s);
      } else if k in Members(s) {
        assert JobInv(s, k, s.jobs[k]);
        if Completed(s.jobs[k].status) {
          AbortOk(s, k, s.jobs[k]);
          OneJobKeepsInv(s, k, FinalizeSingle(s.jobs[k]).value);
        }
      }
    }
  }

  // ----- every step, every run -----

  lemma FinalizeKeepsInv(s: State, j: JobId)
    requires Inv(s) && j in s.jobs && s.main.Idle? && s.jobs[j].status == Pending
    ensures Inv(StartFinalize(s, false, j))
  {
    assert JobInv(s, j, s.jobs[j]);
    StartFinalizeKeepsInv(s, false, j, s);
  }

  lemma CommandKeepsInv(s: State, a: Action)
    requires Inv(s) && (a.UserFinalize? || a.UserDismiss? || a.EarlyFail?) && a.j in s.jobs
    ensures CommandStep(s, a) != Tripped && (CommandStep(s, a).Next? ==> Inv(CommandStep(s, a).s))
  {
    if CommandStep(s, a) != Disabled {
      if a.UserFinalize? {
        FinalizeKeepsInv(s, a.j);
      } else {
        DismissKeepsInv(s, a.j);
      }
    }
  }

  /** No step trips over an assertion, and every step keeps the invariant. */
  lemma StepKeepsInv(s: State, a: Action)
    requires Inv(s)
    ensures Step(s, a) != Tripped && (Step(s, a).Next? ==> Inv(Step(s, a).s))
  {
    if a.MainTurn? {
      MainKeepsInv(s, a.j, a.prepareOk);
    } else if a.j in s.jobs && s.jobs[a.j].refcnt > 0 {
      if OnRun(a) {
        RunActionKeepsInv(s, a);
      } else if a.RunJob? {
        CoroutineKeepsInv(s, a.j, a.choice);
      } else if a.StartJob? {
        StartOk(s, a.j);
      } else if a.UserCancel? {
        CancelKeepsInv(s, a.j, a.force, a.result);
      } else if a.Exit? {
        ExitKeepsInv(s, a.j);
      } else {
        CommandKeepsInv(s, a);
      }
    }
  }

  lemma {:induction false} RunsKeepInv(s: State, run: seq<Action>, s': State)
    requires Inv(s) && Reaches(s, run, s')
    ensures Inv(s')
    decreases run
  {
    if run != [] {
      StepKeepsInv(s, run[0]);
      RunsKeepInv(Step(s, run[0]).s, run[1..], s');
    }
  }

  lemma InitIsInv(s: State)
    requires Init(s)
    ensures Inv(s)
  {
    forall k | k in s.jobs
      ensures JobInv(s, k, s.jobs[k])
    {
      assert FreshJob(s.jobs[k]);
    }
  }
}
