/**
  What holds of every run of a group of jobs: legality, the outcome of the group, references,
  pauses.
*/
module JobOutcome {
  import opened JobGroup

  // ----- what holds of every run -----

  /** Every run of a new group is legal: no job makes a transition that JobSTT does not allow,
      no pause count drops below zero, success is never checked on a member that failed. */
  lemma RunsAreLegal(s0: State, run: seq<Action>, s: State, a: Action)
    requires Init(s0) && Reaches(s0, run, s)
    ensures Step(s, a) != Tripped
  {
    InitIsInv(s0);
    RunsKeepInv(s0, run, s);
    StepKeepsInv(s, a);
  }

  /** A member that completed with an error, or by force, makes its group abort. */
  lemma FailureAborts(s0: State, run: seq<Action>, s: State, j: JobId)
    requires Init(s0) && Reaches(s0, run, s) && j in s.jobs
    requires s.jobs[j].inGroup && Completed(s.jobs[j].status) && (s.jobs[j].failed || s.jobs[j].force)
    ensures s.aborting
  {
    InitIsInv(s0);
    RunsKeepInv(s0, run, s);
    assert JobInv(s, j, s.jobs[j]);
  }

  /** A job that its driver's callbacks were run for. */
  predicate Finalized(j: Job) {
    !j.inGroup && j.cleans == 1
  }

  /** When a group aborts over a member, every member that is finalized gets one abort, one
      clean and no commit.  When it aborts over a prepare callback, the same holds of every
      member but the one that the group was finalized for: that one is aborted exactly if it was
      its own callback that failed, and committed otherwise. */
  lemma AbortedOutcome(s0: State, run: seq<Action>, s: State, j: JobId)
    requires Init(s0) && Reaches(s0, run, s) && s.aborting && j in s.jobs && Finalized(s.jobs[j])
    ensures s.jobs[j].commits + s.jobs[j].aborts == 1
    ensures !FinalizedFor(s.cause, j) ==> s.jobs[j].aborts == 1
    ensures FinalizedFor(s.cause, j) ==>
            (s.jobs[j].aborts == 1 <==> s.cause.failing == j) && (s.jobs[j].commits == 1 <==> s.cause.failing != j)
  {
    InitIsInv(s0);
    RunsKeepInv(s0, run, s);
    assert JobInv(s, j, s.jobs[j]);
  }

  lemma CompletionCause(s: State, fromExit: bool, j: JobId)
    requires j in s.jobs && CompleteJob(s, fromExit, j).Next?
    ensures CompleteJob(s, fromExit, j).s.cause == s.cause || CompleteJob(s, fromExit, j).s.cause.BadMember?
  {
  }

  lemma ExitCause(s: State, j: JobId)
    requires j in s.jobs && ExitStep(s, j).Next?
    ensures ExitStep(s, j).s.cause == s.cause || ExitStep(s, j).s.cause.BadMember?
  {
    CompletionCause(AddRef(With(s, j, Exiting(s.jobs[j])), j, 1), true, j);
  }

  lemma CancelCause(s: State, j: JobId, force: bool, result: bool)
    requires j in s.jobs && CancelStep(s, j, force, result).Next?
    ensures CancelStep(s, j, force, result).s.cause == s.cause || CancelStep(s, j, force, result).s.cause.BadMember?
  {
    var job := CancelAsync(s.jobs[j], result).value;
    if !Started(job.run) {
      CompletionCause(With(s, j, job), false, j);
    }
  }

  lemma MainCause(s: State, k: JobId, prepareOk: bool)
    requires Inv(s) && MainStep(s, k, prepareOk).Next? && MainStep(s, k, prepareOk).s.cause != s.cause
    ensures s.main.Preparing? && !prepareOk && MainStep(s, k, prepareOk).s.cause == BadPrepare(s.main.origin, k)
  {
    if s.main.Preparing? && s.main.todo != {} {
      assert JobInv(s, k, s.jobs[k]);
    }
  }

  /** The cause of an abort tells the truth: it names the job whose prepare callback has just
      failed, and the job that the group was being finalized for. */
  lemma PrepareCause(s: State, a: Action)
    requires Inv(s) && Step(s, a).Next? && Step(s, a).s.cause != s.cause && Step(s, a).s.cause.BadPrepare?
    ensures s.main.Preparing? && a == MainTurn(Step(s, a).s.cause.failing, false)
    ensures Step(s, a).s.cause.first == s.main.origin
  {
    if a.MainTurn? {
      MainCause(s, a.j, a.prepareOk);
    } else if a.Exit? {
      ExitCause(s, a.j);
    } else if a.UserCancel? {
      CancelCause(s, a.j, a.force, a.result);
    }
  }

  /** When a group does not abort, every member that is finalized gets one commit, one clean and
      no abort. */
  lemma CommittedOutcome(s0: State, run: seq<Action>, s: State, j: JobId)
    requires Init(s0) && Reaches(s0, run, s) && !s.aborting && j in s.jobs && Finalized(s.jobs[j])
    ensures s.jobs[j].commits == 1 && s.jobs[j].aborts == 0
  {
    InitIsInv(s0);
    RunsKeepInv(s0, run, s);
    assert JobInv(s, j, s.jobs[j]);
  }

  /** An abort that is over has emptied the group: every job was finalized, or was dismissed
      before it had been started. */
  lemma AbortEmptiesGroup(s0: State, run: seq<Action>, s: State, j: JobId)
    requires Init(s0) && Reaches(s0, run, s) && s.aborting && s.main.Idle? && j in s.jobs
    ensures !s.jobs[j].inGroup && (Finalized(s.jobs[j]) ||
            (!Started(s.jobs[j].run) && s.jobs[j].commits == 0 && s.jobs[j].aborts == 0))
  {
    InitIsInv(s0);
    RunsKeepInv(s0, run, s);
    assert JobInv(s, j, s.jobs[j]);
  }

  /** The main thread waits only for members that were cancelled by force. */
  lemma WaitsForCancelled(s0: State, run: seq<Action>, s: State, j: JobId)
    requires Init(s0) && Reaches(s0, run, s) && s.main.AbortLoop? && j in Members(s) && !Completed(s.jobs[j].status)
    ensures s.jobs[j].force && s.jobs[j].cancelled
  {
    InitIsInv(s0);
    RunsKeepInv(s0, run, s);
    assert JobInv(s, j, s.jobs[j]);
  }

  /** A job loses its last reference only in status null and outside its group, and the
      references are those of the job itself and of the main thread. */
  lemma FreedOnlyWhenNull(s0: State, run: seq<Action>, s: State, j: JobId)
    requires Init(s0) && Reaches(s0, run, s) && j in s.jobs
    ensures s.jobs[j].refcnt >= 0 && s.jobs[j].refcnt == One(s.jobs[j].status != Null) + MainRefs(s.main, j)
    ensures s.jobs[j].refcnt == 0 ==> s.jobs[j].status == Null && !s.jobs[j].inGroup && !s.jobs[j].run.exitPending
  {
    InitIsInv(s0);
    RunsKeepInv(s0, run, s);
    assert JobInv(s, j, s.jobs[j]);
  }

  // ----- completed jobs stay completed -----

  /** From j to j', a completed job stays completed and no pause is lost. */
  predicate Carried(j: Job, j': Job) {
    (Completed(j.status) ==> Completed(j'.status)) && j'.run.erring == j.run.erring && j'.run.surplus == j.run.surplus
  }

  ghost predicate Carries(s: State, s': State) {
    s'.jobs.Keys == s.jobs.Keys && forall j :: j in s.jobs ==> Carried(s.jobs[j], s'.jobs[j])
  }

  lemma CarriesOne(s: State, j: JobId, job: Job)
    requires j in s.jobs && Carried(s.jobs[j], job)
    ensures Carries(s, With(s, j, job))
  {
  }

  lemma CarriesTwice(s: State, s': State, s'': State)
    requires Carries(s, s') && Carries(s', s'')
    ensures Carries(s, s'')
  {
    forall j | j in s.jobs
      ensures Carried(s.jobs[j], s''.jobs[j])
    {
      assert Carried(s.jobs[j], s'.jobs[j]) && Carried(s'.jobs[j], s''.jobs[j]);
    }
  }

  lemma FinalizeCarries(j: Job)
    requires FinalizeSingle(j).Some?
    ensures Carried(j, FinalizeSingle(j).value)
  {
  }

  lemma CoroutineActionCarries(j: Job, choice: RunChoice)
    requires CoroutineInv(j.run, j.status, j.failed) && CoroutineAction(j, choice).JobNext?
    ensures Carried(j, CoroutineAction(j, choice).j)
  {
  }

  lemma CoroutineCarries(s: State, k: JobId, choice: RunChoice)
    requires Inv(s) && k in s.jobs && CoroutineStep(s, k, choice).Next?
    ensures Carries(s, CoroutineStep(s, k, choice).s)
  {
    assert JobInv(s, k, s.jobs[k]);
    CoroutineActionCarries(s.jobs[k], choice);
    CarriesOne(s, k, CoroutineAction(s.jobs[k], choice).j);
  }

  lemma AbortCarries(s: State, j: JobId, fromExit: bool, job: Job, cause: Cause)
    requires j in s.jobs && Carried(s.jobs[j], job)
    ensures Carries(s, StartAbort(With(s, j, job), fromExit, j, cause))
  {
  }

  lemma CancelCarries(s: State, j: JobId, force: bool, result: bool)
    requires Inv(s) && j in s.jobs && CancelStep(s, j, force, result).Next?
    ensures Carries(s, CancelStep(s, j, force, result).s)
  {
    var job := s.jobs[j];
    assert JobInv(s, j, job);
    var job' := CancelAsync(job, result).value;
    if !Started(job.run) {
      WithTwice(s, j, job', UpdateRc(job').value);
      AbortCarries(s, j, false, UpdateRc(job').value, BadMember(j));
    } else if job.run.deferred && job'.force && !s.aborting {
      AbortCarries(s, j, false, job', BadMember(j));
    } else {
      CarriesOne(s, j, CancelStep(s, j, force, result).s.jobs[j]);
    }
  }

  lemma AllPendingCarries(s: State)
    ensures Carries(s, AllPending(s))
  {
  }

  lemma StartFinalizeCarries(s: State, j: JobId)
    requires j in s.jobs
    ensures Carries(s, StartFinalize(AddRef(s, j, 1), true, j))
  {
  }

  lemma SucceedCarries(s: State, j: JobId)
    requires j in s.jobs && Succeed(s, j).Next?
    ensures Carries(s, Succeed(s, j).s)
  {
    AllPendingCarries(s);
    if NoneFailed(s) && AllCompleted(s) && MayBePending(s) && AllAutomatic(s) {
      StartFinalizeCarries(AllPending(s), j);
      CarriesTwice(s, AllPending(s), Succeed(s, j).s);
    }
  }

  lemma ExitFailsCarries(s: State, j: JobId)
    requires Inv(s) && j in s.jobs && ExitStep(s, j).Next? && (s.jobs[j].failed || s.jobs[j].force)
    ensures Carries(s, ExitStep(s, j).s)
  {
    var job := Exiting(s.jobs[j]);
    assert JobInv(s, j, s.jobs[j]);
    ExitingIsCompleting(s, j, s.jobs[j]);
    ExitOfFailed(s, j, job);
    AbortCarries(s, j, true, UpdateRc(job).value.(refcnt := job.refcnt + 1), BadMember(j));
    CarriesOne(s, j, UpdateRc(job).value);
  }

  lemma ExitSucceedsCarries(s: State, j: JobId)
    requires Inv(s) && j in s.jobs && ExitStep(s, j).Next? && !s.jobs[j].failed && !s.jobs[j].force
    ensures Carries(s, ExitStep(s, j).s)
  {
    var job := Exiting(s.jobs[j]);
    ExitingIsCompleting(s, j, s.jobs[j]);
    if s.main.AbortLoop? {
      CompletesFailed(s, j, job);
    } else {
      ExitOfSuccessful(s, j, job);
      CarriesOne(s, j, job.(status := Waiting));
      SucceedCarries(With(s, j, job.(status := Waiting)), j);
      CarriesTwice(s, With(s, j, job.(status := Waiting)), ExitStep(s, j).s);
    }
  }

  lemma PrepareCarries(s: State, k: JobId, ok: bool)
    requires Inv(s) && s.main.Preparing? && k in s.main.todo && PrepareOne(s, k, ok).Next?
    ensures Carries(s, PrepareOne(s, k, ok).s)
  {
    assert JobInv(s, k, s.jobs[k]);
    var job := s.jobs[k].(failed := true, status := Aborting);
    if ok {
      CarriesOne(s, k, s.jobs[k]);
    } else {
      PrepareFails(s, k, job);
      CarriesOne(s, k, job);
    }
  }

  lemma MainCarries(s: State, k: JobId, prepareOk: bool)
    requires Inv(s) && MainStep(s, k, prepareOk).Next?
    ensures Carries(s, MainStep(s, k, prepareOk).s)
  {
    if s.main.Preparing? {
      if s.main.todo != {} {
        PrepareCarries(s, k, prepareOk);
      }
    } else if s.main.Cancelling? {
      if s.main.todo != {} {
        CarriesOne(s, k, CancelAsync(s.jobs[k], true).value);
      }
    } else if (s.main.Finalizing? && s.main.todo == {}) || (s.main.AbortLoop? && Members(s) == {}) {
      ReleasedCarries(s);
    } else {
      FinalizeCarries(s.jobs[k]);
      CarriesOne(s, k, FinalizeSingle(s.jobs[k]).value);
    }
  }

  lemma ReleasedCarries(s: State)
    requires !s.main.Idle? && s.main.origin in s.jobs
    ensures Carries(s, Released(s, s.main.fromExit, s.main.origin).(main := Idle))
  {
    forall k | k in s.jobs
      ensures k in Released(s, s.main.fromExit, s.main.origin).jobs &&
              Carried(s.jobs[k], Released(s, s.main.fromExit, s.main.origin).jobs[k])
    {
      ReleasedJob(s, s.main.fromExit, s.main.origin, k);
    }
  }

  lemma RunActionCarries(s: State, a: Action)
    requires OnRun(a) && !a.ErrorStopJob? && !a.ErrorStopJobEnd? && a.j in s.jobs && RunActionStep(s, a).Next?
    ensures Carries(s, RunActionStep(s, a).s)
  {
    CarriesOne(s, a.j, RunActionStep(s, a).s.jobs[a.j]);
  }

  lemma StartCarries(s: State, j: JobId)
    requires j in s.jobs && StartStep(s, j).Next?
    ensures Carries(s, StartStep(s, j).s)
  {
    CarriesOne(s, j, StartStep(s, j).s.jobs[j]);
  }

  lemma CommandCarries(s: State, a: Action)
    requires (a.UserFinalize? || a.UserDismiss? || a.EarlyFail?) && a.j in s.jobs && CommandStep(s, a).Next?
    ensures Carries(s, CommandStep(s, a).s)
  {
    CarriesOne(s, a.j, CommandStep(s, a).s.jobs[a.j]);
  }

  lemma StepCarries(s: State, a: Action)
    requires Inv(s) && Step(s, a).Next? && !a.ErrorStopJob? && !a.ErrorStopJobEnd?
    ensures Carries(s, Step(s, a).s)
  {
    if a.MainTurn? {
      MainCarries(s, a.j, a.prepareOk);
    } else if a.RunJob? {
      CoroutineCarries(s, a.j, a.choice);
    } else if a.UserCancel? {
      CancelCarries(s, a.j, a.force, a.result);
    } else if a.Exit? {
      if s.jobs[a.j].failed || s.jobs[a.j].force {
        ExitFailsCarries(s, a.j);
      } else {
        ExitSucceedsCarries(s, a.j);
      }
    } else if a.StartJob? {
      StartCarries(s, a.j);
    } else if OnRun(a) {
      RunActionCarries(s, a);
    } else {
      CommandCarries(s, a);
    }
  }

  lemma StepKeepsCompleted(s: State, a: Action, j: JobId)
    requires Inv(s) && Step(s, a).Next? && j in s.jobs && Completed(s.jobs[j].status)
    ensures j in Step(s, a).s.jobs && Completed(Step(s, a).s.jobs[j].status)
  {
    if !a.ErrorStopJob? && !a.ErrorStopJobEnd? {
      StepCarries(s, a);
      assert Carried(s.jobs[j], Step(s, a).s.jobs[j]);
    }
  }

  /** A completed job never becomes uncompleted. */
  lemma {:induction false} CompletedForever(s: State, run: seq<Action>, s': State, j: JobId)
    requires Inv(s) && Reaches(s, run, s') && j in s.jobs && Completed(s.jobs[j].status)
    ensures j in s'.jobs && Completed(s'.jobs[j].status)
    decreases run
  {
    if run != [] {
      StepKeepsCompleted(s, run[0], j);
      StepKeepsInv(s, run[0]);
      CompletedForever(Step(s, run[0]).s, run[1..], s', j);
    }
  }

  // ----- pauses -----

  /** In every state of every run, a pause count is one for a job that was not started, one for a
      user's pause, one for each drained section, and one for each error stop that is caught
      between counting its pause and marking it, or that was overtaken there. */
  lemma PausesAreAccountedFor(s0: State, run: seq<Action>, s: State, j: JobId)
    requires Init(s0) && Reaches(s0, run, s) && j in s.jobs
    ensures PauseInv(s.jobs[j].run) && s.jobs[j].run.pauseCount >= 0
  {
    InitIsInv(s0);
    RunsKeepInv(s0, run, s);
    assert JobInv(s, j, s.jobs[j]);
  }

  /** One pause for a job that was not started, one for the user, one for each drained section. */
  predicate ExactPauses(r: Run) {
    r.pauseCount == One(!Started(r)) + One(r.userPaused) + r.drains
  }

  /** From a state in which the pauses of a job are exact, an error stop leaves them exact if and
      only if it does not have to release the mutex. */
  lemma ErrorStopIsExact(s: State, j: JobId)
    requires j in s.jobs && ExactPauses(s.jobs[j].run) && Step(s, ErrorStopJob(j)).Next?
    ensures j in Step(s, ErrorStopJob(j)).s.jobs &&
            (ExactPauses(Step(s, ErrorStopJob(j)).s.jobs[j].run) <==> !OpensWindow(s.jobs[j].run))
  {
    assert Step(s, ErrorStopJob(j)).s.jobs[j].run == ErrorStop(s.jobs[j].run);
  }

  /** No error stop in the run releases the mutex: it finds the job busy, paused by the user or
      otherwise, or past its run function. */
  ghost predicate ErrorStopsAreAtomic(s: State, run: seq<Action>)
    decreases run
  {
    run == [] || (
      && (run[0].ErrorStopJob? && run[0].j in s.jobs ==> !OpensWindow(s.jobs[run[0].j].run))
      && (Step(s, run[0]).Next? ==> ErrorStopsAreAtomic(Step(s, run[0]).s, run[1..])))
  }

  ghost predicate NothingLost(s: State) {
    forall j :: j in s.jobs ==> s.jobs[j].run.erring == 0 && s.jobs[j].run.surplus == 0
  }

  lemma StepLosesNothing(s: State, a: Action)
    requires Inv(s) && NothingLost(s) && Step(s, a).Next? &&
             (a.ErrorStopJob? && a.j in s.jobs ==> !OpensWindow(s.jobs[a.j].run))
    ensures NothingLost(Step(s, a).s)
  {
    if !a.ErrorStopJob? && !a.ErrorStopJobEnd? {
      StepCarries(s, a);
      forall j | j in Step(s, a).s.jobs
        ensures Step(s, a).s.jobs[j].run.erring == 0 && Step(s, a).s.jobs[j].run.surplus == 0
      {
        assert Carried(s.jobs[j], Step(s, a).s.jobs[j]);
      }
    }
  }

  /** The surplus of a job grows exactly when an error stop finds, at its end, that the user has
      paused the job meanwhile; it never shrinks. */
  lemma SurplusGrows(s: State, a: Action, j: JobId)
    requires Inv(s) && Step(s, a).Next? && j in s.jobs
    ensures j in Step(s, a).s.jobs &&
            Step(s, a).s.jobs[j].run.surplus == s.jobs[j].run.surplus + One(Overtakes(s, a, j))
  {
    if !a.ErrorStopJob? && !a.ErrorStopJobEnd? {
      StepCarries(s, a);
      assert Carried(s.jobs[j], Step(s, a).s.jobs[j]);
    }
  }

  /** The user's pause has overtaken the error stop that ends here. */
  predicate Overtakes(s: State, a: Action, j: JobId) {
    a == ErrorStopJobEnd(j) && j in s.jobs && s.jobs[j].run.userPaused
  }

  /** How often that happens to a job in a run. */
  ghost function LostPauses(s: State, run: seq<Action>, j: JobId): nat
    decreases run
  {
    if run == [] || !Step(s, run[0]).Next? then 0
    else One(Overtakes(s, run[0], j)) + LostPauses(Step(s, run[0]).s, run[1..], j)
  }

  lemma {:induction false} SurplusOverRun(s: State, run: seq<Action>, s': State, j: JobId)
    requires Inv(s) && Reaches(s, run, s') && j in s.jobs
    ensures j in s'.jobs && s'.jobs[j].run.surplus == s.jobs[j].run.surplus + LostPauses(s, run, j)
    decreases run
  {
    if run != [] {
      SurplusGrows(s, run[0], j);
      StepKeepsInv(s, run[0]);
      SurplusOverRun(Step(s, run[0]).s, run[1..], s', j);
    }
  }

  /** The pause count after any run: not started, paused by the user, open drained sections, open
      error stops, and the pauses lost so far. */
  lemma PauseCountOverRun(s0: State, run: seq<Action>, s: State, j: JobId)
    requires Init(s0) && Reaches(s0, run, s) && j in s0.jobs
    ensures j in s.jobs
    ensures var r := s.jobs[j].run;
            r.pauseCount == One(!Started(r)) + One(r.userPaused) + r.drains + r.erring + LostPauses(s0, run, j)
    ensures ExactPauses(s.jobs[j].run) <==> s.jobs[j].run.erring == 0 && LostPauses(s0, run, j) == 0
  {
    InitIsInv(s0);
    assert FreshJob(s0.jobs[j]);
    SurplusOverRun(s0, run, s, j);
    PausesAreAccountedFor(s0, run, s, j);
  }

  lemma {:induction false} AtomicRunLosesNothing(s: State, run: seq<Action>, s': State)
    requires Inv(s) && NothingLost(s) && Reaches(s, run, s') && ErrorStopsAreAtomic(s, run)
    ensures NothingLost(s')
    decreases run
  {
    if run != [] {
      StepLosesNothing(s, run[0]);
      StepKeepsInv(s, run[0]);
      AtomicRunLosesNothing(Step(s, run[0]).s, run[1..], s');
    }
  }

  /** As long as no error stop has to release the mutex, a pause count is exactly one for a job
      that was not started, one for a user's pause, and one for each drained section. */
  lemma PauseAccounting(s0: State, run: seq<Action>, s: State, j: JobId)
    requires Init(s0) && Reaches(s0, run, s) && ErrorStopsAreAtomic(s0, run) && j in s.jobs
    ensures ExactPauses(s.jobs[j].run)
  {
    InitIsInv(s0);
    forall k | k in s0.jobs
      ensures s0.jobs[k].run.erring == 0 && s0.jobs[k].run.surplus == 0
    {
      assert FreshJob(s0.jobs[k]);
    }
    AtomicRunLosesNothing(s0, run, s);
    PausesAreAccountedFor(s0, run, s, j);
  }

  // ----- two runs to beware of -----

  lemma {:induction false} RunGrows(s: State, run: seq<Action>, s': State, a: Action)
    requires Reaches(s, run, s') && Step(s', a).Next?
    ensures Reaches(s, run + [a], Step(s', a).s)
    decreases run
  {
    if run == [] {
      assert ([a])[1..] == [];
      assert Reaches(Step(s, a).s, [], Step(s', a).s);
    } else {
      RunGrows(Step(s, run[0]).s, run[1..], s', a);
      assert (run + [a])[1..] == run[1..] + [a];
    }
  }

  function NewJob(): Job {
    Job(Run(NotStarted, false, true, false, false, 1, false, 0, 0, 0), Created, false, false, false, true, true, true,
        1, 0, 0, 0)
  }

  function NewGroup(jobs: map<JobId, Job>): State {
    State(jobs, false, NoCause, false, false, Idle)
  }

  /** The job of LostPause after each of its steps. */
  function Sleeping(): Job {
    NewJob().(status := Running, run := Run(RunYield, false, false, false, false, 0, false, 0, 0, 0))
  }

  lemma SleepingReached(s0: State) returns (run: seq<Action>)
    requires s0 == NewGroup(map[0 := NewJob()])
    ensures Reaches(s0, run, NewGroup(map[0 := Sleeping()]))
  {
    var entered := NewJob().(status := Running, run := Run(AtEntry, true, false, false, false, 0, false, 0, 0, 0));
    var inRun := entered.(run := entered.run.(co := InRun));
    assert Step(s0, StartJob(0)) == Next(NewGroup(map[0 := entered]));
    RunGrows(s0, [], s0, StartJob(0));
    run := [StartJob(0)];
    assert Step(NewGroup(map[0 := entered]), RunJob(0, Yield)) == Next(NewGroup(map[0 := inRun]));
    RunGrows(s0, run, NewGroup(map[0 := entered]), RunJob(0, Yield));
    run := run + [RunJob(0, Yield)];
    assert Step(NewGroup(map[0 := inRun]), RunJob(0, Yield)) == Next(NewGroup(map[0 := Sleeping()]));
    RunGrows(s0, run, NewGroup(map[0 := inRun]), RunJob(0, Yield));
    run := run + [RunJob(0, Yield)];
  }

  function Overtaken(): Job {
    Sleeping().(run := Run(RunYield, true, false, false, false, 2, true, 0, 1, 0))
  }

  function Counted(): Job {
    Sleeping().(run := Run(RunYield, true, false, false, false, 1, false, 0, 1, 0))
  }

  function Marked(): Job {
    Sleeping().(run := Run(RunYield, true, false, false, false, 2, true, 0, 0, 1))
  }

  function Stranded(): Job {
    Sleeping().(run := Run(RunYield, true, false, false, false, 1, false, 0, 0, 1))
  }

  lemma ErrorIsCounted()
    ensures Step(NewGroup(map[0 := Sleeping()]), ErrorStopJob(0)) == Next(NewGroup(map[0 := Counted()]))
  {
  }

  lemma UserOvertakes()
    ensures Step(NewGroup(map[0 := Counted()]), UserPause(0)) == Next(NewGroup(map[0 := Overtaken()]))
  {
  }

  lemma ErrorIsMarked()
    ensures Step(NewGroup(map[0 := Overtaken()]), ErrorStopJobEnd(0)) == Next(NewGroup(map[0 := Marked()]))
  {
  }

  lemma UserResumes()
    ensures Step(NewGroup(map[0 := Marked()]), UserResume(0, true)) == Next(NewGroup(map[0 := Stranded()]))
  {
  }

  /** A user's pause that comes between the two halves of an error stop leaves a pause behind
      that resuming the job does not undo: the job stays stopped for no reason. */
  lemma LostPause() returns (s0: State, run: seq<Action>, s: State)
    ensures Init(s0) && Reaches(s0, run, s) && 0 in s.jobs
    ensures s.jobs[0].run.pauseCount == 1 && Started(s.jobs[0].run) && !s.jobs[0].run.userPaused &&
            s.jobs[0].run.drains == 0 && s.jobs[0].run.erring == 0
  {
    s0 := NewGroup(map[0 := NewJob()]);
    run := SleepingReached(s0);
    ErrorIsCounted();
    RunGrows(s0, run, NewGroup(map[0 := Sleeping()]), ErrorStopJob(0));
    UserOvertakes();
    RunGrows(s0, run + [ErrorStopJob(0)], NewGroup(map[0 := Counted()]), UserPause(0));
    run := run + [ErrorStopJob(0)] + [UserPause(0)];
    ErrorIsMarked();
    RunGrows(s0, run, NewGroup(map[0 := Overtaken()]), ErrorStopJobEnd(0));
    UserResumes();
    RunGrows(s0, run + [ErrorStopJobEnd(0)], NewGroup(map[0 := Marked()]), UserResume(0, true));
    run, s := run + [ErrorStopJobEnd(0)] + [UserResume(0, true)], NewGroup(map[0 := Stranded()]);
  }

  // The second run: two jobs finish, the second completion finalizes the group, and the prepare
  // callback of the first job fails.

  function InRunJob(): Job {
    NewJob().(status := Running, run := Run(InRun, true, false, false, false, 0, false, 0, 0, 0))
  }

  function DoneJob(): Job {
    NewJob().(status := Running, run := Run(Done, true, false, true, true, 0, false, 0, 0, 0))
  }

  function ExitedJob(status: Status): Job {
    NewJob().(status := status, run := Run(Done, false, false, true, false, 0, false, 0, 0, 0))
  }

  /** One job runs from its creation to the end of its run function, whatever the other does. */
  lemma JobFinishes(s0: State, run0: seq<Action>, s: State, j: JobId) returns (run: seq<Action>)
    requires Reaches(s0, run0, s) && s.main.Idle? && j in s.jobs && s.jobs[j] == NewJob()
    ensures Reaches(s0, run, With(s, j, DoneJob()))
  {
    var entered := NewJob().(status := Running, run := Run(AtEntry, true, false, false, false, 0, false, 0, 0, 0));
    assert Step(s, StartJob(j)) == Next(With(s, j, entered));
    RunGrows(s0, run0, s, StartJob(j));
    var s1 := With(s, j, entered);
    WithTwice(s, j, entered, InRunJob());
    assert Step(s1, RunJob(j, Yield)) == Next(With(s, j, InRunJob()));
    RunGrows(s0, run0 + [StartJob(j)], s1, RunJob(j, Yield));
    var s2 := With(s, j, InRunJob());
    WithTwice(s, j, InRunJob(), DoneJob());
    assert Step(s2, RunJob(j, Finish(false))) == Next(With(s, j, DoneJob()));
    RunGrows(s0, run0 + [StartJob(j)] + [RunJob(j, Yield)], s2, RunJob(j, Finish(false)));
    run := run0 + [StartJob(j)] + [RunJob(j, Yield)] + [RunJob(j, Finish(false))];
  }

  function Two(a: Job, b: Job): map<JobId, Job> {
    map[0 := a, 1 := b]
  }

  lemma BothFinish(s0: State) returns (run: seq<Action>)
    requires s0 == NewGroup(Two(NewJob(), NewJob()))
    ensures Reaches(s0, run, NewGroup(Two(DoneJob(), DoneJob())))
  {
    assert Reaches(s0, [], s0);
    run := JobFinishes(s0, [], s0, 0);
    var s := With(s0, 0, DoneJob());
    run := JobFinishes(s0, run, s, 1);
    assert With(s, 1, DoneJob()).jobs == Two(DoneJob(), DoneJob());
  }

  /** Both are pending, and the group is about to be prepared for the second job. */
  function BothPending(): State {
    State(Two(ExitedJob(Pending), ExitedJob(Pending).(refcnt := 3)), false, NoCause, true, false,
        Preparing(true, 1, {0, 1}))
  }

  lemma FirstExits()
    ensures Step(NewGroup(Two(DoneJob(), DoneJob())), Exit(0)) == Next(NewGroup(Two(ExitedJob(Waiting), DoneJob())))
  {
    var s := NewGroup(Two(DoneJob(), DoneJob()));
    ExitOfSuccessful(s, 0, ExitedJob(Running));
    var s' := With(s, 0, ExitedJob(Waiting));
    assert s'.jobs == Two(ExitedJob(Waiting), DoneJob());
    assert 1 in Members(s') && !Completed(s'.jobs[1].status);
  }

  lemma BothWaitingSucceed()
    ensures Succeed(NewGroup(Two(ExitedJob(Waiting), ExitedJob(Waiting))), 1) == Next(BothPending())
  {
    var s := NewGroup(Two(ExitedJob(Waiting), ExitedJob(Waiting)));
    var s' := AllPending(s);
    assert s'.jobs == Two(ExitedJob(Pending), ExitedJob(Pending));
    assert Members(s) == {0, 1} && Members(AddRef(s', 1, 1)) == {0, 1};
    assert StartFinalize(AddRef(s', 1, 1), true, 1).jobs == BothPending().jobs;
  }

  lemma SecondIsWaiting()
    ensures With(NewGroup(Two(ExitedJob(Waiting), DoneJob())), 1, ExitedJob(Waiting)) ==
            NewGroup(Two(ExitedJob(Waiting), ExitedJob(Waiting)))
  {
    var s := NewGroup(Two(ExitedJob(Waiting), DoneJob()));
    assert With(s, 1, ExitedJob(Waiting)).jobs == Two(ExitedJob(Waiting), ExitedJob(Waiting));
  }

  lemma SecondExits()
    ensures Step(NewGroup(Two(ExitedJob(Waiting), DoneJob())), Exit(1)) == Next(BothPending())
  {
    var s := NewGroup(Two(ExitedJob(Waiting), DoneJob()));
    assert Step(s, Exit(1)) == Succeed(With(s, 1, ExitedJob(Waiting)), 1) by {
      ExitOfSuccessful(s, 1, ExitedJob(Running));
    }
    SecondIsWaiting();
    BothWaitingSucceed();
  }

  function Failing(main: Main, first: Job): State {
    State(Two(first, ExitedJob(Pending).(refcnt := 3)), true, BadPrepare(1, 0), true, false, main)
  }

  function FailedJob(): Job {
    ExitedJob(Aborting).(failed := true)
  }

  function ForcedJob(): Job {
    FailedJob().(cancelled := true, force := true)
  }

  lemma FirstFails()
    ensures Step(BothPending(), MainTurn(0, false)) == Next(Failing(Cancelling(true, 1, {0}), FailedJob()))
  {
    var s := BothPending();
    PrepareFails(s, 0, FailedJob());
    var todo: set<JobId> := {0, 1};
    assert Members(s) == todo;
    assert todo - {1} == {0};
    assert s.jobs[0 := FailedJob()] == Failing(Idle, FailedJob()).jobs;
  }

  lemma FirstIsForced()
    ensures Step(Failing(Cancelling(true, 1, {0}), FailedJob()),
            MainTurn(0, true)) == Next(Failing(Cancelling(true, 1, {}), ForcedJob()))
  {
    var s := Failing(Cancelling(true, 1, {0}), FailedJob());
    assert s.main.todo - {0} == {};
    assert s.jobs[0 := ForcedJob()] == Failing(Idle, ForcedJob()).jobs;
  }

  /** From the failing callback to the end of the group's callbacks. */
  lemma OneAbortsOneCommits(s0: State, run0: seq<Action>) returns (run: seq<Action>, s: State)
    requires Reaches(s0, run0, BothPending())
    ensures Reaches(s0, run, s) && s.aborting && s.jobs.Keys == {0, 1}
    ensures s.jobs[0].aborts == 1 && s.jobs[0].commits == 0 && s.jobs[1].commits == 1 && s.jobs[1].aborts == 0
  {
    FirstFails();
    RunGrows(s0, run0, BothPending(), MainTurn(0, false));
    run, s := run0 + [MainTurn(0, false)], Failing(Cancelling(true, 1, {0}), FailedJob());
    FirstIsForced();
    RunGrows(s0, run, s, MainTurn(0, true));
    run, s := run + [MainTurn(0, true)], Failing(Cancelling(true, 1, {}), ForcedJob());
    assert Step(s, MainTurn(0, true)) == Next(Failing(AbortLoop(true, 1), ForcedJob()));
    RunGrows(s0, run, s, MainTurn(0, true));
    run, s := BothFinalized(s0, run + [MainTurn(0, true)]);
  }

  lemma FirstIsFinalized()
    ensures FinalizeSingle(ForcedJob()).Some?
    ensures Step(Failing(AbortLoop(true, 1), ForcedJob()),
            MainTurn(0, true)) == Next(Failing(AbortLoop(true, 1), FinalizeSingle(ForcedJob()).value))
  {
    var s := Failing(AbortLoop(true, 1), ForcedJob());
    assert 0 in Members(s);
    assert s.jobs[0 := FinalizeSingle(ForcedJob()).value] == Failing(Idle, FinalizeSingle(ForcedJob()).value).jobs;
  }

  lemma BothFinalized(s0: State, run0: seq<Action>) returns (run: seq<Action>, s: State)
    requires Reaches(s0, run0, Failing(AbortLoop(true, 1), ForcedJob()))
    ensures Reaches(s0, run, s) && s.aborting && s.jobs.Keys == {0, 1}
    ensures s.jobs[0].aborts == 1 && s.jobs[0].commits == 0 && s.jobs[1].commits == 1 && s.jobs[1].aborts == 0
  {
    FirstIsFinalized();
    s := Failing(AbortLoop(true, 1), ForcedJob());
    RunGrows(s0, run0, s, MainTurn(0, true));
    run, s := run0 + [MainTurn(0, true)], Failing(AbortLoop(true, 1), FinalizeSingle(ForcedJob()).value);
    assert 1 in Members(s);
    var committed := FinalizeSingle(s.jobs[1]).value;
    assert Step(s, MainTurn(1, true)) == Next(With(s, 1, committed));
    RunGrows(s0, run, s, MainTurn(1, true));
    run, s := run + [MainTurn(1, true)], With(s, 1, committed);
  }

  /** A failing prepare callback does not abort the job that the group was finalized for: here
      it commits, while the other member of its group aborts. */
  lemma PrepareFailureSplitsGroup() returns (s0: State, run: seq<Action>, s: State)
    ensures Init(s0) && Reaches(s0, run, s) && s.aborting && s.jobs.Keys == {0, 1}
    ensures s.jobs[0].aborts == 1 && s.jobs[0].commits == 0 && s.jobs[1].commits == 1 && s.jobs[1].aborts == 0
  {
    s0 := NewGroup(Two(NewJob(), NewJob()));
    run := BothFinish(s0);
    s := NewGroup(Two(DoneJob(), DoneJob()));
    FirstExits();
    RunGrows(s0, run, s, Exit(0));
    run, s := run + [Exit(0)], NewGroup(Two(ExitedJob(Waiting), DoneJob()));
    SecondExits();
    RunGrows(s0, run, s, Exit(1));
    run, s := OneAbortsOneCommits(s0, run + [Exit(1)]);
  }
}
