/**
  Whether the abort of a group of jobs comes to an end: it can, exactly if every member that is
  not completed was started.
*/
module AbortEnds {
  import opened Options
  import opened JobGroup
  import opened JobOutcome

  /** Every member that the main thread has still to wait for was started. */
  ghost predicate AllRun(s: State) {
    forall k :: k in Members(s) ==> Completed(s.jobs[k].status) || Started(s.jobs[k].run)
  }

  // ----- with all of them started, the abort can end -----

  /** How far a coroutine that was cancelled by force is from its end. */
  function Distance(r: Run): nat {
    match r.co
    case NotStarted => 0
    case Done => 0
    case InRun => 1 + r.erring
    case Resuming => 2 + r.erring
    case AtEntry => 2 + r.erring
    case Pausing => 3 + r.erring
    case RunYield => r.erring + if r.busy then 2 else 3
    case PauseYield(_) => r.erring + if r.busy then 3 else 4
  }

  /** What brings it closer. */
  function NextAction(k: JobId, r: Run): Action {
    if r.co == Done then Exit(k)
    else if r.co == InRun && r.erring > 0 then ErrorStopJobEnd(k)
    else if r.co == InRun then RunJob(k, Finish(false))
    else if (r.co == RunYield || r.co.PauseYield?) && !r.busy then Kick(k)
    else RunJob(k, Yield)
  }

  /** Member k is waited for, and its driver does what a forced cancel asks of it. */
  ghost predicate Awaited(s: State, k: JobId) {
    Inv(s) && s.main.AbortLoop? && k in Members(s) && !Completed(s.jobs[k].status) && Started(s.jobs[k].run)
  }

  lemma AwaitedIsForced(s: State, k: JobId)
    requires Awaited(s, k)
    ensures s.jobs[k].force && s.jobs[k].refcnt > 0 && s.aborting && JobInv(s, k, s.jobs[k])
  {
    assert JobInv(s, k, s.jobs[k]);
  }

  lemma AwaitedExits(s: State, k: JobId)
    requires Awaited(s, k) && s.jobs[k].run.co == Done
    ensures Step(s, Exit(k)).Next? && Step(s, Exit(k)).s == With(s, k, UpdateRc(Exiting(s.jobs[k])).value)
    ensures UpdateRc(Exiting(s.jobs[k])).value.inGroup && Completed(UpdateRc(Exiting(s.jobs[k])).value.status)
  {
    AwaitedIsForced(s, k);
    ExitingIsCompleting(s, k, s.jobs[k]);
    ExitOfFailed(s, k, Exiting(s.jobs[k]));
  }

  /** One step of a job closer to its end. */
  predicate Closer(j: Job, j': Job) {
    j'.inGroup == j.inGroup && !Completed(j'.status) && Started(j'.run) && Distance(j'.run) < Distance(j.run)
  }

  predicate Forced(j: Job) {
    CoroutineInv(j.run, j.status, j.failed) && j.force && !Completed(j.status) && Started(j.run) && j.run.co != Done
  }

  lemma CoroutineAdvances(j: Job, k: JobId)
    requires Forced(j) && NextAction(k, j.run).RunJob?
    ensures CoroutineAction(j, NextAction(k, j.run).choice).JobNext? &&
            Closer(j, CoroutineAction(j, NextAction(k, j.run).choice).j)
  {
  }

  lemma RunAdvances(j: Job, k: JobId)
    requires Forced(j) && OnRun(NextAction(k, j.run))
    ensures RunAction(j.run, j.status, false, NextAction(k, j.run)).RunNext?
    ensures Closer(j, j.(run := RunAction(j.run, j.status, false, NextAction(k, j.run)).r))
  {
  }

  lemma AwaitedAdvances(s: State, k: JobId) returns (job: Job)
    requires Awaited(s, k) && s.jobs[k].run.co != Done
    ensures Step(s, NextAction(k, s.jobs[k].run)) == Next(With(s, k, job)) && Closer(s.jobs[k], job)
  {
    AwaitedIsForced(s, k);
    var a := NextAction(k, s.jobs[k].run);
    if a.RunJob? {
      CoroutineAdvances(s.jobs[k], k);
      job := CoroutineAction(s.jobs[k], a.choice).j;
    } else {
      RunAdvances(s.jobs[k], k);
      job := s.jobs[k].(run := RunAction(s.jobs[k].run, s.jobs[k].status, false, a).r);
    }
  }

  /** A member that is waited for can be brought to completion by itself. */
  lemma {:induction false} MemberCompletes(s: State, k: JobId) returns (run: seq<Action>, job: Job)
    requires Awaited(s, k)
    ensures Reaches(s, run, With(s, k, job)) && job.inGroup && Completed(job.status)
    decreases Distance(s.jobs[k].run)
  {
    if s.jobs[k].run.co == Done {
      AwaitedExits(s, k);
      run, job := [Exit(k)], UpdateRc(Exiting(s.jobs[k])).value;
      assert run[1..] == [];
    } else {
      var a := NextAction(k, s.jobs[k].run);
      var next := AwaitedAdvances(s, k);
      StepKeepsInv(s, a);
      var rest;
      rest, job := MemberCompletes(With(s, k, next), k);
      WithTwice(s, k, next, job);
      run := [a] + rest;
      assert run[1..] == rest;
    }
  }

  lemma {:induction false} RunsJoin(s: State, run: seq<Action>, s': State, run': seq<Action>, s'': State)
    requires Reaches(s, run, s') && Reaches(s', run', s'')
    ensures Reaches(s, run + run', s'')
    decreases run
  {
    if run == [] {
      assert run + run' == run';
    } else {
      RunsJoin(Step(s, run[0]).s, run[1..], s', run', s'');
      assert (run + run')[1..] == run[1..] + run';
    }
  }

  /** A completed member is finalized and leaves the group. */
  lemma MemberLeaves(s: State, k: JobId)
    requires Inv(s) && s.main.AbortLoop? && k in Members(s) && Completed(s.jobs[k].status)
    ensures FinalizeSingle(s.jobs[k]).Some? &&
            Step(s, MainTurn(k, true)) == Next(With(s, k, FinalizeSingle(s.jobs[k]).value))
    ensures Members(With(s, k, FinalizeSingle(s.jobs[k]).value)) == Members(s) - {k}
  {
    assert JobInv(s, k, s.jobs[k]);
    AbortOk(s, k, s.jobs[k]);
  }

  lemma AllRunKept(s: State, s': State, k: JobId)
    requires AllRun(s) && s'.jobs.Keys == s.jobs.Keys && (forall j :: j in s.jobs && j != k ==> s'.jobs[j] == s.jobs[j])
    requires k in Members(s') ==> Completed(s'.jobs[k].status)
    ensures AllRun(s')
  {
    forall j | j in Members(s')
      ensures Completed(s'.jobs[j].status) || Started(s'.jobs[j].run)
    {
      assert j != k ==> j in Members(s);
    }
  }

  lemma CompletedKeepsAllRun(s: State, k: JobId, job: Job)
    requires AllRun(s) && k in Members(s) && job.inGroup && Completed(job.status)
    ensures AllRun(With(s, k, job)) && Members(With(s, k, job)) == Members(s)
  {
    AllRunKept(s, With(s, k, job), k);
  }

  /** In the abort loop, with every member that is not completed started. */
  ghost predicate GoingOn(s: State) {
    Inv(s) && s.main.AbortLoop? && AllRun(s)
  }

  lemma CompletedFirst(s: State, k: JobId) returns (run: seq<Action>, s': State)
    requires GoingOn(s) && k in Members(s)
    ensures Reaches(s, run, s') && GoingOn(s') && Members(s') == Members(s) && Completed(s'.jobs[k].status)
  {
    if Completed(s.jobs[k].status) {
      run, s' := [], s;
    } else {
      var job;
      run, job := MemberCompletes(s, k);
      s' := With(s, k, job);
      RunsKeepInv(s, run, s');
      CompletedKeepsAllRun(s, k, job);
    }
  }

  lemma LeavingGoesOn(s: State, k: JobId) returns (s': State)
    requires GoingOn(s) && k in Members(s) && Completed(s.jobs[k].status)
    ensures Step(s, MainTurn(k, true)) == Next(s') && GoingOn(s') && Members(s') == Members(s) - {k}
  {
    MemberLeaves(s, k);
    s' := With(s, k, FinalizeSingle(s.jobs[k]).value);
    StepKeepsInv(s, MainTurn(k, true));
    AllRunKept(s, s', k);
  }

  lemma OneLeaves(s: State, k: JobId) returns (run: seq<Action>, s': State)
    requires GoingOn(s) && k in Members(s)
    ensures Reaches(s, run, s') && GoingOn(s') && Members(s') == Members(s) - {k}
  {
    var s1;
    run, s1 := CompletedFirst(s, k);
    s' := LeavingGoesOn(s1, k);
    RunGrows(s, run, s1, MainTurn(k, true));
    run := run + [MainTurn(k, true)];
  }

  lemma {:induction false} AbortCanEnd(s: State) returns (run: seq<Action>, s': State)
    requires GoingOn(s)
    ensures Reaches(s, run, s') && s'.main.Idle?
    decreases Members(s)
  {
    if Members(s) == {} {
      run, s' := [MainTurn(0, true)], Step(s, MainTurn(0, true)).s;
      assert run[1..] == [];
    } else {
      var k :| k in Members(s);
      var run1, s1 := OneLeaves(s, k);
      var rest;
      rest, s' := AbortCanEnd(s1);
      RunsJoin(s, run1, s1, rest, s');
      run := run1 + rest;
    }
  }

  // ----- with one of them not started, it cannot -----

  /** The main thread waits for a member that will never run. */
  ghost predicate WaitsForUnstarted(s: State, k: JobId) {
    s.main.AbortLoop? && k in Members(s) && !Completed(s.jobs[k].status) && !Started(s.jobs[k].run)
  }

  lemma UnstartedThroughExit(s: State, j: JobId, k: JobId)
    requires Inv(s) && WaitsForUnstarted(s, k) && j in s.jobs && ExitStep(s, j).Next?
    ensures WaitsForUnstarted(ExitStep(s, j).s, k)
  {
    assert JobInv(s, k, s.jobs[k]);
    assert JobInv(s, j, s.jobs[j]);
    ExitingIsCompleting(s, j, s.jobs[j]);
    CompletesFailed(s, j, Exiting(s.jobs[j]));
    ExitOfFailed(s, j, Exiting(s.jobs[j]));
  }

  lemma UnstartedThroughMain(s: State, j: JobId, prepareOk: bool, k: JobId)
    requires WaitsForUnstarted(s, k) && MainStep(s, j, prepareOk).Next?
    ensures WaitsForUnstarted(MainStep(s, j, prepareOk).s, k)
  {
    assert j != k;
  }

  lemma UnstartedThroughRun(s: State, a: Action, k: JobId)
    requires WaitsForUnstarted(s, k) && OnRun(a) && a.j in s.jobs && RunActionStep(s, a).Next?
    ensures WaitsForUnstarted(RunActionStep(s, a).s, k)
  {
    var r := s.jobs[a.j].run;
    assert RunAction(r, s.jobs[a.j].status, false, a).r.co == r.co;
  }

  lemma UnstartedThroughCoroutine(s: State, j: JobId, choice: RunChoice, k: JobId)
    requires WaitsForUnstarted(s, k) && j in s.jobs && CoroutineStep(s, j, choice).Next?
    ensures WaitsForUnstarted(CoroutineStep(s, j, choice).s, k)
  {
    assert j != k;
  }

  lemma UnstartedStays(s: State, a: Action, k: JobId)
    requires Inv(s) && WaitsForUnstarted(s, k) && Step(s, a).Next?
    ensures WaitsForUnstarted(Step(s, a).s, k)
  {
    if a.MainTurn? {
      UnstartedThroughMain(s, a.j, a.prepareOk, k);
    } else if OnRun(a) {
      UnstartedThroughRun(s, a, k);
    } else if a.RunJob? {
      UnstartedThroughCoroutine(s, a.j, a.choice, k);
    } else if a.Exit? {
      UnstartedThroughExit(s, a.j, k);
    }
  }

  lemma {:induction false} UnstartedForever(s: State, run: seq<Action>, s': State, k: JobId)
    requires Inv(s) && WaitsForUnstarted(s, k) && Reaches(s, run, s')
    ensures WaitsForUnstarted(s', k)
    decreases run
  {
    if run != [] {
      UnstartedStays(s, run[0], k);
      StepKeepsInv(s, run[0]);
      UnstartedForever(Step(s, run[0]).s, run[1..], s', k);
    }
  }

  ghost predicate CanEnd(s: State) {
    exists run, s' :: Reaches(s, run, s') && s'.main.Idle?
  }

  /** From any state of the abort loop that a new group can get into, the abort can be brought to
      its end if and only if every member that is not completed was started. */
  lemma AbortEndsIffAllRun(s0: State, run0: seq<Action>, s: State)
    requires Init(s0) && Reaches(s0, run0, s) && s.main.AbortLoop?
    ensures CanEnd(s) <==> AllRun(s)
  {
    InitIsInv(s0);
    RunsKeepInv(s0, run0, s);
    if AllRun(s) {
      var run, s' := AbortCanEnd(s);
    } else {
      var k :| k in Members(s) && !Completed(s.jobs[k].status) && !Started(s.jobs[k].run);
      forall run, s' | Reaches(s, run, s')
        ensures !s'.main.Idle?
      {
        UnstartedForever(s, run, s', k);
      }
    }
  }

  // ----- a run to such a state -----

  function CancelledFirst(): Job {
    NewJob().(status := Aborting, failed := true, cancelled := true, force := true, refcnt := 2)
  }

  function CancelledSecond(): Job {
    NewJob().(cancelled := true, force := true)
  }

  function Stuck(main: Main, second: Job): State {
    State(Two(CancelledFirst(), second), true, BadMember(0), false, false, main)
  }

  lemma FirstIsCancelled()
    ensures Step(NewGroup(Two(NewJob(), NewJob())),
            UserCancel(0, true, true)) == Next(Stuck(Cancelling(false, 0, {1}), NewJob()))
  {
    var s := NewGroup(Two(NewJob(), NewJob()));
    var job := NewJob().(cancelled := true, force := true);
    assert CancelAsync(NewJob(), true) == Some(job);
    CancelOfUnstarted(s, 0, job);
    var s1 := With(s, 0, UpdateRc(job).value);
    assert Members(s1) == {0, 1};
    assert {0, 1} - {0} == {1};
    assert AddRef(s1, 0, 1).jobs == Two(CancelledFirst(), NewJob());
  }

  lemma SecondIsCancelled()
    ensures Step(Stuck(Cancelling(false, 0, {1}), NewJob()),
            MainTurn(1, true)) == Next(Stuck(Cancelling(false, 0, {}), CancelledSecond()))
  {
    var s := Stuck(Cancelling(false, 0, {1}), NewJob());
    assert CancelAsync(NewJob(), true) == Some(CancelledSecond());
    assert s.main.todo - {1} == {};
    assert s.jobs[1 := CancelledSecond()] == Two(CancelledFirst(), CancelledSecond());
  }

  /** Two jobs of one group, neither of them started: cancelling the first makes the main thread
      wait for the second without end. */
  lemma AbortMayHang() returns (s0: State, run: seq<Action>, s: State)
    ensures Init(s0) && Reaches(s0, run, s) && s.main.AbortLoop? && !CanEnd(s)
  {
    s0 := NewGroup(Two(NewJob(), NewJob()));
    FirstIsCancelled();
    RunGrows(s0, [], s0, UserCancel(0, true, true));
    SecondIsCancelled();
    RunGrows(s0, [] + [UserCancel(0, true, true)], Stuck(Cancelling(false, 0, {1}), NewJob()), MainTurn(1, true));
    run, s := [] + [UserCancel(0, true, true)] + [MainTurn(1, true)], Stuck(AbortLoop(false, 0), CancelledSecond());
    assert Step(Stuck(Cancelling(false, 0, {}), CancelledSecond()), MainTurn(1, true)) == Next(s);
    RunGrows(s0, run, Stuck(Cancelling(false, 0, {}), CancelledSecond()), MainTurn(1, true));
    run := run + [MainTurn(1, true)];
    assert 1 in Members(s) && !AllRun(s);
    AbortEndsIffAllRun(s0, run, s);
  }
}
