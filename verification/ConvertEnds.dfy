/**
  qemu-img convert comes to an end in every interleaving of its coroutines: every step brings a
  measure down, and coroutines that cannot go on have all exited.
*/
module ConvertEnds {
  import opened Options
  import opened Convert
  import opened ConvertCoroutines

  /** What a sector that has not been handed out can still cost. */
  const STEPS_PER_SECTOR := 12

  /** How many steps a coroutine with a chunk of n sectors can still take, at most, before it goes
      for the next one.  An offloaded copy is tried again once, because then copyRange is off. */
  function WorkLeft(n: nat, copyRange: bool, range: bool, phase: Phase): nat {
    match phase
    case Fetch => if copyRange then n + 11 else n + 7
    case Reading => n + 6
    case Ordering => if range then n + 10 else n + 5
    case Waiting => if range then n + 9 else n + 4
    case Copying => n + 8
    case Writing(done) => AsNat(n - done) + 3
    case Waking => 3
  }

  function Left(s: State, p: Pc): nat {
    match p
    case NotStarted => 3
    case Top => 2
    case Iterating => 1
    case Exited => 0
    case Busy(k, work, phase) => WorkLeft(if k < |s.handed| then s.handed[k].n else 0, s.copyRange, work.range, phase)
  }

  function LeftOf(s: State, k: nat): nat
    requires k <= |s.pc|
  {
    if k == 0 then 0 else LeftOf(s, k - 1) + Left(s, s.pc[k - 1])
  }

  /** A bound for the number of steps that are left. */
  function StepsLeft(cfg: Config, s: State): int {
    STEPS_PER_SECTOR * (|cfg.source| - s.sectorNum) + LeftOf(s, |s.pc|)
  }

  /** One coroutine changes, the others have no more left than before. */
  lemma {:induction false} LeftChanges(s: State, s': State, i: nat, k: nat)
    requires |s'.pc| == |s.pc| && k <= |s.pc| && i < |s.pc|
    requires forall j :: 0 <= j < |s.pc| && j != i ==> Left(s', s'.pc[j]) <= Left(s, s.pc[j])
    ensures LeftOf(s', k) - LeftOf(s, k) <= if i < k then Left(s', s'.pc[i]) - Left(s, s.pc[i]) else 0
  {
    if k > 0 {
      LeftChanges(s, s', i, k - 1);
    }
  }

  lemma OneMoves(cfg: Config, s: State, s': State, i: nat)
    requires |s'.pc| == |s.pc| && i < |s.pc|
    requires forall j :: 0 <= j < |s.pc| && j != i ==> Left(s', s'.pc[j]) <= Left(s, s.pc[j])
    requires STEPS_PER_SECTOR * (s'.sectorNum - s.sectorNum) > Left(s', s'.pc[i]) - Left(s, s.pc[i])
    ensures StepsLeft(cfg, s') < StepsLeft(cfg, s)
  {
    LeftChanges(s, s', i, |s.pc|);
  }

  /** A step that leaves all but one coroutine alone, and the chunks too. */
  lemma AloneMoves(cfg: Config, s: State, s': State, i: nat)
    requires i < |s.pc| && |s'.pc| == |s.pc| && s'.pc == s.pc[i := s'.pc[i]] && s'.handed == s.handed
    requires s'.sectorNum == s.sectorNum && (s'.copyRange ==> s.copyRange) && Left(s', s'.pc[i]) < Left(s, s.pc[i])
    ensures StepsLeft(cfg, s') < StepsLeft(cfg, s)
  {
    OneMoves(cfg, s, s', i);
  }

  // ----- every step counts -----

  lemma IterateDecreases(cfg: Config, inOrder: bool, s: State, i: nat, c: Choice)
    requires Control(cfg, inOrder, s) && Cache(cfg, s) && i < |s.pc| && s.pc[i].Iterating?
    requires IterateStep(cfg, s, i, c).Some?
    ensures StepsLeft(cfg, IterateStep(cfg, s, i, c).value) < StepsLeft(cfg, s)
  {
    var s' := IterateStep(cfg, s, i, c).value;
    assert CoInv(cfg, inOrder, s, i);
    if s.nextStatus <= s.sectorNum && !c.a.ok {
      AloneMoves(cfg, s, s', i);
    } else {
      TakenIsAllowed(cfg, s, c);
      forall j | 0 <= j < |s.pc| && j != i
        ensures Left(s', s'.pc[j]) <= Left(s, s.pc[j])
      {
        assert CoInv(cfg, inOrder, s, j);
      }
      OneMoves(cfg, s, s', i);
    }
  }

  lemma OrderLeft(inOrder: bool, s: State, i: nat)
    requires i < |s.pc| == |s.wait| && s.pc[i].Busy? && s.pc[i].k < |s.handed|
    requires s.pc[i].phase.Ordering? || (s.pc[i].phase.Waiting? && (s.wrOffs == s.handed[s.pc[i].k].start))
    ensures Left(OrderStep(inOrder, s, i), OrderStep(inOrder, s, i).pc[i]) < Left(s, s.pc[i])
  {
  }

  lemma WakeDecreases(cfg: Config, inOrder: bool, s: State, i: nat)
    requires Control(cfg, inOrder, s) && i < |s.pc| && s.pc[i].Busy? && s.pc[i].k < |s.handed|
    requires s.pc[i].phase.Waking? && WakeStep(inOrder, s, i).Some?
    ensures StepsLeft(cfg, WakeStep(inOrder, s, i).value) < StepsLeft(cfg, s)
  {
    var s1 := Passed(inOrder, s, i);
    AloneMoves(cfg, s, s1, i);
    var j := if inOrder then FindWaiter(s1, s1.wrOffs, 0) else |s.pc|;
    if j < |s.pc| {
      WaiterIsParked(cfg, s, i, j);
      OrderLeft(true, s1, j);
      AloneMoves(cfg, s1, OrderStep(true, s1, j), j);
    }
  }

  lemma WriteDecreases(cfg: Config, inOrder: bool, s: State, i: nat, c: Choice)
    requires Control(cfg, inOrder, s) && Content(cfg, s) && Cache(cfg, s)
    requires i < |s.pc| && s.pc[i].Busy? && s.pc[i].k < |s.handed|
    requires s.pc[i].phase.Writing? && WriteStep(cfg, s, i, c).Some?
    ensures StepsLeft(cfg, WriteStep(cfg, s, i, c).value) < StepsLeft(cfg, s)
  {
    var p := s.pc[i];
    assert CoData(cfg, s, i);
    assert ChunkInv(cfg, inOrder, s, p.k);
    TurnCopies(cfg, s.handed[p.k], p.work, p.phase.done, c.t, s.target, c.now);
    AloneMoves(cfg, s, WriteStep(cfg, s, i, c).value, i);
  }

  lemma ReadOrCopyDecreases(cfg: Config, inOrder: bool, s: State, i: nat, c: Choice)
    requires Control(cfg, inOrder, s) && Content(cfg, s) && Cache(cfg, s) && Step(cfg, inOrder, s, i, c).Some?
    requires s.pc[i].Busy? && (s.pc[i].phase.Reading? || s.pc[i].phase.Copying?)
    ensures StepsLeft(cfg, Step(cfg, inOrder, s, i, c).value) < StepsLeft(cfg, s)
  {
    assert CoData(cfg, s, i);
    AloneMoves(cfg, s, Step(cfg, inOrder, s, i, c).value, i);
  }

  lemma FetchOrOrderDecreases(cfg: Config, inOrder: bool, s: State, i: nat, c: Choice)
    requires Control(cfg, inOrder, s) && Cache(cfg, s) && Step(cfg, inOrder, s, i, c).Some?
    requires s.pc[i].Busy? && (s.pc[i].phase.Fetch? || s.pc[i].phase.Ordering?)
    ensures StepsLeft(cfg, Step(cfg, inOrder, s, i, c).value) < StepsLeft(cfg, s)
  {
    AloneMoves(cfg, s, Step(cfg, inOrder, s, i, c).value, i);
  }

  lemma StartOrLockDecreases(cfg: Config, inOrder: bool, s: State, i: nat, c: Choice)
    requires Control(cfg, inOrder, s) && Cache(cfg, s) && Step(cfg, inOrder, s, i, c).Some?
    requires s.pc[i].NotStarted? || s.pc[i].Top?
    ensures StepsLeft(cfg, Step(cfg, inOrder, s, i, c).value) < StepsLeft(cfg, s)
  {
    AloneMoves(cfg, s, Step(cfg, inOrder, s, i, c).value, i);
  }

  lemma StepDecreases(cfg: Config, inOrder: bool, s: State, i: nat, c: Choice)
    requires Control(cfg, inOrder, s) && Content(cfg, s) && Cache(cfg, s) && Step(cfg, inOrder, s, i, c).Some?
    ensures StepsLeft(cfg, Step(cfg, inOrder, s, i, c).value) < StepsLeft(cfg, s)
  {
    if s.pc[i].NotStarted? || s.pc[i].Top? {
      StartOrLockDecreases(cfg, inOrder, s, i, c);
    } else if s.pc[i].Iterating? {
      IterateDecreases(cfg, inOrder, s, i, c);
    } else if s.pc[i].phase.Fetch? || s.pc[i].phase.Ordering? {
      FetchOrOrderDecreases(cfg, inOrder, s, i, c);
    } else if s.pc[i].phase.Reading? || s.pc[i].phase.Copying? {
      ReadOrCopyDecreases(cfg, inOrder, s, i, c);
    } else if s.pc[i].phase.Writing? {
      WriteDecreases(cfg, inOrder, s, i, c);
    } else {
      WakeDecreases(cfg, inOrder, s, i);
    }
  }

  lemma {:induction false} RunIsShort(cfg: Config, inOrder: bool, s: State, run: seq<(nat, Choice)>, s': State)
    requires Control(cfg, inOrder, s) && Content(cfg, s) && Cache(cfg, s) && Reaches(cfg, inOrder, s, run, s')
    ensures |run| + StepsLeft(cfg, s') <= StepsLeft(cfg, s)
    decreases run
  {
    if run != [] {
      var s1 := Step(cfg, inOrder, s, run[0].0, run[0].1).value;
      StepDecreases(cfg, inOrder, s, run[0].0, run[0].1);
      StepKeepsControl(cfg, inOrder, s, run[0].0, run[0].1);
      StepKeepsContent(cfg, inOrder, s, run[0].0, run[0].1);
      StepKeepsCache(cfg, inOrder, s, run[0].0, run[0].1);
      RunIsShort(cfg, inOrder, s1, run[1..], s');
    }
  }

  // ----- how it ends -----

  /** When some coroutine has exited and none runs, the outcome is decided. */
  ghost predicate Decided(s: State) {
    (exists i :: 0 <= i < |s.pc| && s.pc[i].Exited?) && (forall i :: 0 <= i < |s.pc| ==> !Alive(s.pc[i])) ==>
      s.ret != InProgress
  }

  lemma RunningIsDecided(s: State, i: nat)
    requires i < |s.pc| && Alive(s.pc[i])
    ensures Decided(s)
  {
  }

  lemma WakingIsAlive(cfg: Config, inOrder: bool, s: State, i: nat)
    requires Control(cfg, inOrder, s) && i < |s.pc| && s.pc[i].Busy? && s.pc[i].k < |s.handed|
    requires s.pc[i].phase.Waking? && WakeStep(inOrder, s, i).Some?
    ensures var s' := WakeStep(inOrder, s, i).value; i < |s'.pc| && Alive(s'.pc[i])
  {
    var s1 := Passed(inOrder, s, i);
    var j := if inOrder then FindWaiter(s1, s1.wrOffs, 0) else |s.pc|;
    if j < |s.pc| {
      WaiterIsParked(cfg, s, i, j);
    }
  }

  lemma BusyIsAlive(cfg: Config, inOrder: bool, s: State, i: nat, c: Choice)
    requires |s.wait| == |s.pc| && (cfg.compressed ==> cfg.clusterSectors > 0) && Step(cfg, inOrder, s, i, c).Some?
    requires s.pc[i].Busy? && !s.pc[i].phase.Waking?
    ensures var s' := Step(cfg, inOrder, s, i, c).value; i < |s'.pc| && Alive(s'.pc[i])
  {
  }

  lemma WorkingIsAlive(cfg: Config, inOrder: bool, s: State, i: nat, c: Choice)
    requires Control(cfg, inOrder, s) && Cache(cfg, s) && Step(cfg, inOrder, s, i, c).Some? && s.pc[i].Busy?
    ensures var s' := Step(cfg, inOrder, s, i, c).value; i < |s'.pc| && Alive(s'.pc[i])
  {
    if s.pc[i].phase.Waking? {
      WakingIsAlive(cfg, inOrder, s, i);
    } else {
      BusyIsAlive(cfg, inOrder, s, i, c);
    }
  }

  lemma StepStaysDecided(cfg: Config, inOrder: bool, s: State, i: nat, c: Choice)
    requires Control(cfg, inOrder, s) && Cache(cfg, s) && Step(cfg, inOrder, s, i, c).Some?
    ensures Decided(Step(cfg, inOrder, s, i, c).value)
  {
    var s' := Step(cfg, inOrder, s, i, c).value;
    if s.pc[i].Busy? {
      WorkingIsAlive(cfg, inOrder, s, i, c);
      RunningIsDecided(s', i);
    } else if !s'.pc[i].Exited? {
      RunningIsDecided(s', i);
    }
  }

  lemma {:induction false} RunStaysDecided(cfg: Config, inOrder: bool, s: State, run: seq<(nat, Choice)>, s': State)
    requires Control(cfg, inOrder, s) && Content(cfg, s) && Cache(cfg, s) && Decided(s)
    requires Reaches(cfg, inOrder, s, run, s')
    ensures Decided(s')
    decreases run
  {
    if run != [] {
      var s1 := Step(cfg, inOrder, s, run[0].0, run[0].1).value;
      StepStaysDecided(cfg, inOrder, s, run[0].0, run[0].1);
      StepKeepsControl(cfg, inOrder, s, run[0].0, run[0].1);
      StepKeepsContent(cfg, inOrder, s, run[0].0, run[0].1);
      StepKeepsCache(cfg, inOrder, s, run[0].0, run[0].1);
      RunStaysDecided(cfg, inOrder, s1, run[1..], s');
    }
  }

  /** No coroutine can take a step. */
  ghost predicate AtEnd(cfg: Config, inOrder: bool, s: State)
    requires |s.wait| == |s.pc| && (cfg.compressed ==> cfg.clusterSectors > 0)
  {
    forall i: nat, c: Choice :: Step(cfg, inOrder, s, i, c) == None
  }

  lemma {:induction false} FirstUnstarted(s: State, i: nat) returns (j: nat)
    requires i < |s.pc| && s.pc[i].NotStarted?
    ensures j < |s.pc| && s.pc[j].NotStarted? && forall k :: 0 <= k < j ==> !s.pc[k].NotStarted?
    decreases i
  {
    j := i;
    if k :| 0 <= k < i && s.pc[k].NotStarted? {
      j := FirstUnstarted(s, k);
    }
  }

  lemma UnstartedCanStart(cfg: Config, inOrder: bool, s: State, i: nat) returns (j: nat, c: Choice)
    requires |s.wait| == |s.pc| && (cfg.compressed ==> cfg.clusterSectors > 0) && i < |s.pc| && s.pc[i].NotStarted?
    ensures Step(cfg, inOrder, s, j, c).Some?
  {
    j := FirstUnstarted(s, i);
    c := Choice(true, Answer(true, false, true, 1), [], Turn(false, 0, true), s.target);
  }

  lemma AtEndAllExited(cfg: Config, inOrder: bool, s: State, i: nat)
    requires Control(cfg, inOrder, s) && Content(cfg, s) && Cache(cfg, s) && AtEnd(cfg, inOrder, s) && i < |s.pc|
    ensures s.pc[i].Exited?
  {
    if Alive(s.pc[i]) {
      var j, c := SomeoneCanMove(cfg, inOrder, s, i);
    } else if s.pc[i].NotStarted? {
      var j, c := UnstartedCanStart(cfg, inOrder, s, i);
    }
  }

  lemma {:induction false} LeftAtStart(s: State, k: nat)
    requires k <= |s.pc| && forall i :: 0 <= i < |s.pc| ==> s.pc[i] == NotStarted
    ensures LeftOf(s, k) == 3 * k
  {
    if k > 0 {
      LeftAtStart(s, k - 1);
    }
  }

  /** Where no coroutine can go on, all have exited and the outcome is known. */
  lemma AtEndIsDecided(cfg: Config, inOrder: bool, s: State)
    requires Control(cfg, inOrder, s) && Content(cfg, s) && Cache(cfg, s) && Decided(s) && AtEnd(cfg, inOrder, s)
    ensures forall i :: 0 <= i < |s.pc| ==> s.pc[i].Exited?
    ensures |s.pc| > 0 ==> s.ret != InProgress
  {
    forall i | 0 <= i < |s.pc|
      ensures s.pc[i].Exited?
    {
      AtEndAllExited(cfg, inOrder, s, i);
    }
    assert |s.pc| > 0 ==> s.pc[0].Exited?;
  }

  /** Every run is finite, with a bound that depends on the sizes alone; and a run that cannot go on
      has brought all coroutines to their ends and the conversion to success or failure. */
  lemma EveryRunEnds(cfg: Config, inOrder: bool, s0: State, run: seq<(nat, Choice)>, s: State)
    requires Init(cfg, s0) && Reaches(cfg, inOrder, s0, run, s)
    ensures |run| <= STEPS_PER_SECTOR * |cfg.source| + 3 * |s0.pc|
    ensures |s.wait| == |s.pc| && (cfg.compressed ==> cfg.clusterSectors > 0)
    ensures AtEnd(cfg, inOrder, s) ==> forall i :: 0 <= i < |s.pc| ==> s.pc[i].Exited?
    ensures AtEnd(cfg, inOrder, s) && |s.pc| > 0 ==> s.ret != InProgress
  {
    RunKeepsInv(cfg, inOrder, s0, run, s);
    RunIsShort(cfg, inOrder, s0, run, s);
    LeftAtStart(s0, |s0.pc|);
    RunStaysDecided(cfg, inOrder, s0, run, s);
    if AtEnd(cfg, inOrder, s) {
      AtEndIsDecided(cfg, inOrder, s);
    }
  }
}
