/**
  The exclusive-section protocol of cpu-common.c: vCPU threads enter and leave guest
  execution through cpu_exec_start/cpu_exec_end without taking a lock on the fast path,
  and one thread at a time stops all of them with start_exclusive/end_exclusive.

  The protocol is a step machine.  Every vCPU has a program counter, and one step is one
  atomic access to shared memory or one lock or condition-variable operation.  The full
  barriers between the store and the load of the fast path (smp_mb) are what lets the
  steps be interleaved as if memory were sequentially consistent.
*/
module ExclusiveSection {
  import opened Options

  type CpuId = nat

  datatype Pc =
    | Outside
    | Starting(start: StartPc)      // in cpu_exec_start
    | Guest                         // between cpu_exec_start and cpu_exec_end
    | Ending(end: EndPc)            // in cpu_exec_end
    | Queued(queued: QueuedPc)      // in start_exclusive, not announced yet
    | Owning(own: OwnPc)            // from the announcement to the reset in end_exclusive
    | Finishing(fin: FinPc)         // rest of end_exclusive

  datatype StartPc =
    | StartCheck            // running is set, pending_cpus has not been read
    | StartLock             // saw pending_cpus != 0, wants the list lock
    | StartLocked           // lock held, has_waiter not examined yet
    | StartIdle             // lock held, head of exclusive_idle
    | StartParked           // asleep on exclusive_resume
    | StartWoken            // woken from exclusive_resume, wants the lock again
    | StartReset            // lock held, pending_cpus was 0
    | StartUnlock           // lock held, about to return

  datatype EndPc =
    | EndCheck              // running is cleared, pending_cpus has not been read
    | EndLock
    | EndLocked             // lock held, has_waiter not examined yet
    | EndDecrement          // lock held, has_waiter cleared
    | EndSignal             // lock held, pending_cpus decremented
    | EndUnlock

  datatype QueuedPc =
    | ExLock
    | ExIdle                // lock held, head of exclusive_idle
    | ExParked              // asleep on exclusive_resume
    | ExWoken
    | ExAnnounce            // lock held, about to set pending_cpus to 1

  datatype OwnPc =
    | ExScan(todo: set<CpuId>, count: nat)                   // CPU_FOREACH, still to visit todo
    | ExMark(other: CpuId, todo: set<CpuId>, count: nat)     // saw other->running
    | ExWait                // lock held, head of the wait for pending_cpus <= 1
    | ExWaitParked          // asleep on exclusive_cond
    | ExWaitWoken
    | ExUnlock
    | ExReturn              // lock released, exclusive_context_count not set yet
    | InExclusive
    | InExclusiveStep       // inside, executing one guest instruction with running set
    | FinLock               // in end_exclusive
    | FinReset              // lock held, about to set pending_cpus to 0

  datatype FinPc = FinBroadcast | FinUnlock

  datatype Cpu = Cpu(pc: Pc, running: bool, hasWaiter: bool, depth: nat)

  datatype State = State(cpus: map<CpuId, Cpu>, pending: nat, lock: Option<CpuId>)

  /** What a thread may choose to do next; most program points leave no choice. */
  datatype Choice =
    | Go
    | EnterGuest            // call cpu_exec_start
    | EnterExclusive        // call start_exclusive
    | LeaveExclusive        // call end_exclusive
    | StepGuest             // toggle the single-instruction mode of an exclusive section
    | Visit(other: CpuId)   // next element of the vCPU list
    | Spurious              // wake up without a signal

  datatype Action =
    | Run(cpu: CpuId, choice: Choice)
    | Plug(cpu: CpuId)      // cpu_list_add
    | Unplug(cpu: CpuId)    // cpu_list_remove

  /** qemu_init_cpu_list followed by any number of cpu_list_add. */
  ghost predicate Init(s: State) {
    && s.pending == 0
    && s.lock == None
    && forall c :: c in s.cpus ==> s.cpus[c] == Cpu(Outside, false, false, 0)
  }

  // ----- steps -----

  function At(s: State, c: CpuId, pc: Pc): State
    requires c in s.cpus
  {
    s.(cpus := s.cpus[c := s.cpus[c].(pc := pc)])
  }

  /** What one thread does to itself and to the list lock. */
  datatype Move = Move(me: Cpu, lock: Option<CpuId>)

  function WakeResume(cpu: Cpu): Cpu {
    match cpu.pc
    case Starting(StartParked) => cpu.(pc := Starting(StartWoken))
    case Queued(ExParked) => cpu.(pc := Queued(ExWoken))
    case _ => cpu
  }

  function WakeWaiter(cpu: Cpu): Cpu {
    if cpu.pc == Owning(ExWaitParked) then cpu.(pc := Owning(ExWaitWoken)) else cpu
  }

  function Acquire(me: Cpu, c: CpuId, lock: Option<CpuId>, pc: Pc): Option<Move> {
    if lock == None then Some(Move(me.(pc := pc), Some(c))) else None
  }

  /** cpu_exec_start: writes nothing but the thread's own fields and the lock. */
  function StartMove(me: Cpu, c: CpuId, pending: nat, lock: Option<CpuId>, choice: Choice): Option<Move> {
    match me.pc
    case Outside => if choice == EnterGuest then Some(Move(me.(pc := Starting(StartCheck), running := true), lock))
        else None
    case Starting(StartCheck) => Some(Move(me.(pc := if pending != 0 then Starting(StartLock) else Guest), lock))
    case Starting(StartLock) => Acquire(me, c, lock, Starting(StartLocked))
    case Starting(StartLocked) =>
      if me.hasWaiter then Some(Move(me.(pc := Starting(StartUnlock)), lock))
      else Some(Move(me.(pc := Starting(StartIdle), running := false), lock))
    case Starting(StartIdle) =>
      if pending != 0 then Some(Move(me.(pc := Starting(StartParked)), None))
          else Some(Move(me.(pc := Starting(StartReset)), lock))
    case Starting(StartParked) => if choice == Spurious then Some(Move(me.(pc := Starting(StartWoken)), lock)) else None
    case Starting(StartWoken) => Acquire(me, c, lock, Starting(StartIdle))
    case Starting(StartReset) => Some(Move(me.(pc := Starting(StartUnlock), running := true), lock))
    case Starting(StartUnlock) => Some(Move(me.(pc := Guest), None))
    case _ => None
  }

  /** cpu_exec_end, as far as it writes nothing but the thread's own fields and the lock. */
  function EndMove(me: Cpu, c: CpuId, pending: nat, lock: Option<CpuId>): Option<Move> {
    match me.pc
    case Guest => Some(Move(me.(pc := Ending(EndCheck), running := false), lock))
    case Ending(EndCheck) => Some(Move(me.(pc := if pending != 0 then Ending(EndLock) else Outside), lock))
    case Ending(EndLock) => Acquire(me, c, lock, Ending(EndLocked))
    case Ending(EndLocked) => if me.hasWaiter then None else Some(Move(me.(pc := Ending(EndUnlock)), lock))
    case Ending(EndUnlock) => Some(Move(me.(pc := Outside), None))
    case _ => None
  }

  /** start_exclusive up to the end of exclusive_idle, and the return from end_exclusive. */
  function IdleMove(me: Cpu, c: CpuId, pending: nat, lock: Option<CpuId>, choice: Choice): Option<Move> {
    match me.pc
    case Outside => if choice == EnterExclusive then Some(Move(me.(pc := Queued(ExLock)), lock)) else None
    case Queued(ExLock) => Acquire(me, c, lock, Queued(ExIdle))
    case Queued(ExIdle) =>
      if pending != 0 then Some(Move(me.(pc := Queued(ExParked)), None))
          else Some(Move(me.(pc := Queued(ExAnnounce)), lock))
    case Queued(ExParked) => if choice == Spurious then Some(Move(me.(pc := Queued(ExWoken)), lock)) else None
    case Queued(ExWoken) => Acquire(me, c, lock, Queued(ExIdle))
    case Finishing(FinUnlock) => Some(Move(me.(pc := Outside), None))
    case _ => None
  }

  /** A move of a thread that owns nothing. */
  function PlainMove(me: Cpu, c: CpuId, pending: nat, lock: Option<CpuId>, choice: Choice): Option<Move> {
    if StartMove(me, c, pending, lock, choice).Some? then StartMove(me, c, pending, lock, choice)
    else if EndMove(me, c, pending, lock).Some? then EndMove(me, c, pending, lock)
    else IdleMove(me, c, pending, lock, choice)
  }

  /** The rest of cpu_exec_end, for a vCPU that start_exclusive counted. */
  function ReleaseStep(s: State, c: CpuId): Option<State>
    requires c in s.cpus
  {
    var me := s.cpus[c];
    match me.pc
    case Ending(EndLocked) =>
      if me.hasWaiter
      then Some(s.(cpus := s.cpus[c := me.(pc := Ending(EndDecrement), hasWaiter := false)]))
      else None
    case Ending(EndDecrement) =>
      if s.pending == 0 then None else Some(At(s, c, Ending(EndSignal)).(pending := s.pending - 1))
    case Ending(EndSignal) =>
      var s1 := At(s, c, Ending(EndUnlock));
      Some(if s.pending == 1 then s1.(cpus := map d | d in s1.cpus :: WakeWaiter(s1.cpus[d])) else s1)
    case _ => None
  }

  /** The steps of start_exclusive that collect the running vCPUs. */
  function CollectStep(s: State, c: CpuId, choice: Choice): Option<State>
    requires c in s.cpus
  {
    match s.cpus[c].pc
    case Queued(ExAnnounce) => Some(At(s, c, Owning(ExScan(s.cpus.Keys, 0))).(pending := 1))
    case Owning(ExScan(todo, count)) =>
      if todo == {} then
        Some(At(s, c, Owning(ExWait)).(pending := count + 1))
      else if choice.Visit? && choice.other in todo && choice.other in s.cpus then
        var rest := todo - {choice.other};
        Some(At(s, c, if s.cpus[choice.other].running then Owning(ExMark(choice.other, rest, count))
                      else Owning(ExScan(rest, count))))
      else None
    case Owning(ExMark(other, todo, count)) =>
      if other in s.cpus && other != c
      then Some(At(s.(cpus := s.cpus[other := s.cpus[other].(hasWaiter := true)]), c, Owning(ExScan(todo, count + 1))))
      else None
    case _ => None
  }

  /** The wait for the counted vCPUs, and the section itself. */
  function OwnerMove(me: Cpu, c: CpuId, pending: nat, lock: Option<CpuId>, choice: Choice): Option<Move> {
    match me.pc
    case Owning(ExWait) =>
      if pending > 1 then Some(Move(me.(pc := Owning(ExWaitParked)), None))
          else Some(Move(me.(pc := Owning(ExUnlock)), lock))
    case Owning(ExWaitParked) => if choice == Spurious then Some(Move(me.(pc := Owning(ExWaitWoken)), lock)) else None
    case Owning(ExWaitWoken) => Acquire(me, c, lock, Owning(ExWait))
    case Owning(ExUnlock) => Some(Move(me.(pc := Owning(ExReturn)), None))
    case Owning(ExReturn) => Some(Move(me.(pc := Owning(InExclusive), depth := 1), lock))
    case Owning(InExclusive) =>
      if choice == EnterExclusive then Some(Move(me.(depth := me.depth + 1), lock))
      else if choice == LeaveExclusive && me.depth > 1 then Some(Move(me.(depth := me.depth - 1), lock))
      else if choice == LeaveExclusive then Some(Move(me.(pc := Owning(FinLock), depth := 0), lock))
      else if choice == StepGuest then Some(Move(me.(pc := Owning(InExclusiveStep), running := true), lock))
      else None
    case Owning(InExclusiveStep) =>
      if choice == StepGuest then Some(Move(me.(pc := Owning(InExclusive), running := false), lock)) else None
    case Owning(FinLock) => Acquire(me, c, lock, Owning(FinReset))
    case _ => None
  }

  /** The reset of pending_cpus and the broadcast in end_exclusive. */
  function FinishStep(s: State, c: CpuId): Option<State>
    requires c in s.cpus
  {
    match s.cpus[c].pc
    case Owning(FinReset) => Some(At(s, c, Finishing(FinBroadcast)).(pending := 0))
    case Finishing(FinBroadcast) =>
      var s1 := At(s, c, Finishing(FinUnlock));
      Some(s1.(cpus := map d | d in s1.cpus :: WakeResume(s1.cpus[d])))
    case _ => None
  }

  /** cpu_list_add and cpu_list_remove run under the list lock; a vCPU is unplugged only
      after its thread has stopped. */
  function Step(s: State, a: Action): Option<State> {
    match a
    case Run(c, choice) =>
      if c !in s.cpus then None else
        var plain := PlainMove(s.cpus[c], c, s.pending, s.lock, choice);
        var mine := OwnerMove(s.cpus[c], c, s.pending, s.lock, choice);
        if plain.Some? then Some(s.(cpus := s.cpus[c := plain.value.me], lock := plain.value.lock))
        else if mine.Some? then Some(s.(cpus := s.cpus[c := mine.value.me], lock := mine.value.lock))
        else if ReleaseStep(s, c).Some? then ReleaseStep(s, c)
        else if CollectStep(s, c, choice).Some? then CollectStep(s, c, choice)
        else FinishStep(s, c)
    case Plug(c) =>
      if c in s.cpus || s.lock != None then None
      else Some(s.(cpus := s.cpus[c := Cpu(Outside, false, false, 0)]))
    case Unplug(c) =>
      if c !in s.cpus || s.lock != None || s.cpus[c].pc != Outside then None
      else Some(s.(cpus := map d | d in s.cpus && d != c :: s.cpus[d]))
  }

  /** A run is any sequence of enabled actions, by any number of vCPUs, in any order. */
  ghost predicate Reaches(s: State, run: seq<Action>, s': State)
    decreases run
  {
    if run == [] then s' == s
    else Step(s, run[0]).Some? && Reaches(Step(s, run[0]).value, run[1..], s')
  }

  // ----- the inductive invariant -----

  predicate HoldsLock(pc: Pc) {
    match pc
    case Starting(p) => p.StartLocked? || p.StartIdle? || p.StartReset? || p.StartUnlock?
    case Ending(p) => p.EndLocked? || p.EndDecrement? || p.EndSignal? || p.EndUnlock?
    case Queued(p) => p.ExIdle? || p.ExAnnounce?
    case Owning(p) => Scanning(p) || p.ExWait? || p.ExUnlock? || p.FinReset?
    case Finishing(_) => true
    case _ => false
  }

  predicate RunningAt(pc: Pc) {
    match pc
    case Guest => true
    case Starting(p) => p.StartCheck? || p.StartLock? || p.StartLocked? || p.StartUnlock?
    case Owning(p) => p.InExclusiveStep?
    case _ => false
  }

  predicate Scanning(p: OwnPc) {
    p.ExScan? || p.ExMark?
  }

  /** The section has been handed out and pending_cpus has not been reset. */
  predicate Exclusive(p: OwnPc) {
    p.ExUnlock? || p.ExReturn? || p.InExclusive? || p.InExclusiveStep? || p.FinLock? || p.FinReset?
  }

  /** Where a vCPU marked by start_exclusive can be: it has still to pass the locked part
      of cpu_exec_end. */
  predicate MarkedAt(pc: Pc) {
    match pc
    case Guest => true
    case Starting(p) => p.StartCheck? || p.StartLock? || p.StartLocked? || p.StartUnlock?
    case Ending(p) => p.EndCheck? || p.EndLock? || p.EndLocked?
    case _ => false
  }

  predicate Admitted(pc: Pc) {
    pc.Guest? || pc == Starting(StartUnlock) || pc == Starting(StartReset)
  }

  function Marked(s: State): set<CpuId> {
    set c | c in s.cpus && s.cpus[c].hasWaiter
  }

  predicate HolderAt(s: State, pc: Pc) {
    s.lock.Some? && s.lock.value in s.cpus && s.cpus[s.lock.value].pc == pc
  }

  /** Decrements of pending_cpus that are still to come. */
  function Owed(s: State): nat {
    |Marked(s)| + if HolderAt(s, Ending(EndDecrement)) then 1 else 0
  }

  /** What one thread contributes to the invariant. */
  predicate CpuInv(me: Cpu, c: CpuId, lock: Option<CpuId>, owner: Option<CpuId>) {
    && (HoldsLock(me.pc) <==> lock == Some(c))
    && (me.pc.Owning? <==> owner == Some(c))
    && me.running == RunningAt(me.pc)
    && (me.depth > 0 <==> me.pc == Owning(InExclusive) || me.pc == Owning(InExclusiveStep))
    && (me.hasWaiter ==> MarkedAt(me.pc))
    && (owner.Some? ==>
          && me.pc != Queued(ExAnnounce) && me.pc != Starting(StartReset)
          && me.pc != Finishing(FinBroadcast) && me.pc != Finishing(FinUnlock))
    && (owner.None? ==> !me.hasWaiter && me.pc != Ending(EndDecrement) && me.pc != Ending(EndSignal))
  }

  ghost predicate AllCpusInv(s: State, owner: Option<CpuId>) {
    && (s.lock.Some? ==> s.lock.value in s.cpus)
    && (owner.Some? ==> owner.value in s.cpus && s.cpus[owner.value].pc.Owning?)
    && forall c :: c in s.cpus ==> CpuInv(s.cpus[c], c, s.lock, owner)
  }

  predicate Parked(pc: Pc) {
    pc == Starting(StartParked) || pc == Queued(ExParked)
  }

  ghost predicate NoOwnerInv(s: State) {
    && s.pending == 0
    && (forall c :: c in s.cpus && Parked(s.cpus[c].pc) ==> HolderAt(s, Finishing(FinBroadcast)))
  }

  /** While start_exclusive walks the vCPU list: seen is a vCPU just found running, todo is the rest. */
  ghost predicate ScanInv(s: State, o: CpuId, seen: Option<CpuId>, todo: set<CpuId>, count: nat) {
    && s.pending == 1
    && count == |Marked(s)|
    && todo <= s.cpus.Keys
    && (forall c :: c in todo ==> !s.cpus[c].hasWaiter)
    && (forall c :: c in s.cpus && Admitted(s.cpus[c].pc) && c !in todo && Some(c) != seen ==> s.cpus[c].hasWaiter)
    && (seen.Some? ==>
          && seen.value in s.cpus && seen.value !in todo && seen.value != o
          && !s.cpus[seen.value].hasWaiter
          && MarkedAt(s.cpus[seen.value].pc))
  }

  /** Once the list has been walked. */
  ghost predicate CountedInv(s: State, pc: OwnPc) {
    && s.pending == 1 + Owed(s)
    && (Exclusive(pc) ==> s.pending == 1 && !HolderAt(s, Ending(EndSignal)))
    && (pc.ExWaitParked? ==> s.pending > 1 || HolderAt(s, Ending(EndSignal)))
    && (forall c :: c in s.cpus && Admitted(s.cpus[c].pc) ==> s.cpus[c].hasWaiter)
  }

  ghost predicate PhaseInv(s: State, owner: Option<CpuId>)
    requires owner.Some? ==> owner.value in s.cpus && s.cpus[owner.value].pc.Owning?
  {
    if owner.None? then NoOwnerInv(s)
    else
      var pc := s.cpus[owner.value].pc.own;
      if pc.ExScan? then ScanInv(s, owner.value, None, pc.todo, pc.count)
      else if pc.ExMark? then ScanInv(s, owner.value, Some(pc.other), pc.todo, pc.count)
      else CountedInv(s, pc)
  }

  /** The invariant, with the thread that owns pending_cpus, if there is one. */
  ghost predicate Inv(s: State, owner: Option<CpuId>) {
    AllCpusInv(s, owner) && PhaseInv(s, owner)
  }

  // ----- every step keeps the invariant -----

  lemma MarkedUnchanged(s: State, s': State)
    requires s'.cpus.Keys == s.cpus.Keys
    requires forall c :: c in s.cpus ==> s'.cpus[c].hasWaiter == s.cpus[c].hasWaiter
    ensures Marked(s') == Marked(s)
  {
  }

  lemma MarkedMember(s: State, c: CpuId)
    requires c in s.cpus && s.cpus[c].hasWaiter
    ensures c in Marked(s) && |Marked(s)| > 0
  {
  }

  predicate Quiet(pc: Pc) {
    !pc.Owning? && pc != Ending(EndDecrement) && pc != Ending(EndSignal) && pc != Finishing(FinBroadcast)
  }

  predicate LockMove(lock: Option<CpuId>, c: CpuId, lock': Option<CpuId>) {
    lock' == lock || (lock == Some(c) && lock' == None) || (lock == None && lock' == Some(c))
  }

  lemma MoveKeepsCpus(s: State, owner: Option<CpuId>, c: CpuId, me: Cpu, pending: nat, lock: Option<CpuId>)
    requires AllCpusInv(s, owner) && c in s.cpus
    requires LockMove(s.lock, c, lock) && CpuInv(me, c, lock, owner)
    ensures AllCpusInv(State(s.cpus[c := me], pending, lock), owner)
  {
  }

  lemma MoveKeepsHolder(s: State, c: CpuId, me: Cpu, pending: nat, lock: Option<CpuId>, pc: Pc)
    requires c in s.cpus && LockMove(s.lock, c, lock)
    requires (s.cpus[c].pc == pc && s.lock == Some(c)) <==> (me.pc == pc && lock == Some(c))
    requires s.lock == Some(c) && lock == None ==> s.cpus[c].pc != pc
    ensures HolderAt(State(s.cpus[c := me], pending, lock), pc) == HolderAt(s, pc)
  {
  }

  /** A thread that owns nothing moves, and pending_cpus and the marks stay as they are. */
  predicate PlainMoveOk(me: Cpu, me': Cpu, c: CpuId, pending: nat, lock: Option<CpuId>, lock': Option<CpuId>,
                        owner: Option<CpuId>) {
    && Quiet(me.pc) && Quiet(me'.pc)
    && me'.hasWaiter == me.hasWaiter
    && LockMove(lock, c, lock') && CpuInv(me', c, lock', owner)
    && (Admitted(me'.pc) ==> Admitted(me.pc) || me.hasWaiter || owner == None)
    && (Parked(me'.pc) ==> pending != 0)
    && (MarkedAt(me.pc) && lock.Some? && lock != Some(c) ==> MarkedAt(me'.pc) || pending == 0)
  }

  lemma StartMoveIsOk(me: Cpu, c: CpuId, pending: nat, lock: Option<CpuId>, choice: Choice, owner: Option<CpuId>)
    requires CpuInv(me, c, lock, owner) && (pending == 0 <==> owner == None)
    requires StartMove(me, c, pending, lock, choice).Some?
    ensures var m := StartMove(me, c, pending, lock, choice).value;
            PlainMoveOk(me, m.me, c, pending, lock, m.lock, owner)
  {
  }

  lemma EndMoveIsOk(me: Cpu, c: CpuId, pending: nat, lock: Option<CpuId>, owner: Option<CpuId>)
    requires CpuInv(me, c, lock, owner) && (pending == 0 <==> owner == None)
    requires EndMove(me, c, pending, lock).Some?
    ensures var m := EndMove(me, c, pending, lock).value;
            PlainMoveOk(me, m.me, c, pending, lock, m.lock, owner)
  {
  }

  lemma IdleMoveIsOk(me: Cpu, c: CpuId, pending: nat, lock: Option<CpuId>, choice: Choice, owner: Option<CpuId>)
    requires CpuInv(me, c, lock, owner) && (pending == 0 <==> owner == None)
    requires IdleMove(me, c, pending, lock, choice).Some?
    ensures var m := IdleMove(me, c, pending, lock, choice).value;
            PlainMoveOk(me, m.me, c, pending, lock, m.lock, owner)
  {
  }

  lemma PendingMeansOwned(s: State, owner: Option<CpuId>)
    requires Inv(s, owner)
    ensures s.pending == 0 <==> owner == None
  {
  }

  lemma PlainMoveKeepsScan(s: State, o: CpuId, seen: Option<CpuId>, todo: set<CpuId>, count: nat, c: CpuId, me: Cpu,
                           lock: Option<CpuId>)
    requires ScanInv(s, o, seen, todo, count) && c in s.cpus && c != o && s.lock == Some(o)
    requires PlainMoveOk(s.cpus[c], me, c, s.pending, s.lock, lock, Some(o))
    ensures ScanInv(State(s.cpus[c := me], s.pending, lock), o, seen, todo, count)
  {
    MarkedUnchanged(s, State(s.cpus[c := me], s.pending, lock));
  }

  lemma PlainMoveKeepsCounted(s: State, pc: OwnPc, c: CpuId, me: Cpu, lock: Option<CpuId>, o: CpuId)
    requires CountedInv(s, pc) && c in s.cpus
    requires PlainMoveOk(s.cpus[c], me, c, s.pending, s.lock, lock, Some(o))
    ensures CountedInv(State(s.cpus[c := me], s.pending, lock), pc)
  {
    MarkedUnchanged(s, State(s.cpus[c := me], s.pending, lock));
    MoveKeepsHolder(s, c, me, s.pending, lock, Ending(EndDecrement));
    MoveKeepsHolder(s, c, me, s.pending, lock, Ending(EndSignal));
  }

  lemma PlainMoveKeepsInv(s: State, owner: Option<CpuId>, c: CpuId, me: Cpu, lock: Option<CpuId>)
    requires Inv(s, owner) && c in s.cpus
    requires PlainMoveOk(s.cpus[c], me, c, s.pending, s.lock, lock, owner)
    ensures Inv(State(s.cpus[c := me], s.pending, lock), owner)
  {
    MoveKeepsCpus(s, owner, c, me, s.pending, lock);
    if owner.Some? {
      var pc := s.cpus[owner.value].pc.own;
      assert CpuInv(s.cpus[owner.value], owner.value, s.lock, owner);
      if pc.ExScan? {
        PlainMoveKeepsScan(s, owner.value, None, pc.todo, pc.count, c, me, lock);
      } else if pc.ExMark? {
        PlainMoveKeepsScan(s, owner.value, Some(pc.other), pc.todo, pc.count, c, me, lock);
      } else {
        PlainMoveKeepsCounted(s, pc, c, me, lock, owner.value);
      }
    } else {
      MoveKeepsHolder(s, c, me, s.pending, lock, Finishing(FinBroadcast));
    }
  }

  lemma OwnerMoveIsOk(me: Cpu, c: CpuId, pending: nat, lock: Option<CpuId>, choice: Choice, owner: Option<CpuId>)
    requires CpuInv(me, c, lock, owner) && OwnerMove(me, c, pending, lock, choice).Some?
    ensures owner == Some(c) && me.pc.Owning? && !Scanning(me.pc.own)
    ensures var m := OwnerMove(me, c, pending, lock, choice).value;
            && m.me.pc.Owning? && !Scanning(m.me.pc.own) && m.me.hasWaiter == me.hasWaiter
            && CpuInv(m.me, c, m.lock, owner) && LockMove(lock, c, m.lock)
            && (Exclusive(m.me.pc.own) ==> Exclusive(me.pc.own) || (pending <= 1 && lock == Some(c)))
            && (m.me.pc.own.ExWaitParked? ==> pending > 1)
  {
  }

  lemma OwnerMoveKeepsInv(s: State, owner: Option<CpuId>, c: CpuId, choice: Choice)
    requires Inv(s, owner) && c in s.cpus && OwnerMove(s.cpus[c], c, s.pending, s.lock, choice).Some?
    ensures var m := OwnerMove(s.cpus[c], c, s.pending, s.lock, choice).value;
            Inv(State(s.cpus[c := m.me], s.pending, m.lock), owner)
  {
    assert CpuInv(s.cpus[c], c, s.lock, owner);
    OwnerMoveIsOk(s.cpus[c], c, s.pending, s.lock, choice, owner);
    var m := OwnerMove(s.cpus[c], c, s.pending, s.lock, choice).value;
    OwnerChangeKeepsInv(s, c, m.me, m.lock);
  }

  lemma OwnerChangeKeepsInv(s: State, c: CpuId, me: Cpu, lock: Option<CpuId>)
    requires Inv(s, Some(c)) && !Scanning(s.cpus[c].pc.own)
    requires me.pc.Owning? && !Scanning(me.pc.own) && me.hasWaiter == s.cpus[c].hasWaiter
    requires CpuInv(me, c, lock, Some(c)) && LockMove(s.lock, c, lock)
    requires Exclusive(me.pc.own) ==> Exclusive(s.cpus[c].pc.own) || (s.pending <= 1 && s.lock == Some(c))
    requires me.pc.own.ExWaitParked? ==> s.pending > 1
    ensures Inv(State(s.cpus[c := me], s.pending, lock), Some(c))
  {
    var s' := State(s.cpus[c := me], s.pending, lock);
    MarkedUnchanged(s, s');
    MoveKeepsCpus(s, Some(c), c, me, s.pending, lock);
    MoveKeepsHolder(s, c, me, s.pending, lock, Ending(EndDecrement));
    MoveKeepsHolder(s, c, me, s.pending, lock, Ending(EndSignal));
    assert CountedInv(s', me.pc.own);
  }

  /** The vCPU at EndLocked, EndDecrement or EndSignal holds the lock, so the owner is waiting for it. */
  lemma ReleaserHasWaiter(s: State, owner: Option<CpuId>, c: CpuId)
    requires Inv(s, owner) && c in s.cpus && ReleaseStep(s, c).Some?
    ensures s.lock == Some(c) && owner.Some? && owner != Some(c)
    ensures !Scanning(s.cpus[owner.value].pc.own) && CountedInv(s, s.cpus[owner.value].pc.own)
    ensures !Exclusive(s.cpus[owner.value].pc.own)
  {
    assert CpuInv(s.cpus[c], c, s.lock, owner);
    assert CpuInv(s.cpus[owner.value], owner.value, s.lock, owner);
    if s.cpus[c].hasWaiter {
      MarkedMember(s, c);
    }
  }

  lemma UnmarkKeepsInv(s: State, owner: Option<CpuId>, c: CpuId)
    requires Inv(s, owner) && c in s.cpus && ReleaseStep(s, c).Some? && s.cpus[c].pc == Ending(EndLocked)
    ensures Inv(ReleaseStep(s, c).value, owner)
  {
    var s' := ReleaseStep(s, c).value;
    ReleaserHasWaiter(s, owner, c);
    MarkedMember(s, c);
    assert Marked(s') == Marked(s) - {c};
    MoveKeepsCpus(s, owner, c, s'.cpus[c], s.pending, s.lock);
    assert CountedInv(s', s.cpus[owner.value].pc.own);
  }

  lemma DecrementKeepsInv(s: State, owner: Option<CpuId>, c: CpuId)
    requires Inv(s, owner) && c in s.cpus && ReleaseStep(s, c).Some? && s.cpus[c].pc == Ending(EndDecrement)
    ensures Inv(ReleaseStep(s, c).value, owner)
  {
    var s' := ReleaseStep(s, c).value;
    ReleaserHasWaiter(s, owner, c);
    MarkedUnchanged(s, s');
    MoveKeepsCpus(s, owner, c, s'.cpus[c], s'.pending, s.lock);
    assert CountedInv(s', s.cpus[owner.value].pc.own);
  }

  lemma WakeWaiterIsOk(me: Cpu, d: CpuId, lock: Option<CpuId>, owner: Option<CpuId>)
    requires CpuInv(me, d, lock, owner)
    ensures CpuInv(WakeWaiter(me), d, lock, owner) && WakeWaiter(me).hasWaiter == me.hasWaiter
    ensures Admitted(WakeWaiter(me).pc) == Admitted(me.pc)
  {
  }

  lemma SignalKeepsInv(s: State, owner: Option<CpuId>, c: CpuId)
    requires Inv(s, owner) && c in s.cpus && ReleaseStep(s, c).Some? && s.cpus[c].pc == Ending(EndSignal)
    ensures Inv(ReleaseStep(s, c).value, owner)
  {
    var s' := ReleaseStep(s, c).value;
    ReleaserHasWaiter(s, owner, c);
    var s1 := At(s, c, Ending(EndUnlock));
    MarkedUnchanged(s, s1);
    MoveKeepsCpus(s, owner, c, s1.cpus[c], s.pending, s.lock);
    if s.pending == 1 {
      forall d | d in s1.cpus
        ensures CpuInv(s'.cpus[d], d, s'.lock, owner) && Admitted(s'.cpus[d].pc) == Admitted(s1.cpus[d].pc)
        ensures s'.cpus[d].hasWaiter == s1.cpus[d].hasWaiter
      {
        WakeWaiterIsOk(s1.cpus[d], d, s1.lock, owner);
      }
      MarkedUnchanged(s1, s');
    }
    assert CountedInv(s', s'.cpus[owner.value].pc.own);
  }

  lemma AnnounceKeepsInv(s: State, owner: Option<CpuId>, c: CpuId, choice: Choice)
    requires Inv(s, owner) && c in s.cpus && s.cpus[c].pc == Queued(ExAnnounce)
    ensures Inv(CollectStep(s, c, choice).value, Some(c))
  {
    var s' := CollectStep(s, c, choice).value;
    forall d | d in s.cpus
      ensures CpuInv(s'.cpus[d], d, s'.lock, Some(c)) && !s.cpus[d].hasWaiter
    {
      assert CpuInv(s.cpus[d], d, s.lock, owner);
      assert CpuInv(s.cpus[c], c, s.lock, owner);
    }
    assert Marked(s') == {};
    assert ScanInv(s', c, None, s.cpus.Keys, 0);
  }

  lemma VisitKeepsInv(s: State, owner: Option<CpuId>, c: CpuId, choice: Choice)
    requires Inv(s, owner) && c in s.cpus && CollectStep(s, c, choice).Some?
    requires s.cpus[c].pc.Owning? && s.cpus[c].pc.own.ExScan? && s.cpus[c].pc.own.todo != {}
    ensures Inv(CollectStep(s, c, choice).value, owner)
  {
    var s' := CollectStep(s, c, choice).value;
    var pc := s'.cpus[c].pc.own;
    assert CpuInv(s.cpus[c], c, s.lock, owner);
    assert CpuInv(s.cpus[choice.other], choice.other, s.lock, owner);
    MarkedUnchanged(s, s');
    MoveKeepsCpus(s, owner, c, s'.cpus[c], s.pending, s.lock);
    assert ScanInv(s', c, if pc.ExMark? then Some(choice.other) else None, pc.todo, pc.count);
  }

  lemma CountKeepsInv(s: State, owner: Option<CpuId>, c: CpuId, choice: Choice)
    requires Inv(s, owner) && c in s.cpus
    requires s.cpus[c].pc.Owning? && s.cpus[c].pc.own.ExScan? && s.cpus[c].pc.own.todo == {}
    ensures Inv(CollectStep(s, c, choice).value, owner)
  {
    var s' := CollectStep(s, c, choice).value;
    assert CpuInv(s.cpus[c], c, s.lock, owner);
    MarkedUnchanged(s, s');
    MoveKeepsCpus(s, owner, c, s'.cpus[c], s'.pending, s.lock);
    assert CountedInv(s', ExWait);
  }

  lemma MarkKeepsInv(s: State, owner: Option<CpuId>, c: CpuId, choice: Choice)
    requires Inv(s, owner) && c in s.cpus && CollectStep(s, c, choice).Some?
    requires s.cpus[c].pc.Owning? && s.cpus[c].pc.own.ExMark?
    ensures Inv(CollectStep(s, c, choice).value, owner)
  {
    var pc := s.cpus[c].pc.own;
    assert CpuInv(s.cpus[c], c, s.lock, owner);
    assert CpuInv(s.cpus[pc.other], pc.other, s.lock, owner);
    MarkKeepsScan(s, c, pc.other, pc.todo, pc.count);
    var mid := s.(cpus := s.cpus[pc.other := s.cpus[pc.other].(hasWaiter := true)]);
    MoveKeepsCpus(s, owner, pc.other, mid.cpus[pc.other], s.pending, s.lock);
    MoveKeepsCpus(mid, owner, c, At(mid, c, Owning(ExScan(pc.todo, pc.count + 1))).cpus[c], s.pending, s.lock);
  }

  lemma MarkKeepsScan(s: State, c: CpuId, other: CpuId, todo: set<CpuId>, count: nat)
    requires ScanInv(s, c, Some(other), todo, count) && c in s.cpus
    ensures var mid := s.(cpus := s.cpus[other := s.cpus[other].(hasWaiter := true)]);
            ScanInv(At(mid, c, Owning(ExScan(todo, count + 1))), c, None, todo, count + 1)
  {
    var mid := s.(cpus := s.cpus[other := s.cpus[other].(hasWaiter := true)]);
    var s' := At(mid, c, Owning(ExScan(todo, count + 1)));
    assert Marked(s') == Marked(s) + {other};
  }

  lemma ResetKeepsInv(s: State, owner: Option<CpuId>, c: CpuId)
    requires Inv(s, owner) && c in s.cpus && s.cpus[c].pc == Owning(FinReset)
    ensures Inv(FinishStep(s, c).value, None)
  {
    var s' := FinishStep(s, c).value;
    assert CpuInv(s.cpus[c], c, s.lock, owner);
    assert Marked(s) == {} && s.lock == Some(c);
    forall d | d in s.cpus
      ensures CpuInv(s'.cpus[d], d, s'.lock, None)
    {
      assert CpuInv(s.cpus[d], d, s.lock, owner);
      assert d !in Marked(s);
    }
  }

  lemma BroadcastKeepsInv(s: State, owner: Option<CpuId>, c: CpuId)
    requires Inv(s, owner) && c in s.cpus && s.cpus[c].pc == Finishing(FinBroadcast)
    ensures owner == None && Inv(FinishStep(s, c).value, None)
  {
    var s' := FinishStep(s, c).value;
    assert CpuInv(s.cpus[c], c, s.lock, owner);
    forall d | d in s.cpus
      ensures CpuInv(s'.cpus[d], d, s'.lock, None) && !Parked(s'.cpus[d].pc)
    {
      assert CpuInv(s.cpus[d], d, s.lock, owner);
    }
  }

  lemma PlainStepKeepsInv(s: State, owner: Option<CpuId>, c: CpuId, choice: Choice)
    requires Inv(s, owner) && c in s.cpus && PlainMove(s.cpus[c], c, s.pending, s.lock, choice).Some?
    ensures var m := PlainMove(s.cpus[c], c, s.pending, s.lock, choice).value;
            Inv(State(s.cpus[c := m.me], s.pending, m.lock), owner)
  {
    var me := s.cpus[c];
    var m := PlainMove(me, c, s.pending, s.lock, choice).value;
    assert CpuInv(me, c, s.lock, owner);
    PendingMeansOwned(s, owner);
    assert PlainMoveOk(me, m.me, c, s.pending, s.lock, m.lock, owner) by {
      if StartMove(me, c, s.pending, s.lock, choice).Some? {
        StartMoveIsOk(me, c, s.pending, s.lock, choice, owner);
      } else if EndMove(me, c, s.pending, s.lock).Some? {
        EndMoveIsOk(me, c, s.pending, s.lock, owner);
      } else {
        IdleMoveIsOk(me, c, s.pending, s.lock, choice, owner);
      }
    }
    PlainMoveKeepsInv(s, owner, c, m.me, m.lock);
  }

  lemma SharedStepKeepsInv(s: State, owner: Option<CpuId>, c: CpuId, choice: Choice)
    requires Inv(s, owner) && c in s.cpus
    ensures ReleaseStep(s, c).Some? ==> Inv(ReleaseStep(s, c).value, owner)
    ensures CollectStep(s, c, choice).Some? ==> Inv(CollectStep(s, c, choice).value, Some(c))
    ensures FinishStep(s, c).Some? ==> Inv(FinishStep(s, c).value, None)
  {
    assert CpuInv(s.cpus[c], c, s.lock, owner);
    match s.cpus[c].pc
    case Ending(EndLocked) => if s.cpus[c].hasWaiter { UnmarkKeepsInv(s, owner, c); }
    case Ending(EndDecrement) => if s.pending > 0 { DecrementKeepsInv(s, owner, c); }
    case Ending(EndSignal) => SignalKeepsInv(s, owner, c);
    case Queued(ExAnnounce) => AnnounceKeepsInv(s, owner, c, choice);
    case Owning(ExScan(todo, _)) =>
      if todo == {} { CountKeepsInv(s, owner, c, choice); }
      else if CollectStep(s, c, choice).Some? { VisitKeepsInv(s, owner, c, choice); }
    case Owning(ExMark(_, _, _)) =>
      if CollectStep(s, c, choice).Some? { MarkKeepsInv(s, owner, c, choice); }
    case Owning(FinReset) => ResetKeepsInv(s, owner, c);
    case Finishing(FinBroadcast) => BroadcastKeepsInv(s, owner, c);
    case _ =>
  }

  lemma PlugKeepsInv(s: State, owner: Option<CpuId>, a: Action)
    requires Inv(s, owner) && !a.Run? && Step(s, a).Some?
    ensures Inv(Step(s, a).value, owner)
  {
    var s' := Step(s, a).value;
    assert a.cpu in s.cpus ==> CpuInv(s.cpus[a.cpu], a.cpu, s.lock, owner);
    assert Marked(s') == Marked(s);
  }

  lemma StepKeepsInv(s: State, owner: Option<CpuId>, a: Action) returns (owner': Option<CpuId>)
    requires Inv(s, owner) && Step(s, a).Some?
    ensures Inv(Step(s, a).value, owner')
  {
    owner' := owner;
    if a.Run? {
      var c, choice := a.cpu, a.choice;
      if PlainMove(s.cpus[c], c, s.pending, s.lock, choice).Some? {
        PlainStepKeepsInv(s, owner, c, choice);
      } else if OwnerMove(s.cpus[c], c, s.pending, s.lock, choice).Some? {
        OwnerMoveKeepsInv(s, owner, c, choice);
      } else {
        SharedStepKeepsInv(s, owner, c, choice);
        owner' := if ReleaseStep(s, c).Some? then owner else if CollectStep(s, c, choice).Some? then Some(c) else None;
      }
    } else {
      PlugKeepsInv(s, owner, a);
    }
  }

  lemma {:induction false} RunKeepsInv(s: State, owner: Option<CpuId>, run: seq<Action>, s': State)
    returns (owner': Option<CpuId>)
    requires Inv(s, owner) && Reaches(s, run, s')
    ensures Inv(s', owner')
    decreases run
  {
    if run == [] {
      owner' := owner;
    } else {
      var next := StepKeepsInv(s, owner, run[0]);
      owner' := RunKeepsInv(Step(s, run[0]).value, next, run[1..], s');
    }
  }

  /** Every state of every run satisfies the invariant. */
  lemma ReachableInv(s0: State, run: seq<Action>, s: State) returns (owner: Option<CpuId>)
    requires Init(s0) && Reaches(s0, run, s)
    ensures Inv(s, owner)
  {
    assert Marked(s0) == {};
    owner := RunKeepsInv(s0, None, run, s);
  }

  // ----- what the protocol is for -----

  predicate InSection(s: State, c: CpuId) {
    c in s.cpus && s.cpus[c].pc.Owning? && Exclusive(s.cpus[c].pc.own)
  }

  /** Mutual exclusion: from before the return of the outermost start_exclusive until
      end_exclusive resets pending_cpus, no vCPU executes guest code and no second vCPU
      is in a section.  This holds although another vCPU may have running set. */
  lemma MutualExclusion(s0: State, run: seq<Action>, s: State, c: CpuId)
    requires Init(s0) && Reaches(s0, run, s) && InSection(s, c)
    ensures forall d :: d in s.cpus ==> !s.cpus[d].pc.Guest?
    ensures forall d :: InSection(s, d) ==> d == c
  {
    var owner := ReachableInv(s0, run, s);
    assert CpuInv(s.cpus[c], c, s.lock, owner);
    forall d | d in s.cpus
      ensures !s.cpus[d].pc.Guest?
    {
      if s.cpus[d].hasWaiter {
        MarkedMember(s, d);
      }
    }
    forall d | InSection(s, d)
      ensures d == c
    {
      assert CpuInv(s.cpus[d], d, s.lock, owner);
    }
  }

  /** Accounting: whenever the list lock is free, pending_cpus is 0 and nobody is marked, or
      it is one more than the number of marked vCPUs; it is non-zero exactly while some
      thread is between its announcement and its reset. */
  lemma PendingCountsMarks(s0: State, run: seq<Action>, s: State)
    requires Init(s0) && Reaches(s0, run, s)
    ensures s.lock == None ==> (s.pending == 0 && Marked(s) == {}) || s.pending == 1 + |Marked(s)|
    ensures s.pending != 0 <==> exists c :: c in s.cpus && s.cpus[c].pc.Owning?
  {
    var owner := ReachableInv(s0, run, s);
    PendingMeansOwned(s, owner);
    forall d | d in s.cpus
      ensures CpuInv(s.cpus[d], d, s.lock, owner)
    {
    }
  }

  /** No lost wakeup on exclusive_cond: at most one thread sleeps there, and while it does,
      either the signal is about to be sent, or some vCPU has still to pass the locked part
      of cpu_exec_end. */
  lemma WaiterWillBeSignalled(s0: State, run: seq<Action>, s: State, c: CpuId) returns (d: CpuId)
    requires Init(s0) && Reaches(s0, run, s)
    requires c in s.cpus && s.cpus[c].pc == Owning(ExWaitParked)
    ensures forall e :: e in s.cpus && s.cpus[e].pc == Owning(ExWaitParked) ==> e == c
    ensures d in s.cpus
    ensures s.pending > 1 ==> s.cpus[d].hasWaiter || s.cpus[d].pc == Ending(EndDecrement)
    ensures s.pending <= 1 ==> s.pending == 1 && s.cpus[d].pc == Ending(EndSignal)
    ensures s.cpus[d].hasWaiter ==> MarkedAt(s.cpus[d].pc)
  {
    var owner := ReachableInv(s0, run, s);
    assert CpuInv(s.cpus[c], c, s.lock, owner);
    forall e | e in s.cpus && s.cpus[e].pc == Owning(ExWaitParked)
      ensures e == c
    {
      assert CpuInv(s.cpus[e], e, s.lock, owner);
    }
    if HolderAt(s, Ending(EndSignal)) && s.pending <= 1 {
      d := s.lock.value;
    } else if HolderAt(s, Ending(EndDecrement)) {
      d := s.lock.value;
    } else {
      assert |Marked(s)| > 0;
      d :| d in Marked(s);
    }
    assert CpuInv(s.cpus[d], d, s.lock, owner);
  }

  /** No lost wakeup on exclusive_resume: who sleeps there does so while a section is
      announced, or just before the broadcast that ends it. */
  lemma SleeperWillBeResumed(s0: State, run: seq<Action>, s: State, c: CpuId)
    requires Init(s0) && Reaches(s0, run, s) && c in s.cpus && Parked(s.cpus[c].pc)
    ensures s.pending != 0 || HolderAt(s, Finishing(FinBroadcast))
  {
    var owner := ReachableInv(s0, run, s);
    PendingMeansOwned(s, owner);
  }

  /** A thread inside one of the four functions. */
  predicate MidCall(pc: Pc) {
    !pc.Outside? && !pc.Guest? && pc != Owning(InExclusive) && pc != Owning(InExclusiveStep)
  }

  /** The thread has a step of its own to take, without any wakeup. */
  ghost predicate CanStep(s: State, c: CpuId) {
    exists choice :: choice != Spurious && Step(s, Run(c, choice)).Some?
  }

  lemma ScanCanStep(s: State, c: CpuId)
    requires c in s.cpus && s.cpus[c].pc.Owning? && s.cpus[c].pc.own.ExScan? && s.cpus[c].pc.own.todo <= s.cpus.Keys
    ensures CanStep(s, c)
  {
    var todo := s.cpus[c].pc.own.todo;
    if todo == {} {
      assert Step(s, Run(c, Go)).Some?;
    } else {
      var d :| d in todo;
      assert Step(s, Run(c, Visit(d))).Some?;
    }
  }

  lemma StuckThread(s: State, owner: Option<CpuId>, c: CpuId)
    requires Inv(s, owner) && c in s.cpus && MidCall(s.cpus[c].pc) && !CanStep(s, c)
    ensures s.lock != Some(c)
    ensures s.lock == None ==> Parked(s.cpus[c].pc) || s.cpus[c].pc == Owning(ExWaitParked)
  {
    assert CpuInv(s.cpus[c], c, s.lock, owner);
    PendingMeansOwned(s, owner);
    assert Step(s, Run(c, Go)).None?;
    if s.cpus[c].pc.Owning? && s.cpus[c].pc.own.ExScan? {
      ScanCanStep(s, c);
    }
  }

  lemma SleepersHaveWaker(s: State, owner: Option<CpuId>, c: CpuId) returns (d: CpuId)
    requires Inv(s, owner) && s.lock == None
    requires c in s.cpus && (Parked(s.cpus[c].pc) || s.cpus[c].pc == Owning(ExWaitParked))
    ensures d in s.cpus
    ensures (s.cpus[d].hasWaiter && MarkedAt(s.cpus[d].pc)) ||
            (s.cpus[d].pc.Owning? && s.cpus[d].pc != Owning(ExWaitParked))
  {
    assert CpuInv(s.cpus[c], c, s.lock, owner);
    var o := owner.value;
    assert CpuInv(s.cpus[o], o, s.lock, owner);
    if s.cpus[o].pc == Owning(ExWaitParked) {
      assert |Marked(s)| > 0;
      d :| d in Marked(s);
      assert CpuInv(s.cpus[d], d, s.lock, owner);
    } else {
      d := o;
    }
  }

  /** The protocol never deadlocks: if no thread that is inside a call can move, all of them
      are asleep, and a thread outside can end the wait: it is in an exclusive section, or it
      executes guest code after start_exclusive has counted and kicked it. */
  lemma NoDeadlock(s0: State, run: seq<Action>, s: State) returns (d: CpuId)
    requires Init(s0) && Reaches(s0, run, s)
    requires exists c :: c in s.cpus && MidCall(s.cpus[c].pc)
    requires forall c :: c in s.cpus && MidCall(s.cpus[c].pc) ==> !CanStep(s, c)
    ensures s.lock == None
    ensures forall c :: c in s.cpus && MidCall(s.cpus[c].pc) ==>
            Parked(s.cpus[c].pc) || s.cpus[c].pc == Owning(ExWaitParked)
    ensures d in s.cpus && ((s.cpus[d].pc.Guest? && s.cpus[d].hasWaiter) || s.cpus[d].pc == Owning(InExclusive) ||
            s.cpus[d].pc == Owning(InExclusiveStep))
  {
    var owner := ReachableInv(s0, run, s);
    if s.lock.Some? {
      assert CpuInv(s.cpus[s.lock.value], s.lock.value, s.lock, owner);
      StuckThread(s, owner, s.lock.value);
      assert false;
    }
    forall c | c in s.cpus && MidCall(s.cpus[c].pc)
      ensures Parked(s.cpus[c].pc) || s.cpus[c].pc == Owning(ExWaitParked)
    {
      StuckThread(s, owner, c);
    }
    var c :| c in s.cpus && MidCall(s.cpus[c].pc);
    d := SleepersHaveWaker(s, owner, c);
  }
}
