/**
  qemu-img convert with several coroutines, as a step machine.  A step is the code a coroutine
  runs up to a point where it may yield; between steps any other coroutine may run.

  The fields handed, owner, passed, frontier and written record the history of the run: the
  chunks handed out so far, who took them, which are behind their wake-up loop, the chunk
  that starts at wrOffs, and the chunks in the order in which their writes were completed.
*/
module ConvertCoroutines {
  import opened Options
  import opened Arithmetic
  import opened Buffers
  import opened Convert

  datatype Ret = InProgress | Failed | Success

  /** Where a coroutine stands with its chunk: at the label retry, reading, before and at the
      ordering yield, in an offloaded copy, in convert_co_write, and before the wake-up loop. */
  datatype Phase = Fetch | Reading | Ordering | Waiting | Copying | Writing(done: nat) | Waking

  /** Its local variables: the status of the chunk, whether the copy is offloaded, the buffer. */
  datatype Work = Work(st: BlkStatus, range: bool, buf: seq<Sector>)

  datatype Pc = NotStarted | Top | Iterating | Busy(k: nat, work: Work, phase: Phase) | Exited

  datatype State = State(
    pc: seq<Pc>,
    wait: seq<int>,
    lock: int,                // who holds the lock, -1 if nobody
    sectorNum: nat,
    wrOffs: nat,
    ret: Ret,
    copyRange: bool,
    status: BlkStatus,        // the remembered block status, up to nextStatus
    nextStatus: int,
    target: seq<Sector>,
    handed: seq<Chunk>,
    owner: seq<nat>,
    passed: set<nat>,
    frontier: nat,
    written: seq<nat>)

  /** How the calls made in a step turn out: the answer to a status query, what was read, what
      a turn of the write loop did, and what the target shows then. */
  datatype Choice = Choice(ok: bool, a: Answer, buf: seq<Sector>, t: Turn, now: seq<Sector>)

  predicate Alive(p: Pc) {
    !p.NotStarted? && !p.Exited?
  }

  function SetPc(s: State, i: nat, p: Pc): State
    requires i < |s.pc|
  {
    s.(pc := s.pc[i := p])
  }

  // ----- the steps -----

  /** The loop's first lines; on the way out the last running coroutine declares success. */
  function LockStep(cfg: Config, s: State, i: nat): Option<State>
    requires i < |s.pc|
  {
    if s.lock != -1 then None
    else if s.ret != InProgress || s.sectorNum >= |cfg.source| then Some(Leave(s, i))
    else Some(SetPc(s, i, Iterating).(lock := i))
  }

  function Leave(s: State, i: nat): State
    requires i < |s.pc|
  {
    var s' := SetPc(s, i, Exited);
    if s'.ret == InProgress && forall j :: 0 <= j < |s'.pc| ==> !Alive(s'.pc[j]) then s'.(ret := Success) else s'
  }

  /** What holds of the chunks that are handed out. */
  ghost predicate ChunkAllowed(cfg: Config, c: Chunk) {
    && c.n > 0 && c.start + c.n <= |cfg.source|
    && StatusOk(cfg.source, cfg.initial, c.st, c.start, c.start + c.n)
    && (c.st == Data || (c.st == Zero && cfg.minSparse == 0) ==> c.n <= cfg.bufSectors)
    && (c.st == BackingFile ==> cfg.targetHasBacking)
  }

  function AsNat(x: int): nat {
    if x < 0 then 0 else x
  }

  /** The chunk at sectorNum, which is zeroed through the buffer if the target is to be allocated. */
  function ChunkOf(cfg: Config, sectorNum: nat, it: Iteration): Chunk {
    Chunk(sectorNum, AsNat(if cfg.minSparse == 0 && it.st == Zero then Min(it.n, cfg.bufSectors) else it.n), it.st)
  }

  /** Takes the next chunk under the lock and gives the lock back. */
  ghost function IterateStep(cfg: Config, s: State, i: nat, c: Choice): Option<State>
    requires i < |s.pc| && (cfg.compressed ==> cfg.clusterSectors > 0)
  {
    var query := s.nextStatus <= s.sectorNum;
    var free := s.(lock := -1);
    if query && !AnswerAllowed(cfg, s.sectorNum, QueryLimit(cfg, s.sectorNum), c.a) then None
    else if query && !c.a.ok then Some(Leave(free.(ret := Failed), i))
    else Some(Take(cfg, free, i, NextChunk(cfg, s.status, s.nextStatus, s.sectorNum, c.a)))
  }

  function Take(cfg: Config, s: State, i: nat, it: Iteration): State
    requires i < |s.pc|
  {
    var chunk := ChunkOf(cfg, s.sectorNum, it);
    SetPc(s, i, Busy(|s.handed|, Work(it.st, false, []), Fetch)).(
      status := it.st, nextStatus := it.next, sectorNum := s.sectorNum + chunk.n,
      handed := s.handed + [chunk], owner := s.owner + [i])
  }

  /** From the label retry: decides about an offloaded copy by the shared status, which another
      coroutine may have changed meanwhile, else clears the buffer or goes on to read. */
  function FetchStep(cfg: Config, s: State, i: nat): State
    requires i < |s.pc| && s.pc[i].Busy? && s.pc[i].k < |s.handed|
  {
    var k, st := s.pc[i].k, s.pc[i].work.st;
    var range := s.copyRange && s.status == Data;
    if st == Data && !range then SetPc(s, i, Busy(k, Work(st, range, []), Reading))
    else if cfg.minSparse == 0 && st == Zero
        then SetPc(s, i, Busy(k, Work(Data, range, seq(s.handed[k].n, _ => ZERO_SECTOR)), Ordering))
    else SetPc(s, i, Busy(k, Work(st, range, []), Ordering))
  }

  /** convert_co_read comes back. */
  ghost function ReadStep(cfg: Config, s: State, i: nat, c: Choice): Option<State>
    requires i < |s.pc| && s.pc[i].Busy? && s.pc[i].k < |s.handed|
  {
    var p := s.pc[i];
    if !ReadAllowed(cfg, s.handed[p.k].start, s.handed[p.k].n, c.ok, c.buf) then None
    else if c.ok then Some(SetPc(s, i, Busy(p.k, p.work.(buf := c.buf), Ordering)))
    else Some(SetPc(s, i, Busy(p.k, p.work, Ordering)).(ret := Failed))
  }

  /** The ordering loop, up to its yield or to the start of the write. */
  function OrderStep(inOrder: bool, s: State, i: nat): State
    requires i < |s.pc| && |s.wait| == |s.pc| && s.pc[i].Busy? && s.pc[i].k < |s.handed|
  {
    var p := s.pc[i];
    if inOrder && s.wrOffs != s.handed[p.k].start && s.ret == InProgress then
      SetPc(s, i, p.(phase := Waiting)).(wait := s.wait[i := s.handed[p.k].start])
    else
      var next := if s.ret != InProgress then Waking else if p.work.range then Copying else Writing(0);
      SetPc(s, i, p.(phase := next)).(wait := s.wait[i := -1])
  }

  /** convert_co_copy_range: all of the chunk, or a part of it and a second try without it. */
  ghost function CopyStep(cfg: Config, s: State, i: nat, c: Choice): Option<State>
    requires i < |s.pc| && s.pc[i].Busy? && s.pc[i].k < |s.handed|
  {
    var p := s.pc[i];
    var chunk := s.handed[p.k];
    if !CopyAllowed(cfg, s.target, c.now, chunk.start, chunk.start + chunk.n, c.ok) then None
    else if !c.ok then
      Some(SetPc(s, i, Busy(p.k, p.work.(range := false), Fetch)).(target := c.now, copyRange := false))
    else Some(SetPc(s, i, p.(phase := Waking)).(target := c.now, written := s.written + [p.k]))
  }

  function Rest(buf: seq<Sector>, done: nat): seq<Sector> {
    if done <= |buf| then buf[done..] else []
  }

  /** One turn of the loop of convert_co_write. */
  ghost function WriteStep(cfg: Config, s: State, i: nat, c: Choice): Option<State>
    requires i < |s.pc| && s.pc[i].Busy? && s.pc[i].k < |s.handed| && s.pc[i].phase.Writing?
  {
    var p := s.pc[i];
    var chunk, done := s.handed[p.k], p.phase.done;
    if !TurnAllowed(cfg, p.work.st, Rest(p.work.buf, done), chunk.start + done, AsNat(chunk.n - done), c.t, s.target,
        c.now) then None
    else if !c.t.ok then Some(SetPc(s, i, p.(phase := Waking)).(target := c.now, ret := Failed))
    else if done + c.t.n < chunk.n then Some(SetPc(s, i, p.(phase := Writing(done + c.t.n))).(target := c.now))
    else Some(SetPc(s, i, p.(phase := Waking)).(target := c.now, written := s.written + [p.k]))
  }

  /** The first coroutine from j on whose wait_sector_num is at, or the number of coroutines. */
  function FindWaiter(s: State, at: nat, j: nat): (r: nat)
    requires j <= |s.pc| == |s.wait|
    ensures j <= r <= |s.pc|
    ensures r < |s.pc| ==> Alive(s.pc[r]) && s.wait[r] == at
    ensures forall i :: j <= i < r && Alive(s.pc[i]) ==> s.wait[i] != at
    decreases |s.pc| - j
  {
    if j == |s.pc| || (Alive(s.pc[j]) && s.wait[j] == at) then j else FindWaiter(s, at, j + 1)
  }

  /** The state in the wake-up loop, before anybody is entered. */
  function Passed(inOrder: bool, s: State, i: nat): State
    requires i < |s.pc| && s.pc[i].Busy? && s.pc[i].k < |s.handed|
  {
    var k := s.pc[i].k;
    var s' := SetPc(s, i, Top).(passed := s.passed + {k});
    if inOrder then s'.(wrOffs := s.handed[k].start + s.handed[k].n, frontier := k + 1) else s'
  }

  /** Advances wrOffs.  The coroutine that waits for it runs on behind its ordering yield. */
  function WakeStep(inOrder: bool, s: State, i: nat): Option<State>
    requires i < |s.pc| == |s.wait| && s.pc[i].Busy? && s.pc[i].k < |s.handed|
  {
    var s' := Passed(inOrder, s, i);
    var j := if inOrder then FindWaiter(s', s'.wrOffs, 0) else |s.pc|;
    if j == |s.pc| then Some(s')
    else if s'.pc[j].Busy? && s'.pc[j].k < |s.handed| && s'.pc[j].phase == Waiting then Some(OrderStep(true, s', j))
    else None    // entering a coroutine that yielded elsewhere
  }

  ghost function Step(cfg: Config, inOrder: bool, s: State, i: nat, c: Choice): Option<State>
    requires |s.wait| == |s.pc| && (cfg.compressed ==> cfg.clusterSectors > 0)
  {
    if i >= |s.pc| then None
    else if s.pc[i].NotStarted? then
      if forall j :: 0 <= j < i ==> !s.pc[j].NotStarted? then Some(SetPc(s, i, Top).(wait := s.wait[i := -1])) else None
    else if s.pc[i].Top? then LockStep(cfg, s, i)
    else if s.pc[i].Iterating? then IterateStep(cfg, s, i, c)
    else if s.pc[i].Exited? || s.pc[i].k >= |s.handed| then None
    else if s.pc[i].phase.Fetch? then Some(FetchStep(cfg, s, i))
    else if s.pc[i].phase.Reading? then ReadStep(cfg, s, i, c)
    else if s.pc[i].phase.Ordering? then Some(OrderStep(inOrder, s, i))
    else if s.pc[i].phase.Waiting? then None
    else if s.pc[i].phase.Copying? then CopyStep(cfg, s, i, c)
    else if s.pc[i].phase.Writing? then WriteStep(cfg, s, i, c)
    else WakeStep(inOrder, s, i)
  }

  /** A run of any coroutines in any order. */
  ghost predicate Reaches(cfg: Config, inOrder: bool, s: State, run: seq<(nat, Choice)>, s': State)
    decreases run
  {
    if run == [] then s' == s
    else
      && |s.wait| == |s.pc| && (cfg.compressed ==> cfg.clusterSectors > 0)
      && Step(cfg, inOrder, s, run[0].0, run[0].1).Some?
      && Reaches(cfg, inOrder, Step(cfg, inOrder, s, run[0].0, run[0].1).value, run[1..], s')
  }

  /** convert_do_copy when it starts the coroutines: the target is zero if it is assumed to be, and
      its backing file matches the source's. */
  ghost predicate Init(cfg: Config, s: State) {
    && cfg.Ready() && cfg.TargetPrepared()
    && |s.wait| == |s.pc| && (forall i :: 0 <= i < |s.pc| ==> s.pc[i] == NotStarted)
    && s.lock == -1 && s.sectorNum == 0 && s.wrOffs == 0 && s.ret == InProgress && s.target == cfg.initial
    && s.handed == [] && s.owner == [] && s.passed == {} && s.frontier == 0 && s.written == []
    && s.nextStatus == 0 && (s.status == BackingFile ==> cfg.targetHasBacking) && !(s.copyRange && cfg.salvage)
  }

  // ----- the invariant: control -----

  function Start(s: State, k: nat): nat {
    if k < |s.handed| then s.handed[k].start else s.sectorNum
  }

  predicate AtWork(p: Phase) {
    p.Copying? || p.Writing?
  }

  ghost predicate BusyInv(inOrder: bool, s: State, i: nat, k: nat, phase: Phase)
    requires i < |s.wait|
  {
    && k < |s.handed| == |s.owner| && s.owner[k] == i && k !in s.passed
    && (if phase.Waiting? then inOrder && k > 0 && k - 1 !in s.passed && s.wait[i] == s.handed[k].start
        else s.wait[i] == -1)
    && (inOrder && AtWork(phase) ==> k == |s.written|)
    && (inOrder && s.ret == InProgress && AtWork(phase) ==> k == s.frontier)
    && (inOrder && s.ret == InProgress && phase.Waking? ==> k == s.frontier && |s.written| == k + 1)
  }

  ghost predicate CoInv(cfg: Config, inOrder: bool, s: State, i: nat)
    requires i < |s.pc| == |s.wait|
  {
    && (s.pc[i].Iterating? <==> s.lock == i)
    && (s.pc[i].Iterating? ==> s.sectorNum < |cfg.source|)
    && (s.pc[i].Top? || s.pc[i].Iterating? || s.pc[i].Exited? ==> s.wait[i] == -1)
    && (s.pc[i].Exited? && s.ret == InProgress ==> s.sectorNum == |cfg.source|)
    && (s.pc[i].Busy? ==> BusyInv(inOrder, s, i, s.pc[i].k, s.pc[i].phase))
  }

  predicate Owned(s: State, k: nat)
    requires k < |s.owner|
  {
    s.owner[k] < |s.pc| && s.pc[s.owner[k]].Busy? && s.pc[s.owner[k]].k == k
  }

  ghost predicate ChunkInv(cfg: Config, inOrder: bool, s: State, k: nat)
    requires k < |s.handed| == |s.owner|
  {
    && s.owner[k] < |s.pc|
    && (k in s.passed || Owned(s, k))
    && (s.ret == Success ==> k in s.passed)
    && (inOrder && s.ret == InProgress ==> (k in s.passed <==> k < s.frontier))
    && ChunkAllowed(cfg, s.handed[k])
  }

  ghost predicate OrderInv(inOrder: bool, s: State)
    requires |s.handed| == |s.owner|
  {
    && s.frontier <= |s.handed| && s.wrOffs == Start(s, s.frontier)
    && (inOrder ==> forall j :: 0 <= j < |s.written| ==> s.written[j] == j)
    && (inOrder && s.ret == InProgress ==>
          || |s.written| == s.frontier
          || (|s.written| == s.frontier + 1 && s.frontier < |s.handed| && Owned(s, s.frontier) &&
              s.pc[s.owner[s.frontier]].phase.Waking?))
  }

  ghost predicate Shape(cfg: Config, s: State) {
    && |s.wait| == |s.pc| && |s.owner| == |s.handed|
    && -1 <= s.lock < |s.pc|
    && Tiling(s.handed, s.sectorNum, cfg) && s.sectorNum <= |cfg.source|
    && (s.ret == Success ==> s.lock == -1 && s.sectorNum == |cfg.source|)
    && (forall k :: k in s.passed ==> k < |s.handed|)
  }

  ghost predicate Control(cfg: Config, inOrder: bool, s: State) {
    && Shape(cfg, s)
    && (forall i :: 0 <= i < |s.pc| ==> CoInv(cfg, inOrder, s, i))
    && (forall k :: 0 <= k < |s.handed| ==> ChunkInv(cfg, inOrder, s, k))
    && OrderInv(inOrder, s)
  }

  /** Only the chunk that starts at wrOffs can be the frontier. */
  lemma StartDecides(cfg: Config, s: State, k: nat, k': nat)
    requires Shape(cfg, s) && k < |s.handed| && k' <= |s.handed| && Start(s, k) == Start(s, k')
    ensures k == k'
  {
    if k < k' {
      assert TileOk(s.handed, k, s.sectorNum, cfg);
      assert TileOk(s.handed, |s.handed| - 1, s.sectorNum, cfg);
      if k' < |s.handed| {
        TilingOrdered(s.handed, s.sectorNum, cfg, k, k');
      } else if k < |s.handed| - 1 {
        TilingOrdered(s.handed, s.sectorNum, cfg, k, |s.handed| - 1);
      }
    } else if k' < k {
      assert TileOk(s.handed, k', s.sectorNum, cfg);
      TilingOrdered(s.handed, s.sectorNum, cfg, k', k);
    }
  }

  lemma EnterKeepsControl(cfg: Config, inOrder: bool, s: State, i: nat)
    requires Control(cfg, inOrder, s) && i < |s.pc| && s.pc[i].NotStarted?
    ensures Control(cfg, inOrder, SetPc(s, i, Top).(wait := s.wait[i := -1]))
  {
    var s' := SetPc(s, i, Top).(wait := s.wait[i := -1]);
    forall j | 0 <= j < |s'.pc|
      ensures CoInv(cfg, inOrder, s', j)
    {
      assert CoInv(cfg, inOrder, s, j);
    }
    forall k | 0 <= k < |s'.handed|
      ensures ChunkInv(cfg, inOrder, s', k)
    {
      assert ChunkInv(cfg, inOrder, s, k);
    }
  }

  lemma LeaveKeepsControl(cfg: Config, inOrder: bool, s: State, i: nat)
    requires Control(cfg, inOrder, s) && i < |s.pc| && s.pc[i].Top?
    requires s.ret == InProgress ==> s.sectorNum == |cfg.source| && s.lock == -1
    ensures Control(cfg, inOrder, Leave(s, i))
  {
    var s' := Leave(s, i);
    assert CoInv(cfg, inOrder, s, i);
    forall j | 0 <= j < |s'.pc|
      ensures CoInv(cfg, inOrder, s', j)
    {
      assert CoInv(cfg, inOrder, s, j);
    }
    forall k | 0 <= k < |s'.handed|
      ensures ChunkInv(cfg, inOrder, s', k)
    {
      assert ChunkInv(cfg, inOrder, s, k);
    }
  }

  lemma LockKeepsControl(cfg: Config, inOrder: bool, s: State, i: nat)
    requires Control(cfg, inOrder, s) && i < |s.pc| && s.pc[i].Top? && LockStep(cfg, s, i).Some?
    ensures Control(cfg, inOrder, LockStep(cfg, s, i).value)
  {
    if s.ret != InProgress || s.sectorNum >= |cfg.source| {
      LeaveKeepsControl(cfg, inOrder, s, i);
    } else {
      var s' := LockStep(cfg, s, i).value;
      assert CoInv(cfg, inOrder, s, i);
      forall j | 0 <= j < |s'.pc|
        ensures CoInv(cfg, inOrder, s', j)
      {
        assert CoInv(cfg, inOrder, s, j);
      }
      forall k | 0 <= k < |s'.handed|
        ensures ChunkInv(cfg, inOrder, s', k)
      {
        assert ChunkInv(cfg, inOrder, s, k);
      }
    }
  }

  /** Giving up: an error only loosens what has to hold. */
  lemma FailKeepsControl(cfg: Config, inOrder: bool, s: State)
    requires Control(cfg, inOrder, s)
    ensures Control(cfg, inOrder, s.(ret := Failed))
  {
    var s' := s.(ret := Failed);
    forall j | 0 <= j < |s'.pc|
      ensures CoInv(cfg, inOrder, s', j)
    {
      assert CoInv(cfg, inOrder, s, j);
    }
    forall k | 0 <= k < |s'.handed|
      ensures ChunkInv(cfg, inOrder, s', k)
    {
      assert ChunkInv(cfg, inOrder, s, k);
    }
  }

  lemma UnlockKeepsControl(cfg: Config, inOrder: bool, s: State, i: nat)
    requires Control(cfg, inOrder, s) && i < |s.pc| && s.pc[i].Iterating?
    ensures Control(cfg, inOrder, SetPc(s, i, Top).(lock := -1))
  {
    var s' := SetPc(s, i, Top).(lock := -1);
    assert CoInv(cfg, inOrder, s, i);
    forall j | 0 <= j < |s'.pc|
      ensures CoInv(cfg, inOrder, s', j)
    {
      assert CoInv(cfg, inOrder, s, j);
    }
    forall k | 0 <= k < |s'.handed|
      ensures ChunkInv(cfg, inOrder, s', k)
    {
      assert ChunkInv(cfg, inOrder, s, k);
    }
  }

  /** A coroutine that holds nothing takes the next chunk. */
  lemma TakeKeepsControl(cfg: Config, inOrder: bool, s: State, i: nat, it: Iteration, s': State)
    requires Control(cfg, inOrder, s) && i < |s.pc| && s.pc[i].Top? && s.lock == -1 && s.sectorNum < |cfg.source| &&
             s.ret != Success
    requires ChunkAllowed(cfg, ChunkOf(cfg, s.sectorNum, it))
    requires forall j :: 0 <= j < |s.pc| && s.pc[j].Exited? ==> s.ret != InProgress
    requires s' == Take(cfg, s, i, it)
    ensures Control(cfg, inOrder, s')
  {
    TilingAppend(s.handed, s.sectorNum, ChunkOf(cfg, s.sectorNum, it), cfg);
    assert CoInv(cfg, inOrder, s, i);
    forall j | 0 <= j < |s'.pc|
      ensures CoInv(cfg, inOrder, s', j)
    {
      assert CoInv(cfg, inOrder, s, j);
    }
    forall k | 0 <= k < |s'.handed|
      ensures ChunkInv(cfg, inOrder, s', k)
    {
      if k < |s.handed| {
        assert ChunkInv(cfg, inOrder, s, k);
      }
    }
  }

  /** The target is as it has to be, and the remembered status is right. */
  ghost predicate Cache(cfg: Config, s: State) {
    cfg.Ready() && cfg.TargetPrepared() && CacheRight(cfg, s.status, s.nextStatus, s.sectorNum)
  }

  /** Whatever a status query answers truthfully, the chunk is one that may be handed out. */
  lemma TakenIsAllowed(cfg: Config, s: State, c: Choice)
    requires Cache(cfg, s) && s.sectorNum < |cfg.source|
    requires s.nextStatus <= s.sectorNum ==>
             c.a.ok && AnswerAllowed(cfg, s.sectorNum, QueryLimit(cfg, s.sectorNum), c.a)
    ensures var it := NextChunk(cfg, s.status, s.nextStatus, s.sectorNum, c.a);
            var chunk := ChunkOf(cfg, s.sectorNum, it);
            ChunkAllowed(cfg, chunk) && CacheRight(cfg, it.st, it.next, s.sectorNum + chunk.n)
  {
    NextChunkRight(cfg, s.status, s.nextStatus, s.sectorNum, c.a);
  }

  lemma IterateKeepsControl(cfg: Config, inOrder: bool, s: State, i: nat, c: Choice)
    requires Control(cfg, inOrder, s) && Cache(cfg, s) && i < |s.pc| && s.pc[i].Iterating? &&
             IterateStep(cfg, s, i, c).Some?
    ensures Control(cfg, inOrder, IterateStep(cfg, s, i, c).value)
  {
    var top := SetPc(s, i, Top).(lock := -1);
    assert CoInv(cfg, inOrder, s, i);
    UnlockKeepsControl(cfg, inOrder, s, i);
    if s.nextStatus <= s.sectorNum && !c.a.ok {
      FailKeepsControl(cfg, inOrder, top);
      LeaveKeepsControl(cfg, inOrder, top.(ret := Failed), i);
      assert top.pc[i := Exited] == s.pc[i := Exited];
    } else {
      var s' := IterateStep(cfg, s, i, c).value;
      forall j | 0 <= j < |top.pc| && top.pc[j].Exited?
        ensures top.ret != InProgress
      {
        assert CoInv(cfg, inOrder, s, j);
      }
      TakenIsAllowed(cfg, s, c);
      assert s'.pc == top.pc[i := s'.pc[i]];
      TakeKeepsControl(cfg, inOrder, top, i, NextChunk(cfg, s.status, s.nextStatus, s.sectorNum, c.a), s');
    }
  }

  /** Moving on with a chunk, where neither the order nor the books are touched. */
  lemma PhaseKeepsControl(cfg: Config, inOrder: bool, s: State, i: nat, work: Work, phase: Phase)
    requires Control(cfg, inOrder, s) && i < |s.pc| && s.pc[i].Busy?
    requires !s.pc[i].phase.Waking? && !s.pc[i].phase.Waiting? && !phase.Waiting?
    requires AtWork(phase) ==> AtWork(s.pc[i].phase)
    requires phase.Waking? ==> s.ret != InProgress
    ensures Control(cfg, inOrder, SetPc(s, i, Busy(s.pc[i].k, work, phase)))
  {
    var s' := SetPc(s, i, Busy(s.pc[i].k, work, phase));
    assert CoInv(cfg, inOrder, s, i);
    forall j | 0 <= j < |s'.pc|
      ensures CoInv(cfg, inOrder, s', j)
    {
      assert CoInv(cfg, inOrder, s, j);
    }
    forall k | 0 <= k < |s'.handed|
      ensures ChunkInv(cfg, inOrder, s', k)
    {
      assert ChunkInv(cfg, inOrder, s, k);
    }
  }

  /** Whoever parks has a predecessor that has still to reach its wake-up loop. */
  lemma ParkKeepsControl(cfg: Config, s: State, i: nat)
    requires Control(cfg, true, s) && i < |s.pc| && s.pc[i].Busy? && s.pc[i].k < |s.handed|
    requires s.pc[i].phase.Ordering? && s.ret == InProgress && s.wrOffs != s.handed[s.pc[i].k].start
    ensures Control(cfg, true, OrderStep(true, s, i))
  {
    var k := s.pc[i].k;
    var s' := OrderStep(true, s, i);
    assert CoInv(cfg, true, s, i);
    assert ChunkInv(cfg, true, s, k);
    assert k > s.frontier;
    assert ChunkInv(cfg, true, s, k - 1);
    forall j | 0 <= j < |s'.pc|
      ensures CoInv(cfg, true, s', j)
    {
      assert CoInv(cfg, true, s, j);
    }
    forall k' | 0 <= k' < |s'.handed|
      ensures ChunkInv(cfg, true, s', k')
    {
      assert ChunkInv(cfg, true, s, k');
    }
  }

  /** Whoever gets past the ordering loop while all is well owns the chunk at wrOffs. */
  lemma PassKeepsControl(cfg: Config, inOrder: bool, s: State, i: nat)
    requires Control(cfg, inOrder, s) && i < |s.pc| && s.pc[i].Busy? && s.pc[i].k < |s.handed|
    requires s.pc[i].phase.Ordering? || s.pc[i].phase.Waiting?
    requires !(inOrder && s.ret == InProgress && s.wrOffs != s.handed[s.pc[i].k].start)
    ensures Control(cfg, inOrder, OrderStep(inOrder, s, i))
  {
    var k := s.pc[i].k;
    var s' := OrderStep(inOrder, s, i);
    assert CoInv(cfg, inOrder, s, i);
    if inOrder && s.ret == InProgress {
      StartDecides(cfg, s, k, s.frontier);
    }
    forall j | 0 <= j < |s'.pc|
      ensures CoInv(cfg, inOrder, s', j)
    {
      assert CoInv(cfg, inOrder, s, j);
    }
    forall k' | 0 <= k' < |s'.handed|
      ensures ChunkInv(cfg, inOrder, s', k')
    {
      assert ChunkInv(cfg, inOrder, s, k');
    }
  }

  /** A completed write is the next one in the log. */
  lemma LogKeepsControl(cfg: Config, inOrder: bool, s: State, i: nat)
    requires Control(cfg, inOrder, s) && i < |s.pc| && s.pc[i].Busy? && AtWork(s.pc[i].phase)
    ensures Control(cfg, inOrder, SetPc(s, i, s.pc[i].(phase := Waking)).(written := s.written + [s.pc[i].k]))
  {
    var s' := SetPc(s, i, s.pc[i].(phase := Waking)).(written := s.written + [s.pc[i].k]);
    assert CoInv(cfg, inOrder, s, i);
    forall j | 0 <= j < |s'.pc|
      ensures CoInv(cfg, inOrder, s', j)
    {
      assert CoInv(cfg, inOrder, s, j);
    }
    forall k | 0 <= k < |s'.handed|
      ensures ChunkInv(cfg, inOrder, s', k)
    {
      assert ChunkInv(cfg, inOrder, s, k);
    }
  }

  /** Taking a parked coroutine out of the waiting list. */
  lemma UnparkKeepsControl(cfg: Config, inOrder: bool, s: State, j: nat)
    requires Control(cfg, inOrder, s) && j < |s.pc| && s.pc[j].Busy? && s.pc[j].phase.Waiting?
    ensures Control(cfg, inOrder, SetPc(s, j, s.pc[j].(phase := Ordering)).(wait := s.wait[j := -1]))
  {
    var s' := SetPc(s, j, s.pc[j].(phase := Ordering)).(wait := s.wait[j := -1]);
    assert CoInv(cfg, inOrder, s, j);
    forall i | 0 <= i < |s'.pc|
      ensures CoInv(cfg, inOrder, s', i)
    {
      assert CoInv(cfg, inOrder, s, i);
    }
    forall k | 0 <= k < |s'.handed|
      ensures ChunkInv(cfg, inOrder, s', k)
    {
      assert ChunkInv(cfg, inOrder, s, k);
    }
  }

  /** Advancing wrOffs when nobody waits for the new value. */
  lemma PassedKeepsControl(cfg: Config, inOrder: bool, s: State, i: nat)
    requires Control(cfg, inOrder, s) && i < |s.pc| && s.pc[i].Busy? && s.pc[i].k < |s.handed| && s.pc[i].phase.Waking?
    requires forall j :: 0 <= j < |s.pc| && Alive(s.pc[j]) ==>
             s.wait[j] != s.handed[s.pc[i].k].start + s.handed[s.pc[i].k].n
    ensures Control(cfg, inOrder, Passed(inOrder, s, i))
  {
    var k := s.pc[i].k;
    var s' := Passed(inOrder, s, i);
    assert CoInv(cfg, inOrder, s, i);
    assert TileOk(s.handed, k, s.sectorNum, cfg);
    forall j | 0 <= j < |s'.pc|
      ensures CoInv(cfg, inOrder, s', j)
    {
      assert CoInv(cfg, inOrder, s, j);
      if j != i && s.pc[j].Busy? && s.pc[j].k == k {
        assert false;
      }
    }
    forall k' | 0 <= k' < |s'.handed|
      ensures ChunkInv(cfg, inOrder, s', k')
    {
      assert ChunkInv(cfg, inOrder, s, k');
    }
  }

  /** Only a coroutine parked at its ordering yield is found by the wake-up loop, and it
      owns the next chunk. */
  lemma WaiterIsParked(cfg: Config, s: State, i: nat, j: nat)
    requires Control(cfg, true, s) && i < |s.pc| && s.pc[i].Busy? && s.pc[i].k < |s.handed| && s.pc[i].phase.Waking?
    requires j == FindWaiter(Passed(true, s, i), Passed(true, s, i).wrOffs, 0) < |s.pc|
    ensures j != i && s.pc[j].Busy? && s.pc[j].phase.Waiting? && s.pc[j].k == s.pc[i].k + 1 < |s.handed|
    ensures Start(s, s.pc[j].k) == Passed(true, s, i).wrOffs
  {
    var k := s.pc[i].k;
    assert CoInv(cfg, true, s, i);
    assert CoInv(cfg, true, s, j);
    assert TileOk(s.handed, k, s.sectorNum, cfg);
    StartDecides(cfg, s, s.pc[j].k, k + 1);
  }

  lemma WaiterIsAlone(cfg: Config, inOrder: bool, s: State, j: nat, j': nat)
    requires Control(cfg, inOrder, s) && j < |s.pc| && j' < |s.pc| && Alive(s.pc[j'])
    requires s.pc[j].Busy? && s.pc[j].phase.Waiting? && s.wait[j'] == s.wait[j]
    ensures j' == j
  {
    assert CoInv(cfg, inOrder, s, j);
    assert CoInv(cfg, inOrder, s, j');
    StartDecides(cfg, s, s.pc[j'].k, s.pc[j].k);
  }

  /** The wake-up loop enters the owner of the next chunk, which goes on behind its yield. */
  lemma WakeWaiterKeepsControl(cfg: Config, s: State, i: nat, j: nat)
    requires Control(cfg, true, s) && i < |s.pc| && s.pc[i].Busy? && s.pc[i].k < |s.handed| && s.pc[i].phase.Waking?
    requires j == FindWaiter(Passed(true, s, i), Passed(true, s, i).wrOffs, 0) < |s.pc|
    ensures WakeStep(true, s, i).Some? && Control(cfg, true, WakeStep(true, s, i).value)
  {
    WaiterIsParked(cfg, s, i, j);
    var s1 := SetPc(s, j, s.pc[j].(phase := Ordering)).(wait := s.wait[j := -1]);
    UnparkKeepsControl(cfg, true, s, j);
    var end := s.handed[s.pc[i].k].start + s.handed[s.pc[i].k].n;
    forall j' | 0 <= j' < |s1.pc| && Alive(s1.pc[j'])
      ensures s1.wait[j'] != end
    {
      if s.wait[j'] == end {
        WaiterIsAlone(cfg, true, s, j, j');
      }
    }
    PassedKeepsControl(cfg, true, s1, i);
    var s2 := Passed(true, s1, i);
    PassKeepsControl(cfg, true, s2, j);
    ParkedOrUnparked(s, i, j);
  }

  /** A parked coroutine that is entered goes on like one that has just come to the ordering loop. */
  lemma ParkedOrUnparked(s: State, i: nat, j: nat)
    requires i < |s.pc| == |s.wait| && j < |s.pc| && i != j && s.pc[i].Busy? && s.pc[j].Busy?
    requires s.pc[i].k < |s.handed| && s.pc[j].k < |s.handed|
    requires s.handed[s.pc[i].k].start + s.handed[s.pc[i].k].n == s.handed[s.pc[j].k].start
    ensures var s1 := SetPc(s, j, s.pc[j].(phase := Ordering)).(wait := s.wait[j := -1]);
            OrderStep(true, Passed(true, s, i), j) == OrderStep(true, Passed(true, s1, i), j)
  {
    var s1 := SetPc(s, j, s.pc[j].(phase := Ordering)).(wait := s.wait[j := -1]);
    var one, two := OrderStep(true, Passed(true, s, i), j), OrderStep(true, Passed(true, s1, i), j);
    assert one.pc == two.pc;
    assert one.wait == two.wait;
  }

  lemma WakeKeepsControl(cfg: Config, inOrder: bool, s: State, i: nat)
    requires Control(cfg, inOrder, s) && i < |s.pc| && s.pc[i].Busy? && s.pc[i].k < |s.handed| && s.pc[i].phase.Waking?
    ensures WakeStep(inOrder, s, i).Some? && Control(cfg, inOrder, WakeStep(inOrder, s, i).value)
  {
    var s' := Passed(inOrder, s, i);
    if inOrder && FindWaiter(s', s'.wrOffs, 0) < |s.pc| {
      WakeWaiterKeepsControl(cfg, s, i, FindWaiter(s', s'.wrOffs, 0));
    } else {
      assert CoInv(cfg, inOrder, s, i);
      forall j | 0 <= j < |s.pc| && Alive(s.pc[j])
        ensures s.wait[j] != s.handed[s.pc[i].k].start + s.handed[s.pc[i].k].n
      {
        assert CoInv(cfg, inOrder, s, j);
        assert j != i ==> s'.pc[j] == s.pc[j];
      }
      PassedKeepsControl(cfg, inOrder, s, i);
    }
  }

  // ----- the invariant: content -----

  /** The buffer holds what was read of the chunk, or zeroes for a chunk of zeroes. */
  ghost predicate BufferRight(cfg: Config, c: Chunk, work: Work) {
    work.st == Data && !work.range ==>
        |work.buf| == c.n && c.start + c.n <= |cfg.source| && cfg.ReadsAsFrom(c.start, work.buf)
  }

  /** What a coroutine has in its local variables. */
  ghost predicate WorkRight(cfg: Config, c: Chunk, failed: bool, work: Work, phase: Phase) {
    && (work.range ==> !cfg.salvage) && (work.st == c.st || (work.st == Data && c.st == Zero))
    && (phase.Ordering? || phase.Waiting? ==> failed || BufferRight(cfg, c, work))
    && (phase.Writing? ==> BufferRight(cfg, c, work) && !work.range)
    && (phase.Copying? ==> work.range) && (phase.Reading? ==> !work.range)
  }

  /** What the target shows in the chunk it works on. */
  ghost predicate TargetRight(cfg: Config, c: Chunk, target: seq<Sector>, failed: bool, phase: Phase) {
    if phase.Waking? then failed || cfg.CopiedRange(target, c.start, c.start + c.n)
    else if phase.Writing? then
      && phase.done < c.n && cfg.UntouchedRange(target, c.start + phase.done, c.start + c.n)
      && cfg.CopiedRange(target, c.start, c.start + phase.done)
    else cfg.UntouchedRange(target, c.start, c.start + c.n)
  }

  ghost predicate WorkData(cfg: Config, c: Chunk, target: seq<Sector>, failed: bool, work: Work, phase: Phase) {
    WorkRight(cfg, c, failed, work, phase) && TargetRight(cfg, c, target, failed, phase)
  }

  ghost predicate CoData(cfg: Config, s: State, i: nat)
    requires i < |s.pc|
  {
    s.pc[i].Busy? && s.pc[i].k < |s.handed| ==>
      WorkData(cfg, s.handed[s.pc[i].k], s.target, s.ret == Failed, s.pc[i].work, s.pc[i].phase)
  }

  ghost predicate PassedData(cfg: Config, s: State, k: nat)
    requires k < |s.handed|
  {
    k in s.passed && s.ret != Failed ==> cfg.CopiedRange(s.target, s.handed[k].start, s.handed[k].start + s.handed[k].n)
  }

  ghost predicate Content(cfg: Config, s: State) {
    && |cfg.source| <= |cfg.initial| && !(s.copyRange && cfg.salvage)
    && SameOutside(cfg.initial, s.target, 0, s.sectorNum)
    && (forall i :: 0 <= i < |s.pc| ==> CoData(cfg, s, i))
    && (forall k :: 0 <= k < |s.handed| ==> PassedData(cfg, s, k))
  }

  lemma ChunksApart(cfg: Config, s: State, k: nat, k': nat)
    requires Shape(cfg, s) && k < |s.handed| && k' < |s.handed| && k != k'
    ensures s.handed[k].start + s.handed[k].n <= s.handed[k'].start ||
            s.handed[k'].start + s.handed[k'].n <= s.handed[k].start
    ensures s.handed[k'].start + s.handed[k'].n <= s.sectorNum
  {
    assert TileOk(s.handed, k', s.sectorNum, cfg);
    assert TileOk(s.handed, |s.handed| - 1, s.sectorNum, cfg);
    if k' < |s.handed| - 1 {
      TilingOrdered(s.handed, s.sectorNum, cfg, k', |s.handed| - 1);
    }
    if k < k' {
      TilingOrdered(s.handed, s.sectorNum, cfg, k, k');
    } else {
      TilingOrdered(s.handed, s.sectorNum, cfg, k', k);
    }
  }

  lemma RangeKept(cfg: Config, now: seq<Sector>, now': seq<Sector>, lo: nat, hi: nat, lo': nat, hi': nat)
    requires SameOutside(now, now', lo, hi) && (hi <= lo' || hi' <= lo)
    ensures cfg.CopiedRange(now, lo', hi') ==> cfg.CopiedRange(now', lo', hi')
    ensures cfg.UntouchedRange(now, lo', hi') ==> cfg.UntouchedRange(now', lo', hi')
  {
    if cfg.CopiedRange(now, lo', hi') {
      forall x | lo' <= x < hi'
        ensures cfg.ReadsAs(x, now'[x])
      {
        assert cfg.ReadsAs(x, now[x]);
      }
    }
    if cfg.UntouchedRange(now, lo', hi') {
      forall x | lo' <= x < hi'
        ensures cfg.Untouched(now', x)
      {
        assert cfg.Untouched(now, x);
      }
    }
  }

  lemma WorkKept(cfg: Config, now: seq<Sector>, now': seq<Sector>, lo: nat, hi: nat, c: Chunk, failed: bool,
                 work: Work, phase: Phase)
    requires SameOutside(now, now', lo, hi) && (hi <= c.start || c.start + c.n <= lo)
    requires WorkData(cfg, c, now, failed, work, phase)
    ensures WorkData(cfg, c, now', failed, work, phase)
  {
    RangeKept(cfg, now, now', lo, hi, c.start, c.start + c.n);
    if phase.Writing? {
      RangeKept(cfg, now, now', lo, hi, c.start, c.start + phase.done);
      RangeKept(cfg, now, now', lo, hi, c.start + phase.done, c.start + c.n);
    }
  }

  /** A coroutine that writes inside its own chunk disturbs nobody else. */
  lemma OthersKeepContent(cfg: Config, inOrder: bool, s: State, i: nat, now: seq<Sector>, s': State)
    requires Control(cfg, inOrder, s) && Content(cfg, s) && i < |s.pc| && s.pc[i].Busy? && s.pc[i].k < |s.handed|
    requires SameOutside(s.target, now, s.handed[s.pc[i].k].start, s.handed[s.pc[i].k].start + s.handed[s.pc[i].k].n)
    requires |s'.pc| == |s.pc| && s'.pc == s.pc[i := s'.pc[i]] && s'.target == now && s'.handed == s.handed &&
             s'.sectorNum == s.sectorNum
    requires s'.passed == s.passed && (s.copyRange || !s'.copyRange) && (s'.ret == s.ret || s'.ret == Failed)
    requires CoData(cfg, s', i)
    ensures Content(cfg, s')
  {
    var k := s.pc[i].k;
    var c := s.handed[k];
    assert CoInv(cfg, inOrder, s, i);
    if |s.handed| > 1 {
      ChunksApart(cfg, s, if k == 0 then 1 else 0, k);
    } else {
      assert TileOk(s.handed, k, s.sectorNum, cfg);
    }
    forall j | 0 <= j < |s'.pc|
      ensures CoData(cfg, s', j)
    {
      if j != i && s.pc[j].Busy? {
        assert CoInv(cfg, inOrder, s, j);
        ChunksApart(cfg, s, k, s.pc[j].k);
        assert CoData(cfg, s, j);
        WorkKept(cfg, s.target, now, c.start, c.start + c.n, s.handed[s.pc[j].k], s.ret == Failed, s.pc[j].work,
            s.pc[j].phase);
      }
    }
    forall k' | 0 <= k' < |s'.handed|
      ensures PassedData(cfg, s', k')
    {
      if k' in s.passed {
        ChunksApart(cfg, s, k, k');
        assert PassedData(cfg, s, k');
        RangeKept(cfg, s.target, now, c.start, c.start + c.n, s.handed[k'].start, s.handed[k'].start + s.handed[k'].n);
      }
    }
  }

  lemma CopyKeepsContent(cfg: Config, inOrder: bool, s: State, i: nat, c: Choice)
    requires Control(cfg, inOrder, s) && Content(cfg, s) && i < |s.pc| && s.pc[i].Busy? && s.pc[i].k < |s.handed|
    requires s.pc[i].phase.Copying? && CopyStep(cfg, s, i, c).Some?
    ensures Content(cfg, CopyStep(cfg, s, i, c).value)
  {
    var chunk := s.handed[s.pc[i].k];
    assert CoData(cfg, s, i);
    CopyKeepsUntouched(cfg, s.target, c.now, chunk.start, chunk.start + chunk.n, c.ok);
    OthersKeepContent(cfg, inOrder, s, i, c.now, CopyStep(cfg, s, i, c).value);
  }

  /** What the chunk has to show: what is in the buffer, or the source. */
  ghost function Want(cfg: Config, c: Chunk, work: Work): seq<Sector>
    requires c.start + c.n <= |cfg.source|
  {
    if work.st == Data then cfg.source[..c.start] + work.buf + cfg.source[c.start + c.n..] else cfg.source
  }

  lemma WantIsWanted(cfg: Config, c: Chunk, work: Work)
    requires ChunkAllowed(cfg, c) && |cfg.source| <= |cfg.initial| && !work.range && BufferRight(cfg, c, work)
    requires work.st == c.st || (work.st == Data && c.st == Zero)
    ensures cfg.Wanted(Want(cfg, c, work), c.start, c.start + c.n, work.st)
    ensures work.st == Data ==> Holds(work.buf, Want(cfg, c, work), c.start)
  {
    if work.st == Data {
      cfg.ReadWants(c.start, work.buf, Want(cfg, c, work));
    }
  }

  lemma ShownIsCopied(cfg: Config, now: seq<Sector>, want: seq<Sector>, lo: nat, hi: nat, st: BlkStatus)
    requires cfg.Wanted(want, lo, hi, st) && Shows(now, want, lo, hi)
    ensures cfg.CopiedRange(now, lo, hi)
  {
    forall x | lo <= x < hi
      ensures cfg.ReadsAs(x, now[x])
    {
      assert cfg.ReadsAs(x, want[x]);
    }
  }

  /** A turn of the write loop copies its sectors, by what the code writes or leaves alone, and by
      what the target shows where nothing was written. */
  lemma TurnCopies(cfg: Config, c: Chunk, work: Work, done: nat, t: Turn, before: seq<Sector>, now: seq<Sector>)
    requires cfg.TargetPrepared() && ChunkAllowed(cfg, c) && WorkRight(cfg, c, false, work, Writing(done)) && done < c.n
    requires cfg.UntouchedRange(before, c.start + done, c.start + c.n)
    requires TurnAllowed(cfg, work.st, Rest(work.buf, done), c.start + done, c.n - done, t, before, now)
    ensures 0 < t.n <= c.n - done && SameOutside(before, now, c.start + done, c.start + done + t.n)
    ensures t.ok ==> cfg.CopiedRange(now, c.start + done, c.start + done + t.n)
  {
    var want, at := Want(cfg, c, work), c.start + done;
    WantIsWanted(cfg, c, work);
    if work.st == Data {
      HoldsRest(work.buf, want, c.start, done);
    }
    TurnShows(cfg, work.st, Rest(work.buf, done), at, c.n - done, t, before, now, want);
    if t.ok {
      ShownIsCopied(cfg, now, want, at, at + t.n, work.st);
    }
  }

  lemma CopiedJoin(cfg: Config, now: seq<Sector>, now': seq<Sector>, lo: nat, mid: nat, hi: nat)
    requires cfg.CopiedRange(now, lo, mid) && SameOutside(now, now', mid, hi) && cfg.CopiedRange(now', mid, hi) &&
             lo <= mid
    ensures cfg.CopiedRange(now', lo, hi)
  {
    forall x | lo <= x < hi
      ensures cfg.ReadsAs(x, now'[x])
    {
      if x < mid {
        assert cfg.ReadsAs(x, now[x]);
      }
    }
  }

  /** What a turn of the write loop leaves its coroutine with. */
  lemma TurnKeepsWork(cfg: Config, c: Chunk, work: Work, done: nat, failed: bool, t: Turn, before: seq<Sector>,
                      now: seq<Sector>)
    requires cfg.TargetPrepared() && ChunkAllowed(cfg, c) && WorkData(cfg, c, before, failed, work, Writing(done))
    requires TurnAllowed(cfg, work.st, Rest(work.buf, done), c.start + done, AsNat(c.n - done), t, before, now)
    ensures SameOutside(before, now, c.start, c.start + c.n)
    ensures !t.ok ==> WorkData(cfg, c, now, true, work, Waking)
    ensures t.ok ==> WorkData(cfg, c, now, failed, work, if done + t.n < c.n then Writing(done + t.n) else Waking)
  {
    var at := c.start + done;
    TurnCopies(cfg, c, work, done, t, before, now);
    UntouchedLater(cfg, before, now, at, at + t.n, c.start + c.n);
    if t.ok {
      CopiedJoin(cfg, before, now, c.start, at, at + t.n);
    }
  }

  lemma WriteKeepsContent(cfg: Config, inOrder: bool, s: State, i: nat, c: Choice)
    requires Control(cfg, inOrder, s) && Content(cfg, s) && Cache(cfg, s)
    requires i < |s.pc| && s.pc[i].Busy? && s.pc[i].k < |s.handed|
    requires s.pc[i].phase.Writing? && WriteStep(cfg, s, i, c).Some?
    ensures Content(cfg, WriteStep(cfg, s, i, c).value)
  {
    var p := s.pc[i];
    assert CoData(cfg, s, i);
    assert ChunkInv(cfg, inOrder, s, p.k);
    TurnKeepsWork(cfg, s.handed[p.k], p.work, p.phase.done, s.ret == Failed, c.t, s.target, c.now);
    OthersKeepContent(cfg, inOrder, s, i, c.now, WriteStep(cfg, s, i, c).value);
  }

  /** A step that leaves the target alone. */
  lemma QuietKeepsContent(cfg: Config, s: State, s': State)
    requires Content(cfg, s) && s'.target == s.target && s'.handed == s.handed && s'.sectorNum == s.sectorNum
    requires s'.copyRange == s.copyRange && (s.ret == Failed ==> s'.ret == Failed) && |s'.pc| == |s.pc|
    requires forall j :: 0 <= j < |s.pc| && s'.pc[j] != s.pc[j] ==> CoData(cfg, s', j)
    requires forall k :: 0 <= k < |s.handed| && k in s'.passed && k !in s.passed ==> PassedData(cfg, s', k)
    ensures Content(cfg, s')
  {
    forall j | 0 <= j < |s'.pc|
      ensures CoData(cfg, s', j)
    {
      assert CoData(cfg, s, j);
    }
    forall k | 0 <= k < |s'.handed|
      ensures PassedData(cfg, s', k)
    {
      assert PassedData(cfg, s, k);
    }
  }

  lemma TakeKeepsContent(cfg: Config, inOrder: bool, s: State, i: nat, it: Iteration, s': State)
    requires Control(cfg, inOrder, s) && Content(cfg, s) && i < |s.pc|
    requires ChunkAllowed(cfg, ChunkOf(cfg, s.sectorNum, it))
    requires s' == Take(cfg, s.(lock := -1), i, it)
    ensures Content(cfg, s')
  {
    var n := ChunkOf(cfg, s.sectorNum, it).n;
    TailUntouched(cfg, s.target, s.sectorNum, n);
    GrowOutside(cfg.initial, s.target, s.target, s.sectorNum, n);
    forall j | 0 <= j < |s'.pc|
      ensures CoData(cfg, s', j)
    {
      assert CoData(cfg, s, j);
      assert CoInv(cfg, inOrder, s, j);
    }
    forall k | 0 <= k < |s'.handed|
      ensures PassedData(cfg, s', k)
    {
      assert k < |s.handed| ==> PassedData(cfg, s, k);
    }
  }

  lemma IterateKeepsContent(cfg: Config, inOrder: bool, s: State, i: nat, c: Choice)
    requires Control(cfg, inOrder, s) && Content(cfg, s) && Cache(cfg, s) && i < |s.pc| && s.pc[i].Iterating?
    requires IterateStep(cfg, s, i, c).Some?
    ensures Content(cfg, IterateStep(cfg, s, i, c).value) && Cache(cfg, IterateStep(cfg, s, i, c).value)
  {
    var s' := IterateStep(cfg, s, i, c).value;
    assert CoInv(cfg, inOrder, s, i);
    if s.nextStatus <= s.sectorNum && !c.a.ok {
      QuietKeepsContent(cfg, s, s');
    } else {
      TakenIsAllowed(cfg, s, c);
      TakeKeepsContent(cfg, inOrder, s, i, NextChunk(cfg, s.status, s.nextStatus, s.sectorNum, c.a), s');
    }
  }

  lemma BusyMeansUnfinished(cfg: Config, inOrder: bool, s: State, i: nat)
    requires Control(cfg, inOrder, s) && i < |s.pc| && s.pc[i].Busy?
    ensures s.ret != Success && s.pc[i].k < |s.handed|
  {
    assert CoInv(cfg, inOrder, s, i);
    assert ChunkInv(cfg, inOrder, s, s.pc[i].k);
  }

  lemma OrderKeepsContent(cfg: Config, inOrder: bool, s: State, i: nat)
    requires Content(cfg, s) && i < |s.pc| == |s.wait| && s.pc[i].Busy? && s.pc[i].k < |s.handed| && s.ret != Success
    requires (s.pc[i].phase.Ordering? || s.pc[i].phase.Waiting?) && s.handed[s.pc[i].k].n > 0
    ensures Content(cfg, OrderStep(inOrder, s, i))
  {
    assert CoData(cfg, s, i);
    QuietKeepsContent(cfg, s, OrderStep(inOrder, s, i));
  }

  lemma WakeKeepsContent(cfg: Config, inOrder: bool, s: State, i: nat)
    requires Control(cfg, inOrder, s) && Content(cfg, s) && i < |s.pc| && s.pc[i].Busy? && s.pc[i].k < |s.handed|
    requires s.pc[i].phase.Waking? && WakeStep(inOrder, s, i).Some?
    ensures Content(cfg, WakeStep(inOrder, s, i).value)
  {
    var s' := Passed(inOrder, s, i);
    assert CoData(cfg, s, i);
    QuietKeepsContent(cfg, s, s');
    BusyMeansUnfinished(cfg, inOrder, s, i);
    var j := if inOrder then FindWaiter(s', s'.wrOffs, 0) else |s.pc|;
    if j < |s.pc| {
      assert ChunkInv(cfg, inOrder, s, s'.pc[j].k);
      OrderKeepsContent(cfg, inOrder, s', j);
    }
  }

  // ----- every step, every run -----

  lemma FetchKeepsControl(cfg: Config, inOrder: bool, s: State, i: nat)
    requires Control(cfg, inOrder, s) && i < |s.pc| && s.pc[i].Busy? && s.pc[i].k < |s.handed| && s.pc[i].phase.Fetch?
    ensures Control(cfg, inOrder, FetchStep(cfg, s, i))
  {
    var p := FetchStep(cfg, s, i).pc[i];
    PhaseKeepsControl(cfg, inOrder, s, i, p.work, p.phase);
  }

  lemma ReadKeepsControl(cfg: Config, inOrder: bool, s: State, i: nat, c: Choice)
    requires Control(cfg, inOrder, s) && i < |s.pc| && s.pc[i].Busy? && s.pc[i].k < |s.handed|
    requires s.pc[i].phase.Reading? && ReadStep(cfg, s, i, c).Some?
    ensures Control(cfg, inOrder, ReadStep(cfg, s, i, c).value)
  {
    var p := ReadStep(cfg, s, i, c).value.pc[i];
    PhaseKeepsControl(cfg, inOrder, s, i, p.work, p.phase);
    FailKeepsControl(cfg, inOrder, SetPc(s, i, p));
  }

  lemma FetchKeepsContent(cfg: Config, inOrder: bool, s: State, i: nat)
    requires Control(cfg, inOrder, s) && Content(cfg, s) && i < |s.pc| && s.pc[i].Busy? && s.pc[i].k < |s.handed| &&
             s.pc[i].phase.Fetch?
    ensures Content(cfg, FetchStep(cfg, s, i))
  {
    assert CoData(cfg, s, i);
    assert ChunkInv(cfg, inOrder, s, s.pc[i].k);
    QuietKeepsContent(cfg, s, FetchStep(cfg, s, i));
  }

  lemma ReadKeepsContent(cfg: Config, s: State, i: nat, c: Choice)
    requires Content(cfg, s) && i < |s.pc| && s.pc[i].Busy? && s.pc[i].k < |s.handed|
    requires s.pc[i].phase.Reading? && ReadStep(cfg, s, i, c).Some?
    ensures Content(cfg, ReadStep(cfg, s, i, c).value)
  {
    assert CoData(cfg, s, i);
    QuietKeepsContent(cfg, s, ReadStep(cfg, s, i, c).value);
  }

  /** Control does not depend on the target. */
  lemma TargetOutsideControl(cfg: Config, inOrder: bool, s: State, now: seq<Sector>, copyRange: bool)
    requires Control(cfg, inOrder, s)
    ensures Control(cfg, inOrder, s.(target := now, copyRange := copyRange))
  {
    var s' := s.(target := now, copyRange := copyRange);
    forall j | 0 <= j < |s'.pc|
      ensures CoInv(cfg, inOrder, s', j)
    {
      assert CoInv(cfg, inOrder, s, j);
    }
    forall k | 0 <= k < |s'.handed|
      ensures ChunkInv(cfg, inOrder, s', k)
    {
      assert ChunkInv(cfg, inOrder, s, k);
    }
  }

  lemma CopyKeepsControl(cfg: Config, inOrder: bool, s: State, i: nat, c: Choice)
    requires Control(cfg, inOrder, s) && i < |s.pc| && s.pc[i].Busy? && s.pc[i].k < |s.handed|
    requires s.pc[i].phase.Copying? && CopyStep(cfg, s, i, c).Some?
    ensures Control(cfg, inOrder, CopyStep(cfg, s, i, c).value)
  {
    if c.ok {
      LogKeepsControl(cfg, inOrder, s, i);
      TargetOutsideControl(cfg, inOrder, SetPc(s, i, s.pc[i].(phase := Waking)).(written := s.written + [s.pc[i].k]),
          c.now, s.copyRange);
    } else {
      PhaseKeepsControl(cfg, inOrder, s, i, s.pc[i].work.(range := false), Fetch);
      TargetOutsideControl(cfg, inOrder, SetPc(s, i, Busy(s.pc[i].k, s.pc[i].work.(range := false), Fetch)), c.now,
          false);
    }
  }

  lemma WriteKeepsControl(cfg: Config, inOrder: bool, s: State, i: nat, c: Choice)
    requires Control(cfg, inOrder, s) && i < |s.pc| && s.pc[i].Busy? && s.pc[i].k < |s.handed|
    requires s.pc[i].phase.Writing? && WriteStep(cfg, s, i, c).Some?
    ensures Control(cfg, inOrder, WriteStep(cfg, s, i, c).value)
  {
    var p := s.pc[i];
    if !c.t.ok {
      FailKeepsControl(cfg, inOrder, s);
      var failed := s.(ret := Failed);
      PhaseKeepsControl(cfg, inOrder, failed, i, p.work, Waking);
      TargetOutsideControl(cfg, inOrder, SetPc(failed, i, p.(phase := Waking)), c.now, s.copyRange);
    } else if p.phase.done + c.t.n < s.handed[p.k].n {
      PhaseKeepsControl(cfg, inOrder, s, i, p.work, Writing(p.phase.done + c.t.n));
      TargetOutsideControl(cfg, inOrder, SetPc(s, i, p.(phase := Writing(p.phase.done + c.t.n))), c.now, s.copyRange);
    } else {
      LogKeepsControl(cfg, inOrder, s, i);
      TargetOutsideControl(cfg, inOrder, SetPc(s, i, p.(phase := Waking)).(written := s.written + [p.k]), c.now,
          s.copyRange);
    }
  }

  lemma OrderKeepsControl(cfg: Config, inOrder: bool, s: State, i: nat)
    requires Control(cfg, inOrder, s) && i < |s.pc| && s.pc[i].Busy? && s.pc[i].k < |s.handed| &&
             s.pc[i].phase.Ordering?
    ensures Control(cfg, inOrder, OrderStep(inOrder, s, i))
  {
    if inOrder && s.ret == InProgress && s.wrOffs != s.handed[s.pc[i].k].start {
      ParkKeepsControl(cfg, s, i);
    } else {
      PassKeepsControl(cfg, inOrder, s, i);
    }
  }

  lemma StepKeepsControl(cfg: Config, inOrder: bool, s: State, i: nat, c: Choice)
    requires Control(cfg, inOrder, s) && Cache(cfg, s) && Step(cfg, inOrder, s, i, c).Some?
    ensures Control(cfg, inOrder, Step(cfg, inOrder, s, i, c).value)
  {
    if s.pc[i].NotStarted? {
      EnterKeepsControl(cfg, inOrder, s, i);
    } else if s.pc[i].Top? {
      LockKeepsControl(cfg, inOrder, s, i);
    } else if s.pc[i].Iterating? {
      IterateKeepsControl(cfg, inOrder, s, i, c);
    } else if s.pc[i].phase.Fetch? {
      FetchKeepsControl(cfg, inOrder, s, i);
    } else if s.pc[i].phase.Reading? {
      ReadKeepsControl(cfg, inOrder, s, i, c);
    } else if s.pc[i].phase.Ordering? {
      OrderKeepsControl(cfg, inOrder, s, i);
    } else if s.pc[i].phase.Copying? {
      CopyKeepsControl(cfg, inOrder, s, i, c);
    } else if s.pc[i].phase.Writing? {
      WriteKeepsControl(cfg, inOrder, s, i, c);
    } else {
      WakeKeepsControl(cfg, inOrder, s, i);
    }
  }

  lemma QuietStepKeepsContent(cfg: Config, inOrder: bool, s: State, i: nat, c: Choice)
    requires Control(cfg, inOrder, s) && Content(cfg, s) && Cache(cfg, s) && Step(cfg, inOrder, s, i, c).Some?
    requires s.pc[i].NotStarted? || s.pc[i].Top?
    ensures Content(cfg, Step(cfg, inOrder, s, i, c).value)
  {
    QuietKeepsContent(cfg, s, Step(cfg, inOrder, s, i, c).value);
  }

  lemma StepKeepsContent(cfg: Config, inOrder: bool, s: State, i: nat, c: Choice)
    requires Control(cfg, inOrder, s) && Content(cfg, s) && Cache(cfg, s) && Step(cfg, inOrder, s, i, c).Some?
    ensures Content(cfg, Step(cfg, inOrder, s, i, c).value)
  {
    if s.pc[i].Iterating? {
      IterateKeepsContent(cfg, inOrder, s, i, c);
    } else if !s.pc[i].Busy? {
      QuietStepKeepsContent(cfg, inOrder, s, i, c);
    } else if s.pc[i].phase.Fetch? {
      FetchKeepsContent(cfg, inOrder, s, i);
    } else if s.pc[i].phase.Reading? {
      ReadKeepsContent(cfg, s, i, c);
    } else if s.pc[i].phase.Copying? {
      CopyKeepsContent(cfg, inOrder, s, i, c);
    } else if s.pc[i].phase.Writing? {
      WriteKeepsContent(cfg, inOrder, s, i, c);
    } else if s.pc[i].phase.Waking? {
      WakeKeepsContent(cfg, inOrder, s, i);
    } else {
      BusyMeansUnfinished(cfg, inOrder, s, i);
      assert ChunkInv(cfg, inOrder, s, s.pc[i].k);
      OrderKeepsContent(cfg, inOrder, s, i);
    }
  }

  predicate SameStatus(s: State, s': State) {
    s'.status == s.status && s'.nextStatus == s.nextStatus && s'.sectorNum == s.sectorNum
  }

  lemma WakeKeepsStatus(inOrder: bool, s: State, i: nat)
    requires i < |s.pc| == |s.wait| && s.pc[i].Busy? && s.pc[i].k < |s.handed| && WakeStep(inOrder, s, i).Some?
    ensures SameStatus(s, WakeStep(inOrder, s, i).value)
  {
  }

  lemma WorkKeepsStatus(cfg: Config, inOrder: bool, s: State, i: nat, c: Choice)
    requires |s.wait| == |s.pc| && (cfg.compressed ==> cfg.clusterSectors > 0) && Step(cfg, inOrder, s, i, c).Some? &&
             s.pc[i].Busy?
    ensures SameStatus(s, Step(cfg, inOrder, s, i, c).value)
  {
    if s.pc[i].phase.Waking? {
      WakeKeepsStatus(inOrder, s, i);
    }
  }

  lemma StepKeepsCache(cfg: Config, inOrder: bool, s: State, i: nat, c: Choice)
    requires Control(cfg, inOrder, s) && Content(cfg, s) && Cache(cfg, s) && Step(cfg, inOrder, s, i, c).Some?
    ensures Cache(cfg, Step(cfg, inOrder, s, i, c).value)
  {
    if s.pc[i].Iterating? {
      IterateKeepsContent(cfg, inOrder, s, i, c);
    } else if s.pc[i].Busy? {
      WorkKeepsStatus(cfg, inOrder, s, i, c);
    } else {
      assert SameStatus(s, Step(cfg, inOrder, s, i, c).value);
    }
  }

  lemma {:induction false} RunKeepsInv(cfg: Config, inOrder: bool, s: State, run: seq<(nat, Choice)>, s': State)
    requires Control(cfg, inOrder, s) && Content(cfg, s) && Cache(cfg, s) && Reaches(cfg, inOrder, s, run, s')
    ensures Control(cfg, inOrder, s') && Content(cfg, s') && Cache(cfg, s')
    decreases run
  {
    if run != [] {
      StepKeepsControl(cfg, inOrder, s, run[0].0, run[0].1);
      StepKeepsContent(cfg, inOrder, s, run[0].0, run[0].1);
      StepKeepsCache(cfg, inOrder, s, run[0].0, run[0].1);
      RunKeepsInv(cfg, inOrder, Step(cfg, inOrder, s, run[0].0, run[0].1).value, run[1..], s');
    }
  }

  // ----- what the coroutines achieve together -----

  /** In every interleaving, success means that every sector was handed out exactly once, in
      chunks that fit the buffer, and that the target shows the source. */
  lemma SuccessMeansCopied(cfg: Config, inOrder: bool, s0: State, run: seq<(nat, Choice)>, s: State)
    requires Init(cfg, s0) && Reaches(cfg, inOrder, s0, run, s) && s.ret == Success
    ensures Tiling(s.handed, |cfg.source|, cfg)
    ensures cfg.CopiedRange(s.target, 0, |cfg.source|)
    ensures !cfg.salvage ==> s.target[..|cfg.source|] == cfg.source
    ensures |s.target| == |cfg.initial| && forall x :: |cfg.source| <= x < |s.target| ==> s.target[x] == cfg.initial[x]
  {
    RunKeepsInv(cfg, inOrder, s0, run, s);
    forall x | 0 <= x < |cfg.source|
      ensures cfg.ReadsAs(x, s.target[x])
    {
      var k := TilingCovers(s.handed, s.sectorNum, cfg, x);
      assert ChunkInv(cfg, inOrder, s, k) && PassedData(cfg, s, k);
    }
  }

  /** With ordered writing, in every run and also after an error, the chunks are written in the
      order of their sectors without a gap, and at most one coroutine is writing. */
  lemma WritesAreOrdered(cfg: Config, s0: State, run: seq<(nat, Choice)>, s: State)
    requires Init(cfg, s0) && Reaches(cfg, true, s0, run, s)
    ensures forall j :: 0 <= j < |s.written| ==> s.written[j] == j
    ensures Tiling(s.handed, s.sectorNum, cfg)
    ensures forall i, j :: 0 <= i < |s.pc| && 0 <= j < |s.pc| && IsWriting(s.pc[i]) && IsWriting(s.pc[j]) ==> i == j
    ensures forall i :: 0 <= i < |s.pc| && IsWriting(s.pc[i]) ==> s.pc[i].k == |s.written|
    ensures forall i :: 0 <= i < |s.pc| && IsWriting(s.pc[i]) && s.ret == InProgress && s.pc[i].k < |s.handed| ==>
            s.handed[s.pc[i].k].start == s.wrOffs
  {
    RunKeepsInv(cfg, true, s0, run, s);
    forall i, j | 0 <= i < |s.pc| && 0 <= j < |s.pc| && IsWriting(s.pc[i]) && IsWriting(s.pc[j])
      ensures i == j
    {
      assert CoInv(cfg, true, s, i) && CoInv(cfg, true, s, j);
    }
    forall i | 0 <= i < |s.pc| && IsWriting(s.pc[i])
      ensures s.pc[i].k == |s.written|
      ensures s.ret == InProgress && s.pc[i].k < |s.handed| ==> s.handed[s.pc[i].k].start == s.wrOffs
    {
      assert CoInv(cfg, true, s, i);
    }
  }

  predicate IsWriting(p: Pc) {
    p.Busy? && AtWork(p.phase)
  }

  /** Every write finds its chunk as convert_co_write and convert_co_copy_range need it,
      whatever the other coroutines have done. */
  lemma WriterFindsUntouched(cfg: Config, inOrder: bool, s0: State, run: seq<(nat, Choice)>, s: State, i: nat)
    requires Init(cfg, s0) && Reaches(cfg, inOrder, s0, run, s) && i < |s.pc| && IsWriting(s.pc[i])
    ensures s.pc[i].k < |s.handed| && ChunkAllowed(cfg, s.handed[s.pc[i].k])
    ensures s.pc[i].phase.Copying? ==> !cfg.salvage
    ensures s.pc[i].phase.Writing? ==> BufferRight(cfg, s.handed[s.pc[i].k], s.pc[i].work)
    ensures cfg.UntouchedRange(s.target, s.handed[s.pc[i].k].start + (if s.pc[i].phase.Writing? then s.pc[i].phase.done
            else 0),
                               s.handed[s.pc[i].k].start + s.handed[s.pc[i].k].n)
  {
    RunKeepsInv(cfg, inOrder, s0, run, s);
    assert CoInv(cfg, inOrder, s, i) && CoData(cfg, s, i);
    assert ChunkInv(cfg, inOrder, s, s.pc[i].k);
  }

  /** A coroutine is entered by a wake-up loop only at its ordering yield: the loop's
      condition holds of no coroutine that yielded anywhere else, so the step of the wake-up
      loop is always possible. */
  lemma OnlyParkedAreEntered(cfg: Config, inOrder: bool, s0: State, run: seq<(nat, Choice)>, s: State, i: nat)
    requires Init(cfg, s0) && Reaches(cfg, inOrder, s0, run, s) && i < |s.pc| == |s.wait| && Alive(s.pc[i])
    ensures s.wait[i] != -1 <==> s.pc[i].Busy? && s.pc[i].phase.Waiting?
    ensures s.pc[i].Busy? ==> s.pc[i].k < |s.handed|
    ensures s.pc[i].Busy? && s.pc[i].phase.Waking? ==> WakeStep(inOrder, s, i).Some?
  {
    RunKeepsInv(cfg, inOrder, s0, run, s);
    assert CoInv(cfg, inOrder, s, i);
    if s.pc[i].Busy? && s.pc[i].phase.Waking? {
      WakeKeepsControl(cfg, inOrder, s, i);
    }
  }

  /** A parked coroutine waits for the end of a chunk whose owner has still to reach its
      wake-up loop, also after an error. */
  lemma ParkedWillBeEntered(cfg: Config, inOrder: bool, s0: State, run: seq<(nat, Choice)>, s: State, i: nat)
    returns (j: nat)
    requires Init(cfg, s0) && Reaches(cfg, inOrder, s0, run, s)
    requires i < |s.pc| && s.pc[i].Busy? && s.pc[i].phase.Waiting?
    ensures j < |s.pc| && s.pc[j].Busy? && s.pc[j].k < |s.handed| && i < |s.wait|
    ensures s.handed[s.pc[j].k].start + s.handed[s.pc[j].k].n == s.wait[i]
    ensures s.pc[j].k + 1 == s.pc[i].k
  {
    RunKeepsInv(cfg, inOrder, s0, run, s);
    j := Predecessor(cfg, inOrder, s, i);
  }

  lemma Predecessor(cfg: Config, inOrder: bool, s: State, i: nat) returns (j: nat)
    requires Control(cfg, inOrder, s) && i < |s.pc| && s.pc[i].Busy? && s.pc[i].phase.Waiting?
    ensures j < |s.pc| && s.pc[j].Busy? && s.pc[j].k < |s.handed|
    ensures s.handed[s.pc[j].k].start + s.handed[s.pc[j].k].n == s.wait[i]
    ensures s.pc[j].k + 1 == s.pc[i].k
  {
    var k := s.pc[i].k;
    assert CoInv(cfg, inOrder, s, i);
    assert ChunkInv(cfg, inOrder, s, k - 1);
    assert TileOk(s.handed, k - 1, s.sectorNum, cfg);
    j := s.owner[k - 1];
  }

  /** As long as some coroutine is running, some coroutine can go on. */
  lemma NoDeadlock(cfg: Config, inOrder: bool, s0: State, run: seq<(nat, Choice)>, s: State, i: nat)
    returns (j: nat, c: Choice)
    requires Init(cfg, s0) && Reaches(cfg, inOrder, s0, run, s) && i < |s.pc| && Alive(s.pc[i])
    ensures |s.wait| == |s.pc| && (cfg.compressed ==> cfg.clusterSectors > 0) && Step(cfg, inOrder, s, j, c).Some?
  {
    RunKeepsInv(cfg, inOrder, s0, run, s);
    j, c := SomeoneCanMove(cfg, inOrder, s, i);
  }

  lemma {:induction false} SomeoneCanMove(cfg: Config, inOrder: bool, s: State, i: nat) returns (j: nat, c: Choice)
    requires Control(cfg, inOrder, s) && Content(cfg, s) && Cache(cfg, s) && i < |s.pc| && Alive(s.pc[i])
    ensures Step(cfg, inOrder, s, j, c).Some?
    decreases if s.pc[i].Busy? then s.pc[i].k else 0
  {
    assert CoInv(cfg, inOrder, s, i);
    j := i;
    if s.pc[i].Top? && s.lock != -1 {
      j := s.lock;
      assert CoInv(cfg, inOrder, s, j);
    }
    if s.pc[j].Busy? && s.pc[j].phase.Waiting? {
      var before := Predecessor(cfg, inOrder, s, j);
      j, c := SomeoneCanMove(cfg, inOrder, s, before);
    } else if s.pc[j].Busy? {
      c := WorkerCanMove(cfg, inOrder, s, j);
    } else {
      c := Choice(true, Answer(true, false, true, 1), [], Turn(false, 0, true), s.target);
    }
  }

  /** A coroutine with a chunk can go on unless it is parked. */
  lemma WorkerCanMove(cfg: Config, inOrder: bool, s: State, i: nat) returns (c: Choice)
    requires Control(cfg, inOrder, s) && Content(cfg, s) && Cache(cfg, s) && i < |s.pc| && s.pc[i].Busy? &&
             !s.pc[i].phase.Waiting?
    ensures Step(cfg, inOrder, s, i, c).Some?
  {
    var p := s.pc[i];
    assert CoInv(cfg, inOrder, s, i);
    assert CoData(cfg, s, i);
    assert ChunkInv(cfg, inOrder, s, p.k);
    var chunk := s.handed[p.k];
    c := Choice(false, Answer(true, false, true, 1), [], Turn(false, 0, true), s.target);
    if p.phase.Reading? {
      c := c.(ok := true, buf := cfg.source[chunk.start..chunk.start + chunk.n]);
    } else if p.phase.Writing? {
      var t, now := TurnPossible(cfg, p.work.st, Rest(p.work.buf, p.phase.done), chunk.start + p.phase.done,
          chunk.n - p.phase.done, s.target);
      c := c.(t := t, now := now);
    } else if p.phase.Waking? {
      WakeKeepsControl(cfg, inOrder, s, i);
    }
  }

  /** The write loop can always take another turn. */
  lemma TurnPossible(cfg: Config, st: BlkStatus, buf: seq<Sector>, at: nat, nb: nat, before: seq<Sector>)
    returns (t: Turn, now: seq<Sector>)
    requires 0 < nb && at + nb <= |before| && (st == Data ==> |buf| == nb)
    ensures TurnAllowed(cfg, st, buf, at, nb, t, before, now)
  {
    var skip := st != Data || (cfg.minSparse > 0 && ZeroRun(buf, 0, nb));
    t, now := Turn(!skip, nb, st == BackingFile || (skip && cfg.hasZeroInit)), before;
  }
}
