/**
  qemu-img convert: the concatenated source images are cut into chunks by their block
  status, and every chunk is copied, zeroed, or left to the target's backing file.
*/
module Convert {
  import opened Arithmetic
  import opened Buffers

  const REQUEST_MAX_SECTORS := 4194303    // INT_MAX >> BDRV_SECTOR_BITS

  datatype BlkStatus = Data | Zero | BackingFile

  // ----- concatenated sources -----

  function Concat(src: seq<seq<Sector>>): seq<Sector> {
    if src == [] then [] else src[0] + Concat(src[1..])
  }

  lemma {:induction false} ConcatSplit(src: seq<seq<Sector>>, k: nat)
    requires k <= |src|
    ensures Concat(src) == Concat(src[..k]) + Concat(src[k..])
  {
    if k > 0 {
      ConcatSplit(src[1..], k - 1);
      assert src[1..][..k - 1] == src[..k][1..];
      assert src[1..][k - 1..] == src[k..];
    } else {
      assert src[0..] == src;
    }
  }

  /** Where part k starts in the concatenation. */
  function PartStart(src: seq<seq<Sector>>, k: nat): nat
    requires k <= |src|
  {
    |Concat(src[..k])|
  }

  lemma PartAt(src: seq<seq<Sector>>, k: nat)
    requires k < |src|
    ensures PartStart(src, k) + |src[k]| == PartStart(src, k + 1) <= |Concat(src)|
    ensures forall i :: 0 <= i < |src[k]| ==> Concat(src)[PartStart(src, k) + i] == src[k][i]
  {
    ConcatSplit(src, k);
    ConcatSplit(src, k + 1);
    ConcatSplit(src[..k + 1], k);
    assert src[..k + 1][..k] == src[..k];
    assert src[..k + 1][k..] == [src[k]];
    assert Concat([src[k]]) == src[k] + Concat([]);
  }

  lemma PartSlice(src: seq<seq<Sector>>, k: nat, rel: nat, n: nat)
    requires k < |src| && rel + n <= |src[k]|
    ensures PartStart(src, k) + rel + n <= |Concat(src)|
    ensures Concat(src)[PartStart(src, k) + rel..PartStart(src, k) + rel + n] == src[k][rel..rel + n]
  {
    ConcatSplit(src, k);
    assert src[k..][0] == src[k];
    assert Concat(src[k..]) == src[k] + Concat(src[k..][1..]);
  }

  lemma {:induction false} PartsInOrder(src: seq<seq<Sector>>, k: nat, k': nat)
    requires k < k' <= |src|
    ensures PartStart(src, k) + |src[k]| <= PartStart(src, k')
    decreases k'
  {
    PartAt(src, k);
    if k + 1 < k' {
      PartsInOrder(src, k, k' - 1);
      PartAt(src, k' - 1);
    }
  }

  /** A sector lies in one part only. */
  lemma PartUnique(src: seq<seq<Sector>>, k: nat, k': nat, i: nat)
    requires k < |src| && k' < |src|
    requires PartStart(src, k) <= i < PartStart(src, k) + |src[k]|
    requires PartStart(src, k') <= i < PartStart(src, k') + |src[k']|
    ensures k == k'
  {
    if k < k' {
      PartsInOrder(src, k, k');
    } else if k' < k {
      PartsInOrder(src, k', k);
    }
  }

  /** convert_select_part: the source that holds a sector. */
  method SelectPart(src: seq<seq<Sector>>, sectorNum: nat) returns (cur: nat, start: nat)
    requires sectorNum < |Concat(src)|
    ensures cur < |src| && start == PartStart(src, cur)
    ensures start <= sectorNum < start + |src[cur]|
    ensures Concat(src)[sectorNum] == src[cur][sectorNum - start]
  {
    cur, start := 0, 0;
    assert src[..|src|] == src;
    while sectorNum - start >= |src[cur]|
      invariant 0 <= cur < |src| && start == PartStart(src, cur) <= sectorNum
      decreases |src| - cur
    {
      PartAt(src, cur);
      start := start + |src[cur]|;
      cur := cur + 1;
    }
    PartAt(src, cur);
  }

  /** A base image reads as zeroes past its end. */
  function BaseAt(base: seq<Sector>, i: nat): Sector {
    if i < |base| then base[i] else ZERO_SECTOR
  }

  /** What a chunk status promises: zero chunks read as zeroes in the source, and chunks left
      to the backing file read in the source what the untouched target shows. */
  ghost predicate StatusOk(source: seq<Sector>, initial: seq<Sector>, status: BlkStatus, lo: int, hi: int) {
    match status
    case Data => true
    case Zero => forall i :: 0 <= i && lo <= i < hi && i < |source| ==> IsZero(source[i])
    case BackingFile => forall i :: 0 <= i && lo <= i < hi && i < |source| && i < |initial| ==> source[i] == initial[i]
  }

  /** What img_convert has found out before the copy starts. */
  datatype Config = Config(
    src: seq<seq<Sector>>,
    srcAlignment: seq<nat>,
    source: seq<Sector>,              // the concatenation of the sources
    base: seq<Sector>,                // what the source's own backing chain holds
    initial: seq<Sector>,             // what the target shows before anything is written
    targetHasBacking: bool,
    targetBackingSectors: int,        // negative if unknown
    hasZeroInit: bool,
    compressed: bool,
    clusterSectors: nat,
    bufSectors: nat,
    minSparse: nat,
    alignment: nat,
    salvage: bool)
  {
    ghost predicate Valid() {
      && source == Concat(src) && |source| <= |initial|
      && |srcAlignment| == |src| && (forall k :: 0 <= k < |src| ==> srcAlignment[k] > 0)
      && alignment > 0 && bufSectors > 0
      && (hasZeroInit ==> !targetHasBacking)
      && (targetBackingSectors >= 0 ==> targetHasBacking)
    }

    /** In compressed mode one cluster is copied at a time. */
    ghost predicate Ready() {
      Valid() && (compressed ==> 0 < clusterSectors == bufSectors)
    }

    /** The target was zeroed if it is assumed to be, and its backing file matches the source's. */
    ghost predicate TargetPrepared() {
      && |source| <= |initial|
      && (hasZeroInit ==> forall i :: 0 <= i < |source| ==> IsZero(initial[i]))
      && (targetHasBacking ==> forall i :: 0 <= i < |source| ==> initial[i] == BaseAt(base, i))
      && (targetBackingSectors >= 0 ==> forall i :: targetBackingSectors <= i < |source| ==> IsZero(initial[i]))
    }

    /** What bdrv_block_status_above promises for the sectors it covers. */
    predicate Truthful(sectorNum: nat, n: nat, isZero: bool, isData: bool) {
      && (isZero ==> forall i :: sectorNum <= i < sectorNum + n && i < |source| ==> IsZero(source[i]))
      && (!isZero && !isData && targetHasBacking ==>
            forall i :: sectorNum <= i < sectorNum + n && i < |source| ==> source[i] == BaseAt(base, i))
    }

    /** What reading sector i may deliver: the source, or in salvage mode zeroes in its place. */
    ghost predicate ReadsAs(i: nat, s: Sector)
      requires i < |source|
    {
      s == source[i] || (salvage && IsZero(s))
    }

    ghost predicate ReadsAsFrom(sectorNum: nat, buf: seq<Sector>)
      requires sectorNum + |buf| <= |source|
    {
      forall i :: 0 <= i < |buf| ==> ReadsAs(sectorNum + i, buf[i])
    }

    /** Sector i has not been touched, or only by an offloaded copy that failed later on. */
    ghost predicate Untouched(now: seq<Sector>, i: nat)
      requires i < |source| && i < |initial| && i < |now|
    {
      now[i] == initial[i] || (!salvage && now[i] == source[i])
    }

    ghost predicate UntouchedRange(now: seq<Sector>, lo: nat, hi: nat) {
      && hi <= |source| && hi <= |initial| && hi <= |now|
      && forall i :: lo <= i < hi ==> Untouched(now, i)
    }

    /** The target shows the source in [lo, hi), or in salvage mode zeroes in its place. */
    ghost predicate CopiedRange(now: seq<Sector>, lo: nat, hi: nat) {
      hi <= |source| && hi <= |now| && forall i :: lo <= i < hi ==> ReadsAs(i, now[i])
    }

    lemma ReadWants(sectorNum: nat, buf: seq<Sector>, want: seq<Sector>)
      requires sectorNum + |buf| <= |source| <= |initial| && ReadsAsFrom(sectorNum, buf)
      requires want == source[..sectorNum] + buf + source[sectorNum + |buf|..]
      ensures Wanted(want, sectorNum, sectorNum + |buf|, Data) && Holds(buf, want, sectorNum)
    {
      forall i | sectorNum <= i < sectorNum + |buf|
        ensures ReadsAs(i, want[i])
      {
        assert ReadsAs(sectorNum + (i - sectorNum), buf[i - sectorNum]);
      }
    }

    /** want is what the target has to show in a chunk [lo, hi) of the given status. */
    ghost predicate Wanted(want: seq<Sector>, lo: nat, hi: nat, st: BlkStatus) {
      && hi <= |source| && hi <= |initial| && hi <= |want|
      && forall i :: lo <= i < hi ==>
           && ReadsAs(i, want[i])
           && (st == Zero ==> IsZero(want[i]) && IsZero(source[i]))
           && (st == BackingFile ==> want[i] == initial[i] == source[i])
    }
  }

  /** buf holds the sectors of want from at on. */
  ghost predicate Holds(buf: seq<Sector>, want: seq<Sector>, at: nat) {
    at + |buf| <= |want| && forall k :: 0 <= k < |buf| ==> buf[k] == want[at + k]
  }

  // ----- cutting the source into chunks -----

  /** The outcome of a status query, cut down to the alignment of the source. */
  datatype Answer = Answer(ok: bool, isZero: bool, isData: bool, n: nat)

  ghost predicate AnswerAllowed(cfg: Config, sectorNum: nat, limit: int, a: Answer) {
    && (a.ok ==> 0 < a.n <= limit && cfg.Truthful(sectorNum, a.n, a.isZero, a.isData))
    && (cfg.salvage ==> a.ok)
  }

  /** How far a query at sectorNum goes: starting from the end of the target's backing file,
      zeroes are handled differently. */
  function QueryLimit(cfg: Config, sectorNum: nat): int {
    var n := Min(|cfg.source| - sectorNum, REQUEST_MAX_SECTORS);
    if sectorNum < cfg.targetBackingSectors < sectorNum + n then cfg.targetBackingSectors - sectorNum else n
  }

  predicate PostBackingZero(cfg: Config, sectorNum: nat) {
    0 <= cfg.targetBackingSectors <= sectorNum
  }

  function StatusOf(cfg: Config, postBackingZero: bool, isZero: bool, isData: bool): BlkStatus {
    if isZero then (if postBackingZero then BackingFile else Zero)
    else if isData then Data
    else if cfg.targetHasBacking then BackingFile else Data
  }

  /** A chunk of n sectors, and the status that is remembered up to next. */
  datatype Iteration = Iteration(st: BlkStatus, next: int, n: int)

  /** The status at sectorNum, remembered or from the answer to a new query, and how far it goes. */
  function StatusRun(cfg: Config, st: BlkStatus, next: int, sectorNum: nat, a: Answer): Iteration {
    var st' := if next <= sectorNum then StatusOf(cfg, PostBackingZero(cfg, sectorNum), a.isZero, a.isData) else st;
    var next' := if next <= sectorNum then sectorNum + a.n else next;
    var n := Min(QueryLimit(cfg, sectorNum), next' - sectorNum);
    Iteration(st', next', if st' == Data then Min(n, cfg.bufSectors) else n)
  }

  /** Compressed images are written in complete clusters: a shorter area counts as data. */
  function WholeClusters(cfg: Config, sectorNum: nat, it: Iteration): Iteration
    requires cfg.compressed ==> cfg.clusterSectors > 0
  {
    if !cfg.compressed then it
    else if it.n < cfg.clusterSectors then Iteration(Data, it.next, Min(cfg.clusterSectors, |cfg.source| - sectorNum))
    else it.(n := AlignDown(it.n, cfg.clusterSectors))
  }

  /** convert_iteration_sectors */
  function NextChunk(cfg: Config, st: BlkStatus, next: int, sectorNum: nat, a: Answer): Iteration
    requires cfg.compressed ==> cfg.clusterSectors > 0
  {
    WholeClusters(cfg, sectorNum, StatusRun(cfg, st, next, sectorNum, a))
  }

  /** The remembered status is right from sectorNum on, as far as it goes. */
  ghost predicate CacheRight(cfg: Config, st: BlkStatus, next: int, sectorNum: nat) {
    next <= |cfg.source| && StatusOk(cfg.source, cfg.initial, st, sectorNum, next) &&
        (st == BackingFile ==> cfg.targetHasBacking)
  }

  lemma FreshStatusRight(cfg: Config, sectorNum: nat, a: Answer)
    requires cfg.Valid() && cfg.TargetPrepared() && sectorNum < |cfg.source|
    requires a.ok && AnswerAllowed(cfg, sectorNum, QueryLimit(cfg, sectorNum), a)
    ensures CacheRight(cfg, StatusOf(cfg, PostBackingZero(cfg, sectorNum), a.isZero, a.isData), sectorNum + a.n,
            sectorNum)
  {
  }

  /** The chunk is not empty, its status is true of all its sectors, data fits the buffer, and the
      remembered status is right behind it. */
  ghost predicate RunRight(cfg: Config, sectorNum: nat, it: Iteration) {
    && 0 < it.n <= |cfg.source| - sectorNum && StatusOk(cfg.source, cfg.initial, it.st, sectorNum, sectorNum + it.n)
    && (it.st == Data ==> it.n <= cfg.bufSectors)
    && (it.st == BackingFile ==> cfg.targetHasBacking) && CacheRight(cfg, it.st, it.next, sectorNum + it.n)
  }

  /** Besides, compressed chunks are whole clusters. */
  ghost predicate ChunkRight(cfg: Config, sectorNum: nat, it: Iteration) {
    && RunRight(cfg, sectorNum, it)
    && (cfg.compressed ==>
        cfg.clusterSectors > 0 && (it.n % cfg.clusterSectors == 0 || sectorNum + it.n == |cfg.source|))
  }

  lemma StatusRunRight(cfg: Config, st: BlkStatus, next: int, sectorNum: nat, a: Answer)
    requires cfg.Valid() && cfg.TargetPrepared() && sectorNum < |cfg.source| && CacheRight(cfg, st, next, sectorNum)
    requires next <= sectorNum ==> a.ok && AnswerAllowed(cfg, sectorNum, QueryLimit(cfg, sectorNum), a)
    ensures RunRight(cfg, sectorNum, StatusRun(cfg, st, next, sectorNum, a))
  {
    if next <= sectorNum {
      FreshStatusRight(cfg, sectorNum, a);
    }
  }

  lemma WholeClustersRight(cfg: Config, sectorNum: nat, it: Iteration)
    requires RunRight(cfg, sectorNum, it) && (cfg.compressed ==> 0 < cfg.clusterSectors == cfg.bufSectors)
    ensures ChunkRight(cfg, sectorNum, WholeClusters(cfg, sectorNum, it))
  {
    var c := cfg.clusterSectors;
    if cfg.compressed {
      if it.n < c {
        MultipleMod(1, c);
      } else {
        AlignDownIsMultiple(it.n, c);
        if AlignDown(it.n, c) < c {
          NextMultiple(0, AlignDown(it.n, c), c);
        }
      }
    }
  }

  /** Whatever the queries answer truthfully, the next chunk is right. */
  lemma NextChunkRight(cfg: Config, st: BlkStatus, next: int, sectorNum: nat, a: Answer)
    requires cfg.Ready() && cfg.TargetPrepared() && sectorNum < |cfg.source| && CacheRight(cfg, st, next, sectorNum)
    requires next <= sectorNum ==> a.ok && AnswerAllowed(cfg, sectorNum, QueryLimit(cfg, sectorNum), a)
    ensures ChunkRight(cfg, sectorNum, NextChunk(cfg, st, next, sectorNum, a))
  {
    StatusRunRight(cfg, st, next, sectorNum, a);
    WholeClustersRight(cfg, sectorNum, StatusRun(cfg, st, next, sectorNum, a));
  }

  /** Any truthful status query: an error, or the flags of a non-empty prefix of the request. */
  method BlockStatusAbove(cfg: Config, sectorNum: nat, count: nat)
    returns (ok: bool, isZero: bool, isData: bool, got: nat)
    requires count > 0
    ensures ok ==> 0 < got <= count && cfg.Truthful(sectorNum, DivRoundUp(got, SECTOR_SIZE), isZero, isData)
  {
    ok, isZero, isData, got := *, false, true, count;
    var zero, data, bytes := *, *, *;
    if 0 < bytes <= count && cfg.Truthful(sectorNum, DivRoundUp(bytes, SECTOR_SIZE), zero, data) {
      isZero, isData, got := zero, data, bytes;
    }
  }

  /** The block status query of convert_iteration_sectors, with the retries of salvage mode. */
  method QueryStatus(cfg: Config, sectorNum: nat, limit: nat) returns (ok: bool, isZero: bool, isData: bool, n: nat)
    requires 0 < limit
    ensures ok ==> 0 < n <= limit && cfg.Truthful(sectorNum, n, isZero, isData)
    ensures cfg.salvage ==> ok
  {
    n := limit;
    var got := 0;
    ok, isZero, isData := false, false, false;
    while !ok
      invariant 0 < n <= limit
      invariant ok ==>
                  0 < got <= n * SECTOR_SIZE &&
                  cfg.Truthful(sectorNum, DivRoundUp(got, SECTOR_SIZE), isZero, isData)
      decreases !ok, n
    {
      ok, isZero, isData, got := BlockStatusAbove(cfg, sectorNum, n * SECTOR_SIZE);
      if !ok {
        if !cfg.salvage {
          return;
        }
        if n == 1 {
          ok, isZero, isData, got := true, false, true, SECTOR_SIZE;
        } else {
          n := DivRoundUp(n, 4);
        }
      }
    }
    DivRoundUpBounds(got, SECTOR_SIZE);
    n := DivRoundUp(got, SECTOR_SIZE);
  }

  // ----- reading -----

  /** A request inside one source. */
  method ReadPart(cfg: Config, at: nat, cur: nat, start: nat, n: nat) returns (ok: bool, piece: seq<Sector>)
    requires cfg.source == Concat(cfg.src)
    requires cur < |cfg.src| && start == PartStart(cfg.src, cur) && start <= at && at - start + n <= |cfg.src[cur]|
    requires at + n <= |cfg.source|
    ensures ok ==> |piece| == n && cfg.ReadsAsFrom(at, piece)
  {
    ok, piece := *, cfg.src[cur][at - start..at - start + n];
    PartSlice(cfg.src, cur, at - start, n);
    assert cfg.source[at..at + n] == piece;
    forall i | 0 <= i < n
      ensures cfg.ReadsAs(at + i, piece[i])
    {
      assert cfg.source[at..at + n][i] == cfg.source[at + i];
    }
  }

  lemma ReadsAsAppend(cfg: Config, sectorNum: nat, buf: seq<Sector>, piece: seq<Sector>)
    requires sectorNum + |buf| + |piece| <= |cfg.source|
    requires cfg.ReadsAsFrom(sectorNum, buf) && cfg.ReadsAsFrom(sectorNum + |buf|, piece)
    ensures cfg.ReadsAsFrom(sectorNum, buf + piece)
  {
    forall i | 0 <= i < |buf + piece|
      ensures cfg.ReadsAs(sectorNum + i, (buf + piece)[i])
    {
      if i >= |buf| {
        assert cfg.ReadsAs(sectorNum + |buf| + (i - |buf|), piece[i - |buf|]);
      }
    }
  }

  /** What reading nb sectors may come to: only salvage mode goes on without the data. */
  ghost predicate ReadAllowed(cfg: Config, sectorNum: nat, nb: nat, ok: bool, buf: seq<Sector>) {
    sectorNum + nb <= |cfg.source| && (ok ==> |buf| == nb && cfg.ReadsAsFrom(sectorNum, buf)) && (cfg.salvage ==> ok)
  }

  /** convert_co_read: reads across the borders of the sources; in salvage mode a failing
      request is repeated sector by sector. */
  method CoRead(cfg: Config, sectorNum: nat, nb: nat) returns (ok: bool, buf: seq<Sector>)
    requires cfg.Valid() && nb <= cfg.bufSectors && sectorNum + nb <= |cfg.source|
    ensures ReadAllowed(cfg, sectorNum, nb, ok, buf)
  {
    var src := cfg.src;
    var singleReadUntil := 0;
    ghost var failedPart, failedAt := 0, -1;     // the last failed long request
    buf, ok := [], true;
    while |buf| < nb
      invariant ok && |buf| <= nb && cfg.ReadsAsFrom(sectorNum, buf)
      invariant failedAt >= 0 ==>
        && 0 <= failedPart < |src| && failedAt <= sectorNum + |buf|
        && PartStart(src, failedPart) <= failedAt < PartStart(src, failedPart) + |src[failedPart]|
        && singleReadUntil > failedAt - PartStart(src, failedPart)
      decreases nb - |buf|, if failedAt == sectorNum + |buf| then 0 else 1
    {
      var at := sectorNum + |buf|;
      var cur, start := SelectPart(src, at);
      var n := Min(nb - |buf|, |src[cur]| - (at - start));
      if singleReadUntil > at - start {
        n := 1;
      }
      if failedAt == at {
        PartUnique(src, cur, failedPart, at);
      }
      var piece;
      ok, piece := ReadPart(cfg, at, cur, start, n);
      if !ok {
        if !cfg.salvage {
          return;
        }
        ok := true;
        if n > 1 {
          singleReadUntil := at - start + n;
          failedPart, failedAt := cur, at;
          continue;
        }
        piece := [ZERO_SECTOR];
      }
      ReadsAsAppend(cfg, sectorNum, buf, piece);
      buf := buf + piece;
    }
  }

  // ----- writing -----

  ghost predicate SameOutside(before: seq<Sector>, now: seq<Sector>, lo: nat, hi: nat) {
    |now| == |before| && forall i :: 0 <= i < |now| && !(lo <= i < hi) ==> now[i] == before[i]
  }

  lemma SameOutsideChain(before: seq<Sector>, now: seq<Sector>, now': seq<Sector>, lo: nat, hi: nat, lo': nat, hi': nat)
    requires SameOutside(before, now, lo, hi) && SameOutside(now, now', lo', hi') && lo <= lo' && hi' <= hi
    ensures SameOutside(before, now', lo, hi)
  {
  }

  /** What the write loop may do next with a buffer: write n sectors of it, or treat them as zero. */
  ghost predicate SplitAllowed(cfg: Config, buf: seq<Sector>, write: bool, n: nat) {
    && 0 < n <= |buf|
    && (!write ==> cfg.minSparse > 0 && ZeroRun(buf, 0, n))
    && (cfg.minSparse == 0 || cfg.compressed ==> n == |buf|)
    && (cfg.minSparse > 0 && cfg.compressed ==> (write <==> !ZeroRun(buf, 0, n)))
  }

  /** What writing buf at sector at may come to; a failing write may have written a part. */
  ghost predicate WriteAllowed(before: seq<Sector>, now: seq<Sector>, at: nat, buf: seq<Sector>, ok: bool) {
    at + |buf| <= |before| && SameOutside(before, now, at, at + |buf|) && (ok ==> now[at..at + |buf|] == buf)
  }

  /** A target that is known to be zero is not written to. */
  ghost predicate ZeroesAllowed(cfg: Config, before: seq<Sector>, now: seq<Sector>, at: nat, n: nat, ok: bool) {
    if cfg.hasZeroInit then ok && now == before else WriteAllowed(before, now, at, seq(n, _ => ZERO_SECTOR), ok)
  }

  /** What one turn of the loop of convert_co_write may do to the nb sectors from at on. */
  ghost predicate TurnAllowed(cfg: Config, st: BlkStatus, buf: seq<Sector>, at: nat, nb: nat, t: Turn,
                              before: seq<Sector>, now: seq<Sector>) {
    match st
    case BackingFile => t.n == nb && t.ok && now == before
    case Zero => t.n == nb && ZeroesAllowed(cfg, before, now, at, t.n, t.ok)
    case Data =>
      && |buf| == nb && SplitAllowed(cfg, buf, t.write, t.n)
      && if t.write then WriteAllowed(before, now, at, buf[..t.n], t.ok)
          else ZeroesAllowed(cfg, before, now, at, t.n, t.ok)
  }

  /** The choices of a turn: whether n sectors are written, and how that turns out. */
  datatype Turn = Turn(write: bool, n: nat, ok: bool)

  /** What an offloaded copy of the sectors [lo, hi) may do. */
  ghost predicate CopyAllowed(cfg: Config, before: seq<Sector>, now: seq<Sector>, lo: nat, hi: nat, ok: bool) {
    && hi <= |cfg.source| && hi <= |before| && SameOutside(before, now, lo, hi)
    && forall i :: lo <= i < hi ==> now[i] == cfg.source[i] || (!ok && now[i] == before[i])
  }

  /** How many leading sectors of a data chunk are handled together, and whether they have to be written. */
  method SplitData(cfg: Config, buf: seq<Sector>, sectorNum: nat) returns (write: bool, n: nat)
    requires |buf| > 0 && cfg.alignment > 0
    ensures SplitAllowed(cfg, buf, write, n)
  {
    n := |buf|;
    if cfg.minSparse == 0 {
      write := true;
    } else if !cfg.compressed {
      ghost var zeroEnd;
      write, n, zeroEnd := IsAllocatedSectorsMin(buf, cfg.minSparse, sectorNum, cfg.alignment);
    } else {
      write := !ZeroRun(buf, 0, n);
    }
  }

  /** The target shows what it should in [lo, hi). */
  ghost predicate Shows(now: seq<Sector>, want: seq<Sector>, lo: nat, hi: nat) {
    hi <= |now| && hi <= |want| && forall i :: lo <= i < hi ==> now[i] == want[i]
  }

  /** A target that was zeroed needs no write where the chunk is zero. */
  lemma StillZero(cfg: Config, now: seq<Sector>, want: seq<Sector>, lo: nat, hi: nat, st: BlkStatus)
    requires cfg.TargetPrepared() && cfg.hasZeroInit && st != BackingFile
    requires cfg.Wanted(want, lo, hi, st) && cfg.UntouchedRange(now, lo, hi)
    requires forall i :: lo <= i < hi ==> IsZero(want[i])
    ensures Shows(now, want, lo, hi)
  {
    forall i | lo <= i < hi
      ensures now[i] == want[i]
    {
      assert cfg.Untouched(now, i) && cfg.ReadsAs(i, want[i]);
    }
  }

  lemma StillBacking(cfg: Config, now: seq<Sector>, want: seq<Sector>, lo: nat, hi: nat)
    requires cfg.Wanted(want, lo, hi, BackingFile) && cfg.UntouchedRange(now, lo, hi)
    ensures Shows(now, want, lo, hi)
  {
    forall i | lo <= i < hi
      ensures now[i] == want[i]
    {
      assert cfg.Untouched(now, i) && cfg.ReadsAs(i, want[i]);
    }
  }

  lemma UntouchedLater(cfg: Config, now: seq<Sector>, now': seq<Sector>, lo: nat, mid: nat, hi: nat)
    requires cfg.UntouchedRange(now, lo, hi) && lo <= mid && SameOutside(now, now', lo, mid)
    ensures cfg.UntouchedRange(now', mid, hi)
  {
    forall i | mid <= i < hi
      ensures cfg.Untouched(now', i)
    {
      assert cfg.Untouched(now, i);
    }
  }

  lemma ZeroesShow(cfg: Config, before: seq<Sector>, now: seq<Sector>, want: seq<Sector>, at: nat, n: nat,
                   st: BlkStatus, ok: bool)
    requires cfg.TargetPrepared() && ZeroesAllowed(cfg, before, now, at, n, ok) && st != BackingFile
    requires cfg.Wanted(want, at, at + n, st) && cfg.UntouchedRange(before, at, at + n) && forall i ::
             at <= i < at + n ==> IsZero(want[i])
    ensures SameOutside(before, now, at, at + n) && (ok ==> Shows(now, want, at, at + n))
  {
    if cfg.hasZeroInit {
      StillZero(cfg, before, want, at, at + n, st);
    } else if ok {
      WroteBuffer(now, at, seq(n, _ => ZERO_SECTOR), want);
    }
  }

  lemma WantedPrefix(cfg: Config, before: seq<Sector>, want: seq<Sector>, lo: nat, mid: nat, hi: nat, st: BlkStatus)
    requires cfg.Wanted(want, lo, hi, st) && cfg.UntouchedRange(before, lo, hi) && mid <= hi
    ensures cfg.Wanted(want, lo, mid, st) && cfg.UntouchedRange(before, lo, mid)
  {
    forall i | lo <= i < mid
      ensures cfg.Untouched(before, i)
    {
    }
  }

  /** After a turn of the write loop that succeeds, its sectors show what they should, although
      zeroes may not have been written, and the target's backing file may show through. */
  lemma TurnShows(cfg: Config, st: BlkStatus, buf: seq<Sector>, at: nat, nb: nat, t: Turn, before: seq<Sector>,
                  now: seq<Sector>, want: seq<Sector>)
    requires cfg.TargetPrepared() && 0 < nb && TurnAllowed(cfg, st, buf, at, nb, t, before, now)
    requires cfg.Wanted(want, at, at + nb, st) && cfg.UntouchedRange(before, at, at + nb) &&
             (st == Data ==> Holds(buf, want, at))
    ensures 0 < t.n <= nb && SameOutside(before, now, at, at + t.n) && (t.ok ==> Shows(now, want, at, at + t.n))
  {
    WantedPrefix(cfg, before, want, at, at + t.n, at + nb, st);
    if st == BackingFile {
      StillBacking(cfg, before, want, at, at + nb);
    } else if st == Data && t.write {
      if t.ok {
        WroteBuffer(now, at, buf[..t.n], want);
      }
    } else {
      if st == Data {
        HeldZeroRun(buf, want, at, t.n);
      }
      ZeroesShow(cfg, before, now, want, at, t.n, st, t.ok);
    }
  }

  /** An offloaded copy can be tried again, or be followed by a write. */
  lemma CopyKeepsUntouched(cfg: Config, before: seq<Sector>, now: seq<Sector>, lo: nat, hi: nat, ok: bool)
    requires CopyAllowed(cfg, before, now, lo, hi, ok) && cfg.UntouchedRange(before, lo, hi) && !cfg.salvage
    ensures cfg.UntouchedRange(now, lo, hi)
  {
    forall i | lo <= i < hi
      ensures cfg.Untouched(now, i)
    {
      assert cfg.Untouched(before, i);
    }
  }

  lemma WroteBuffer(now: seq<Sector>, at: nat, buf: seq<Sector>, want: seq<Sector>)
    requires at + |buf| <= |now| && now[at..at + |buf|] == buf && Holds(buf, want, at)
    ensures Shows(now, want, at, at + |buf|)
  {
    forall i | at <= i < at + |buf|
      ensures now[i] == want[i]
    {
      assert now[at..at + |buf|][i - at] == now[i];
      assert buf[i - at] == want[at + (i - at)];
    }
  }

  lemma HeldZeroRun(buf: seq<Sector>, want: seq<Sector>, at: nat, n: nat)
    requires Holds(buf, want, at) && n <= |buf| && ZeroRun(buf, 0, n)
    ensures forall i :: at <= i < at + n ==> IsZero(want[i])
  {
    forall i | at <= i < at + n
      ensures IsZero(want[i])
    {
      assert buf[i - at] == want[at + (i - at)];
    }
  }

  /** The state shared by the copying coroutines. */
  class ImgConvertState {
    const cfg: Config
    var status: BlkStatus
    var sectorNextStatus: nat
    var copyRange: bool
    var target: seq<Sector>

    constructor (cfg: Config, copyRange: bool)
      ensures this.cfg == cfg && this.copyRange == copyRange && target == cfg.initial
      ensures CacheOk(0) && status == Data
    {
      this.cfg, this.copyRange, target := cfg, copyRange, cfg.initial;
      status, sectorNextStatus := Data, 0;
    }

    ghost predicate CacheOk(sectorNum: nat)
      reads this`status, this`sectorNextStatus
    {
      CacheRight(cfg, status, sectorNextStatus, sectorNum)
    }

    /** Asks for the status at sectorNum and remembers it up to sectorNextStatus. */
    method RefreshStatus(sectorNum: nat, limit: nat, postBackingZero: bool) returns (a: Answer)
      requires cfg.Valid() && sectorNum < |cfg.source| && 0 < limit
      modifies this`status, this`sectorNextStatus
      ensures AnswerAllowed(cfg, sectorNum, limit, a)
      ensures a.ok ==>
                status == StatusOf(cfg, postBackingZero, a.isZero, a.isData) &&
                sectorNextStatus == sectorNum + a.n
      ensures !a.ok ==> status == old(status) && sectorNextStatus == old(sectorNextStatus)
    {
      var cur, start := SelectPart(cfg.src, sectorNum);
      var ok, isZero, isData, n := QueryStatus(cfg, sectorNum, limit);
      if !ok {
        return Answer(false, isZero, isData, n);
      }
      var tail := (sectorNum - start + n) % cfg.srcAlignment[cur];
      if n > tail {
        n := n - tail;
      }
      if isZero {
        status := if postBackingZero then BackingFile else Zero;
      } else if isData {
        status := Data;
      } else {
        status := if cfg.targetHasBacking then BackingFile else Data;
      }
      sectorNextStatus := sectorNum + n;
      a := Answer(true, isZero, isData, n);
    }

    /** convert_iteration_sectors: the next chunk and its status. */
    method IterationSectors(sectorNum: nat) returns (ok: bool, n: nat, ghost a: Answer)
      requires cfg.Ready() && cfg.TargetPrepared() && sectorNum < |cfg.source| && CacheOk(sectorNum)
      modifies this`status, this`sectorNextStatus
      ensures old(sectorNextStatus) <= sectorNum ==>
              AnswerAllowed(cfg, sectorNum, QueryLimit(cfg, sectorNum), a) && ok == a.ok
      ensures old(sectorNextStatus) > sectorNum ==> ok
      ensures ok ==> Iteration(status, sectorNextStatus, n) == NextChunk(cfg, old(status), old(sectorNextStatus),
              sectorNum, a)
      ensures ok ==> ChunkRight(cfg, sectorNum, Iteration(status, sectorNextStatus, n))
      ensures !ok ==> !cfg.salvage && status == old(status) && sectorNextStatus == old(sectorNextStatus)
    {
      ok, n, a := FindRun(sectorNum);
      if !ok {
        return;
      }
      WholeClustersRight(cfg, sectorNum, Iteration(status, sectorNextStatus, n));
      if cfg.compressed {
        if n < cfg.clusterSectors {
          n := Min(cfg.clusterSectors, |cfg.source| - sectorNum);
          status := Data;
        } else {
          n := AlignDown(n, cfg.clusterSectors);
        }
      }
    }

    /** Its first part, before the chunk is made to fit clusters. */
    method FindRun(sectorNum: nat) returns (ok: bool, n: nat, ghost a: Answer)
      requires cfg.Valid() && cfg.TargetPrepared() && sectorNum < |cfg.source| && CacheOk(sectorNum)
      modifies this`status, this`sectorNextStatus
      ensures old(sectorNextStatus) <= sectorNum ==>
              AnswerAllowed(cfg, sectorNum, QueryLimit(cfg, sectorNum), a) && ok == a.ok
      ensures old(sectorNextStatus) > sectorNum ==> ok
      ensures ok ==> Iteration(status, sectorNextStatus, n) == StatusRun(cfg, old(status), old(sectorNextStatus),
              sectorNum, a)
      ensures ok ==> RunRight(cfg, sectorNum, Iteration(status, sectorNextStatus, n))
      ensures !ok ==> !cfg.salvage && status == old(status) && sectorNextStatus == old(sectorNextStatus)
    {
      ghost var st0, next0 := status, sectorNextStatus;
      n := Min(|cfg.source| - sectorNum, REQUEST_MAX_SECTORS);
      var postBackingZero := false;
      if cfg.targetBackingSectors >= 0 {
        if sectorNum >= cfg.targetBackingSectors {
          postBackingZero := true;
        } else if sectorNum + n > cfg.targetBackingSectors {
          n := cfg.targetBackingSectors - sectorNum;
        }
      }
      a := Answer(true, false, true, 1);
      if sectorNextStatus <= sectorNum {
        var answer := RefreshStatus(sectorNum, n, postBackingZero);
        a := answer;
        if !answer.ok {
          return false, n, a;
        }
        n := answer.n;
      }
      StatusRunRight(cfg, st0, next0, sectorNum, a);
      ok, n := true, Min(n, sectorNextStatus - sectorNum);
      if status == Data {
        n := Min(n, cfg.bufSectors);
      }
    }

    /** The first pass of convert_do_copy, which adds up the sectors that will pass through the
        buffer, for the progress report. */
    method CountSectors() returns (ok: bool, total: nat, ghost chunks: seq<Chunk>)
      requires cfg.Ready() && cfg.TargetPrepared() && CacheOk(0)
      modifies this`status, this`sectorNextStatus
      ensures !ok ==> !cfg.salvage
      ensures status == BackingFile ==> cfg.targetHasBacking
      ensures ok ==> Counted(cfg, chunks, |cfg.source|) && total == Allocated(cfg, chunks)
    {
      var sectorNum, n := 0, 0;
      ok, total, chunks := true, 0, [];
      while sectorNum < |cfg.source|
        invariant ok && 0 <= sectorNum <= |cfg.source| && CacheOk(sectorNum)
        invariant Counted(cfg, chunks, sectorNum) && total == Allocated(cfg, chunks)
        decreases |cfg.source| - sectorNum
      {
        ghost var a;
        ok, n, a := IterationSectors(sectorNum);
        if !ok {
          return;
        }
        if status == Data || (cfg.minSparse == 0 && status == Zero) {
          total := total + n;
        }
        ghost var chunk := Chunk(sectorNum, n, status);
        CountedMore(cfg, chunks, sectorNum, chunk);
        chunks := chunks + [chunk];
        sectorNum := sectorNum + n;
      }
    }

    /** blk_co_pwrite and blk_co_pwrite_zeroes.  A failing write may have written a prefix. */
    method TargetWrite(at: nat, buf: seq<Sector>) returns (ok: bool)
      requires at + |buf| <= |target|
      modifies this`target
      ensures WriteAllowed(old(target), target, at, buf, ok)
    {
      ok := *;
      var k :| 0 <= k <= |buf| && (ok ==> k == |buf|);
      target := target[..at] + buf[..k] + target[at + k..];
    }

    /** One turn of the write loop: at least one sector at sectorNum, the rest of the chunk is untouched. */
    method WriteSome(sectorNum: nat, nb: nat, buf: seq<Sector>, st: BlkStatus, ghost want: seq<Sector>)
      returns (ok: bool, n: nat, ghost t: Turn)
      requires cfg.Valid() && cfg.TargetPrepared() && 0 < nb
      requires cfg.Wanted(want, sectorNum, sectorNum + nb, st) && cfg.UntouchedRange(target, sectorNum, sectorNum + nb)
      requires st == Data ==> |buf| == nb && Holds(buf, want, sectorNum)
      requires st == BackingFile ==> cfg.targetHasBacking
      modifies this`target
      ensures t.n == n && t.ok == ok && TurnAllowed(cfg, st, buf, sectorNum, nb, t, old(target), target)
      ensures 0 < n <= nb && SameOutside(old(target), target, sectorNum, sectorNum + n)
      ensures ok ==> Shows(target, want, sectorNum, sectorNum + n)
    {
      ghost var before := target;
      ok, n := true, nb;
      var write := false;
      if st == Data {
        write, n := SplitData(cfg, buf, sectorNum);
      }
      if write {
        ok := TargetWrite(sectorNum, buf[..n]);
      } else if st != BackingFile && !cfg.hasZeroInit {
        ok := TargetWrite(sectorNum, seq(n, _ => ZERO_SECTOR));
      }
      t := Turn(write, n, ok);
      TurnShows(cfg, st, buf, sectorNum, nb, t, before, target, want);
    }

    /** convert_co_write: on success the chunk shows what it should, and nothing else changes
        in any case. */
    method CoWrite(sectorNum: nat, nb: nat, buf: seq<Sector>, st: BlkStatus, ghost want: seq<Sector>) returns (ok: bool)
      requires cfg.Valid() && cfg.TargetPrepared()
      requires cfg.Wanted(want, sectorNum, sectorNum + nb, st) && cfg.UntouchedRange(target, sectorNum, sectorNum + nb)
      requires st == Data ==> |buf| == nb && Holds(buf, want, sectorNum)
      requires st == BackingFile ==> cfg.targetHasBacking
      modifies this`target
      ensures SameOutside(old(target), target, sectorNum, sectorNum + nb)
      ensures ok ==> Shows(target, want, sectorNum, sectorNum + nb)
    {
      var at, rest := sectorNum, buf;
      ok := true;
      while at < sectorNum + nb
        invariant ok && sectorNum <= at <= sectorNum + nb
        invariant SameOutside(old(target), target, sectorNum, sectorNum + nb)
        invariant cfg.UntouchedRange(target, at, sectorNum + nb)
        invariant st == Data ==> |rest| == sectorNum + nb - at && Holds(rest, want, at)
        invariant Shows(target, want, sectorNum, at)
      {
        ghost var now := target;
        var n;
        ghost var t;
        ok, n, t := WriteSome(at, sectorNum + nb - at, rest, st, want);
        SameOutsideChain(old(target), now, target, sectorNum, sectorNum + nb, at, at + n);
        if !ok {
          return;
        }
        UntouchedLater(cfg, now, target, at, at + n, sectorNum + nb);
        if st == Data {
          HoldsRest(rest, want, at, n);
          rest := rest[n..];
        }
        at := at + n;
      }
    }

    // ----- copying one chunk, and all of them -----

    /** convert_co_copy_range: offloaded copying of source ranges; may fail anywhere. */
    method CoCopyRange(sectorNum: nat, nb: nat) returns (ok: bool)
      requires sectorNum + nb <= |cfg.source| <= |target| && |cfg.source| <= |cfg.initial| && !cfg.salvage
      requires cfg.UntouchedRange(target, sectorNum, sectorNum + nb)
      modifies this`target
      ensures CopyAllowed(cfg, old(target), target, sectorNum, sectorNum + nb, ok)
      ensures SameOutside(old(target), target, sectorNum, sectorNum + nb)
      ensures cfg.UntouchedRange(target, sectorNum, sectorNum + nb)
      ensures ok ==> Shows(target, cfg.source, sectorNum, sectorNum + nb)
    {
      ok := *;
      var k :| 0 <= k <= nb && (ok ==> k == nb);
      ghost var before := target;
      target := target[..sectorNum] + cfg.source[sectorNum..sectorNum + k] + target[sectorNum + k..];
      CopyKeepsUntouched(cfg, before, target, sectorNum, sectorNum + nb, ok);
    }

    /** What a coroutine does with a chunk outside the lock: read or clear the buffer if
        needed, then copy, write, or leave it.  An offloaded copy is tried when the shared
        status, which another coroutine may have changed meanwhile, says data; if it fails,
        the chunk is started over without it. */
    method CopyChunk(sectorNum: nat, n: nat, st: BlkStatus) returns (ok: bool)
      requires cfg.Ready() && cfg.TargetPrepared() && sectorNum + n <= |cfg.source| <= |target| &&
               !(copyRange && cfg.salvage)
      requires StatusOk(cfg.source, cfg.initial, st, sectorNum, sectorNum + n)
      requires st == Data || (st == Zero && cfg.minSparse == 0) ==> n <= cfg.bufSectors
      requires st == BackingFile ==> cfg.targetHasBacking
      requires cfg.UntouchedRange(target, sectorNum, sectorNum + n)
      modifies this`target, this`copyRange
      ensures SameOutside(old(target), target, sectorNum, sectorNum + n)
      ensures copyRange ==> old(copyRange)
      ensures ok ==> cfg.CopiedRange(target, sectorNum, sectorNum + n)
    {
      var st' := st;
      while true
        invariant SameOutside(old(target), target, sectorNum, sectorNum + n)
        invariant cfg.UntouchedRange(target, sectorNum, sectorNum + n)
        invariant st' == st || (st' == Data && n <= cfg.bufSectors)
        invariant copyRange ==> old(copyRange)
        decreases copyRange
      {
        var sharedStatus: BlkStatus := *;
        var range := copyRange && sharedStatus == Data;
        var buf := [];
        ghost var want := cfg.source;
        if st' == Data && !range {
          ok, buf := CoRead(cfg, sectorNum, n);
          if !ok {
            return;
          }
          want := cfg.source[..sectorNum] + buf + cfg.source[sectorNum + n..];
          cfg.ReadWants(sectorNum, buf, want);
        } else if cfg.minSparse == 0 && st' == Zero {
          st', buf := Data, seq(n, _ => ZERO_SECTOR);
        }
        if range {
          ok := CoCopyRange(sectorNum, n);
          if ok {
            return;
          }
          copyRange := false;
        } else {
          ghost var before := target;
          ok := CoWrite(sectorNum, n, buf, st', want);
          SameOutsideChain(old(target), before, target, sectorNum, sectorNum + n, sectorNum, sectorNum + n);
          return;
        }
      }
    }

    /** The loop of a coroutine that works alone. */
    method CopyAll() returns (ret: ConvertResult, chunks: seq<Chunk>)
      requires cfg.Ready() && cfg.TargetPrepared() && target == cfg.initial && sectorNextStatus == 0
      requires !(copyRange && cfg.salvage) && CacheOk(0)
      modifies this
      ensures SameOutside(cfg.initial, target, 0, |cfg.source|)
      ensures ret == Converted ==> Tiling(chunks, |cfg.source|, cfg) && cfg.CopiedRange(target, 0, |cfg.source|)
      ensures ret != InvalidClusterSize
    {
      var sectorNum := 0;
      ret, chunks := Converted, [];
      while sectorNum < |cfg.source|
        invariant 0 <= sectorNum <= |cfg.source| && ret == Converted && Tiling(chunks, sectorNum, cfg)
        invariant CacheOk(sectorNum) && !(copyRange && cfg.salvage)
        invariant SameOutside(cfg.initial, target, 0, sectorNum) && cfg.CopiedRange(target, 0, sectorNum)
        decreases |cfg.source| - sectorNum
      {
        var ok, n;
        ghost var a;
        ok, n, a := IterationSectors(sectorNum);
        if !ok {
          return StatusFailed, chunks;
        }
        if cfg.minSparse == 0 && status == Zero {
          n := Min(n, cfg.bufSectors);
        }
        ghost var now := target;
        TailUntouched(cfg, now, sectorNum, n);
        ok := CopyChunk(sectorNum, n, status);
        GrowOutside(cfg.initial, now, target, sectorNum, n);
        if !ok {
          return CopyFailed, chunks;
        }
        TilingAppend(chunks, sectorNum, Chunk(sectorNum, n, status), cfg);
        CopiedMore(cfg, now, target, sectorNum, n);
        chunks := chunks + [Chunk(sectorNum, n, status)];
        sectorNum := sectorNum + n;
      }
    }
  }

  lemma TailUntouched(cfg: Config, now: seq<Sector>, at: nat, n: nat)
    requires SameOutside(cfg.initial, now, 0, at) && at + n <= |cfg.source| <= |cfg.initial|
    ensures cfg.UntouchedRange(now, at, at + n)
  {
  }

  lemma GrowOutside(initial: seq<Sector>, now: seq<Sector>, now': seq<Sector>, at: nat, n: nat)
    requires SameOutside(initial, now, 0, at) && SameOutside(now, now', at, at + n)
    ensures SameOutside(initial, now', 0, at + n)
  {
  }

  lemma HoldsRest(buf: seq<Sector>, want: seq<Sector>, at: nat, n: nat)
    requires Holds(buf, want, at) && n <= |buf|
    ensures Holds(buf[n..], want, at + n)
  {
    forall k | 0 <= k < |buf[n..]|
      ensures buf[n..][k] == want[at + n + k]
    {
      assert buf[n + k] == want[at + (n + k)];
    }
  }

  datatype Chunk = Chunk(start: nat, n: nat, st: BlkStatus)

  /** Chunk k is non-empty and ends where the next one, or the rest, starts; if its data
      passes through the buffer, it fits. */
  ghost predicate TileOk(chunks: seq<Chunk>, k: nat, end: nat, cfg: Config)
    requires k < |chunks|
  {
    && chunks[k].n > 0
    && chunks[k].start + chunks[k].n == (if k + 1 < |chunks| then chunks[k + 1].start else end)
    && (chunks[k].st == Data || (chunks[k].st == Zero && cfg.minSparse == 0) ==> chunks[k].n <= cfg.bufSectors)
  }

  /** The chunks follow each other from 0 to end without gap or overlap. */
  ghost predicate Tiling(chunks: seq<Chunk>, end: nat, cfg: Config) {
    && (forall k :: 0 <= k < |chunks| ==> TileOk(chunks, k, end, cfg))
    && (if |chunks| == 0 then end == 0 else chunks[0].start == 0)
  }

  /** In a tiling every sector belongs to exactly one chunk. */
  lemma TilingCovers(chunks: seq<Chunk>, end: nat, cfg: Config, i: nat) returns (k: nat)
    requires Tiling(chunks, end, cfg) && i < end
    ensures k < |chunks| && chunks[k].start <= i < chunks[k].start + chunks[k].n
    ensures forall k' :: 0 <= k' < |chunks| && chunks[k'].start <= i < chunks[k'].start + chunks[k'].n ==> k' == k
  {
    k := 0;
    while chunks[k].start + chunks[k].n <= i
      invariant k < |chunks| && chunks[k].start <= i
      decreases |chunks| - k
    {
      assert TileOk(chunks, k, end, cfg);
      k := k + 1;
    }
    forall k' | 0 <= k' < |chunks| && chunks[k'].start <= i < chunks[k'].start + chunks[k'].n
      ensures k' == k
    {
      if k' < k {
        TilingOrdered(chunks, end, cfg, k', k);
      } else if k < k' {
        TilingOrdered(chunks, end, cfg, k, k');
      }
    }
  }

  lemma {:induction false} TilingOrdered(chunks: seq<Chunk>, end: nat, cfg: Config, k: nat, k': nat)
    requires Tiling(chunks, end, cfg) && k < k' < |chunks|
    ensures chunks[k].start + chunks[k].n <= chunks[k'].start
    decreases k'
  {
    assert TileOk(chunks, k' - 1, end, cfg);
    if k + 1 < k' {
      TilingOrdered(chunks, end, cfg, k, k' - 1);
    }
  }

  /** How many sectors of the chunks pass through the buffer. */
  ghost function Allocated(cfg: Config, chunks: seq<Chunk>): nat {
    if chunks == [] then 0
    else
      var last := chunks[|chunks| - 1];
      Allocated(cfg, chunks[..|chunks| - 1]) + if last.st == Data || (cfg.minSparse == 0 && last.st == Zero)
          then last.n else 0
  }

  /** The chunks follow each other up to end, none of them is empty, and each has its true status. */
  ghost predicate Counted(cfg: Config, chunks: seq<Chunk>, end: nat) {
    && Tiling(chunks, end, cfg.(minSparse := 1))
    && forall k :: 0 <= k < |chunks| ==>
        StatusOk(cfg.source, cfg.initial, chunks[k].st, chunks[k].start, chunks[k].start + chunks[k].n)
  }

  lemma CountedMore(cfg: Config, chunks: seq<Chunk>, end: nat, c: Chunk)
    requires Counted(cfg, chunks, end) && c.start == end && c.n > 0 && (c.st == Data ==> c.n <= cfg.bufSectors)
    requires StatusOk(cfg.source, cfg.initial, c.st, c.start, c.start + c.n)
    ensures Counted(cfg, chunks + [c], end + c.n)
    ensures Allocated(cfg, chunks + [c]) == Allocated(cfg, chunks) + if c.st == Data ||
            (cfg.minSparse == 0 && c.st == Zero) then c.n else 0
  {
    TilingAppend(chunks, end, c, cfg.(minSparse := 1));
    assert (chunks + [c])[..|chunks|] == chunks;
  }

  datatype ConvertResult = Converted | InvalidClusterSize | StatusFailed | CopyFailed

  /** convert_do_copy with one coroutine.  When it succeeds, every sector of the concatenated
      sources was handed to one chunk, and the target shows the source; in salvage mode it
      may show zeroes where the source could not be read. */
  method DoCopy(cfg0: Config, targetIsNew: bool, zeroInitByDriver: bool, copyRange: bool)
    returns (ret: ConvertResult, target: seq<Sector>, chunks: seq<Chunk>, cfg: Config)
    requires cfg0.Valid() && cfg0.TargetPrepared() && !(copyRange && cfg0.salvage)
    requires targetIsNew && zeroInitByDriver && !cfg0.targetHasBacking ==> forall i :: 0 <= i < |cfg0.source| ==>
             IsZero(cfg0.initial[i])
    ensures |target| == |cfg0.initial|
    ensures ret == InvalidClusterSize <==>
            cfg0.compressed && (cfg0.clusterSectors == 0 || cfg0.clusterSectors > cfg0.bufSectors)
    ensures cfg == cfg0.(hasZeroInit := cfg.hasZeroInit, bufSectors := cfg.bufSectors) &&
            cfg.bufSectors <= cfg0.bufSectors
    ensures ret == Converted && cfg0.compressed ==> cfg.bufSectors == cfg0.clusterSectors
    ensures ret == Converted ==> Tiling(chunks, |cfg0.source|, cfg) && Tiling(chunks, |cfg0.source|, cfg0)
    ensures ret == Converted ==> cfg0.CopiedRange(target, 0, |cfg0.source|)
    ensures ret == Converted && !cfg0.salvage ==> target[..|cfg0.source|] == cfg0.source
    ensures forall i :: |cfg0.source| <= i < |target| ==> target[i] == cfg0.initial[i]
  {
    cfg, target, chunks := cfg0, cfg0.initial, [];
    if !cfg.hasZeroInit && targetIsNew && cfg.minSparse > 0 && !cfg.targetHasBacking {
      cfg := cfg.(hasZeroInit := zeroInitByDriver);
    }
    if cfg.compressed {
      if cfg.clusterSectors <= 0 || cfg.clusterSectors > cfg.bufSectors {
        return InvalidClusterSize, target, chunks, cfg;
      }
      cfg := cfg.(bufSectors := cfg.clusterSectors);
    }
    var s := new ImgConvertState(cfg, copyRange);
    var ok, total;
    ghost var counted;
    ok, total, counted := s.CountSectors();
    if !ok {
      return StatusFailed, target, chunks, cfg;
    }
    s.sectorNextStatus := 0;
    ret, chunks := s.CopyAll();
    target := s.target;
    if ret == Converted {
      SmallerTiles(chunks, |cfg.source|, cfg, cfg0);
    }
    if ret == Converted && !cfg.salvage {
      assert forall i :: 0 <= i < |cfg.source| ==> cfg.ReadsAs(i, target[i]);
    }
  }

  lemma SmallerTiles(chunks: seq<Chunk>, end: nat, cfg: Config, cfg': Config)
    requires Tiling(chunks, end, cfg) && cfg.bufSectors <= cfg'.bufSectors && cfg.minSparse == cfg'.minSparse
    ensures Tiling(chunks, end, cfg')
  {
    forall k | 0 <= k < |chunks|
      ensures TileOk(chunks, k, end, cfg')
    {
      assert TileOk(chunks, k, end, cfg);
    }
  }

  lemma TilingAppend(chunks: seq<Chunk>, end: nat, c: Chunk, cfg: Config)
    requires Tiling(chunks, end, cfg) && c.start == end && c.n > 0
    requires c.st == Data || (c.st == Zero && cfg.minSparse == 0) ==> c.n <= cfg.bufSectors
    ensures Tiling(chunks + [c], end + c.n, cfg)
  {
    var more, end' := chunks + [c], end + c.n;
    forall k | 0 <= k < |more|
      ensures TileOk(more, k, end', cfg)
    {
      if k < |chunks| {
        assert TileOk(chunks, k, end, cfg);
      }
    }
  }

  lemma CopiedMore(cfg: Config, now: seq<Sector>, now': seq<Sector>, at: nat, n: nat)
    requires cfg.CopiedRange(now, 0, at) && SameOutside(now, now', at, at + n) && cfg.CopiedRange(now', at, at + n)
    ensures cfg.CopiedRange(now', 0, at + n)
  {
    forall i | 0 <= i < at + n
      ensures cfg.ReadsAs(i, now'[i])
    {
      if i < at {
        assert cfg.ReadsAs(i, now[i]);
      }
    }
  }
}
