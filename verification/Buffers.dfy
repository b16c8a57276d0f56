/**
  The buffer scans of qemu-img.c: looking for data in a buffer, comparing two buffers
  chunk by chunk, and splitting a buffer into runs that must be written and runs that may
  stay sparse.
*/
module Buffers {
  import opened Arithmetic

  type Byte = b: int | 0 <= b < 256

  const SECTOR_SIZE := 512
  const IO_BUF_SIZE := 2 * 1024 * 1024

  /** The content of one sector, as the number that its bytes spell (see Spell). */
  type Sector = nat

  /** The sector that memset(buf, 0, BDRV_SECTOR_SIZE) leaves. */
  const ZERO_SECTOR: Sector := 0

  predicate IsZero(s: Sector) {
    s == ZERO_SECTOR
  }

  predicate AllZero(buf: seq<Byte>) {
    forall i :: 0 <= i < |buf| ==> buf[i] == 0
  }

  /** The number spelled by some bytes, least significant byte first. */
  function Spell(bytes: seq<Byte>): nat {
    if bytes == [] then 0 else bytes[0] + 256 * Spell(bytes[1..])
  }

  /** Sectors are zero, and equal, exactly when their bytes are. */
  lemma {:induction false} SpellIsFaithful(a: seq<Byte>, b: seq<Byte>)
    requires |a| == |b|
    ensures Spell(a) == Spell(b) <==> a == b
    ensures Spell(a) == 0 <==> AllZero(a)
  {
    if a != [] {
      SpellIsFaithful(a[1..], b[1..]);
      assert a == [a[0]] + a[1..] && b == [b[0]] + b[1..];
    }
  }

  // ----- find_nonzero -----

  /** The start of the first sector of buf that holds a non-zero byte, or -1. */
  method FindNonzero(buf: seq<Byte>) returns (r: int)
    ensures r == -1 <==> AllZero(buf)
    ensures r != -1 ==> 0 <= r < |buf| && r % SECTOR_SIZE == 0
    ensures r != -1 ==> AllZero(buf[..r]) && !AllZero(buf[r..Min(r + SECTOR_SIZE, |buf|)])
  {
    var end := |buf| - |buf| % SECTOR_SIZE;
    var i := 0;
    while i < end
      invariant 0 <= i <= end && i % SECTOR_SIZE == 0
      invariant AllZero(buf[..i])
    {
      if !AllZero(buf[i..i + SECTOR_SIZE]) {
        return i;
      }
      assert buf[..i + SECTOR_SIZE] == buf[..i] + buf[i..i + SECTOR_SIZE];
      i := i + SECTOR_SIZE;
    }
    if i < |buf| && !AllZero(buf[i..]) {
      assert buf[i..] == buf[i..Min(i + SECTOR_SIZE, |buf|)];
      return i;
    }
    assert buf == buf[..i] + buf[i..];
    return -1;
  }

  // ----- compare_buffers -----

  predicate Differ(buf1: seq<Byte>, buf2: seq<Byte>, lo: int, hi: int)
    requires 0 <= lo <= hi <= |buf1| && |buf1| == |buf2|
  {
    buf1[lo..hi] != buf2[lo..hi]
  }

  function ChunkSize(chsize: nat): (c: nat)
    ensures c > 0
  {
    if chsize == 0 then SECTOR_SIZE else chsize
  }

  /** The chunks that start before end all compare like res. */
  ghost predicate ChunksCompare(buf1: seq<Byte>, buf2: seq<Byte>, end: nat, ch: nat, res: bool)
    requires |buf1| == |buf2| && ch > 0
  {
    forall i :: 0 <= i < end && i < |buf1| && i % ch == 0 ==> Differ(buf1, buf2, i, Min(i + ch, |buf1|)) == res
  }

  lemma NextChunkCompares(buf1: seq<Byte>, buf2: seq<Byte>, i: nat, len: nat, ch: nat, res: bool)
    requires |buf1| == |buf2| && ch > 0 && i % ch == 0 && i < |buf1| && len == Min(|buf1| - i, ch)
    requires ChunksCompare(buf1, buf2, i, ch, res) && Differ(buf1, buf2, i, i + len) == res
    ensures ChunksCompare(buf1, buf2, i + len, ch, res)
    ensures i + len == |buf1| || (i + len) % ch == 0
    ensures !res && buf1[..i] == buf2[..i] ==> buf1[..i + len] == buf2[..i + len]
  {
    forall k | i <= k < i + len && k % ch == 0
      ensures k == i
    {
      NextMultiple(i, k, ch);
    }
    if len == ch {
      StepMultiple(i, ch);
    }
    assert buf1[..i + len] == buf1[..i] + buf1[i..i + len];
    assert buf2[..i + len] == buf2[..i] + buf2[i..i + len];
  }

  /** pnum is the longest prefix made of whole chunks (or reaching the end of the buffers)
      whose chunks all compare like the first one. */
  method CompareBuffers(buf1: seq<Byte>, buf2: seq<Byte>, chsize: nat) returns (res: bool, pnum: nat)
    requires |buf1| == |buf2| > 0
    ensures 0 < pnum <= |buf1|
    ensures pnum == |buf1| || pnum % ChunkSize(chsize) == 0
    ensures ChunksCompare(buf1, buf2, pnum, ChunkSize(chsize), res)
    ensures !res ==> buf1[..pnum] == buf2[..pnum]
    ensures pnum < |buf1| ==> Differ(buf1, buf2, pnum, Min(pnum + ChunkSize(chsize), |buf1|)) != res
  {
    var bytes := |buf1|;
    var ch := ChunkSize(chsize);
    var i := Min(bytes, ch);
    res := Differ(buf1, buf2, 0, i);
    NextChunkCompares(buf1, buf2, 0, i, ch, res);
    while i < bytes
      invariant 0 < i <= bytes && (i == bytes || i % ch == 0)
      invariant ChunksCompare(buf1, buf2, i, ch, res)
      invariant !res ==> buf1[..i] == buf2[..i]
    {
      var len := Min(bytes - i, ch);
      if Differ(buf1, buf2, i, i + len) != res {
        break;
      }
      NextChunkCompares(buf1, buf2, i, len, ch, res);
      i := i + len;
    }
    pnum := i;
  }

  // ----- is_allocated_sectors -----

  predicate ZeroRun(buf: seq<Sector>, lo: int, hi: int)
    requires 0 <= lo && hi <= |buf|
  {
    forall i :: lo <= i < hi ==> IsZero(buf[i])
  }

  /** The run of sectors at the start of buf that are all zero, or all non-zero, like the first. */
  ghost predicate LeadingRun(buf: seq<Sector>, run: int)
    requires |buf| > 0
  {
    && 1 <= run <= |buf|
    && (forall i :: 0 <= i < run ==> (IsZero(buf[i]) <==> IsZero(buf[0])))
    && (run < |buf| ==> !(IsZero(buf[run]) <==> IsZero(buf[0])))
  }

  /** The first aligned sector number after sectorNum, not beyond end. */
  predicate ReachesBoundary(sectorNum: nat, end: nat, alignment: nat)
    requires alignment > 0
  {
    AlignDown(end, alignment) > sectorNum
  }

  /** The leading run is zero, and it is the whole buffer or reaches an alignment boundary. */
  predicate MayStaySparse(buf: seq<Sector>, run: nat, sectorNum: nat, alignment: nat)
    requires |buf| > 0 && alignment > 0
  {
    IsZero(buf[0]) && (run == |buf| || ReachesBoundary(sectorNum, sectorNum + run, alignment))
  }

  /** Splits off the leading sectors that are written together (allocated) or may stay
      sparse.  Only runs that are all zero are reported as not allocated, and that happens
      exactly when the leading zero run is the whole buffer or reaches an alignment boundary.
      A run that is not the whole buffer ends on an alignment boundary. */
  method IsAllocatedSectors(buf: seq<Sector>, sectorNum: nat, alignment: nat)
    returns (data: bool, pnum: nat, ghost run: nat)
    requires alignment > 0
    ensures |buf| == 0 ==> !data && pnum == 0
    ensures |buf| > 0 ==> 1 <= pnum <= |buf| && LeadingRun(buf, run)
    ensures !data ==> ZeroRun(buf, 0, pnum)
    ensures |buf| > 0 ==> (!data <==> MayStaySparse(buf, run, sectorNum, alignment))
    ensures pnum < |buf| ==> (sectorNum + pnum) % alignment == 0
    ensures data && |buf| > 0 ==> pnum >= run
  {
    if |buf| == 0 {
      return false, 0, 0;
    }
    var isZero := IsZero(buf[0]);
    var i := 1;
    while i < |buf|
      invariant 1 <= i <= |buf|
      invariant forall k :: 0 <= k < i ==> (IsZero(buf[k]) <==> isZero)
    {
      if isZero != (IsZero(buf[i])) {
        break;
      }
      i := i + 1;
    }
    run := i;
    if i == |buf| {
      return !isZero, i, run;
    }
    var tail := (sectorNum + i) % alignment;
    assert AlignDown(sectorNum + i, alignment) == sectorNum + i - tail;
    AlignDownIsMultiple(sectorNum + i, alignment);
    if tail != 0 {
      if isZero && i <= tail {
        isZero := false;
      }
      if !isZero {
        ghost var up := sectorNum + i + (alignment - tail);
        assert up == AlignDown(sectorNum + i, alignment) + alignment;
        StepMultiple(AlignDown(sectorNum + i, alignment), alignment);
        i := Min(i + (alignment - tail), |buf|);
      } else {
        i := i - tail;
      }
    }
    return !isZero, i, run;
  }

  /** Like IsAllocatedSectors, but a leading run of data swallows zero runs shorter than min:
      what follows a returned data run is all zero, for min sectors or up to the end. */
  method IsAllocatedSectorsMin(buf: seq<Sector>, min: nat, sectorNum: nat, alignment: nat)
    returns (data: bool, pnum: nat, ghost zeroEnd: nat)
    requires alignment > 0
    ensures |buf| == 0 ==> !data && pnum == 0
    ensures |buf| > 0 ==> 1 <= pnum <= |buf|
    ensures !data ==> ZeroRun(buf, 0, pnum)
    ensures pnum < |buf| ==> (sectorNum + pnum) % alignment == 0
    ensures data ==> pnum <= zeroEnd <= |buf| && ZeroRun(buf, pnum, zeroEnd)
    ensures data ==> zeroEnd == |buf| || zeroEnd - pnum >= Min(min, |buf|)
  {
    var n := |buf|;
    var limit := Min(min, n);
    ghost var r;
    data, pnum, r := IsAllocatedSectors(buf, sectorNum, alignment);
    zeroEnd := pnum;
    if !data {
      return;
    }
    var used := pnum;
    var checked := pnum;
    while checked < n
      invariant 1 <= used <= checked <= n
      invariant ZeroRun(buf, used, checked)
      invariant used < n ==> (sectorNum + used) % alignment == 0
      decreases n - checked
    {
      var more, k;
      more, k, r := IsAllocatedSectors(buf[checked..], sectorNum + checked, alignment);
      ghost var was := checked;
      checked := checked + k;
      if more {
        used := checked;
      } else {
        forall i | used <= i < checked
          ensures IsZero(buf[i])
        {
          if i >= was {
            assert IsZero(buf[was..][i - was]);
          }
        }
        if k >= limit {
          break;
        }
      }
    }
    return true, used, checked;
  }

  /** is_allocated_sectors is documented to report exactly whether the first sector has data.
      That fails exactly when a leading zero run is followed by data in the same alignment unit. */
  lemma FirstSectorDecides(buf: seq<Sector>, run: nat, sectorNum: nat, alignment: nat)
    requires |buf| > 0 && alignment > 0 && LeadingRun(buf, run)
    ensures (MayStaySparse(buf, run, sectorNum, alignment) <==> IsZero(buf[0])) <==>
            !(IsZero(buf[0]) && run < |buf| && AlignDown(sectorNum + run, alignment) <= sectorNum)
    ensures MayStaySparse(buf, run, sectorNum, alignment) ==> IsZero(buf[0])
  {
  }

  lemma ZeroSectorReportedAllocated(d: Sector)
    requires !IsZero(d)
    ensures var buf := [ZERO_SECTOR, d];
            IsZero(buf[0]) && LeadingRun(buf, 1) && !MayStaySparse(buf, 1, 0, 2)
  {
    assert AlignDown(1, 2) == 0;
  }
}
