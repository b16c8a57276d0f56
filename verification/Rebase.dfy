/**
  The safe rebase loop of qemu-img.c: before the backing file of an overlay is exchanged,
  every unallocated byte that reads differently over the old and the new backing file is
  copied into the overlay.
*/
module Rebase {
  import opened Arithmetic
  import opened Buffers

  /** A backing file reads as zeroes past its end. */
  function Back(backing: seq<Byte>, i: nat): Byte {
    if i < |backing| then backing[i] else 0
  }

  /** What the overlay shows at i over the given backing file. */
  function Visible(data: seq<Byte>, alloc: seq<bool>, backing: seq<Byte>, i: nat): Byte
    requires i < |data| == |alloc|
  {
    if alloc[i] then data[i] else Back(backing, i)
  }

  function Content(data: seq<Byte>, alloc: seq<bool>, backing: seq<Byte>): (c: seq<Byte>)
    requires |data| == |alloc|
    ensures |c| == |data|
    ensures forall i :: 0 <= i < |c| ==> c[i] == Visible(data, alloc, backing, i)
  {
    seq(|data|, i requires 0 <= i < |data| => Visible(data, alloc, backing, i))
  }

  /** Allocation changes only at multiples of unit. */
  ghost predicate Uniform(alloc: seq<bool>, unit: nat)
    requires unit > 0
  {
    forall i, j {:trigger alloc[i], alloc[j]} ::
      0 <= i < |alloc| && 0 <= j < |alloc| && AlignDown(i, unit) == AlignDown(j, unit) ==> alloc[i] == alloc[j]
  }

  predicate Unallocated(alloc: seq<bool>, lo: int, hi: int) {
    forall i :: lo <= i < hi && 0 <= i < |alloc| ==> !alloc[i]
  }

  datatype WriteRequest = WriteRequest(offset: nat, bytes: nat)

  /** The image being rebased, as its block driver presents it.  While the loop runs it is
      still opened over its old backing file, so that a write to part of an allocation unit
      copies the rest of the unit from there. */
  class Overlay {
    const unit: nat                     // of allocation
    const writeAlign: nat               // of the requests: a unit, or a cluster of units for compressed writes
    const oldBacking: seq<Byte>
    var data: seq<Byte>
    var alloc: seq<bool>
    var requests: seq<WriteRequest>
    ghost var shown: seq<seq<Byte>>     // what the image shows after each write

    ghost predicate Valid()
      reads this
    {
      unit > 0 && writeAlign > 0 && writeAlign % unit == 0 && |data| == |alloc| && Uniform(alloc, unit)
    }

    /** Allocation is as the requests are aligned. */
    ghost predicate Aligned()
      reads this
    {
      writeAlign > 0 && Uniform(alloc, writeAlign)
    }

    ghost function Shows(backing: seq<Byte>): seq<Byte>
      requires |data| == |alloc|
      reads this
    {
      Content(data, alloc, backing)
    }

    /** bdrv_is_allocated: any truthful answer for a non-empty prefix of the request. */
    method IsAllocated(offset: nat, n: nat) returns (ok: bool, ret: bool, pnum: nat)
      requires Valid() && n > 0 && offset + n <= |data|
      ensures ok ==> 1 <= pnum <= n && forall i :: offset <= i < offset + pnum ==> alloc[i] == ret
    {
      ok, ret, pnum := *, alloc[offset], 1;
      var p: nat := *;
      if 1 <= p <= n && forall i :: offset <= i < offset + p ==> alloc[i] == ret {
        pnum := p;
      }
    }

    /** blk_pwrite and blk_pwrite_zeroes.  A failing write may have written a prefix. */
    method PWrite(offset: nat, buf: seq<Byte>) returns (ok: bool)
      requires Valid() && offset + |buf| <= |data|
      modifies this
      ensures Valid() && |data| == old(|data|)
      ensures requests == old(requests) + [WriteRequest(offset, |buf|)]
      ensures shown == old(shown) + [Shows(oldBacking)]
      ensures forall i :: 0 <= i < |data| && old(alloc[i]) ==> alloc[i]
      ensures ok ==> forall i :: offset <= i < offset + |buf| ==> alloc[i] && Shows(oldBacking)[i] == buf[i - offset]
      ensures forall i :: 0 <= i < |data| ==>
        || Shows(oldBacking)[i] == old(Shows(oldBacking))[i]
        || (offset <= i < offset + |buf| && Shows(oldBacking)[i] == buf[i - offset])
      ensures ok && old(Aligned()) && WholeUnits(WriteRequest(offset, |buf|), writeAlign, |data|) ==> Aligned()
    {
      var k: nat := *;
      ok := *;
      if ok || k > |buf| {
        k := |buf|;
      }
      AlignDownIsMultiple(offset, unit);
      AlignUpIsMultiple(offset + k, unit);
      var first, last := AlignDown(offset, unit), if k == 0 then offset else AlignUp(offset + k, unit);
      var size, d, a := |data|, data, alloc;
      var covered := seq(size, i => k > 0 && first <= i < last);
      data := seq(size, i requires 0 <= i < size =>
        if offset <= i < offset + k then buf[i - offset]
        else if !a[i] && covered[i] then Back(oldBacking, i) else d[i]);
      alloc := seq(size, i requires 0 <= i < size => a[i] || covered[i]);
      if k > 0 {
        CoverKeepsUniform(a, unit, first, last, alloc);
      }
      if ok && Uniform(a, writeAlign) && WholeUnits(WriteRequest(offset, k), writeAlign, size) {
        WholeWriteKeepsUniform(a, unit, writeAlign, offset, k, alloc);
      }
      requests := requests + [WriteRequest(offset, |buf|)];
      shown := shown + [Shows(oldBacking)];
    }

    constructor (unit: nat, writeAlign: nat, oldBacking: seq<Byte>, data: seq<Byte>, alloc: seq<bool>)
      requires unit > 0 && writeAlign > 0 && writeAlign % unit == 0 && |data| == |alloc| && Uniform(alloc, unit)
      ensures Valid() && this.unit == unit && this.writeAlign == writeAlign && this.oldBacking == oldBacking
      ensures this.data == data && this.alloc == alloc && requests == [] && shown == []
    {
      this.unit, this.writeAlign, this.oldBacking, this.data, this.alloc := unit, writeAlign, oldBacking, data, alloc;
      requests, shown := [], [];
    }
  }

  /** Allocating whole units keeps allocation uniform. */
  lemma CoverKeepsUniform(a: seq<bool>, unit: nat, lo: int, hi: int, a': seq<bool>)
    requires unit > 0 && Uniform(a, unit) && lo % unit == 0 && hi % unit == 0
    requires |a'| == |a| && forall i :: 0 <= i < |a| ==> (a'[i] <==> a[i] || lo <= i < hi)
    ensures Uniform(a', unit)
  {
    forall i, j | 0 <= i < |a| && 0 <= j < |a| && AlignDown(i, unit) == AlignDown(j, unit)
      ensures a'[i] == a'[j]
    {
      SameUnitSameSide(i, j, unit, lo);
      SameUnitSameSide(i, j, unit, hi);
      assert a[i] == a[j];
    }
  }

  lemma MultipleOfMultiple(x: int, w: int, unit: int)
    requires unit > 0 && w > 0 && x % w == 0 && w % unit == 0
    ensures x % unit == 0
  {
    var q, r := x / w, w / unit;
    assert x == w * q && w == unit * r;
    assert x == unit * (r * q);
    MultipleMod(r * q, unit);
  }

  lemma AlignedStays(x: int, unit: int)
    requires unit > 0 && x % unit == 0
    ensures AlignDown(x, unit) == x && AlignUp(x, unit) == x
  {
    AlignUpIsMultiple(x, unit);
    if AlignUp(x, unit) != x {
      NextMultiple(x, AlignUp(x, unit), unit);
    }
  }

  /** A write of whole aligned requests keeps allocation as they are aligned. */
  lemma WholeWriteKeepsUniform(a: seq<bool>, unit: nat, w: nat, offset: nat, k: nat, a': seq<bool>)
    requires unit > 0 && w > 0 && w % unit == 0 && Uniform(a, w) && offset + k <= |a| &&
             WholeUnits(WriteRequest(offset, k), w, |a|)
    requires |a'| == |a| && forall i :: 0 <= i < |a| ==>
             (a'[i] <==> a[i] || (k > 0 && AlignDown(offset, unit) <= i < AlignUp(offset + k, unit)))
    ensures Uniform(a', w)
  {
    if k == 0 {
      assert a' == a;
    } else {
      MultipleOfMultiple(offset, w, unit);
      AlignedStays(offset, unit);
      AlignUpIsMultiple(offset + k, unit);
      AlignUpIsMultiple(offset + k, w);
      if (offset + k) % w == 0 {
        MultipleOfMultiple(offset + k, w, unit);
        AlignedStays(offset + k, unit);
        AlignedStays(offset + k, w);
      }
      CoverKeepsUniform(a, w, offset, AlignUp(offset + k, w), a');
    }
  }

  lemma SameUnitSameSide(i: int, j: int, unit: int, bound: int)
    requires unit > 0 && bound % unit == 0 && AlignDown(i, unit) == AlignDown(j, unit)
    ensures i < bound <==> j < bound
  {
    AlignDownIsMultiple(i, unit);
    AlignDownIsMultiple(j, unit);
    var u := AlignDown(i, unit);
    if u < bound < u + unit {
      NextMultiple(u, bound, unit);
    }
  }

  // ----- the request that is compared and copied -----

  /** The request extended to whole units, and cut to the buffer and the image. */
  function ExtendedStart(offset: nat, unit: nat): int
    requires unit > 0
  {
    AlignDown(offset, unit)
  }

  function ExtendedBytes(offset: nat, n: nat, unit: nat, size: nat): int
    requires unit > 0
  {
    var start := ExtendedStart(offset, unit);
    Min(AlignUp(offset + n, unit) - start, Min(size - start, IO_BUF_SIZE))
  }

  lemma ExtendedBounds(offset: nat, n: nat, unit: nat, size: nat)
    requires 0 < unit && 0 < n && offset + n <= size
    ensures var start, bytes := ExtendedStart(offset, unit), ExtendedBytes(offset, n, unit, size);
            && 0 <= start <= offset && start % unit == 0
            && 0 < bytes <= IO_BUF_SIZE && start + bytes <= size
            && start + bytes <= AlignUp(offset + n, unit)
  {
    AlignDownIsMultiple(offset, unit);
    AlignUpIsMultiple(offset + n, unit);
    NonNegative(offset, unit);
  }

  lemma NonNegative(x: nat, c: nat)
    requires c > 0
    ensures AlignDown(x, c) >= 0
  {
    AlignDownIsMultiple(x, c);
    if AlignDown(x, c) < 0 {
      DivModUnique(x, c, 0, x);
    }
  }

  /** The loop makes progress although it moves the offset backwards: the extended request
      always ends beyond the offset exactly when a unit is no larger than the buffer. */
  lemma ProgressIffUnitFits(unit: nat)
    requires unit > 0
    ensures (forall offset: nat, n: nat, size: nat :: n > 0 && offset + n <= size ==>
               ExtendedStart(offset, unit) + ExtendedBytes(offset, n, unit, size) > offset)
            <==> unit <= IO_BUF_SIZE
  {
    if unit <= IO_BUF_SIZE {
      forall offset: nat, n: nat, size: nat | n > 0 && offset + n <= size
        ensures ExtendedStart(offset, unit) + ExtendedBytes(offset, n, unit, size) > offset
      {
        ExtendedBounds(offset, n, unit, size);
        AlignDownIsMultiple(offset, unit);
        AlignUpIsMultiple(offset + n, unit);
      }
    } else {
      var offset := IO_BUF_SIZE;
      DivModUnique(offset, unit, 0, offset);
      assert ExtendedStart(offset, unit) == 0;
      assert ExtendedStart(offset, unit) + ExtendedBytes(offset, 1, unit, offset + 1) <= offset;
    }
  }

  /** Where the loop goes on after it has dealt with the unallocated request of n bytes at offset. */
  function NextOffset(offset: nat, n: nat, unit: nat, size: nat): int
    requires unit > 0
  {
    ExtendedStart(offset, unit) + ExtendedBytes(offset, n, unit, size)
  }

  /** Where the loop is after a number of turns on an image that holds nothing, when it is told so in
      pieces of the given sizes.  The backing files have no chain in common that could be skipped,
      but the same content, so that nothing is written. */
  function OffsetAfter(pieces: seq<nat>, unit: nat, size: nat): int
    requires unit > 0
    decreases |pieces|
  {
    if pieces == [] then 0
    else
      var before := OffsetAfter(pieces[..|pieces| - 1], unit, size);
      if before < 0 then before else NextOffset(before, pieces[|pieces| - 1], unit, size)
  }

  /** With units larger than the buffer the loop does not end on any image that is larger than the
      buffer and holds nothing: it stays at the end of the first buffer, whatever it is told. */
  lemma {:induction false} LargeUnitsStall(pieces: seq<nat>, unit: nat, size: nat)
    requires unit > IO_BUF_SIZE && size > IO_BUF_SIZE && forall k :: 0 <= k < |pieces| ==> 0 < pieces[k] <= IO_BUF_SIZE
    ensures OffsetAfter(pieces, unit, size) == (if pieces == [] then 0 else IO_BUF_SIZE) < size
    decreases |pieces|
  {
    if pieces != [] {
      var last := |pieces| - 1;
      LargeUnitsStall(pieces[..last], unit, size);
      var before := OffsetAfter(pieces[..last], unit, size);
      DivModUnique(before, unit, 0, before);
      AlignUpIsMultiple(before + pieces[last], unit);
      if AlignUp(before + pieces[last], unit) < unit {
        NextMultiple(0, AlignUp(before + pieces[last], unit), unit);
      }
    }
  }

  /** The assertion that the extended request is unallocated holds for every unallocated
      request exactly when allocation is in units of the write alignment. */
  lemma ExtendedUnallocatedIffUniform(alloc: seq<bool>, unit: nat)
    requires 0 < unit <= IO_BUF_SIZE
    ensures Uniform(alloc, unit) <==>
      forall offset: nat, n: nat :: n > 0 && offset + n <= |alloc| && Unallocated(alloc, offset, offset + n) ==>
        var start := ExtendedStart(offset, unit);
        Unallocated(alloc, start, start + ExtendedBytes(offset, n, unit, |alloc|))
  {
    if Uniform(alloc, unit) {
      forall offset: nat, n: nat | n > 0 && offset + n <= |alloc| && Unallocated(alloc, offset, offset + n)
        ensures var start := ExtendedStart(offset, unit);
                Unallocated(alloc, start, start + ExtendedBytes(offset, n, unit, |alloc|))
      {
        ExtendedUnallocated(alloc, unit, offset, n);
      }
    } else {
      var i, j :| 0 <= i < |alloc| && 0 <= j < |alloc| && AlignDown(i, unit) == AlignDown(j, unit) &&
          alloc[i] != alloc[j];
      var free, used := if alloc[i] then j else i, if alloc[i] then i else j;
      assert Unallocated(alloc, free, free + 1);
      AlignDownIsMultiple(free, unit);
      AlignDownIsMultiple(used, unit);
      AlignUpIsMultiple(free + 1, unit);
      assert AlignUp(free + 1, unit) == AlignDown(free + unit, unit);
      AddMultiple(free, 1, unit);
      var start := ExtendedStart(free, unit);
      assert start <= used < start + ExtendedBytes(free, 1, unit, |alloc|);
      assert !Unallocated(alloc, start, start + ExtendedBytes(free, 1, unit, |alloc|));
    }
  }

  /** Compressed writes are aligned to clusters, allocation is in subclusters.  Of an image whose first
      cluster is allocated in part, the loop skips the allocated subclusters, and the first request
      it finds unallocated, however long, has an extension that is not. */
  lemma PartialClusterTrips(unit: nat, cluster: nat) returns (alloc: seq<bool>)
    requires 0 < unit < cluster <= IO_BUF_SIZE && cluster % unit == 0
    ensures |alloc| == cluster && Uniform(alloc, unit) && forall i :: 0 <= i < cluster ==> (alloc[i] <==> i < unit)
    ensures forall n: nat :: 0 < n <= cluster - unit ==>
              var start := ExtendedStart(unit, cluster);
              !Unallocated(alloc, start, start + ExtendedBytes(unit, n, cluster, cluster))
  {
    alloc := seq(cluster, i => i < unit);
    forall i, j | 0 <= i < cluster && 0 <= j < cluster && AlignDown(i, unit) == AlignDown(j, unit)
      ensures alloc[i] == alloc[j]
    {
      SameUnitSameSide(i, j, unit, unit);
    }
    DivModUnique(unit, cluster, 0, unit);
    forall n: nat | 0 < n <= cluster - unit
      ensures var start := ExtendedStart(unit, cluster);
              !Unallocated(alloc, start, start + ExtendedBytes(unit, n, cluster, cluster))
    {
      AlignUpIsMultiple(unit + n, cluster);
      assert alloc[0];
    }
  }

  lemma ExtendedUnallocated(alloc: seq<bool>, unit: nat, offset: nat, n: nat)
    requires unit > 0 && Uniform(alloc, unit)
    requires n > 0 && offset + n <= |alloc| && Unallocated(alloc, offset, offset + n)
    ensures var start := ExtendedStart(offset, unit);
            Unallocated(alloc, start, start + ExtendedBytes(offset, n, unit, |alloc|))
  {
    var start := ExtendedStart(offset, unit);
    var end := start + ExtendedBytes(offset, n, unit, |alloc|);
    AlignDownIsMultiple(offset, unit);
    AlignUpIsMultiple(offset + n, unit);
    forall i | start <= i < end && 0 <= i < |alloc|
      ensures !alloc[i]
    {
      var j := UnitMeetsRequest(i, offset, n, unit);
      assert alloc[i] == alloc[j];
    }
  }

  /** A byte of the extended request shares its unit with a byte of the request. */
  lemma UnitMeetsRequest(i: int, offset: nat, n: nat, unit: nat) returns (j: int)
    requires unit > 0 && n > 0 && AlignDown(offset, unit) <= i < AlignUp(offset + n, unit)
    ensures offset <= j < offset + n && AlignDown(i, unit) == AlignDown(j, unit)
  {
    AlignDownIsMultiple(i, unit);
    AlignDownIsMultiple(offset, unit);
    AlignUpIsMultiple(offset + n, unit);
    if i < offset {
      j := offset;
      SameUnit(i, j, unit, AlignDown(offset, unit));
    } else if i < offset + n {
      j := i;
    } else {
      j := offset + n - 1;
      AlignDownIsMultiple(j, unit);
      assert AlignUp(offset + n, unit) == AlignDown(j + unit, unit);
      AddMultiple(j, 1, unit);
      SameUnit(i, j, unit, AlignDown(j, unit));
    }
  }

  lemma SameUnit(i: int, j: int, unit: int, start: int)
    requires unit > 0 && start % unit == 0 && start <= i < start + unit && start <= j < start + unit
    ensures AlignDown(i, unit) == AlignDown(j, unit) == start
  {
    DivModUnique(i, unit, start / unit, i - start);
    DivModUnique(j, unit, start / unit, j - start);
  }

  // ----- the loop -----

  /** Reads n bytes of a backing file that may end before them. */
  method ReadPadded(backing: seq<Byte>, offset: nat, n: nat) returns (ok: bool, buf: seq<Byte>, inFile: nat)
    ensures |buf| == n && inFile == Min(n, Max(0, |backing| - offset))
    ensures ok ==> forall i :: 0 <= i < n ==> buf[i] == Back(backing, offset + i)
  {
    inFile := Min(n, Max(0, |backing| - offset));
    ok := true;
    buf := seq(n, _ => 0);
    if inFile != 0 {
      ok := *;
      buf := backing[offset..offset + inFile] + buf[inFile..];
    }
  }

  /** bdrv_is_allocated_above(old backing, new backing): any truthful answer.  Where nothing
      is allocated between the two, they read the same; pnum is 0 past the end of the old one. */
  method AllocatedAbove(oldBacking: seq<Byte>, newBacking: seq<Byte>, offset: nat, n: nat)
    returns (ok: bool, ret: bool, pnum: nat)
    requires n > 0
    ensures ok ==> pnum <= n
    ensures ok && !ret ==> forall i :: offset <= i < offset + pnum ==> Back(oldBacking, i) == Back(newBacking, i)
  {
    ok, ret, pnum := *, true, n;
    var p: nat := *;
    if p <= n && forall i :: offset <= i < offset + p ==> Back(oldBacking, i) == Back(newBacking, i) {
      ret, pnum := *, p;
    }
  }

  /** Up to end, the backing files agree wherever the overlay does not hide them. */
  ghost predicate Settled(alloc: seq<bool>, oldBacking: seq<Byte>, newBacking: seq<Byte>, lo: int, end: int) {
    forall i :: 0 <= lo <= i < end && i < |alloc| && !alloc[i] ==> Back(oldBacking, i) == Back(newBacking, i)
  }

  /** The request covers whole units, except at the end of the image. */
  ghost predicate WholeUnits(r: WriteRequest, unit: nat, size: nat)
    requires unit > 0
  {
    r.offset % unit == 0 && ((r.offset + r.bytes) % unit == 0 || r.offset + r.bytes == size)
  }

  /** What happened since the image had shown and requests behind it: after every write it
      showed content, and if whole is set every request covered whole units. */
  ghost predicate History(shown: seq<seq<Byte>>, requests: seq<WriteRequest>, shown': seq<seq<Byte>>,
                          requests': seq<WriteRequest>,
                          content: seq<Byte>, whole: bool, unit: nat)
    requires unit > 0
  {
    && shown <= shown' && requests <= requests'
    && (forall k :: |shown| <= k < |shown'| ==> shown'[k] == content)
    && (whole ==> forall k :: |requests| <= k < |requests'| ==> WholeUnits(requests'[k], unit, |content|))
  }

  /** Both buffers hold what the backing files hold from offset on. */
  ghost predicate Buffered(oldBacking: seq<Byte>, newBacking: seq<Byte>, offset: nat, bufOld: seq<Byte>,
                           bufNew: seq<Byte>) {
    && |bufOld| == |bufNew|
    && forall i :: 0 <= i < |bufOld| ==>
        bufOld[i] == Back(oldBacking, offset + i) && bufNew[i] == Back(newBacking, offset + i)
  }

  /** A request that ends here ends at an alignment boundary or at the end of the image. */
  ghost predicate EndsWhole(ov: Overlay, end: nat)
    requires ov.writeAlign > 0
    reads ov
  {
    end % ov.writeAlign == 0 || end == |ov.data|
  }

  /** Writes back what the image shows already. */
  method CopyChunk(ov: Overlay, at: nat, buf: seq<Byte>) returns (ok: bool)
    requires ov.Valid() && at + |buf| <= |ov.data|
    requires forall i :: 0 <= i < |buf| ==> ov.Shows(ov.oldBacking)[at + i] == buf[i]
    modifies ov
    ensures ov.Valid() && |ov.data| == old(|ov.data|)
    ensures ov.Shows(ov.oldBacking) == old(ov.Shows(ov.oldBacking))
    ensures forall i :: 0 <= i < |ov.data| && old(ov.alloc[i]) ==> ov.alloc[i]
    ensures ok ==> forall i :: at <= i < at + |buf| ==> ov.alloc[i]
    ensures ov.requests == old(ov.requests) + [WriteRequest(at, |buf|)]
    ensures ov.shown == old(ov.shown) + [old(ov.Shows(ov.oldBacking))]
    ensures ok && old(ov.Aligned()) && WholeUnits(WriteRequest(at, |buf|), ov.writeAlign, |ov.data|) ==> ov.Aligned()
  {
    ghost var content := ov.Shows(ov.oldBacking);
    ok := ov.PWrite(at, buf);
    assert ov.Shows(ov.oldBacking) == content;
  }

  /** One turn of the inner loop: compares the buffers from written on, and copies a differing prefix. */
  method CopyPrefix(ov: Overlay, newBacking: seq<Byte>, offset: nat, bufOld: seq<Byte>, bufNew: seq<Byte>,
                    written: nat, pastOld: bool)
    returns (ok: bool, pnum: nat)
    requires ov.Valid() && written < |bufOld| <= IO_BUF_SIZE && offset + |bufOld| <= |ov.data|
    requires Buffered(ov.oldBacking, newBacking, offset, bufOld, bufNew)
    requires offset % ov.writeAlign == 0 && written % ov.writeAlign == 0
    requires pastOld ==> offset + written >= |ov.oldBacking|
    requires forall i :: 0 <= i < |bufOld| ==> ov.Shows(ov.oldBacking)[offset + i] == bufOld[i]
    modifies ov
    ensures ov.Valid() && |ov.data| == old(|ov.data|)
    ensures ov.Shows(ov.oldBacking) == old(ov.Shows(ov.oldBacking))
    ensures forall i :: 0 <= i < |ov.data| && old(ov.alloc[i]) ==> ov.alloc[i]
    ensures ok && old(ov.Aligned()) && EndsWhole(ov, offset + |bufOld|) ==> ov.Aligned()
    ensures 0 < pnum <= |bufOld| - written && (written + pnum == |bufOld| || (written + pnum) % ov.writeAlign == 0)
    ensures ok ==> Settled(ov.alloc, ov.oldBacking, newBacking, offset + written, offset + written + pnum)
    ensures History(old(ov.shown), old(ov.requests), ov.shown, ov.requests, old(ov.Shows(ov.oldBacking)),
                    EndsWhole(ov, offset + |bufOld|), ov.writeAlign)
  {
    var differ;
    differ, pnum := CompareBuffers(bufOld[written..], bufNew[written..], ov.writeAlign);
    ChunkIsAligned(offset, written, pnum, |bufOld|, ov.writeAlign);
    ok := true;
    if differ {
      assert written + pnum <= IO_BUF_SIZE;
      var buf := if pastOld then seq(pnum, _ => 0) else bufOld[written..written + pnum];
      assert forall i :: 0 <= i < |buf| ==> buf[i] == bufOld[written + i];
      ok := CopyChunk(ov, offset + written, buf);
    } else {
      EqualChunk(ov.oldBacking, newBacking, offset, bufOld, bufNew, written, pnum);
    }
  }

  /** The inner loop: copies the chunks in which the two buffers differ. */
  method CopyDifferences(ov: Overlay, newBacking: seq<Byte>, offset: nat, bufOld: seq<Byte>, bufNew: seq<Byte>,
                         inOld: nat)
    returns (ok: bool)
    requires ov.Valid() && 0 < |bufOld| <= IO_BUF_SIZE && offset + |bufOld| <= |ov.data| && offset % ov.writeAlign == 0
    requires Buffered(ov.oldBacking, newBacking, offset, bufOld, bufNew)
    requires inOld == Min(|bufOld|, Max(0, |ov.oldBacking| - offset))
    requires forall i :: 0 <= i < |bufOld| ==> ov.Shows(ov.oldBacking)[offset + i] == bufOld[i]
    modifies ov
    ensures ov.Valid() && |ov.data| == old(|ov.data|)
    ensures ov.Shows(ov.oldBacking) == old(ov.Shows(ov.oldBacking))
    ensures forall i :: 0 <= i < |ov.data| && old(ov.alloc[i]) ==> ov.alloc[i]
    ensures ok ==> Settled(ov.alloc, ov.oldBacking, newBacking, offset, offset + |bufOld|)
    ensures ok && old(ov.Aligned()) && EndsWhole(ov, offset + |bufOld|) ==> ov.Aligned()
    ensures History(old(ov.shown), old(ov.requests), ov.shown, ov.requests, old(ov.Shows(ov.oldBacking)),
                    EndsWhole(ov, offset + |bufOld|), ov.writeAlign)
  {
    ghost var content := ov.Shows(ov.oldBacking);
    ghost var whole := EndsWhole(ov, offset + |bufOld|);
    var n := |bufOld|;
    var pastOld := inOld == 0;
    var written := 0;
    ok := true;
    while written < n
      invariant 0 <= written <= n && (written == n || written % ov.writeAlign == 0)
      invariant ok && ov.Valid() && |ov.data| == |content| && ov.Shows(ov.oldBacking) == content
      invariant pastOld ==> offset + written >= |ov.oldBacking|
      invariant forall i :: 0 <= i < |ov.data| && old(ov.alloc[i]) ==> ov.alloc[i]
      invariant Settled(ov.alloc, ov.oldBacking, newBacking, offset, offset + written)
      invariant History(old(ov.shown), old(ov.requests), ov.shown, ov.requests, content, whole, ov.writeAlign)
      invariant old(ov.Aligned()) && whole ==> ov.Aligned()
    {
      ghost var shown1, requests1 := ov.shown, ov.requests;
      var pnum;
      ok, pnum := CopyPrefix(ov, newBacking, offset, bufOld, bufNew, written, pastOld);
      HistoryChain(old(ov.shown), old(ov.requests), shown1, requests1, ov.shown, ov.requests, content, whole, whole,
          ov.writeAlign);
      if !ok {
        return;
      }
      written := written + pnum;
      if offset + written >= |ov.oldBacking| {
        pastOld := true;
      }
    }
  }

  lemma EqualChunk(oldBacking: seq<Byte>, newBacking: seq<Byte>, offset: nat, bufOld: seq<Byte>, bufNew: seq<Byte>,
                   written: nat, pnum: nat)
    requires written + pnum <= |bufOld| == |bufNew|
    requires forall i :: 0 <= i < |bufOld| ==>
             bufOld[i] == Back(oldBacking, offset + i) && bufNew[i] == Back(newBacking, offset + i)
    requires bufOld[written..][..pnum] == bufNew[written..][..pnum]
    ensures forall i :: offset + written <= i < offset + written + pnum ==> Back(oldBacking, i) == Back(newBacking, i)
  {
    forall i | offset + written <= i < offset + written + pnum
      ensures Back(oldBacking, i) == Back(newBacking, i)
    {
      var k := i - offset - written;
      assert bufOld[written..][..pnum][k] == bufNew[written..][..pnum][k];
      assert bufOld[written + k] == bufNew[written + k];
    }
  }

  lemma ChunkIsAligned(offset: nat, written: nat, pnum: nat, n: nat, unit: nat)
    requires unit > 0 && offset % unit == 0 && written % unit == 0
    requires written + pnum == n || pnum % unit == 0
    ensures (offset + written) % unit == 0
    ensures written + pnum != n ==> (written + pnum) % unit == 0 && (offset + written + pnum) % unit == 0
  {
    SumMod(offset, written, unit);
    SumMod(offset, written + pnum, unit);
    SumMod(written, pnum, unit);
  }

  lemma HistoryChain(shown0: seq<seq<Byte>>, requests0: seq<WriteRequest>, shown1: seq<seq<Byte>>,
                     requests1: seq<WriteRequest>,
                     shown2: seq<seq<Byte>>, requests2: seq<WriteRequest>, content: seq<Byte>, whole: bool,
                         whole': bool, unit: nat)
    requires unit > 0 && (whole ==> whole')
    requires History(shown0, requests0, shown1, requests1, content, whole, unit)
    requires History(shown1, requests1, shown2, requests2, content, whole', unit)
    ensures History(shown0, requests0, shown2, requests2, content, whole, unit)
  {
    forall k | |shown0| <= k < |shown2|
      ensures shown2[k] == content
    {
      if k < |shown1| {
        assert shown2[k] == shown1[k];
      }
    }
    forall k | whole && |requests0| <= k < |requests2|
      ensures WholeUnits(requests2[k], unit, |content|)
    {
      if k < |requests1| {
        assert requests2[k] == requests1[k];
      }
    }
  }

  /** When units divide the buffer, an extended request ends at a unit boundary or at the end of the image. */
  lemma ExtendedIsWhole(offset: nat, n: nat, unit: nat, size: nat)
    requires 0 < unit && 0 < n && offset + n <= size && IO_BUF_SIZE % unit == 0
    ensures var end := ExtendedStart(offset, unit) + ExtendedBytes(offset, n, unit, size);
            end % unit == 0 || end == size
  {
    AlignDownIsMultiple(offset, unit);
    AlignUpIsMultiple(offset + n, unit);
    SumMod(ExtendedStart(offset, unit), IO_BUF_SIZE, unit);
  }

  /** The body of the loop for an unallocated request: extend it, read both backing files,
      copy what differs. */
  method RebaseRequest(ov: Overlay, newBacking: seq<Byte>, offset: nat, n: nat) returns (ok: bool, next: nat)
    requires ov.Valid() && ov.Aligned() && ov.writeAlign <= IO_BUF_SIZE &&
             (ov.writeAlign == ov.unit || IO_BUF_SIZE % ov.writeAlign == 0)
    requires n > 0 && offset + n <= |ov.data| && Unallocated(ov.alloc, offset, offset + n)
    modifies ov
    ensures ov.Valid() && |ov.data| == old(|ov.data|)
    ensures ov.Shows(ov.oldBacking) == old(ov.Shows(ov.oldBacking))
    ensures forall i :: 0 <= i < |ov.data| && old(ov.alloc[i]) ==> ov.alloc[i]
    ensures ok ==>
              offset < next <= |ov.data| && Settled(ov.alloc, ov.oldBacking, newBacking, offset, next) &&
              ov.Aligned()
    ensures History(old(ov.shown), old(ov.requests), ov.shown, ov.requests, old(ov.Shows(ov.oldBacking)),
            IO_BUF_SIZE % ov.writeAlign == 0, ov.writeAlign)
  {
    var size := |ov.data|;
    ExtendedBounds(offset, n, ov.writeAlign, size);
    ExtendedUnallocated(ov.alloc, ov.writeAlign, offset, n);
    ProgressIffUnitFits(ov.writeAlign);
    var start, bytes := ExtendedStart(offset, ov.writeAlign), ExtendedBytes(offset, n, ov.writeAlign, size);
    assert start + bytes > offset;
    if IO_BUF_SIZE % ov.writeAlign == 0 {
      ExtendedIsWhole(offset, n, ov.writeAlign, size);
    }
    next := start + bytes;
    var bufOld, bufNew, inOld, inNew;
    ok, bufOld, inOld := ReadPadded(ov.oldBacking, start, bytes);
    if !ok {
      return;
    }
    ok, bufNew, inNew := ReadPadded(newBacking, start, bytes);
    if !ok {
      return;
    }
    ok := CopyDifferences(ov, newBacking, start, bufOld, bufNew, inOld);
  }

  /** The safe rebase.  Over the old backing file the image shows the same content after
      every single write, whether the rebase succeeds or fails; when it succeeds, it shows
      that content over the new backing file as well.  If units divide the buffer, no write
      touches part of a unit. */
  method SafeRebase(ov: Overlay, newBacking: seq<Byte>, prefixChain: bool) returns (ok: bool)
    requires ov.Valid() && ov.Aligned() && ov.writeAlign <= IO_BUF_SIZE &&
             (ov.writeAlign == ov.unit || IO_BUF_SIZE % ov.writeAlign == 0)
    modifies ov
    ensures ov.Valid() && |ov.data| == old(|ov.data|)
    ensures ov.Shows(ov.oldBacking) == old(ov.Shows(ov.oldBacking))
    ensures ok ==> ov.Shows(newBacking) == old(ov.Shows(ov.oldBacking))
    ensures History(old(ov.shown), old(ov.requests), ov.shown, ov.requests, old(ov.Shows(ov.oldBacking)),
            IO_BUF_SIZE % ov.writeAlign == 0, ov.writeAlign)
  {
    ghost var content := ov.Shows(ov.oldBacking);
    ghost var whole := IO_BUF_SIZE % ov.writeAlign == 0;
    var size := |ov.data|;
    var offset := 0;
    while offset < size
      invariant 0 <= offset <= size == |ov.data|
      invariant ov.Valid() && ov.Aligned() && ov.Shows(ov.oldBacking) == content
      invariant Settled(ov.alloc, ov.oldBacking, newBacking, 0, offset)
      invariant History(old(ov.shown), old(ov.requests), ov.shown, ov.requests, content, whole, ov.writeAlign)
      decreases size - offset
    {
      var n := Min(IO_BUF_SIZE, size - offset);
      var used;
      ok, used, n := ov.IsAllocated(offset, n);
      if !ok {
        return;
      }
      if used {
        offset := offset + n;
        continue;
      }
      assert Unallocated(ov.alloc, offset, offset + n);
      if prefixChain {
        var bytes := n;
        var above;
        ok, above, n := AllocatedAbove(ov.oldBacking, newBacking, offset, n);
        if !ok {
          return;
        }
        if !above && n != 0 {
          offset := offset + n;
          continue;
        }
        if n == 0 {
          n := bytes;
        }
      }
      ghost var shown1, requests1 := ov.shown, ov.requests;
      var next;
      ok, next := RebaseRequest(ov, newBacking, offset, n);
      HistoryChain(old(ov.shown), old(ov.requests), shown1, requests1, ov.shown, ov.requests, content, whole, whole,
          ov.writeAlign);
      if !ok {
        return;
      }
      offset := next;
    }
    ok := true;
  }
}
