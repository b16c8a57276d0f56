/**
  qemu-img compare: two images are compared in the pieces that a block status query
  returns, reading only where both sides may hold data.
*/
module Compare {
  import opened Arithmetic
  import opened Buffers

  /** An image reads as zeroes past its end, for the purpose of a non-strict comparison. */
  function Extended(img: seq<Byte>, i: nat): Byte {
    if i < |img| then img[i] else 0
  }

  ghost predicate SameUpTo(img1: seq<Byte>, img2: seq<Byte>, end: nat) {
    forall i :: 0 <= i < end ==> Extended(img1, i) == Extended(img2, i)
  }

  /** Both images, zero-extended to the longer size, agree at every byte. */
  ghost predicate Identical(img1: seq<Byte>, img2: seq<Byte>) {
    SameUpTo(img1, img2, Max(|img1|, |img2|))
  }

  /** The first difference lies in the sector-sized piece that starts at offset. */
  ghost predicate FirstMismatch(img1: seq<Byte>, img2: seq<Byte>, offset: nat) {
    && SameUpTo(img1, img2, offset)
    && exists i :: offset <= i < offset + SECTOR_SIZE && Extended(img1, i) != Extended(img2, i)
  }

  /** The flags of a block status; other stands for the ones that only the strict mode looks at. */
  datatype Status = Status(isAllocated: bool, isZero: bool, other: nat)

  datatype Verdict =
    | ImagesIdentical
    | SizeMismatch
    | StatusMismatch(offset: nat)
    | ContentMismatch(offset: nat)
    | StatusError
    | ReadError

  function ExitCode(v: Verdict): int {
    match v
    case ImagesIdentical => 0
    case SizeMismatch => 1
    case StatusMismatch(_) => 1
    case ContentMismatch(_) => 1
    case StatusError => 3
    case ReadError => 4
  }

  /** What bdrv_block_status_above(bs, NULL, ...) promises: where it reports zeroes, or no
      allocation in the whole chain, the image reads as zeroes. */
  ghost predicate Truthful(img: seq<Byte>, offset: nat, bytes: nat, status: Status, pnum: nat) {
    && 1 <= pnum <= bytes && offset + bytes <= |img|
    && (status.isZero || !status.isAllocated ==> AllZero(img[offset..offset + pnum]))
  }

  /** Any truthful status query, returning any number of bytes. */
  method BlockStatus(img: seq<Byte>, offset: nat, bytes: nat) returns (ok: bool, status: Status, pnum: nat)
    requires 0 < bytes && offset + bytes <= |img|
    ensures Truthful(img, offset, bytes, status, pnum)
  {
    ok, status, pnum := *, *, *;
    if pnum == 0 || pnum > bytes {
      pnum := bytes;
    }
    if !AllZero(img[offset..offset + pnum]) {
      status := status.(isAllocated := true, isZero := false);
    }
  }

  method PRead(img: seq<Byte>, offset: nat, bytes: nat) returns (ok: bool, buf: seq<Byte>)
    requires offset + bytes <= |img|
    ensures buf == img[offset..offset + bytes]
  {
    ok, buf := *, img[offset..offset + bytes];
  }

  /** What one step of the comparison establishes about [offset, offset + chunk). */
  ghost predicate StepVerdict(img1: seq<Byte>, img2: seq<Byte>, offset: nat, chunk: nat, v: Verdict) {
    && (v.ImagesIdentical? ==> forall i :: offset <= i < offset + chunk ==> Extended(img1, i) == Extended(img2, i))
    && (v.ContentMismatch? ==>
          && offset <= v.offset < offset + chunk
          && (forall i :: offset <= i < v.offset ==> Extended(img1, i) == Extended(img2, i))
          && exists i :: v.offset <= i < v.offset + SECTOR_SIZE && i < offset + chunk &&
              Extended(img1, i) != Extended(img2, i))
  }

  lemma SliceElements(img: seq<Byte>, lo: nat, hi: nat)
    requires lo <= hi <= |img|
    ensures AllZero(img[lo..hi]) <==> forall i :: lo <= i < hi ==> img[i] == 0
  {
    if AllZero(img[lo..hi]) {
      forall i | lo <= i < hi
        ensures img[i] == 0
      {
        assert img[lo..hi][i - lo] == 0;
      }
    }
  }

  lemma SlicesEqual(img1: seq<Byte>, img2: seq<Byte>, lo: nat, hi: nat)
    requires lo <= hi <= |img1| && hi <= |img2|
    ensures img1[lo..hi] == img2[lo..hi] <==> forall i :: lo <= i < hi ==> img1[i] == img2[i]
  {
    if img1[lo..hi] == img2[lo..hi] {
      forall i | lo <= i < hi
        ensures img1[i] == img2[i]
      {
        assert img1[lo..hi][i - lo] == img2[lo..hi][i - lo];
      }
    }
  }

  /** Checks that [offset, offset + bytes) of one image is empty, where the other reads as zeroes. */
  method CheckEmptySectors(img: seq<Byte>, offset: nat, bytes: nat) returns (v: Verdict)
    requires offset + bytes <= |img|
    ensures v.ImagesIdentical? || v.ReadError? || v.ContentMismatch?
    ensures StepVerdict(img, [], offset, bytes, v)
  {
    var ok, buf := PRead(img, offset, bytes);
    if !ok {
      return ReadError;
    }
    var idx := FindNonzero(buf);
    if idx >= 0 {
      ghost var piece := buf[idx..Min(idx + SECTOR_SIZE, bytes)];
      ghost var k :| 0 <= k < |piece| && piece[k] != 0;
      assert piece[k] == buf[idx + k] == img[offset + idx + k];
      assert Extended(img, offset + idx + k) != Extended([], offset + idx + k);
      assert img[offset..offset + idx] == buf[..idx];
      SliceElements(img, offset, offset + idx);
      return ContentMismatch(offset + idx);
    }
    SliceElements(img, offset, offset + bytes);
    return ImagesIdentical;
  }

  /** Compares what both images hold in [offset, offset + chunk). */
  method CompareData(img1: seq<Byte>, img2: seq<Byte>, offset: nat, chunk: nat) returns (v: Verdict)
    requires 0 < chunk && offset + chunk <= |img1| && offset + chunk <= |img2|
    ensures v.ImagesIdentical? || v.ReadError? || v.ContentMismatch?
    ensures StepVerdict(img1, img2, offset, chunk, v)
  {
    var ok, buf1, buf2;
    ok, buf1 := PRead(img1, offset, chunk);
    if !ok {
      return ReadError;
    }
    ok, buf2 := PRead(img2, offset, chunk);
    if !ok {
      return ReadError;
    }
    var differ, pnum := CompareBuffers(buf1, buf2, 0);
    if differ || pnum != chunk {
      var skip := if differ then 0 else pnum;
      assert Differ(buf1, buf2, skip, Min(skip + ChunkSize(0), chunk)) by {
        assert 0 % ChunkSize(0) == 0;
      }
      ghost var hi := Min(skip + SECTOR_SIZE, chunk);
      ghost var k :| skip <= k < hi && buf1[k] != buf2[k];
      assert Extended(img1, offset + k) == buf1[k] && Extended(img2, offset + k) == buf2[k];
      assert img1[offset..offset + skip] == buf1[..skip];
      assert img2[offset..offset + skip] == buf2[..skip];
      SlicesEqual(img1, img2, offset, offset + skip);
      return ContentMismatch(offset + skip);
    }
    SlicesEqual(img1, img2, offset, offset + chunk);
    return ImagesIdentical;
  }

  /** Where the other image reads as zeroes, being empty is being equal. */
  lemma EmptyIsEqual(img: seq<Byte>, other: seq<Byte>, offset: nat, chunk: nat, v: Verdict)
    requires StepVerdict(img, [], offset, chunk, v) && offset + chunk <= |img|
    requires forall i :: offset <= i < offset + chunk ==> Extended(other, i) == 0
    ensures StepVerdict(img, other, offset, chunk, v) && StepVerdict(other, img, offset, chunk, v)
  {
    if v.ContentMismatch? {
      var i :| v.offset <= i < v.offset + SECTOR_SIZE && i < offset + chunk && Extended(img, i) != Extended([], i);
      assert Extended(img, i) != Extended(other, i);
    }
  }

  /** Growing the compared prefix by a piece that agrees. */
  lemma ExtendSame(img1: seq<Byte>, img2: seq<Byte>, offset: nat, chunk: nat)
    requires SameUpTo(img1, img2, offset)
    requires forall i :: offset <= i < offset + chunk ==> Extended(img1, i) == Extended(img2, i)
    ensures SameUpTo(img1, img2, offset + chunk)
  {
  }

  lemma MismatchIsFirst(img1: seq<Byte>, img2: seq<Byte>, offset: nat, chunk: nat, v: Verdict)
    requires StepVerdict(img1, img2, offset, chunk, v) && v.ContentMismatch?
    requires SameUpTo(img1, img2, offset) && offset + chunk <= Max(|img1|, |img2|)
    ensures FirstMismatch(img1, img2, v.offset) && !Identical(img1, img2)
  {
    var i :| v.offset <= i < v.offset + SECTOR_SIZE && i < offset + chunk && Extended(img1, i) != Extended(img2, i);
    assert i < Max(|img1|, |img2|);
  }

  /** One turn of the loop over the common part: a piece both status queries cover. */
  method CompareStep(img1: seq<Byte>, img2: seq<Byte>, offset: nat, strict: bool) returns (v: Verdict, chunk: nat)
    requires offset < |img1| && offset < |img2|
    ensures v.ImagesIdentical? ==> 0 < chunk
    ensures offset + chunk <= |img1| && offset + chunk <= |img2|
    ensures StepVerdict(img1, img2, offset, chunk, v)
    ensures v.StatusMismatch? ==> strict
    ensures !v.SizeMismatch?
  {
    chunk := 0;
    var ok, status1, status2, pnum1, pnum2;
    ok, status1, pnum1 := BlockStatus(img1, offset, |img1| - offset);
    if !ok {
      return StatusError, 0;
    }
    ok, status2, pnum2 := BlockStatus(img2, offset, |img2| - offset);
    if !ok {
      return StatusError, 0;
    }
    chunk := Min(pnum1, pnum2);
    SliceElements(img1, offset, offset + pnum1);
    SliceElements(img2, offset, offset + pnum2);
    if strict && status1 != status2 {
      return StatusMismatch(offset), chunk;
    }
    if status1.isZero && status2.isZero {
      v := ImagesIdentical;
    } else if status1.isAllocated == status2.isAllocated {
      v := ImagesIdentical;
      if status1.isAllocated {
        chunk := Min(chunk, IO_BUF_SIZE);
        v := CompareData(img1, img2, offset, chunk);
      }
    } else {
      chunk := Min(chunk, IO_BUF_SIZE);
      var img := if status1.isAllocated then img1 else img2;
      v := CheckEmptySectors(img, offset, chunk);
      EmptyIsEqual(img, if status1.isAllocated then img2 else img1, offset, chunk, v);
    }
  }

  /** One turn of the loop over the tail of the longer image. */
  method CompareTailStep(over: seq<Byte>, offset: nat) returns (v: Verdict, chunk: nat)
    requires offset < |over|
    ensures v.ImagesIdentical? ==> 0 < chunk
    ensures offset + chunk <= |over|
    ensures StepVerdict(over, [], offset, chunk, v)
    ensures v.ImagesIdentical? || v.ContentMismatch? || v.StatusError? || v.ReadError?
  {
    var ok, status;
    ok, status, chunk := BlockStatus(over, offset, |over| - offset);
    if !ok {
      return StatusError, chunk;
    }
    v := ImagesIdentical;
    SliceElements(over, offset, offset + chunk);
    if status.isAllocated && !status.isZero {
      chunk := Min(chunk, IO_BUF_SIZE);
      v := CheckEmptySectors(over, offset, chunk);
    }
  }

  /** qemu-img compare.  Without errors, the verdict is exact: non-strict mode reports
      identical exactly when the zero-extended images agree everywhere, whatever pieces the
      status queries return; a content mismatch names the first differing piece. */
  method ImgCompare(img1: seq<Byte>, img2: seq<Byte>, strict: bool) returns (v: Verdict)
    ensures v.ImagesIdentical? ==> Identical(img1, img2) && (strict ==> |img1| == |img2|)
    ensures v.ContentMismatch? ==> !Identical(img1, img2) && FirstMismatch(img1, img2, v.offset)
    ensures v.SizeMismatch? ==> strict && |img1| != |img2|
    ensures v.StatusMismatch? ==> strict
    ensures !strict && !v.StatusError? && !v.ReadError? ==>
            (ExitCode(v) == 0 <==> Identical(img1, img2)) && (ExitCode(v) == 1 <==> !Identical(img1, img2))
  {
    if strict && |img1| != |img2| {
      return SizeMismatch;
    }
    var offset := 0;
    var common := Min(|img1|, |img2|);
    var chunk;
    while offset < common
      invariant 0 <= offset <= common
      invariant SameUpTo(img1, img2, offset)
    {
      v, chunk := CompareStep(img1, img2, offset, strict);
      if v != ImagesIdentical {
        if v.ContentMismatch? {
          MismatchIsFirst(img1, img2, offset, chunk, v);
        }
        return;
      }
      ExtendSame(img1, img2, offset, chunk);
      offset := offset + chunk;
    }
    if |img1| != |img2| {
      var over := if |img1| > |img2| then img1 else img2;
      while offset < |over|
        invariant common <= offset <= |over|
        invariant SameUpTo(img1, img2, offset)
      {
        v, chunk := CompareTailStep(over, offset);
        TailVerdict(img1, img2, offset, chunk, v);
        if v != ImagesIdentical {
          if v.ContentMismatch? {
            MismatchIsFirst(img1, img2, offset, chunk, v);
          }
          return;
        }
        ExtendSame(img1, img2, offset, chunk);
        offset := offset + chunk;
      }
    }
    return ImagesIdentical;
  }

  /** Past the end of the shorter image, comparing with nothing is comparing with it. */
  lemma TailVerdict(img1: seq<Byte>, img2: seq<Byte>, offset: nat, chunk: nat, v: Verdict)
    requires |img1| != |img2| && Min(|img1|, |img2|) <= offset && offset + chunk <= Max(|img1|, |img2|)
    requires var over := if |img1| > |img2| then img1 else img2; StepVerdict(over, [], offset, chunk, v)
    ensures StepVerdict(img1, img2, offset, chunk, v)
  {
    var over, shorter := if |img1| > |img2| then img1 else img2, if |img1| > |img2| then img2 else img1;
    EmptyIsEqual(over, shorter, offset, chunk, v);
  }
}
