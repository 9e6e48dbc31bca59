/**
 * What the buffer's rules add up to, and the two places where the code as
 * written does not do what it evidently means to: the size_t bounds check of
 * erase(p, n) and append(const MemBuf&) of a buffer to itself.
 */
module MemBufProps {
  import opened CInt
  import opened MemBufSpec

  // ---------------------------------------------------------------------
  // reserve
  // ---------------------------------------------------------------------

  /** reserve to the current non-zero size raises, and so does appending an empty C string to a non-empty buffer. */
  lemma ReserveToSizeRaises(b: Buf)
    requires |b.bytes| > 0
    ensures Reserve(b, |b.bytes|) == Err(OutOfBounds)
    ensures AppendCString(b, Chars([])) == Err(OutOfBounds)
  {
  }

  /** Growing succeeds once; the same reserve again is a reserve to the current size and raises. */
  lemma ReserveTwiceRaises(b: Buf, n: nat)
    requires 0 < n && (|b.bytes| == 0 || n > |b.bytes|)
    ensures Reserve(b, n).Ok?
    ensures Reserve(Reserve(b, n).value, n) == Err(OutOfBounds)
  {
  }

  /** reserve never shrinks and keeps every old byte. */
  lemma ReserveGrowsOnly(b: Buf, n: nat)
    requires Reserve(b, n).Ok?
    ensures |Reserve(b, n).value.bytes| >= |b.bytes|
    ensures |Reserve(b, n).value.bytes| >= n || |b.bytes| > n
    ensures b.bytes <= Reserve(b, n).value.bytes || |b.bytes| == 0
  {
  }

  // ---------------------------------------------------------------------
  // the erase family
  // ---------------------------------------------------------------------

  /** erase(p) is erase(p, size - p). */
  lemma EraseFromIsEraseRange(b: Buf, p: nat)
    requires p < |b.bytes|
    ensures EraseFrom(b, p) == EraseRange(b, p, |b.bytes| - p)
  {
    assert EraseFrom(b, p).value.bytes == EraseRange(b, p, |b.bytes| - p).value.bytes;
  }

  /** erase() of a non-empty buffer is erase(0). */
  lemma EraseAllIsEraseFromStart(b: Buf)
    requires |b.bytes| > 0
    ensures EraseFrom(b, 0) == Ok(EraseAll(b))
  {
  }

  /** No erase changes the size or the null-ness of m_data. */
  lemma EraseKeepsSize(b: Buf, p: nat, n: nat)
    ensures |EraseAll(b).bytes| == |b.bytes| && EraseAll(b).isNull == b.isNull
    ensures EraseFrom(b, p).Ok? ==> |EraseFrom(b, p).value.bytes| == |b.bytes|
    ensures EraseRange(b, p, n).Ok? ==> |EraseRange(b, p, n).value.bytes| == |b.bytes|
  {
  }

  /** Erasing a range twice is erasing it once. */
  lemma EraseRangeIdempotent(b: Buf, p: nat, n: nat)
    requires EraseRange(b, p, n).Ok?
    ensures EraseRange(EraseRange(b, p, n).value, p, n) == EraseRange(b, p, n)
  {
    var once := EraseRange(b, p, n).value;
    assert EraseRange(once, p, n).value.bytes == once.bytes;
  }

  // ---------------------------------------------------------------------
  // append, clear, copy
  // ---------------------------------------------------------------------

  /** Appending buffers is associative in the bytes it produces. */
  lemma AppendBufAssociative(a: Buf, b: Buf, c: Buf)
    ensures AppendBuf(AppendBuf(a, b).value, c).value.bytes == AppendBuf(a, AppendBuf(b, c).value).value.bytes
  {
  }

  /** After clear the buffer is empty, and clearing again changes nothing. */
  lemma ClearEmpties(b: Buf)
    ensures Clear(b).bytes == []
    ensures Clear(Clear(b)) == Clear(b)
  {
  }

  /** Copying, assigning and then indexing give back the source's bytes one by one. */
  lemma CopyReadsBack(b: Buf, t: Buf, i: nat)
    requires i < |t.bytes|
    ensures At(CopyOf(t), i) == Ok(t.bytes[i])
    ensures At(AssignBuf(b, t), i) == Ok(t.bytes[i])
  {
  }

  /** append(c, n) followed by reading the new bytes gives c[0..n). */
  lemma AppendBytesReadsBack(b: Buf, c: seq<bv8>, n: nat, i: nat)
    requires n <= |c| && i < n
    ensures At(AppendBytes(b, Points(c), n).value, |b.bytes| + i) == Ok(c[i])
  {
  }

  // ---------------------------------------------------------------------
  // Findings
  // ---------------------------------------------------------------------

  /**
   * erase(p, n) as written: with size 10, p = 5 and n = 2^64 - 2, p + n - 1
   * wraps to 2, both bounds checks pass, and memset would write far past the
   * end. And erase(0, 0) raises, because 0 + 0 - 1 wraps to the largest size_t.
   */
  lemma EraseGuardLetsOverrunThrough()
    ensures EraseGuardAsWritten(10, 5, SIZE_T_LIMIT - 2) && 5 + (SIZE_T_LIMIT - 2) > 10
    ensures !EraseGuard(10, 5, SIZE_T_LIMIT - 2)
    ensures !EraseGuardAsWritten(10, 0, 0) && EraseGuard(10, 0, 0)
  {
    assert SizeWrap(5 + (SIZE_T_LIMIT - 2) - 1) == 2;
    assert SizeWrap(0 + 0 - 1) == SIZE_T_LIMIT - 1;
  }

  /** Where p + n - 1 neither wraps nor underflows the two guards agree, so the corrected guard differs only there. */
  lemma EraseGuardsAgreeWithoutWrap(size: nat, p: SizeT, n: SizeT)
    requires 1 <= n && p + n - 1 < SIZE_T_LIMIT
    ensures EraseGuardAsWritten(size, p, n) <==> EraseGuard(size, p, n)
  {
    assert SizeWrap(p + n - 1) == p + n - 1;
  }

  /** The bytes malloc and realloc add to every size asked for. */
  const SLACK: nat := 10

  /** The memcpy a call issues: into `dest`, at offset `at`, `count` bytes. */
  datatype CopyCall = CopyCall(dest: Buf, at: nat, count: nat)

  /**
   * append(const MemBuf& c) as written, with c the buffer itself: an empty c
   * returns at once; otherwise reserve(m_data_size + c.size()) runs, and only
   * then is c.size() read for the memcpy, from the buffer reserve has grown.
   */
  function SelfAppendAsWritten(b: Buf): (r: Result<CopyCall>)
    ensures |b.bytes| > 0 ==>
      r.Ok? && r.value.at == |b.bytes| && |b.bytes| <= |r.value.dest.bytes|
      && r.value.dest.bytes[..|b.bytes|] == b.bytes
  {
    if |b.bytes| == 0 then Ok(CopyCall(b, 0, 0))
    else
      var oldSize := |b.bytes|;
      match Reserve(b, oldSize + |b.bytes|)
      case Err(f) => Err(f)
      case Ok(grown) => Ok(CopyCall(grown, oldSize, |grown.bytes|))
  }

  /**
   * For a non-empty buffer the reserve succeeds and doubles it, and the memcpy
   * then ends at three times the old size: past the buffer's bytes always, and
   * past its allocation (the bytes plus the slack malloc adds) exactly when the
   * buffer holds more than the slack.
   */
  lemma SelfAppendOverruns(b: Buf)
    requires |b.bytes| > 0
    ensures SelfAppendAsWritten(b).Ok?
    ensures var c := SelfAppendAsWritten(b).value;
      |c.dest.bytes| == 2 * |b.bytes| && c.at + c.count == 3 * |b.bytes|
      && c.at + c.count > |c.dest.bytes|
      && (c.at + c.count > |c.dest.bytes| + SLACK <==> |b.bytes| > SLACK)
  {
    assert Reserve(b, |b.bytes| + |b.bytes|).Ok?;
  }

  /** A buffer of 11 bytes appended to itself writes up to byte 33 of a 32-byte allocation. */
  lemma SelfAppendElevenBytes(b: Buf)
    requires |b.bytes| == 11
    ensures var c := SelfAppendAsWritten(b).value;
      c.at + c.count == 33 && |c.dest.bytes| + SLACK == 32
  {
    SelfAppendOverruns(b);
  }

  /** The corrected append of a buffer to itself doubles its bytes. */
  lemma SelfAppendDoubles(b: Buf)
    ensures AppendBuf(b, b).value.bytes == b.bytes + b.bytes
  {
  }
}
