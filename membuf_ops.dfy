/**
 * The global operator+ overloads of src/MemBuf.h. Each copies its left
 * operand into a new buffer and appends the right one with `+=`; a MemBuf on
 * the right goes in through operator()(), that is as a C string, so it is
 * cut at its first zero byte (and contributes nothing while its m_data is
 * null). The operands are values here, so neither can change.
 */
module MemBufOps {
  import opened MemBufSpec

  /** operator()() of a buffer read as a C string: null, or its bytes up to the first zero. */
  function AsCString(b: Buf): (c: CString)
    ensures IsCString(c)
    ensures c.Null? <==> b.isNull
    ensures c.Chars? && NoZero(b.bytes) ==> c.s == b.bytes
  {
    if b.isNull then Null else Chars(UpToZero(b.bytes))
  }

  /** operator+(const MemBuf& lhs, const MemBuf& rhs). */
  function PlusBuf(lhs: Buf, rhs: Buf): (r: Result<Buf>)
    ensures r.Err? <==> |lhs.bytes| > 0 && !rhs.isNull && UpToZero(rhs.bytes) == []
    ensures r.Ok? ==> r.value.bytes == lhs.bytes + (if rhs.isNull then [] else UpToZero(rhs.bytes))
    ensures r.Ok? && !rhs.isNull && NoZero(rhs.bytes) ==> r.value.bytes == lhs.bytes + rhs.bytes
  {
    AppendCString(CopyOf(lhs), AsCString(rhs))
  }

  /** operator+(const MemBuf& lhs, const char* rhs). */
  function PlusCString(lhs: Buf, rhs: CString): (r: Result<Buf>)
    requires IsCString(rhs)
    ensures r.Err? <==> |lhs.bytes| > 0 && rhs.Chars? && rhs.s == []
    ensures r.Ok? ==> r.value.bytes == lhs.bytes + (if rhs.Null? then [] else rhs.s)
  {
    AppendCString(CopyOf(lhs), rhs)
  }

  /** operator+(const char* lhs, const MemBuf& rhs): a null lhs raises in the MemBuf(const char*) constructor. */
  function CStringPlus(lhs: CString, rhs: Buf): (r: Result<Buf>)
    requires IsCString(lhs)
    ensures lhs.Null? ==> r == Err(NullInput)
    ensures lhs.Chars? ==>
      (r.Err? <==> |lhs.s| > 0 && !rhs.isNull && UpToZero(rhs.bytes) == [])
    ensures r.Ok? ==> r.value.bytes == lhs.s + (if rhs.isNull then [] else UpToZero(rhs.bytes))
  {
    match FromCString(lhs)
    case Err(f) => Err(f)
    case Ok(ret) => AppendCString(ret, AsCString(rhs))
  }

  /** For a non-empty right operand without zero bytes, `+` and append(const MemBuf&) agree. */
  lemma PlusIsAppend(lhs: Buf, rhs: Buf)
    requires Sized(rhs) && |rhs.bytes| > 0 && NoZero(rhs.bytes)
    ensures PlusBuf(lhs, rhs) == AppendBuf(CopyOf(lhs), rhs)
  {
    assert !rhs.isNull;
    assert AsCString(rhs) == Chars(rhs.bytes);
  }
}
