/**
 * The growable byte buffer MemBuf (src/MemBuf.cpp, src/MemBuf.h) as values:
 * a buffer is its bytes (m_data[0 .. m_data_size)) and whether m_data is the
 * null pointer. Each operation is a function from the old value to the new
 * one, or to the exception it raises; the class in MemBuffer keeps an array
 * and is proved to agree with these functions.
 *
 * The +10 slack bytes of every allocation, allocation failure and the
 * ownership of the memory are not part of this model.
 */
module MemBufSpec {
  import opened CInt

  /** The contents of a MemBuf and whether its m_data is null. */
  datatype Buf = Buf(bytes: seq<bv8>, isNull: bool)

  /** The two AnExceptions a MemBuf raises. */
  datatype Fault =
    | OutOfBounds   // "MemBuf: Index out of bounds." and "MemBuf: Out Of Bounds Access"
    | NullInput     // "Input is null." and "MemBuf = NULL not allowed."

  datatype Result<T> = Ok(value: T) | Err(fault: Fault)

  /** A `const char*` argument: the null pointer, or the bytes before its terminating zero. */
  datatype CString = Null | Chars(s: seq<bv8>)

  /** A `const char*` used with an explicit length: the null pointer, or the bytes readable from it. */
  datatype Pointer = NullPtr | Points(mem: seq<bv8>)

  predicate NoZero(s: seq<bv8>)
  {
    forall i :: 0 <= i < |s| ==> s[i] != 0
  }

  /** The caller's side of a C string: no zero byte before the terminator, so strlen is the length. */
  predicate IsCString(c: CString)
  {
    c.Chars? ==> NoZero(c.s)
  }

  /** A buffer the class can hold: its size fits a size_t, and a null m_data holds nothing. */
  predicate Sized(b: Buf)
  {
    |b.bytes| < SIZE_T_LIMIT && (b.isNull ==> b.bytes == [])
  }

  function Zeros(n: nat): (z: seq<bv8>)
    ensures |z| == n
    ensures forall i :: 0 <= i < n ==> z[i] == 0
  {
    seq(n, _ => 0)
  }

  /** memset(s + lo, 0, hi - lo). */
  function ZeroRange(s: seq<bv8>, lo: nat, hi: nat): (r: seq<bv8>)
    requires lo <= hi <= |s|
    ensures |r| == |s|
    ensures forall i :: 0 <= i < |s| ==> r[i] == if lo <= i < hi then 0 else s[i]
  {
    s[..lo] + Zeros(hi - lo) + s[hi..]
  }

  /** memcpy(s + at, src, |src|). */
  function MemCpy(s: seq<bv8>, at: nat, src: seq<bv8>): (r: seq<bv8>)
    requires at + |src| <= |s|
    ensures |r| == |s|
    ensures forall i :: 0 <= i < |s| ==> r[i] == if at <= i < at + |src| then src[i - at] else s[i]
  {
    s[..at] + src + s[at + |src|..]
  }

  /** The bytes before the first zero: what strlen sees when the buffer is passed as a C string. */
  function UpToZero(s: seq<bv8>): (r: seq<bv8>)
    ensures |r| <= |s| && r == s[..|r|]
    ensures NoZero(r)
    ensures |r| < |s| ==> s[|r|] == 0
  {
    if s == [] || s[0] == 0 then [] else [s[0]] + UpToZero(s[1..])
  }

  // ---------------------------------------------------------------------
  // reserve, the only operation that allocates
  // ---------------------------------------------------------------------

  /**
   * reserve(n): an empty buffer gets n fresh zero bytes; a smaller n changes
   * nothing; otherwise the buffer grows to n and its erase(oldSize) zeroes
   * the new part, whose bounds check fails when n equals the old size.
   */
  function Reserve(b: Buf, n: nat): (r: Result<Buf>)
    ensures r.Err? <==> 0 < |b.bytes| == n
    ensures r.Err? ==> r.fault == OutOfBounds
    ensures r.Ok? ==> |r.value.bytes| == (if |b.bytes| == 0 || n > |b.bytes| then n else |b.bytes|)
    ensures r.Ok? ==> r.value.bytes[..|b.bytes|] == b.bytes || |b.bytes| == 0
    ensures r.Ok? ==> forall i :: |b.bytes| <= i < |r.value.bytes| ==> r.value.bytes[i] == 0
    ensures r.Ok? && |b.bytes| == 0 ==> r.value == Buf(Zeros(n), false)
  {
    if |b.bytes| == 0 then Ok(Buf(Zeros(n), false))
    else if n < |b.bytes| then Ok(b)
    else
      // realloc keeps the old bytes; m_data_size = n; erase(oldSize)
      var oldSize := |b.bytes|;
      if !(oldSize < n) then Err(OutOfBounds)
      else Ok(Buf(ZeroRange(b.bytes + Zeros(n - oldSize), oldSize, n), false))
  }

  // ---------------------------------------------------------------------
  // append
  // ---------------------------------------------------------------------

  /** append(const char* c): nothing for null; otherwise reserve(size + strlen(c)) and copy the string in. */
  function AppendCString(b: Buf, c: CString): (r: Result<Buf>)
    ensures r.Err? <==> c.Chars? && |c.s| == 0 && |b.bytes| > 0
    ensures r.Err? ==> r.fault == OutOfBounds
    ensures r.Ok? ==> r.value.bytes == b.bytes + (if c.Null? then [] else c.s)
    ensures r.Ok? && c.Chars? ==> !r.value.isNull
    ensures c.Null? ==> r == Ok(b)
  {
    if c.Null? then Ok(b)
    else
      match Reserve(b, |b.bytes| + |c.s|)
      case Err(f) => Err(f)
      case Ok(g) => Ok(Buf(MemCpy(g.bytes, |b.bytes|, c.s), g.isNull))
  }

  /** append(const char* c, size_t n): nothing for null or n == 0; otherwise the first n bytes of c. */
  function AppendBytes(b: Buf, c: Pointer, n: nat): (r: Result<Buf>)
    requires c.Points? ==> n <= |c.mem|
    ensures r.Ok?
    ensures c.NullPtr? || n == 0 ==> r.value == b
    ensures c.Points? ==> r.value.bytes == b.bytes + c.mem[..n]
  {
    if c.NullPtr? || n == 0 then Ok(b)
    else
      match Reserve(b, |b.bytes| + n)
      case Err(f) => Err(f)
      case Ok(g) => Ok(Buf(MemCpy(g.bytes, |b.bytes|, c.mem[..n]), g.isNull))
  }

  /**
   * append(const MemBuf& t): nothing when t is empty; otherwise t's bytes.
   * This is the intended behaviour also when t is the buffer itself.
   */
  function AppendBuf(b: Buf, t: Buf): (r: Result<Buf>)
    ensures r.Ok?
    ensures r.value.bytes == b.bytes + t.bytes
    ensures |t.bytes| == 0 ==> r.value == b
  {
    if |t.bytes| == 0 then Ok(b)
    else
      match Reserve(b, |b.bytes| + |t.bytes|)
      case Err(f) => Err(f)
      case Ok(g) => Ok(Buf(MemCpy(g.bytes, |b.bytes|, t.bytes), g.isNull))
  }

  // ---------------------------------------------------------------------
  // erase, clear, indexing
  // ---------------------------------------------------------------------

  /** bounds_check(p): raises unless p < size. */
  function BoundsCheck(b: Buf, p: nat): (r: Result<()>)
    ensures r.Ok? <==> p < |b.bytes|
    ensures r.Err? ==> r.fault == OutOfBounds
  {
    if p < |b.bytes| then Ok(()) else Err(OutOfBounds)
  }

  /** The guard of erase(p, n) as the code writes it: bounds_check(p) and bounds_check(p + n - 1) in size_t. */
  predicate EraseGuardAsWritten(size: nat, p: SizeT, n: SizeT)
  {
    p < size && SizeWrap(p + n - 1) < size
  }

  /** The guard erase(p, n) evidently intends: p inside the buffer and [p, p + n) too. */
  predicate EraseGuard(size: nat, p: nat, n: nat)
  {
    p < size && p + n <= size
  }

  /** erase(p, n): zero bytes [p, p + n); the size never changes. */
  function EraseRange(b: Buf, p: nat, n: nat): (r: Result<Buf>)
    ensures r.Ok? <==> EraseGuard(|b.bytes|, p, n)
    ensures r.Err? ==> r.fault == OutOfBounds
    ensures r.Ok? ==> r.value.isNull == b.isNull && |r.value.bytes| == |b.bytes|
    ensures r.Ok? ==> forall i :: 0 <= i < |b.bytes| ==>
      r.value.bytes[i] == if p <= i < p + n then 0 else b.bytes[i]
  {
    if BoundsCheck(b, p).Err? then Err(OutOfBounds)
    else if !(p + n <= |b.bytes|) then Err(OutOfBounds)
    else Ok(Buf(ZeroRange(b.bytes, p, p + n), b.isNull))
  }

  /** erase(p): zero bytes [p, size); raises when p >= size. */
  function EraseFrom(b: Buf, p: nat): (r: Result<Buf>)
    ensures r.Ok? <==> p < |b.bytes|
    ensures r.Err? ==> r.fault == OutOfBounds
    ensures r.Ok? ==> r.value.isNull == b.isNull
    ensures r.Ok? ==> r.value.bytes == b.bytes[..p] + Zeros(|b.bytes| - p)
  {
    if BoundsCheck(b, p).Err? then Err(OutOfBounds)
    else Ok(Buf(ZeroRange(b.bytes, p, |b.bytes|), b.isNull))
  }

  /** erase(): every byte zero, the size kept. */
  function EraseAll(b: Buf): (r: Buf)
    ensures r.bytes == Zeros(|b.bytes|) && r.isNull == b.isNull
  {
    if |b.bytes| == 0 then b else Buf(ZeroRange(b.bytes, 0, |b.bytes|), b.isNull)
  }

  /** clear(): size 0; the memory is freed (m_data null) only when there was something in it. */
  function Clear(b: Buf): (r: Buf)
    ensures r.bytes == []
    ensures |b.bytes| > 0 ==> r.isNull
    ensures |b.bytes| == 0 ==> r == b
  {
    if |b.bytes| == 0 then b else Buf([], true)
  }

  /** operator[](i): byte i, or out of bounds. */
  function At(b: Buf, i: nat): (r: Result<bv8>)
    ensures r.Ok? <==> i < |b.bytes|
    ensures r.Ok? ==> r.value == b.bytes[i]
    ensures r.Err? ==> r.fault == OutOfBounds
  {
    if i >= |b.bytes| then Err(OutOfBounds) else Ok(b.bytes[i])
  }

  // ---------------------------------------------------------------------
  // construction and assignment
  // ---------------------------------------------------------------------

  /** The copy constructor: nothing for an empty source, else reserve and copy. */
  function CopyOf(t: Buf): (r: Buf)
    ensures r.bytes == t.bytes
    ensures r.isNull <==> |t.bytes| == 0
  {
    if |t.bytes| == 0 then Buf([], true)
    else
      var g := Reserve(Buf([], true), |t.bytes|).value;
      Buf(MemCpy(g.bytes, 0, t.bytes), g.isNull)
  }

  /** MemBuf(const char* c): raises for null, otherwise the string's bytes. */
  function FromCString(c: CString): (r: Result<Buf>)
    ensures r.Err? <==> c.Null?
    ensures r.Err? ==> r.fault == NullInput
    ensures r.Ok? ==> r.value == Buf(c.s, false)
  {
    if c.Null? then Err(NullInput)
    else
      var g := Reserve(Buf([], true), |c.s|).value;
      Ok(Buf(MemCpy(g.bytes, 0, c.s), g.isNull))
  }

  /** MemBuf(size_t s): s bytes, all zero. */
  function FromSize(s: nat): (r: Buf)
    ensures r.bytes == Zeros(s) && !r.isNull
  {
    Reserve(Buf([], true), s).value
  }

  /** MemBuf(const twine& c): the twine's bytes, as many as its size. */
  function FromTwine(t: seq<bv8>): (r: Buf)
    ensures r == Buf(t, false)
  {
    var g := Reserve(Buf([], true), |t|).value;
    Buf(MemCpy(g.bytes, 0, t), g.isNull)
  }

  /** operator=(const MemBuf& t) for a t that is another buffer: clear, then copy t's bytes. */
  function AssignBuf(b: Buf, t: Buf): (r: Buf)
    ensures r.bytes == t.bytes
    ensures |t.bytes| > 0 ==> !r.isNull
    ensures |t.bytes| == 0 ==> r == Clear(b)
  {
    var e := Clear(b);
    if |t.bytes| == 0 then e
    else
      var g := Reserve(e, |t.bytes|).value;
      Buf(MemCpy(g.bytes, 0, t.bytes), g.isNull)
  }

  /** operator=(const char* c): raises for null (the buffer unchanged), else clear and copy the string. */
  function AssignCString(b: Buf, c: CString): (r: Result<Buf>)
    ensures r.Err? <==> c.Null?
    ensures r.Err? ==> r.fault == NullInput
    ensures r.Ok? ==> r.value == Buf(c.s, false)
  {
    if c.Null? then Err(NullInput)
    else
      var g := Reserve(Clear(b), |c.s|).value;
      Ok(Buf(MemCpy(g.bytes, 0, c.s), g.isNull))
  }

  /** set(c, n): clear, then exactly the first n bytes of c. */
  function SetBytes(b: Buf, c: seq<bv8>, n: nat): (r: Buf)
    requires n <= |c|
    ensures r == Buf(c[..n], false)
  {
    var g := Reserve(Clear(b), n).value;
    Buf(MemCpy(g.bytes, 0, c[..n]), g.isNull)
  }
}
