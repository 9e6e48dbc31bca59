/**
 * The class MemBuf of src/MemBuf.cpp over an array: `data` is the memory
 * m_data points to, `size` is m_data_size and `isNull` says whether m_data
 * is the null pointer. Every method is proved to take the buffer's value to
 * what the matching function of MemBufSpec says, or to raise what it says
 * with the buffer left as it was.
 *
 * Allocation (malloc/realloc) gives a new array; memset and memcpy are loops.
 */
module MemBuffer {
  import opened CInt
  import opened MemBufSpec

  /** How a call that may raise ends. */
  datatype Outcome = Done | Raised(fault: Fault)

  /** memset(a + lo, 0, hi - lo). */
  method ZeroFill(a: array<bv8>, lo: nat, hi: nat)
    requires lo <= hi <= a.Length
    modifies a
    ensures a[..] == ZeroRange(old(a[..]), lo, hi)
  {
    var i := lo;
    while i < hi
      invariant lo <= i <= hi
      invariant forall k :: 0 <= k < a.Length ==> a[k] == if lo <= k < i then 0 else old(a[k])
    {
      a[i] := 0;
      i := i + 1;
    }
    assert a[..] == ZeroRange(old(a[..]), lo, hi);
  }

  /** memcpy(a + at, src, |src|). */
  method CopyInto(a: array<bv8>, at: nat, src: seq<bv8>)
    requires at + |src| <= a.Length
    modifies a
    ensures a[..] == MemCpy(old(a[..]), at, src)
  {
    var i := 0;
    while i < |src|
      invariant 0 <= i <= |src|
      invariant forall k :: 0 <= k < a.Length ==> a[k] == if at <= k < at + i then src[k - at] else old(a[k])
    {
      a[at + i] := src[i];
      i := i + 1;
    }
    assert a[..] == MemCpy(old(a[..]), at, src);
  }

  class MemBuf {
    var data: array<bv8>
    var size: nat
    var isNull: bool

    /** m_data_size is the length of the memory, fits a size_t, and is 0 while m_data is null. */
    ghost predicate Valid()
      reads this
    {
      size == data.Length && size < SIZE_T_LIMIT && (isNull ==> size == 0)
    }

    /** The buffer's value. */
    function Value(): Buf
      reads this, data
    {
      Buf(data[..], isNull)
    }

    /** MemBuf(): empty, m_data null. */
    constructor ()
      ensures Valid() && Value() == Buf([], true)
    {
      data := new bv8[0];
      size := 0;
      isNull := true;
    }

    /** MemBuf(const MemBuf& t): t's bytes in memory of its own. */
    constructor Copy(t: MemBuf)
      requires t.Valid()
      ensures Valid() && Value() == CopyOf(t.Value()) && fresh(data)
    {
      data := new bv8[0];
      size := 0;
      isNull := true;
      new;
      if t.size == 0 {
        return;
      }
      var src := t.data[..];
      var _ := Reserve(t.size);
      CopyInto(data, 0, src);
    }

    /** MemBuf(size_t s): s zero bytes. */
    constructor Sized(s: SizeT)
      ensures Valid() && Value() == FromSize(s) && fresh(data)
    {
      data := new bv8[0];
      size := 0;
      isNull := true;
      new;
      var _ := Reserve(s);
    }

    /** MemBuf(const twine& c): the twine's bytes. */
    constructor FromTwine(t: seq<bv8>)
      requires |t| < SIZE_T_LIMIT
      ensures Valid() && Value() == MemBufSpec.FromTwine(t) && fresh(data)
    {
      data := new bv8[0];
      size := 0;
      isNull := true;
      new;
      var _ := Reserve(|t|);
      CopyInto(data, 0, t);
    }

    /** MemBuf(const char* c): a null c raises, else the string's bytes. */
    static method FromCString(c: CString) returns (r: Result<MemBuf>)
      requires IsCString(c) && (c.Chars? ==> |c.s| < SIZE_T_LIMIT)
      ensures r.Err? <==> MemBufSpec.FromCString(c).Err?
      ensures r.Err? ==> r.fault == MemBufSpec.FromCString(c).fault
      ensures r.Ok? ==> fresh(r.value) && fresh(r.value.data) && r.value.Valid()
                        && r.value.Value() == MemBufSpec.FromCString(c).value
    {
      if c.Null? {
        return Err(NullInput);
      }
      var m := new MemBuf();
      var _ := m.Reserve(|c.s|);
      CopyInto(m.data, 0, c.s);
      r := Ok(m);
    }

    /**
     * reserve(n): an empty buffer gets new zeroed memory of n bytes; a smaller
     * n does nothing; otherwise realloc to n bytes and erase(oldSize).
     * Only new memory is written.
     */
    method Reserve(n: SizeT) returns (o: Outcome)
      requires Valid()
      modifies this
      ensures Valid()
      ensures var r := MemBufSpec.Reserve(old(Value()), n);
        && (r.Ok? ==> o == Done && Value() == r.value)
        && (r.Err? ==> o == Raised(r.fault) && Value() == old(Value()))
      ensures data == old(data) || fresh(data)
      ensures old(size) == 0 || n > old(size) ==> fresh(data)
    {
      if size == 0 {
        var a := new bv8[n];
        ZeroFill(a, 0, n);
        data, size, isNull := a, n, false;
        return Done;
      }
      if n < size {
        return Done;
      }
      ghost var before := Value();
      var a := new bv8[n];
      CopyInto(a, 0, data[..]);
      var oldSize := size;
      data, size, isNull := a, n, false;
      assert data[..][..oldSize] == before.bytes;
      o := EraseFrom(oldSize);
      assert o.Done? ==> data[..] == ZeroRange(before.bytes + Zeros(n - oldSize), oldSize, n);
    }

    /** bounds_check(p). */
    method BoundsCheck(p: SizeT) returns (o: Outcome)
      requires Valid()
      ensures o.Done? <==> p < size
      ensures o.Raised? ==> o.fault == OutOfBounds
    {
      if p >= size {
        return Raised(OutOfBounds);
      }
      o := Done;
    }

    /** erase(p): zero [p, size), raising when p >= size. */
    method EraseFrom(p: SizeT) returns (o: Outcome)
      requires Valid()
      modifies data
      ensures Valid()
      ensures var r := MemBufSpec.EraseFrom(old(Value()), p);
        && (r.Ok? ==> o == Done && Value() == r.value)
        && (r.Err? ==> o == Raised(r.fault) && Value() == old(Value()))
    {
      o := BoundsCheck(p);
      if o.Raised? {
        return;
      }
      ZeroFill(data, p, size);
    }

    /** erase(p, n): zero [p, p + n), with the bounds check on the last byte done without wrap-around. */
    method EraseRange(p: SizeT, n: SizeT) returns (o: Outcome)
      requires Valid()
      modifies data
      ensures Valid()
      ensures var r := MemBufSpec.EraseRange(old(Value()), p, n);
        && (r.Ok? ==> o == Done && Value() == r.value)
        && (r.Err? ==> o == Raised(r.fault) && Value() == old(Value()))
    {
      o := BoundsCheck(p);
      if o.Raised? {
        return;
      }
      if n > size - p {
        return Raised(OutOfBounds);
      }
      ZeroFill(data, p, p + n);
    }

    /** erase(): zero every byte. */
    method EraseAll()
      requires Valid()
      modifies data
      ensures Valid() && Value() == MemBufSpec.EraseAll(old(Value()))
    {
      if size == 0 {
        return;
      }
      ZeroFill(data, 0, size);
    }

    /** clear(): free the memory when there is something in it. */
    method Clear()
      requires Valid()
      modifies this
      ensures Valid() && Value() == MemBufSpec.Clear(old(Value()))
    {
      if size == 0 {
        return;
      }
      data := new bv8[0];
      isNull := true;
      size := 0;
    }

    /** append(const char* c). */
    method AppendCString(c: CString) returns (o: Outcome)
      requires Valid() && IsCString(c)
      requires c.Chars? ==> size + |c.s| < SIZE_T_LIMIT
      modifies this
      ensures Valid()
      ensures var r := MemBufSpec.AppendCString(old(Value()), c);
        && (r.Ok? ==> o == Done && Value() == r.value)
        && (r.Err? ==> o == Raised(r.fault) && Value() == old(Value()))
    {
      if c.Null? {
        return Done;
      }
      var oldSize := size;
      o := Reserve(size + |c.s|);
      if o.Raised? {
        return;
      }
      CopyInto(data, oldSize, c.s);
    }

    /** append(const char* c, size_t n). */
    method AppendBytes(c: Pointer, n: SizeT)
      requires Valid() && (c.Points? ==> n <= |c.mem|)
      requires c.Points? ==> size + n < SIZE_T_LIMIT
      modifies this
      ensures Valid() && Value() == MemBufSpec.AppendBytes(old(Value()), c, n).value
    {
      if c.NullPtr? || n == 0 {
        return;
      }
      var oldSize := size;
      var _ := Reserve(size + n);
      CopyInto(data, oldSize, c.mem[..n]);
    }

    /**
     * append(const MemBuf& t): t's size and bytes are taken before the
     * reserve, so appending a buffer to itself doubles it.
     */
    method AppendBuf(t: MemBuf)
      requires Valid() && t.Valid() && size + t.size < SIZE_T_LIMIT
      modifies this
      ensures Valid() && Value() == MemBufSpec.AppendBuf(old(Value()), old(t.Value())).value
      ensures t != this ==> t.Value() == old(t.Value())
    {
      if t.size == 0 {
        return;
      }
      var src := t.data[..];
      var oldSize := size;
      var _ := Reserve(size + |src|);
      CopyInto(data, oldSize, src);
    }

    /** operator=(const MemBuf& t): nothing for self-assignment, else clear and copy. */
    method AssignBuf(t: MemBuf)
      requires Valid() && t.Valid()
      modifies this
      ensures Valid()
      ensures t == this ==> Value() == old(Value())
      ensures t != this ==> Value() == MemBufSpec.AssignBuf(old(Value()), old(t.Value()))
                            && t.Value() == old(t.Value())
    {
      if t == this {
        return;
      }
      var src := t.data[..];
      Clear();
      if |src| == 0 {
        return;
      }
      var _ := Reserve(|src|);
      CopyInto(data, 0, src);
    }

    /** operator=(const char* c): a null c raises before anything changes. */
    method AssignCString(c: CString) returns (o: Outcome)
      requires Valid() && IsCString(c) && (c.Chars? ==> |c.s| < SIZE_T_LIMIT)
      modifies this
      ensures Valid()
      ensures var r := MemBufSpec.AssignCString(old(Value()), c);
        && (r.Ok? ==> o == Done && Value() == r.value)
        && (r.Err? ==> o == Raised(r.fault) && Value() == old(Value()))
    {
      if c.Null? {
        return Raised(NullInput);
      }
      Clear();
      var _ := Reserve(|c.s|);
      CopyInto(data, 0, c.s);
      o := Done;
    }

    /** operator=(const twine& t): clear, then the twine's bytes. */
    method AssignTwine(t: seq<bv8>)
      requires Valid() && |t| < SIZE_T_LIMIT
      modifies this
      ensures Valid() && Value() == MemBufSpec.FromTwine(t)
    {
      Clear();
      var _ := Reserve(|t|);
      CopyInto(data, 0, t);
    }

    /** set(c, n): exactly the first n bytes of c. */
    method Set(c: seq<bv8>, n: SizeT)
      requires Valid() && n <= |c|
      modifies this
      ensures Valid() && Value() == SetBytes(old(Value()), c, n)
    {
      Clear();
      var _ := Reserve(n);
      CopyInto(data, 0, c[..n]);
    }

    /** operator[](i). */
    method At(i: SizeT) returns (r: Result<bv8>)
      requires Valid()
      ensures r == MemBufSpec.At(Value(), i)
      ensures r.Ok? <==> i < size
    {
      if i >= size {
        return Err(OutOfBounds);
      }
      r := Ok(data[i]);
    }

    /** size() and length(). */
    method Size() returns (n: SizeT)
      requires Valid()
      ensures n == |Value().bytes|
    {
      n := size;
    }

    /** empty(). */
    method Empty() returns (e: bool)
      requires Valid()
      ensures e <==> Value().bytes == []
    {
      e := size == 0;
    }

    /** zip(): does nothing. */
    method Zip()
      requires Valid()
      ensures Value() == old(Value())
    {
    }

    /** unzip(): does nothing. */
    method Unzip()
      requires Valid()
      ensures Value() == old(Value())
    {
    }
  }
}
