/** The ACNET device framework: scaling of byte offsets and lengths to elements,
    the window checks of the read proxies, and the range-checked array view.
    Index is a signed and Count an unsigned 32-bit number; size_t has 64 bits. */
module AcnetDevice {
  import Modular

  datatype AcnetError = MTVAL | UNSUPMT | BADOFF | BADLEN | BADOFLEN | DEVFAILED | FTPLIMIT

  /** OutOfBounds: the source reads before the start of its data, which is undefined. */
  datatype Status = Ok | Thrown(error: AcnetError) | OutOfBounds

  datatype Result<T> = Success(value: T) | Failure(error: AcnetError) | Undefined

  /** A window of elements: where it starts in the device's data, and how long it is. */
  datatype Window = Window(index: int, total: nat)

  const TWO_TO_THE_31: int := 0x8000_0000
  const TWO_TO_THE_32: int := 0x1_0000_0000
  const TWO_TO_THE_64: int := 0x1_0000_0000_0000_0000

  function ToInt32(x: int): int {
    var r := x % TWO_TO_THE_32;
    if r < TWO_TO_THE_31 then r else r - TWO_TO_THE_32
  }

  function ToInt16(x: int): int {
    var r := x % 0x1_0000;
    if r < 0x8000 then r else r - 0x1_0000
  }

  lemma NarrowingKeeps(x: int)
    requires -0x8000 <= x < 0x8000
    ensures ToInt16(x) == x
  {
    if x < 0 {
      assert (x + 0x1_0000) % 0x1_0000 == x + 0x1_0000;
    }
  }

  lemma Int32Keeps(x: int)
    requires -TWO_TO_THE_31 <= x < TWO_TO_THE_31
    ensures ToInt32(x) == x
  {
    if x < 0 {
      Modular.Shift(x, TWO_TO_THE_32, 1);
      Modular.Small(x + TWO_TO_THE_32, TWO_TO_THE_32);
    } else {
      Modular.Small(x, TWO_TO_THE_32);
    }
  }

  /** Narrowing keeps the low bits. */
  lemma NarrowingWraps(x: int)
    ensures -0x8000 <= ToInt16(x) < 0x8000 && (x - ToInt16(x)) % 0x1_0000 == 0
    ensures -TWO_TO_THE_31 <= ToInt32(x) < TWO_TO_THE_31 && (x - ToInt32(x)) % TWO_TO_THE_32 == 0
  {
  }

  predicate Representable(len: int, off: int) {
    -TWO_TO_THE_31 <= off < TWO_TO_THE_31 && 0 <= len < TWO_TO_THE_32
  }

  /** An offset is divided by a size_t, so it is made unsigned first. */
  predicate Aligned(off: int, size: nat)
    requires size > 0
  {
    off % TWO_TO_THE_64 % size == 0
  }

  function Scaled(off: int, size: nat): int
    requires size > 0
  {
    ToInt32(off % TWO_TO_THE_64 / size)
  }

  function Elements(bytes: nat, size: nat): nat
    requires size > 0
  {
    Modular.QuotientBelow(bytes, size);
    bytes / size
  }

  /** The checks of the array read proxy; the end of the window is computed in
      32 bits and compared as a signed number. */
  function Proxied(maxIndex: nat, size: nat, len: int, off: int): Result<Window>
    requires size > 0 && Representable(len, off)
  {
    var index := Scaled(off, size);
    if !Aligned(off, size) || len % size != 0 then Failure(BADLEN)
    else if index >= maxIndex then Failure(BADOFF)
    else if ToInt32(index + Elements(len, size)) > maxIndex then Failure(BADLEN)
    else Success(Window(index, Elements(len, size)))
  }

  /** The proxy without a length: the view it builds has maxIndex / size
      elements, although maxIndex already counts elements. */
  function ProxiedFast(maxIndex: nat, size: nat, off: int): Result<Window>
    requires size > 0 && Representable(0, off)
  {
    var index := Scaled(off, size);
    if !Aligned(off, size) then Failure(BADLEN)
    else if index >= maxIndex then Failure(BADOFF)
    else if ToInt32(index + Elements(maxIndex, size)) > maxIndex then Failure(BADLEN)
    else Success(Window(index, Elements(maxIndex, size)))
  }

  lemma ScaledUp(off: int, size: nat)
    requires size > 0 && 0 <= off < TWO_TO_THE_31
    ensures Aligned(off, size) <==> off % size == 0
    ensures Scaled(off, size) == off / size && 0 <= off / size <= off
  {
    Modular.Small(off, TWO_TO_THE_64);
    Modular.QuotientBelow(off, size);
    Int32Keeps(off / size);
  }

  /** For the element sizes of the plain properties a negative offset scales as a signed one. */
  lemma ScaledDown(off: int, size: nat)
    requires (size == 2 || size == 4) && -TWO_TO_THE_31 <= off < 0
    ensures Aligned(off, size) <==> off % size == 0
    ensures Scaled(off, size) == off / size && -TWO_TO_THE_31 <= off / size < 0
  {
    if size == 2 {
      ScaledByPower(off, 2, 0x8000_0000);
    } else {
      ScaledByPower(off, 4, 0x4000_0000);
    }
    Int32Keeps(off / size);
  }

  lemma ScaledByPower(off: int, size: nat, q: nat)
    requires size > 0 && size * (TWO_TO_THE_32 * q) == TWO_TO_THE_64 && -TWO_TO_THE_31 <= off < 0
    ensures off % TWO_TO_THE_64 % size == off % size
    ensures off % TWO_TO_THE_64 / size == off / size + TWO_TO_THE_32 * q
    ensures off % TWO_TO_THE_64 / size % TWO_TO_THE_32 == off / size % TWO_TO_THE_32
  {
    UnsignedOffset(off);
    Modular.Shift(off, size, TWO_TO_THE_32 * q);
    Modular.Shift(off / size, TWO_TO_THE_32, q);
  }

  lemma UnsignedOffset(off: int)
    requires -TWO_TO_THE_31 <= off < 0
    ensures off % TWO_TO_THE_64 == off + TWO_TO_THE_64
  {
    Modular.Shift(off, TWO_TO_THE_64, 1);
    Modular.Small(off + TWO_TO_THE_64, TWO_TO_THE_64);
  }

  /** Comparing the 32-bit sum as a signed number. */
  lemma SignedSum(sum: int, maxIndex: nat)
    requires -TWO_TO_THE_31 <= sum < TWO_TO_THE_32 && maxIndex < TWO_TO_THE_31
    ensures ToInt32(sum) > maxIndex <==> maxIndex < sum < TWO_TO_THE_31
  {
    if sum < TWO_TO_THE_31 {
      Int32Keeps(sum);
    } else {
      Modular.Small(sum, TWO_TO_THE_32);
    }
  }

  /** The signed window of a plain property. */
  lemma PlainWindow(size: nat, len: int, off: int)
    requires (size == 2 || size == 4) && Representable(len, off)
    ensures Aligned(off, size) <==> off % size == 0
    ensures Scaled(off, size) == off / size && Elements(len, size) == len / size
    ensures -TWO_TO_THE_31 <= off / size + len / size < TWO_TO_THE_32
  {
    if off < 0 {
      ScaledDown(off, size);
    } else {
      ScaledUp(off, size);
    }
  }

  /** For plain element sizes the proxy accepts a window exactly if it is
      aligned, does not start at or behind the end, and ends inside the data or
      past 2^31; it does not look whether the window starts before the data. */
  lemma ProxyAcceptsIff(maxIndex: nat, size: nat, len: int, off: int)
    requires (size == 2 || size == 4) && Representable(len, off) && maxIndex < TWO_TO_THE_31
    ensures var w := Window(off / size, len / size);
            && -TWO_TO_THE_31 <= w.index + w.total < TWO_TO_THE_32
            && match Proxied(maxIndex, size, len, off)
               case Success(v) => v == w
               case Failure(_) => true
               case Undefined => false
    ensures var w := Window(off / size, len / size);
            Proxied(maxIndex, size, len, off).Success? <==>
              && off % size == 0 && len % size == 0 && w.index < maxIndex
              && (w.index + w.total <= maxIndex || w.index + w.total >= TWO_TO_THE_31)
  {
    PlainWindow(size, len, off);
    SignedSum(off / size + len / size, maxIndex);
  }

  /** The errors of the proxy, in terms of the signed window. */
  lemma ProxyErrors(maxIndex: nat, size: nat, len: int, off: int)
    requires (size == 2 || size == 4) && Representable(len, off) && maxIndex < TWO_TO_THE_31
    ensures var r, end := Proxied(maxIndex, size, len, off), off / size + len / size;
            && (off % size != 0 || len % size != 0 ==> r == Failure(BADLEN))
            && (off % size == 0 && len % size == 0 && off / size >= maxIndex ==> r == Failure(BADOFF))
            && (off % size == 0 && len % size == 0 && off / size < maxIndex < end < TWO_TO_THE_31 ==>
                  r == Failure(BADLEN))
  {
    PlainWindow(size, len, off);
    SignedSum(off / size + len / size, maxIndex);
  }

  /** A view of a caller's buffer; positions are relative to the buffer. */
  class ArrayView<T> {
    const data: array<T>
    const offset: int
    const total: nat

    constructor (data: array<T>, offset: int, total: nat)
      ensures this.data == data && this.offset == offset && this.total == total
    {
      this.data := data;
      this.offset := offset;
      this.total := total;
    }

    predicate InRange(i: nat) {
      i < total
    }

    method Set(i: nat, value: T) returns (status: Status)
      requires total <= data.Length
      modifies data
      ensures status == if InRange(i) then Ok else Thrown(BADOFLEN)
      ensures forall k :: 0 <= k < data.Length ==> data[k] == if k == i && InRange(i) then value else old(data[k])
    {
      if !InRange(i) {
        return Thrown(BADOFLEN);
      }
      data[i] := value;
      status := Ok;
    }
  }
}
