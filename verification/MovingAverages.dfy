/** The dispatcher's moving average: nested loops, then a rotation by one place. */
module MovingAverages {
  import opened Sequences
  import opened Messages

  /** The sum of `k` neighbours, from place `i` on. */
  function Sum(data: seq<int>, i: nat, k: nat): int
    requires i + k <= |data|
  {
    if k == 0 then 0 else Sum(data, i, k - 1) + data[i + k - 1]
  }

  /** A window that slides by one place loses its first element and gains the next. */
  lemma {:induction false} SumSlides(data: seq<int>, i: nat, k: nat)
    requires i + k < |data|
    ensures Sum(data, i + 1, k) == Sum(data, i, k) - data[i] + data[i + k]
    ensures Sum(data, i, 0) == 0 && Sum(data, i, 1) == data[i]
  {
    assert Sum(data, i, 1) == Sum(data, i, 0) + data[i];
    if k > 0 {
      SumSlides(data, i, k - 1);
    }
  }

  /** No sum of up to `size` neighbours leaves the range of an integer. */
  ghost predicate NoOverflow(data: seq<int>, size: nat) {
    forall i: nat, k: nat :: i + k <= |data| && k <= size ==> IsInt(Sum(data, i, k))
  }

  /** `x /= size`, where the size is unsigned and 64 bits wide, so that `x` is converted first. */
  function DivAssign(x: int, size: nat): int
    requires size > 0
  {
    ToInt((x % TWO_64) / size)
  }

  /** A negative number counts as itself plus 2 to the 64; of the quotient the low 32 bits are kept. */
  lemma DivAssignIs(x: int, size: nat)
    requires IsInt(x) && size > 0
    ensures IsInt(DivAssign(x, size))
    ensures ((if x < 0 then x + TWO_64 else x) / size - DivAssign(x, size)) % TWO_32 == 0
  {
    assert x % TWO_64 == if x < 0 then x + TWO_64 else x;
    hide ToInt;
  }

  /** Of a number that is not negative the quotient is the floor. */
  lemma DivAssignFloors(x: int, size: nat)
    requires 0 <= x < TWO_31 && size > 0
    ensures DivAssign(x, size) == x / size
  {
    QuotientBound(x, size);
  }

  /** Of a negative number it is so, too, if the size divides 2 to the 32: the carry is out of range. */
  lemma DivAssignNegative(x: int, size: nat)
    requires IsInt(x) && 0 < size && TWO_32 % size == 0
    ensures DivAssign(x, size) == x / size
  {
    if x >= 0 {
      DivAssignFloors(x, size);
    } else {
      var k := TWO_32 / size;
      assert TWO_32 == size * k;
      var q := x / size;
      assert x % TWO_64 == x + TWO_64;
      assert x + TWO_64 == size * (q + k * TWO_32) + x % size by {
        assert size * (k * TWO_32) == TWO_64;
        assert size * (q + k * TWO_32) == size * q + size * (k * TWO_32);
      }
      QuotientNotLess(x, size);
      assert k * TWO_32 >= TWO_32 by { AtLeastOne(k, TWO_32); }
      QuotientUnique(x + TWO_64, size, q + k * TWO_32, x % size);
      ToIntOf(q, k);
    }
  }

  lemma QuotientNotLess(x: int, size: nat)
    requires -TWO_31 <= x < 0 && size > 0
    ensures x <= x / size < 0
  {
    QuotientOfNegative(x, size, x / size, x % size);
  }

  lemma QuotientOfNegative(x: int, size: nat, q: int, r: nat)
    requires x < 0 && r < size && x == size * q + r
    ensures x <= q < 0
  {
    if q >= 0 {
      NotNegative(size, q);
    } else {
      AtLeastOne(-q, size - 1);
      assert -q * (size - 1) == q - size * q;
    }
  }

  lemma NotNegative(a: nat, b: nat)
    ensures a * b >= 0
  {
  }

  lemma ToIntOf(q: int, k: int)
    requires IsInt(q)
    ensures ToInt(q + k * TWO_32) == q
  {
  }

  /**
   * For exactly these sizes the division is right for all sums: with any other it is wrong for the sum
   * that is the size with the opposite sign.
   */
  lemma DivAssignRightIff(size: nat)
    requires 0 < size <= TWO_31
    ensures (forall x :: IsInt(x) ==> DivAssign(x, size) == x / size) <==> TWO_32 % size == 0
  {
    hide DivAssign;
    if TWO_32 % size == 0 {
      forall x | IsInt(x) ensures DivAssign(x, size) == x / size {
        DivAssignNegative(x, size);
      }
    } else {
      WrongForMinusSize(size);
      assert IsInt(0 - size);
    }
  }

  lemma WrongForMinusSize(size: nat)
    requires 0 < size <= TWO_31 && TWO_32 % size != 0
    ensures (0 - size) / size == -1 && DivAssign(0 - size, size) != -1
  {
    assert 0 - size == size * -1 + 0;
    var q, r := TWO_64 / size, TWO_64 % size;
    MinusSize(size, q, r);
    if DivAssign(0 - size, size) == -1 {
      CarryIn(q);
      Carry(size, q, r, q / TWO_32);
    }
  }

  lemma MinusSize(size: nat, q: nat, r: nat)
    requires 0 < size <= TWO_31 && q == TWO_64 / size && r == TWO_64 % size
    ensures TWO_64 == size * q + r && DivAssign(0 - size, size) == ToInt(q - 1)
  {
    hide ToInt;
    QuotientAtLeastOne(TWO_64, size);
    QuotientRemainder(TWO_64, size);
    OneLess(TWO_64, size, q, r);
    WrapsAround(size);
  }

  lemma WrapsAround(size: nat)
    requires 0 < size <= TWO_31
    ensures (0 - size) % TWO_64 == TWO_64 - size
  {
  }

  lemma OneLess(n: nat, size: nat, q: nat, r: nat)
    requires q > 0 && r < size && n == size * q + r
    ensures n >= size && (n - size) / size == q - 1
  {
    assert n - size == (q - 1) * size + r;
    NotNegative(q - 1, size);
    QuotientUnique(n - size, size, q - 1, r);
  }

  lemma CarryIn(q: nat)
    requires ToInt(q - 1) == -1
    ensures q == q / TWO_32 * TWO_32
  {
  }

  /** If the quotient of 2 to the 64 has no lower digits, the size divides 2 to the 32. */
  lemma Carry(size: nat, q: nat, r: nat, a: nat)
    requires 0 < size <= TWO_31 && r < size && TWO_64 == size * q + r && q == a * TWO_32
    ensures TWO_32 % size == 0
  {
    assert size * (a * TWO_32) == (size * a) * TWO_32;
    NoSmallMultiple(TWO_32 - size * a, r);
    MultipleHasNoRest(size, a);
  }

  lemma QuotientAtLeastOne(n: nat, d: nat)
    requires 0 < d <= n
    ensures n / d >= 1
  {
    DivStep(n, d);
  }

  lemma NoSmallMultiple(k: int, r: nat)
    requires r == k * TWO_32 && r < TWO_31
    ensures k == 0
  {
  }

  lemma MultipleHasNoRest(size: nat, a: nat)
    requires size > 0
    ensures (size * a) % size == 0
  {
    QuotientUnique(size * a, size, a, 0);
  }

  lemma {:induction false} QuotientBound(x: nat, d: nat)
    requires d > 0
    ensures 0 <= x / d <= x
  {
    DivStep(x, d);
    if x >= d {
      QuotientBound(x - d, d);
    }
  }

  /** The average of the window that starts at `i`. */
  function Average(data: seq<int>, size: nat, i: nat): int
    requires size > 0 && i + size <= |data|
  {
    DivAssign(Sum(data, i, size), size)
  }

  /**
   * What is at place `i` in the end. The average of the window that starts at i - 1 is at i, and
   * places no window reaches hold zero. The first place holds what was last before the rotation:
   * zero, or the last element if the windows have size one.
   */
  function Expected(data: seq<int>, size: nat, i: nat): int
    requires 1 <= size <= |data| && i < |data|
  {
    if i == 0 then (if size == 1 then Average(data, 1, |data| - 1) else 0)
    else if i - 1 <= |data| - size then Average(data, size, i - 1)
    else 0
  }

  /** `std::rotate` that brings the last element to the front. */
  method RotateLast(out: array<int>)
    requires out.Length > 0
    modifies out
    ensures out[0] == old(out[out.Length - 1])
    ensures forall i :: 0 < i < out.Length ==> out[i] == old(out[i - 1])
  {
    var n := out.Length;
    var last := out[n - 1];
    var i := n - 1;
    while i > 0
      invariant 0 <= i < n
      invariant forall k :: i < k < n ==> out[k] == old(out[k - 1])
      invariant forall k :: 0 <= k <= i ==> out[k] == old(out[k])
    {
      out[i] := out[i - 1];
      i := i - 1;
    }
    out[0] := last;
  }

  method MovingAverageCpu(size: nat, data: seq<int>, out: array<int>)
    requires 1 <= size <= |data| == out.Length && NoOverflow(data, size)
    modifies out
    ensures forall i :: 0 <= i < |data| ==> out[i] == Expected(data, size, i)
  {
    hide DivAssign;
    var n := |data|;
    var i := 0;
    while i <= n - size
      invariant 0 <= i <= n - size + 1
      invariant forall k :: 0 <= k < i ==> out[k] == Average(data, size, k)
    {
      out[i] := 0;
      for j := 0 to size
        invariant out[i] == Sum(data, i, j)
        invariant forall k :: 0 <= k < i ==> out[k] == Average(data, size, k)
      {
        out[i] := out[i] + data[i + j];
      }
      out[i] := DivAssign(out[i], size);
      i := i + 1;
    }
    i := n - size + 1;
    while i < n
      invariant n - size + 1 <= i <= n
      invariant forall k :: 0 <= k <= n - size ==> out[k] == Average(data, size, k)
      invariant forall k :: n - size < k < i ==> out[k] == 0
    {
      out[i] := 0;
      i := i + 1;
    }
    RotateLast(out);
  }

  lemma ExpectedIsInt(data: seq<int>, size: nat, i: nat)
    requires 1 <= size <= |data| && i < |data|
    ensures IsInt(Expected(data, size, i))
  {
  }

  /** The reply to a request: the averages of the data it carries. */
  method HandleRequest(request: Msg) returns (response: Msg)
    requires request.msgId == MSG_MOVING_AVG
    requires 4 * request.dataSize < |request.data| && HEADER + 4 * request.dataSize < TWO_31
    requires 1 <= FirstParam(request) <= request.dataSize
    requires NoOverflow(DecodeInts(request.data, request.dataSize), FirstParam(request))
    ensures response.msgId == MSG_RESULT && response.dataSize == request.dataSize && response.paramsSize == 0
    ensures response.dataBytes == |response.data| == 4 * request.dataSize
            && response.totalBytes == HEADER + response.dataBytes
    ensures var data := DecodeInts(request.data, request.dataSize);
            forall i :: 0 <= i < request.dataSize ==>
              DecodeInts(response.data, request.dataSize)[i] == Expected(data, FirstParam(request), i)
  {
    hide Expected, DecodeInts, EncodeInts, FirstParam, NoOverflow;
    var n, size := request.dataSize, FirstParam(request);
    var data := DecodeInts(request.data, n);
    var out := new int[n](_ => 0);
    MovingAverageCpu(size, data, out);
    var result := out[..];
    forall i | 0 <= i < n ensures IsInt(result[i]) {
      ExpectedIsInt(data, size, i);
    }
    var bytes := EncodeInts(result);
    IntsRoundTrip(result, []);
    assert bytes + [] == bytes;
    response := Msg(MSG_RESULT, 0, 0, n, 0, HEADER + 4 * n, 4 * n, bytes);
  }

  lemma {:induction false} SumNonNegative(data: seq<int>, i: nat, k: nat)
    requires i + k <= |data| && forall x :: 0 <= x < |data| ==> data[x] >= 0
    ensures Sum(data, i, k) >= 0
  {
    if k > 0 {
      SumNonNegative(data, i, k - 1);
    }
  }

  /**
   * A client's moving average, from packing the request to unpacking the reply. For windows of up to
   * 127 elements, and for data that is not negative or a size that is a power of two, place i of the result
   * is the floor of the average of the window that starts at i - 1, and the reply is as long as the request
   * says it will be. The first place holds the last element if the windows have size one, and zero otherwise.
   */
  method MovingAverage(data: seq<int>, size: nat) returns (out: seq<int>, request: Msg, response: Msg)
    requires AreInts(data) && 1 <= size <= |data| && size <= 127 && HEADER + 4 * |data| + 8 < TWO_31
    requires NoOverflow(data, size) && (TWO_32 % size == 0 || forall i :: 0 <= i < |data| ==> data[i] >= 0)
    ensures request.msgId == MSG_MOVING_AVG && request.dataSize == |data|
    ensures request.data == EncodeInts(data) + LittleEndian(size, 8)
    ensures response.msgId == MSG_RESULT && response.dataSize == |data|
    ensures response.dataBytes == |response.data| == request.expDataSizeBytes == 4 * |data|
    ensures |out| == |data| && out == DecodeInts(response.data, |data|)
    ensures out[0] == if size == 1 then data[|data| - 1] else 0
    ensures forall i :: 1 <= i < |data| && i - 1 <= |data| - size ==> out[i] == Sum(data, i - 1, size) / size
    ensures forall i :: 1 <= i < |data| && i - 1 > |data| - size ==> out[i] == 0
  {
    hide DecodeInts, EncodeInts, FirstParam, NoOverflow, DivAssign, LittleEndian;
    request := MsgMovingAvg(data, size);
    WidthArrives(request, data, size);
    IntsRoundTrip(data, LittleEndian(size, 8));
    response := HandleRequest(request);
    out := DecodeInts(response.data, response.dataSize);
    if size == 1 {
      LastAlone(data);
    }
    forall i | 1 <= i < |data| && i - 1 <= |data| - size
      ensures out[i] == Sum(data, i - 1, size) / size
    {
      SumFits(data, size, i - 1);
      if TWO_32 % size == 0 {
        DivAssignNegative(Sum(data, i - 1, size), size);
      } else {
        SumNonNegative(data, i - 1, size);
        DivAssignFloors(Sum(data, i - 1, size), size);
      }
    }
  }

  /** The average of a window of one is its element. */
  lemma LastAlone(data: seq<int>)
    requires data != [] && IsInt(data[|data| - 1])
    ensures Average(data, 1, |data| - 1) == data[|data| - 1]
  {
    assert Sum(data, |data| - 1, 1) == Sum(data, |data| - 1, 0) + data[|data| - 1];
    DivAssignNegative(data[|data| - 1], 1);
  }

  lemma SumFits(data: seq<int>, size: nat, i: nat)
    requires NoOverflow(data, size) && i + size <= |data|
    ensures IsInt(Sum(data, i, size))
  {
  }
}
