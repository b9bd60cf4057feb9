/**
 * The messages between client, scheduler and dispatcher: a packed header, then data and parameters
 * as little-endian bytes. Integers have 32 bits, sizes 64.
 */
module Messages {
  import opened Sequences

  newtype byte = b: int | 0 <= b < 256

  const TWO_31 := 0x8000_0000
  const TWO_32 := 0x1_0000_0000
  const TWO_64 := 0x1_0000_0000_0000_0000

  const MSG_MOVING_AVG := 2
  const MSG_RESULT := 100

  /** Seven integers, one character and five sizes, without padding. */
  const HEADER := 7 * 4 + 1 + 5 * 8

  predicate IsInt(x: int) {
    -TWO_31 <= x < TWO_31
  }

  ghost predicate AreInts(s: seq<int>) {
    forall i :: 0 <= i < |s| ==> IsInt(s[i])
  }

  /** The low 32 bits, read as a signed integer. */
  function ToInt(u: int): (x: int)
    ensures IsInt(x) && (u - x) % TWO_32 == 0
  {
    var v := u % TWO_32;
    if v < TWO_31 then v else v - TWO_32
  }

  datatype Msg = Msg(
    msgId: int, rids: bv8, expDataSizeBytes: nat, dataSize: nat, paramsSize: nat, totalBytes: nat, dataBytes: nat,
    data: seq<byte>)

  // ---------- bytes ----------

  function LittleEndian(u: nat, k: nat): (bytes: seq<byte>)
    ensures |bytes| == k
  {
    if k == 0 then [] else [(u % 256) as byte] + LittleEndian(u / 256, k - 1)
  }

  function Value(bytes: seq<byte>): nat {
    if bytes == [] then 0 else bytes[0] as nat + 256 * Value(bytes[1..])
  }

  function Limit(k: nat): (l: nat)
    ensures l > 0
  {
    if k == 0 then 1 else 256 * Limit(k - 1)
  }

  /** The i-th byte is the i-th digit to the base 256, the lowest first. */
  lemma {:induction false} LittleEndianDigits(u: nat, k: nat, i: nat)
    requires i < k
    ensures LittleEndian(u, k)[i] as nat == u / Limit(i) % 256
  {
    if i > 0 {
      LittleEndianDigits(u / 256, k - 1, i - 1);
      DivTwice(u, 256, Limit(i - 1));
    }
  }

  lemma DivTwice(u: nat, a: nat, b: nat)
    requires a > 0 && b > 0
    ensures a * b > 0 && u / a / b == u / (a * b)
  {
    var q, r := u / a, u % a;
    QuotientRemainder(u, a);
    QuotientRemainder(q, b);
    AtLeastOne(b, a);
    Digits(u, a, b, q, r, q / b, q % b);
    QuotientUnique(u, a * b, q / b, a * (q % b) + r);
  }

  lemma Digits(u: nat, a: nat, b: nat, q: nat, r: nat, q': nat, r': nat)
    requires u == a * q + r && r < a && q == b * q' + r' && r' < b
    ensures u == q' * (a * b) + (a * r' + r) && a * r' + r < a * b
  {
    Multiplied(a, b, q', r');
    LessThanAll(a, b, r');
  }

  lemma Multiplied(a: nat, b: nat, q: nat, r: nat)
    ensures a * (b * q + r) == q * (a * b) + a * r
  {
    assert a * (b * q) == q * (a * b);
  }

  lemma LessThanAll(a: nat, b: nat, r: nat)
    requires r < b
    ensures a * r + a <= a * b
  {
    var k := b - 1 - r;
    assert a * k >= 0;
    assert a * b == a * (k + 1 + r) == a * k + a + a * r;
  }

  /** Numbers that fit survive being written and read back. */
  lemma {:induction false} LittleEndianRoundTrip(u: nat, k: nat)
    requires u < Limit(k)
    ensures Value(LittleEndian(u, k)) == u
  {
    if k > 0 {
      LittleEndianRoundTrip(u / 256, k - 1);
      assert LittleEndian(u, k)[1..] == LittleEndian(u / 256, k - 1);
    }
  }

  function EncodeInt(x: int): (bytes: seq<byte>)
    requires IsInt(x)
    ensures |bytes| == 4
  {
    LittleEndian(if x < 0 then x + TWO_32 else x, 4)
  }

  function DecodeInt(bytes: seq<byte>): int {
    ToInt(Value(bytes))
  }

  lemma IntRoundTrip(x: int)
    requires IsInt(x)
    ensures DecodeInt(EncodeInt(x)) == x
    ensures Value(EncodeInt(x)) == if x < 0 then x + TWO_32 else x
  {
    assert Limit(4) == 256 * (256 * (256 * (256 * Limit(0))));
    LittleEndianRoundTrip(if x < 0 then x + TWO_32 else x, 4);
  }

  function EncodeInts(s: seq<int>): (bytes: seq<byte>)
    requires AreInts(s)
    ensures |bytes| == 4 * |s|
  {
    if s == [] then [] else EncodeInt(s[0]) + EncodeInts(s[1..])
  }

  /** The first `n` integers of a buffer. */
  function DecodeInts(bytes: seq<byte>, n: nat): (s: seq<int>)
    requires 4 * n <= |bytes|
    ensures |s| == n
  {
    if n == 0 then [] else [DecodeInt(bytes[..4])] + DecodeInts(bytes[4..], n - 1)
  }

  /** Four bytes for each integer, in order. */
  lemma {:induction false} EncodedAt(s: seq<int>, i: nat)
    requires AreInts(s) && i < |s|
    ensures EncodeInts(s)[4 * i..4 * i + 4] == EncodeInt(s[i])
  {
    hide EncodeInt, AreInts;
    AreIntsRest(s);
    var head, tail := EncodeInt(s[0]), EncodeInts(s[1..]);
    if i == 0 {
      SplitAt(head, tail);
    } else {
      EncodedAt(s[1..], i - 1);
      SliceBehind(head, tail, 4 * (i - 1), 4 * (i - 1) + 4);
    }
  }

  lemma {:induction false} DecodedAt(bytes: seq<byte>, n: nat, i: nat)
    requires 4 * n <= |bytes| && i < n
    ensures DecodeInts(bytes, n)[i] == DecodeInt(bytes[4 * i..4 * i + 4])
  {
    hide DecodeInt;
    if i > 0 {
      DecodedAt(bytes[4..], n - 1, i - 1);
      SliceOfRest(bytes, 4, 4 * (i - 1), 4 * (i - 1) + 4);
    }
  }

  lemma SliceBehind<T>(a: seq<T>, b: seq<T>, i: nat, j: nat)
    requires i <= j <= |b|
    ensures (a + b)[|a| + i..|a| + j] == b[i..j]
  {
  }

  lemma SliceOfRest<T>(s: seq<T>, k: nat, i: nat, j: nat)
    requires i <= j && k + j <= |s|
    ensures s[k..][i..j] == s[k + i..k + j]
  {
  }

  lemma AreIntsRest(s: seq<int>)
    requires s != [] && AreInts(s)
    ensures IsInt(s[0]) && AreInts(s[1..])
  {
  }

  /** Integers packed into a buffer, whatever follows them, are what is unpacked from it. */
  lemma {:induction false} IntsRoundTrip(s: seq<int>, rest: seq<byte>)
    requires AreInts(s)
    ensures DecodeInts(EncodeInts(s) + rest, |s|) == s
  {
    if s != [] {
      hide EncodeInt, DecodeInt, AreInts;
      AreIntsRest(s);
      IntRoundTrip(s[0]);
      IntsRoundTrip(s[1..], rest);
      ConcatAssociative(EncodeInt(s[0]), EncodeInts(s[1..]), rest);
      SplitAt(EncodeInt(s[0]), EncodeInts(s[1..]) + rest);
      FirstAndRest(s);
    }
  }

  // ---------- parameters ----------

  /** A character is signed. */
  function SignedByte(b: byte): int {
    if b < 128 then b as int else b as int - 256
  }

  /** The first parameter, read as a single character behind the data. */
  function FirstParam(m: Msg): int
    requires 4 * m.dataSize < |m.data|
  {
    SignedByte(m.data[4 * m.dataSize])
  }

  /** `memcpy` into a buffer. */
  method Memcpy(dst: array<byte>, at: nat, src: seq<byte>)
    requires at + |src| <= dst.Length
    modifies dst
    ensures dst[..] == old(dst[..at]) + src + old(dst[at + |src|..])
  {
    for i := 0 to |src|
      invariant dst[..at] == old(dst[..at]) && dst[at..at + i] == src[..i]
      invariant dst[at + i..] == old(dst[at + i..])
    {
      ghost var tail := old(dst[at + i..]);
      assert dst[at + i + 1..] == tail[1..];
      dst[at + i] := src[i];
      assert dst[at + i + 1..] == tail[1..] == old(dst[at + i + 1..]);
      assert dst[at..at + i + 1] == dst[at..at + i] + [src[i]] == src[..i + 1];
    }
    assert dst[..] == dst[..at] + dst[at..at + |src|] + dst[at + |src|..];
  }

  /** Builds the request for a moving average over `width` elements. */
  method MsgMovingAvg(dataIn: seq<int>, width: nat) returns (m: Msg)
    requires AreInts(dataIn) && width < TWO_64 && HEADER + 4 * |dataIn| + 8 < TWO_31
    ensures m.msgId == MSG_MOVING_AVG && m.dataSize == |dataIn| && m.paramsSize == 1
    ensures m.expDataSizeBytes == 4 * |dataIn|
    ensures m.dataBytes == |m.data| && m.totalBytes == HEADER + |m.data|
    ensures m.data == EncodeInts(dataIn) + LittleEndian(width, 8)
  {
    var n := |dataIn|;
    var dataBytes := 4 * n + 8;
    var buffer := new byte[dataBytes](_ => 0);
    var ints, size := EncodeInts(dataIn), LittleEndian(width, 8);
    Memcpy(buffer, 0, ints);
    assert buffer[..4 * n] == ints;
    Memcpy(buffer, 4 * n, size);
    m := Msg(MSG_MOVING_AVG, 0, 4 * n, n, 1, HEADER + dataBytes, dataBytes, buffer[..]);
  }

  /**
   * Of a window width written as eight bytes, one signed byte is read back. So the width arrives
   * exactly when it is at most 127; from 128 to 255 it turns negative, and above that its upper
   * bytes are lost.
   */
  lemma WidthArrives(m: Msg, dataIn: seq<int>, width: nat)
    requires AreInts(dataIn) && m.dataSize == |dataIn| && m.data == EncodeInts(dataIn) + LittleEndian(width, 8)
    ensures FirstParam(m) == width <==> width <= 127
    ensures FirstParam(m) == width % 256 - if width % 256 < 128 then 0 else 256
  {
    assert m.data[4 * m.dataSize] == LittleEndian(width, 8)[0] == (width % 256) as byte;
  }
}
