/** Bytes, 32-bit integers and the header fields shared by every wire message. */
module Bytes {

  datatype Option<+T> = None | Some(value: T) {
    predicate IsFailure() { None? }
    function PropagateFailure<U>(): Option<U>
      requires None?
    { None }
    function Extract(): T
      requires Some?
    { value }
  }

  type byte = x: int | 0 <= x < 256

  const TWO_TO_THE_32 := 0x1_0000_0000
  const HEADER_SIZE := 16
  const COMPRESSION_DETAILS_SIZE := 9

  const OP_REPLY := 1
  const OP_QUERY := 2004
  const OP_GETMORE := 2005
  const OP_KILL_CURSORS := 2007
  const OP_COMPRESSED := 2012
  const OP_MSG := 2013

  predicate IsInt32(x: int) {
    -0x8000_0000 <= x < 0x8000_0000
  }

  /** The value a JavaScript bit operation sees: the low 32 bits of x, as a signed number. */
  function ToInt32(x: int): (r: int)
    ensures IsInt32(r)
    ensures (r - x) % TWO_TO_THE_32 == 0
    ensures IsInt32(x) ==> r == x
  {
    var low := x % TWO_TO_THE_32;
    if low < 0x8000_0000 then low else low - TWO_TO_THE_32
  }

  /** Little-endian two's complement, written as `(x >> 8k) & 0xff` for k = 0..3. */
  function Int32Bytes(x: int): (b: seq<byte>)
    ensures |b| == 4
  {
    var v := ToInt32(x);
    [v % 256, (v / 0x100) % 256, (v / 0x1_0000) % 256, (v / 0x100_0000) % 256]
  }

  /** readInt32LE, for the four bytes starting at i. */
  function Int32At(b: seq<byte>, i: nat): (r: int)
    requires i + 4 <= |b|
    ensures IsInt32(r)
  {
    var b0: int, b1: int, b2: int, b3: int := b[i], b[i + 1], b[i + 2], b[i + 3];
    var n := b0 + b1 * 0x100 + b2 * 0x1_0000 + b3 * 0x100_0000;
    if n < 0x8000_0000 then n else n - TWO_TO_THE_32
  }

  /** Reading back what was written gives the low 32 bits, hence the number itself exactly when it fits. */
  lemma Int32RoundTrip(x: int, b: seq<byte>, i: nat)
    requires i + 4 <= |b| && b[i..i + 4] == Int32Bytes(x)
    ensures Int32At(b, i) == ToInt32(x)
    ensures Int32At(b, i) == x <==> IsInt32(x)
  {
    var w := b[i..i + 4];
    assert w[0] == b[i] && w[1] == b[i + 1] && w[2] == b[i + 2] && w[3] == b[i + 3];
    Digits(ToInt32(x));
  }

  /** A 32-bit number is the sum of its bytes, the highest one counted with its sign. */
  lemma Digits(v: int)
    requires IsInt32(v)
    ensures var h := (v / 0x100_0000) % 256;
      v == v % 256 + (v / 0x100) % 256 * 0x100 + (v / 0x1_0000) % 256 * 0x1_0000
           + (if h < 128 then h else h - 256) * 0x100_0000
  {
    var q1, q2, q3 := v / 0x100, v / 0x1_0000, v / 0x100_0000;
    Nested(v, 0x100);
    Nested(v, 0x1_0000);
    assert q1 == q1 % 256 + q2 * 256 && q2 == q2 % 256 + q3 * 256;
    assert q3 % 256 == if q3 < 0 then q3 + 256 else q3;
  }

  lemma Nested(v: int, k: nat)
    requires k == 0x100 || k == 0x1_0000
    ensures v / k / 256 == v / (k * 256)
  {
  }

  /** Reading depends only on the four bytes read. */
  lemma Int32AtPrefix(a: seq<byte>, b: seq<byte>, i: nat)
    requires i + 4 <= |a| && a <= b
    ensures Int32At(a, i) == Int32At(b, i)
  {
  }

  /** Reading at i is reading at the front of what starts at i. */
  lemma Int32AtDrop(b: seq<byte>, i: nat)
    requires i + 4 <= |b|
    ensures Int32At(b, i) == Int32At(b[i..], 0)
  {
  }

  datatype Header = Header(length: int, requestId: int, responseTo: int, opCode: int)

  function ParseHeader(message: seq<byte>): Header
    requires |message| >= HEADER_SIZE
  {
    Header(Int32At(message, 0), Int32At(message, 4), Int32At(message, 8), Int32At(message, 12))
  }

  function Concat(parts: seq<seq<byte>>): seq<byte> {
    if parts == [] then [] else parts[0] + Concat(parts[1..])
  }

  lemma {:induction false} ConcatAppend(a: seq<seq<byte>>, b: seq<seq<byte>>)
    ensures Concat(a + b) == Concat(a) + Concat(b)
  {
    if a == [] {
      assert a + b == b;
    } else {
      assert (a + b)[1..] == a[1..] + b;
      ConcatAppend(a[1..], b);
    }
  }
}
