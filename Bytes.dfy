/**
 * Bytes and Java `int` arithmetic.
 *
 * Bytes are modelled unsigned (0..255): every read of a byte in the streaming
 * code is masked with `& 0xFF`, and every write is a `(byte)` narrowing cast,
 * so the sign of Java's `byte` never shows.
 */
module Bytes {

  type byte = b: int | 0 <= b < 256

  const INT_MIN: int := -0x8000_0000
  const INT_MAX: int := 0x7fff_ffff
  const TWO_32: int := 0x1_0000_0000

  /** True when `x` fits in a Java `int`. */
  predicate IsInt32(x: int) {
    INT_MIN <= x <= INT_MAX
  }

  /** The value a Java `int` expression takes after 32-bit wrap-around. */
  function WrapInt32(x: int): (r: int)
    ensures IsInt32(r)
    ensures (x - r) % TWO_32 == 0
    ensures IsInt32(x) ==> r == x
  {
    var m := x % TWO_32;
    if m > INT_MAX then m - TWO_32 else m
  }

  /**
   * The four bytes `(byte)(n >> 24)`, `(byte)(n >> 16)`, `(byte)(n >> 8)`,
   * `(byte)n`: Java's `>>` is an arithmetic shift, i.e. floor division by a
   * power of two, which is what Dafny's `/` does for a positive divisor.
   */
  function EncodeBE32(n: int): (r: seq<byte>)
    ensures |r| == 4
  {
    [(n / 0x100_0000) % 256, (n / 0x1_0000) % 256, (n / 0x100) % 256, n % 256]
  }

  /** `(b0 << 24) | (b1 << 16) | (b2 << 8) | b3` evaluated as a Java `int`. */
  function DecodeBE32(b: seq<byte>): (r: int)
    requires |b| >= 4
    ensures IsInt32(r)
    ensures r >= 0 <==> b[0] < 0x80
  {
    WrapInt32(b[0] as int * 0x100_0000 + b[1] as int * 0x1_0000 + b[2] as int * 0x100 + b[3] as int)
  }

  /** Unsigned little-endian value of `b[i]`, `b[i+1]`. */
  function LE16(b: seq<byte>, i: nat): (r: int)
    requires i + 2 <= |b|
    ensures 0 <= r < 0x1_0000
  {
    b[i] as int + b[i + 1] as int * 0x100
  }

  /** Little-endian value of `b[i..i+4]` evaluated as a Java `int` (so it may be negative). */
  function LE32(b: seq<byte>, i: nat): (r: int)
    requires i + 4 <= |b|
    ensures IsInt32(r)
    ensures r >= 0 <==> b[i + 3] < 0x80
  {
    WrapInt32(b[i] as int + b[i + 1] as int * 0x100 + b[i + 2] as int * 0x1_0000 + b[i + 3] as int * 0x100_0000)
  }

  /** Splitting off the low byte: `n == 256 * (n / 256) + n % 256`, and shifting twice is shifting once by the sum. */
  lemma ShiftByte(n: int, k: int)
    requires k == 0x100 || k == 0x1_0000
    ensures (n / k) / 0x100 == n / (k * 0x100)
  {
    var q := n / (k * 0x100);
    var r := n % (k * 0x100);
    assert n == q * (k * 0x100) + r && 0 <= r < k * 0x100;
    assert n == (q * 0x100 + r / k) * k + r % k;
    assert n / k == q * 0x100 + r / k;
  }

  /** Decoding what `EncodeBE32` wrote gives back every Java `int`, negative ones included. */
  lemma {:induction false} DecodeEncodeBE32(n: int)
    requires IsInt32(n)
    ensures DecodeBE32(EncodeBE32(n)) == n
  {
    var a1, a2, a3 := n / 0x100, n / 0x1_0000, n / 0x100_0000;
    ShiftByte(n, 0x100);
    ShiftByte(n, 0x1_0000);
    assert a2 == a1 / 0x100 && a3 == a2 / 0x100;
    var a4 := a3 / 0x100;
    var b := EncodeBE32(n);
    assert n == a1 * 0x100 + b[3];
    assert a1 == a2 * 0x100 + b[2];
    assert a2 == a3 * 0x100 + b[1];
    assert a3 == a4 * 0x100 + b[0];
    var sum := b[0] as int * 0x100_0000 + b[1] as int * 0x1_0000 + b[2] as int * 0x100 + b[3] as int;
    assert n == a4 * TWO_32 + sum;
    assert 0 <= sum < TWO_32;
    assert a4 == 0 || a4 == -1;
  }

  /** `Math.abs(int)`: the magnitude, except that `Integer.MIN_VALUE` is its own (negative) absolute value. */
  function JavaAbs(x: int): (r: int)
    requires IsInt32(x)
    ensures IsInt32(r)
    ensures x == INT_MIN ==> r == INT_MIN
    ensures x != INT_MIN ==> r >= 0 && (r == x || r == -x)
  {
    if x == INT_MIN || x >= 0 then x else -x
  }

  /** Java's `/` on integers: the quotient truncated toward zero. */
  function JavaDiv(a: int, b: int): (q: int)
    requires b != 0
    ensures a >= 0 && b > 0 ==> q == a / b
    ensures (a >= 0) == (b > 0) ==> q >= 0
    ensures (a >= 0) != (b > 0) ==> q <= 0
  {
    var m := (if a >= 0 then a else -a) / (if b > 0 then b else -b);
    if (a >= 0) == (b > 0) then m else -m
  }

  /** Java's `%` on integers: `a - (a / b) * b`, which takes the sign of `a`. */
  function JavaRem(a: int, b: int): (r: int)
    requires b != 0
    ensures a == JavaDiv(a, b) * b + r
    ensures a >= 0 ==> 0 <= r < (if b > 0 then b else -b)
    ensures a < 0 ==> -(if b > 0 then b else -b) < r <= 0
  {
    a - JavaDiv(a, b) * b
  }
}
