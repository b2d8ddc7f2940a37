/** Java's 32-bit `int` and the JDK hash-code recipes that the domain's
    `hashCode` methods delegate to. */
module JavaHash {

  const TwoTo32: int := 0x1_0000_0000

  /** Java's `int`. */
  type Int32 = x: int | -0x8000_0000 <= x < 0x8000_0000

  /** Two's-complement truncation to 32 bits, as Java `int` arithmetic (and a
      `(int)` cast of a `long`) does. */
  function Wrap(x: int): (r: Int32)
    ensures (x - r) % TwoTo32 == 0
    ensures -0x8000_0000 <= x < 0x8000_0000 ==> r == x
  {
    var m := x % TwoTo32;
    if m < 0x8000_0000 then m else m - TwoTo32
  }

  /** `Arrays.hashCode` over already-computed element hashes, which is what
      `Objects.hash(a, b, ...)` returns: start at 1, then `31 * h + e`. */
  function Combine(hs: seq<Int32>): Int32
  {
    if |hs| == 0 then 1 else Wrap(31 * Combine(hs[..|hs| - 1]) + hs[|hs| - 1])
  }

  /** `String.hashCode`: the polynomial `s[0]*31^(n-1) + ... + s[n-1]` in `int`
      arithmetic. Characters are taken as their code points. */
  function StringHash(s: string): Int32
  {
    if |s| == 0 then 0 else Wrap(31 * StringHash(s[..|s| - 1]) + s[|s| - 1] as int)
  }

  /** `Integer.hashCode` is the value itself. */
  function IntHash(v: Int32): Int32
  {
    v
  }

  /** Big-endian base-2^32 digits of a magnitude, as `BigInteger` stores it. */
  function Words(n: nat): seq<nat>
  {
    if n == 0 then [] else Words(n / TwoTo32) + [n % TwoTo32]
  }

  function WordsHash(ws: seq<nat>): Int32
  {
    if |ws| == 0 then 0 else Wrap(31 * WordsHash(ws[..|ws| - 1]) + ws[|ws| - 1])
  }

  /** `BigInteger.hashCode`: the hash of the magnitude words times the sign. */
  function BigIntegerHash(v: int): Int32
  {
    if v < 0 then Wrap(-(WordsHash(Words(-v)) as int)) else WordsHash(Words(v))
  }
}
