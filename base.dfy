/** Small shared vocabulary: optional values and C's narrowing store of an
    integer into an 8-bit cell. */
module Base {

  datatype Option<+T> = None | Some(value: T)

  /** An octet, as `uint8_t`/`unsigned char` holds it. */
  newtype byte = x: int | 0 <= x < 256

  /** Storing an integer into a `uint8_t`/`char` keeps its low 8 bits.
      Dafny's `%` is Euclidean, so for negative values (a `strtol` result,
      say) this is the two's-complement bit pattern, as in C. */
  function Truncate8(v: int): (b: byte)
    ensures b as int == v % 256
    ensures 0 <= v < 256 ==> b as int == v
  {
    (v % 256) as byte
  }

  /** Every element narrowed with Truncate8, in order. */
  function TruncateAll(vs: seq<int>): (bs: seq<byte>)
    ensures |bs| == |vs|
    ensures forall i :: 0 <= i < |vs| ==> bs[i] as int == vs[i] % 256
  {
    seq(|vs|, i requires 0 <= i < |vs| => Truncate8(vs[i]))
  }

  /** A run of `n` zero bytes, the result of `memset(…, 0, n)`. */
  function Zeros(n: nat): (z: seq<byte>)
    ensures |z| == n
    ensures forall i :: 0 <= i < n ==> z[i] == 0
  {
    seq(n, _ => 0)
  }
}
