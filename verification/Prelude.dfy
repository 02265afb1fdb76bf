/**
 Types and small helpers shared by every module of the model.
 */
module Prelude {

  datatype Option<+T> = None | Some(value: T) {
    /** The value, or `default` when there is none. */
    function GetOr(default: T): T {
      match this
      case Some(v) => v
      case None => default
    }
  }

  datatype Result<+T, +E> = Ok(value: T) | Err(error: E)

  /** One octet.  Bytes are integers so that page and codec arithmetic stays linear. */
  type byte = x: int | 0 <= x < 256

  const U64_MAX: nat := 0xFFFF_FFFF_FFFF_FFFF
  const U32_MAX: nat := 0xFFFF_FFFF

  function Min(a: int, b: int): int {
    if a < b then a else b
  }

  function Max(a: int, b: int): int {
    if a < b then b else a
  }

  /** `u64::saturating_sub` */
  function SaturatingSub(a: nat, b: nat): nat {
    if a < b then 0 else a - b
  }

  /** `u64::saturating_add` */
  function SaturatingAdd(a: nat, b: nat): nat {
    if a + b > U64_MAX then U64_MAX else a + b
  }

  /** `s[a..b]` with both bounds clipped to the sequence. */
  function Clip<T>(s: seq<T>, a: nat, b: nat): seq<T> {
    var hi := if b < |s| then b else |s|;
    if a < hi then s[a..hi] else []
  }

  /** `s` without its element `n`. */
  function Without<T>(s: seq<T>, n: nat): seq<T>
    requires n < |s|
  {
    s[..n] + s[n + 1..]
  }

  /** The four octets of a 32-bit number, most significant first. */
  function Word(n: nat): (w: seq<byte>)
    requires n <= U32_MAX
    ensures |w| == 4
  {
    [n / 0x100_0000, n / 0x1_0000 % 256, n / 0x100 % 256, n % 256]
  }

  /** The big-endian number of the `n` octets at `pos`. */
  function BigEndian(d: seq<byte>, pos: nat, n: nat): nat
    requires pos + n <= |d|
  {
    if n == 0 then 0 else BigEndian(d, pos, n - 1) * 256 + d[pos + n - 1]
  }

  lemma BigEndianFits(d: seq<byte>, pos: nat)
    requires pos + 4 <= |d|
    ensures BigEndian(d, pos, 4) <= U32_MAX
  {
    assert BigEndian(d, pos, 1) == d[pos];
    assert BigEndian(d, pos, 2) < 0x1_0000;
    assert BigEndian(d, pos, 3) < 0x100_0000;
  }

  lemma WordReads(n: nat, d: seq<byte>, pos: nat)
    requires n <= U32_MAX && pos + 4 <= |d| && d[pos..pos + 4] == Word(n)
    ensures BigEndian(d, pos, 4) == n
  {
    var w := d[pos..pos + 4];
    assert d[pos] == w[0] && d[pos + 1] == w[1] && d[pos + 2] == w[2] && d[pos + 3] == w[3];
    var high := n / 0x100;
    var higher := high / 0x100;
    assert n / 0x1_0000 == higher && n / 0x100_0000 == higher / 0x100;
    assert BigEndian(d, pos, 1) == higher / 0x100;
    assert BigEndian(d, pos, 2) == higher;
    assert BigEndian(d, pos, 3) == high;
  }
}
