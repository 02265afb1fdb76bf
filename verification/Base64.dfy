/**
 Unpadded base64url (section 5 of RFC 4648), decoded strictly: no padding, no
 foreign characters and no stray bits in the last character.
 */
module Base64 {
  import opened Prelude

  function SextetChar(v: nat): char
    requires v < 64
  {
    if v < 26 then 'A' + v as char
    else if v < 52 then 'a' + (v - 26) as char
    else if v < 62 then '0' + (v - 52) as char
    else if v == 62 then '-' else '_'
  }

  function SextetValue(c: char): (v: Option<nat>)
    ensures v.Some? ==> v.value < 64
  {
    if 'A' <= c <= 'Z' then Some((c - 'A') as nat)
    else if 'a' <= c <= 'z' then Some((c - 'a') as nat + 26)
    else if '0' <= c <= '9' then Some((c - '0') as nat + 52)
    else if c == '-' then Some(62)
    else if c == '_' then Some(63)
    else None
  }

  lemma SextetInverse(v: nat, c: char)
    requires v < 64
    ensures SextetValue(SextetChar(v)) == Some(v)
    ensures SextetValue(c) == Some(v) ==> c == SextetChar(v)
  {
  }

  //  Three octets are four sextets

  function Split3(a: byte, b: byte, c: byte): (v: (nat, nat, nat, nat))
    ensures v.0 < 64 && v.1 < 64 && v.2 < 64 && v.3 < 64
  {
    (a / 4, a % 4 * 16 + b / 16, b % 16 * 4 + c / 64, c % 64)
  }

  function Join4(v: (nat, nat, nat, nat)): (r: (byte, byte, byte))
    requires v.0 < 64 && v.1 < 64 && v.2 < 64 && v.3 < 64
  {
    (v.0 * 4 + v.1 / 16, v.1 % 16 * 16 + v.2 / 4, v.2 % 4 * 64 + v.3)
  }

  lemma JoinSplit(a: byte, b: byte, c: byte)
    ensures Join4(Split3(a, b, c)) == (a, b, c)
  {
    Borrow(a % 4, b / 16, 16);
    Borrow(b % 16, c / 64, 4);
  }

  /** A digit and what is carried below it come apart again. */
  lemma Borrow(high: nat, low: nat, base: nat)
    requires base == 4 || base == 16
    requires low < base
    ensures (high * base + low) / base == high && (high * base + low) % base == low
  {
  }

  lemma SplitJoin(v: (nat, nat, nat, nat))
    requires v.0 < 64 && v.1 < 64 && v.2 < 64 && v.3 < 64
    ensures var (a, b, c) := Join4(v); Split3(a, b, c) == v
  {
    Borrow(v.0, v.1 / 16, 4);
    Borrow(v.1 % 16, v.2 / 4, 16);
    assert (v.2 % 4 * 64 + v.3) / 64 == v.2 % 4 && (v.2 % 4 * 64 + v.3) % 64 == v.3;
  }

  function Encode(bytes: seq<byte>): string {
    if bytes == [] then ""
    else if |bytes| == 1 then
      var v := Split3(bytes[0], 0, 0);
      [SextetChar(v.0), SextetChar(v.1)]
    else if |bytes| == 2 then
      var v := Split3(bytes[0], bytes[1], 0);
      [SextetChar(v.0), SextetChar(v.1), SextetChar(v.2)]
    else
      var v := Split3(bytes[0], bytes[1], bytes[2]);
      [SextetChar(v.0), SextetChar(v.1), SextetChar(v.2), SextetChar(v.3)] + Encode(bytes[3..])
  }

  /** The octets of four characters, of which the missing ones count as zero bits. */
  function DecodeQuad(c0: char, c1: char, c2: char, c3: char): Option<(byte, byte, byte)> {
    var v0, v1, v2, v3 := SextetValue(c0), SextetValue(c1), SextetValue(c2), SextetValue(c3);
    if v0.Some? && v1.Some? && v2.Some? && v3.Some?
    then Some(Join4((v0.value, v1.value, v2.value, v3.value)))
    else None
  }

  const ZERO: char := 'A'

  function Decode(s: string): Option<seq<byte>> {
    if s == "" then Some([])
    else if |s| == 1 then None
    else if |s| == 2 then
      var q := DecodeQuad(s[0], s[1], ZERO, ZERO);
      if q.Some? && q.value.1 == 0 then Some([q.value.0]) else None
    else if |s| == 3 then
      var q := DecodeQuad(s[0], s[1], s[2], ZERO);
      if q.Some? && q.value.2 == 0 then Some([q.value.0, q.value.1]) else None
    else
      var q, rest := DecodeQuad(s[0], s[1], s[2], s[3]), Decode(s[4..]);
      if q.Some? && rest.Some? then Some([q.value.0, q.value.1, q.value.2] + rest.value) else None
  }

  lemma QuadOfSplit(a: byte, b: byte, c: byte)
    ensures var v := Split3(a, b, c);
      DecodeQuad(SextetChar(v.0), SextetChar(v.1), SextetChar(v.2), SextetChar(v.3)) == Some((a, b, c))
  {
    var v := Split3(a, b, c);
    SextetInverse(v.0, ZERO);
    SextetInverse(v.1, ZERO);
    SextetInverse(v.2, ZERO);
    SextetInverse(v.3, ZERO);
    JoinSplit(a, b, c);
  }

  lemma SplitOfQuad(c0: char, c1: char, c2: char, c3: char)
    requires DecodeQuad(c0, c1, c2, c3).Some?
    ensures var (a, b, c) := DecodeQuad(c0, c1, c2, c3).value;
      var v := Split3(a, b, c);
      c0 == SextetChar(v.0) && c1 == SextetChar(v.1) && c2 == SextetChar(v.2) && c3 == SextetChar(v.3)
  {
    var v0, v1, v2, v3 :=
      SextetValue(c0).value, SextetValue(c1).value, SextetValue(c2).value, SextetValue(c3).value;
    SextetInverse(v0, c0);
    SextetInverse(v1, c1);
    SextetInverse(v2, c2);
    SextetInverse(v3, c3);
    SplitJoin((v0, v1, v2, v3));
  }

  lemma DecodeJoin(c0: char, c1: char, c2: char, c3: char, rest: string, q: (byte, byte, byte), b: seq<byte>)
    requires DecodeQuad(c0, c1, c2, c3) == Some(q)
    requires Decode(rest) == Some(b)
    ensures Decode([c0, c1, c2, c3] + rest) == Some([q.0, q.1, q.2] + b)
  {
    var s := [c0, c1, c2, c3] + rest;
    assert s[4..] == rest;
  }

  lemma DecodeEncodeOne(a: byte)
    ensures Decode(Encode([a])) == Some([a])
  {
    var v := Split3(a, 0, 0);
    assert v.2 == 0 && v.3 == 0 && SextetChar(0) == ZERO;
    QuadOfSplit(a, 0, 0);
    hide SextetChar, Split3, DecodeQuad;
    assert Encode([a]) == [SextetChar(v.0), SextetChar(v.1)];
  }

  lemma DecodeEncodeTwo(a: byte, b: byte)
    ensures Decode(Encode([a, b])) == Some([a, b])
  {
    var v := Split3(a, b, 0);
    assert v.3 == 0 && SextetChar(0) == ZERO;
    QuadOfSplit(a, b, 0);
    hide SextetChar, Split3, DecodeQuad;
    assert Encode([a, b]) == [SextetChar(v.0), SextetChar(v.1), SextetChar(v.2)];
  }

  /** Decoding inverts encoding. */
  lemma {:induction false} DecodeEncode(b: seq<byte>)
    ensures Decode(Encode(b)) == Some(b)
  {
    if b == [] {
    } else if |b| == 1 {
      DecodeEncodeOne(b[0]);
      assert b == [b[0]];
    } else if |b| == 2 {
      DecodeEncodeTwo(b[0], b[1]);
      assert b == [b[0], b[1]];
    } else {
      var rest := b[3..];
      QuadOfSplit(b[0], b[1], b[2]);
      DecodeEncode(rest);
      var v := Split3(b[0], b[1], b[2]);
      DecodeJoin(SextetChar(v.0), SextetChar(v.1), SextetChar(v.2), SextetChar(v.3), Encode(rest),
                 (b[0], b[1], b[2]), rest);
      EncodeJoin(b[0], b[1], b[2], rest);
      assert b == [b[0], b[1], b[2]] + rest;
    }
  }

  lemma EncodeJoin(a: byte, b: byte, c: byte, rest: seq<byte>)
    ensures var v := Split3(a, b, c);
      Encode([a, b, c] + rest) == [SextetChar(v.0), SextetChar(v.1), SextetChar(v.2), SextetChar(v.3)] + Encode(rest)
  {
    assert ([a, b, c] + rest)[3..] == rest;
  }

  /** Each byte string has one spelling: whatever decodes is what encoding would have produced. */
  lemma {:induction false} EncodeDecode(s: string)
    requires Decode(s).Some?
    ensures Encode(Decode(s).value) == s
  {
    if s == "" {
    } else if |s| < 4 {
      EncodeDecodeShort(s);
    } else {
      SplitOfQuad(s[0], s[1], s[2], s[3]);
      EncodeDecode(s[4..]);
      var q := DecodeQuad(s[0], s[1], s[2], s[3]).value;
      EncodeJoin(q.0, q.1, q.2, Decode(s[4..]).value);
      assert s == [s[0], s[1], s[2], s[3]] + s[4..];
    }
  }

  lemma EncodeDecodeShort(s: string)
    requires 0 < |s| < 4 && Decode(s).Some?
    ensures Encode(Decode(s).value) == s
  {
    if |s| == 2 {
      SplitOfQuad(s[0], s[1], ZERO, ZERO);
    } else {
      SplitOfQuad(s[0], s[1], s[2], ZERO);
    }
  }

  /** The URL-safe alphabet: capital letters, small letters, digits, hyphen, underscore. */
  lemma Alphabet(n: nat)
    requires n < 64
    ensures n < 26 ==> SextetChar(n) as int == 65 + n
    ensures 26 <= n < 52 ==> SextetChar(n) as int == 97 + (n - 26)
    ensures 52 <= n < 62 ==> SextetChar(n) as int == 48 + (n - 52)
    ensures SextetChar(62) == '-' && SextetChar(63) == '_'
  {
  }
}
