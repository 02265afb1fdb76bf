/**
 The pieces of string handling the code takes from its standard library:
 numbers in a radix, prefixes, searching, splitting and ASCII case.
 */
module Text {
  import opened Prelude

  //  Numbers

  /** The radices in use. */
  predicate Radix(radix: nat) {
    radix == 10 || radix == 16
  }

  function DigitChar(d: nat): char
    requires d < 16
  {
    if d < 10 then '0' + d as char else 'a' + (d - 10) as char
  }

  function DigitValue(c: char, radix: nat): Option<nat> {
    var v := if '0' <= c <= '9' then (c - '0') as nat
             else if 'a' <= c <= 'z' then 10 + (c - 'a') as nat
             else if 'A' <= c <= 'Z' then 10 + (c - 'A') as nat
             else radix;
    if v < radix then Some(v) else None
  }

  /** `format!("{n}")` for radix 10 and `format!("{n:x}")` for radix 16. */
  function Print(n: nat, radix: nat): (s: string)
    requires Radix(radix)
    ensures s != "" && forall c :: c in s ==> '0' <= c <= '9' || 'a' <= c <= 'f'
    decreases n
  {
    if n < radix then [DigitChar(n)]
    else
      Print(n / radix, radix) + [DigitChar(n % radix)]
  }

  function ParseDigits(s: string, radix: nat): Option<nat>
    requires Radix(radix)
  {
    if s == "" then Some(0)
    else
      var front := ParseDigits(s[..|s| - 1], radix);
      var last := DigitValue(s[|s| - 1], radix);
      if front.Some? && last.Some? then Some(front.value * radix + last.value) else None
  }

  /** `u64::from_str_radix`, or `u32` for a smaller `max`: an optional plus sign, then digits, in range. */
  function Parse(s: string, radix: nat, max: nat): Option<nat>
    requires Radix(radix)
  {
    var digits := if s != "" && s[0] == '+' then s[1..] else s;
    if digits == "" then None
    else
      var v := ParseDigits(digits, radix);
      if v.Some? && v.value <= max then v else None
  }

  lemma DigitRoundTrip(d: nat, radix: nat)
    requires d < radix <= 16
    ensures DigitValue(DigitChar(d), radix) == Some(d)
  {
  }

  lemma {:induction false} ParseDigitsPrint(n: nat, radix: nat)
    requires Radix(radix)
    ensures ParseDigits(Print(n, radix), radix) == Some(n)
    decreases n
  {
    if n < radix {
      DigitRoundTrip(n, radix);
      assert Print(n, radix)[..0] == "";
      assert ParseDigits("", radix) == Some(0);
    } else {
      assert n / radix < n;
      var front := Print(n / radix, radix);
      ParseDigitsPrint(n / radix, radix);
      DigitRoundTrip(n % radix, radix);
      var s := front + [DigitChar(n % radix)];
      assert s[..|s| - 1] == front;
      assert n == (n / radix) * radix + n % radix;
    }
  }

  /** A printed number parses back. */
  lemma ParsePrint(n: nat, radix: nat, max: nat)
    requires Radix(radix) && n <= max
    ensures Parse(Print(n, radix), radix, max) == Some(n)
  {
    ParseDigitsPrint(n, radix);
    assert Print(n, radix)[0] in Print(n, radix);
  }

  //  Searching and splitting

  /** Index of the first `c`, or the length when there is none. */
  function IndexOf(s: string, c: char): (i: nat)
    ensures i <= |s|
    ensures c !in s[..i]
    ensures i < |s| ==> s[i] == c
  {
    if s == "" || s[0] == c then 0
    else
      var j := IndexOf(s[1..], c);
      assert s[..j + 1] == [s[0]] + s[1..][..j];
      j + 1
  }

  /** The first `c` of `front + [c] + back` is the one shown, when `front` has none. */
  lemma {:induction false} IndexOfJoin(front: string, c: char, back: string)
    requires c !in front
    ensures IndexOf(front + [c] + back, c) == |front|
  {
    var s := front + [c] + back;
    var i := IndexOf(s, c);
    assert |front| <= i by {
      assert forall j :: 0 <= j < |front| ==> s[j] == front[j] && front[j] != c;
    }
    assert s[|front|] == c;
    assert i <= |front| by {
      assert forall j :: 0 <= j < i ==> s[..i][j] == s[j] && s[..i][j] != c;
    }
  }

  /** `s.strip_prefix(p)` */
  function StripPrefix(s: string, p: string): Option<string> {
    if p <= s then Some(s[|p|..]) else None
  }

  /** `s.split(c)` */
  function Split(s: string, c: char): (parts: seq<string>)
    ensures parts != []
    decreases |s|
  {
    var i := IndexOf(s, c);
    if i == |s| then [s] else [s[..i]] + Split(s[i + 1..], c)
  }

  /** `values.join(", ")` */
  function Join(values: seq<string>): string {
    if values == [] then ""
    else if |values| == 1 then values[0]
    else values[0] + (", " + Join(values[1..]))
  }

  lemma {:induction false} SplitAfter(front: string, c: char, back: string)
    requires c !in front
    ensures Split(front + [c] + back, c) == [front] + Split(back, c)
  {
    IndexOfJoin(front, c, back);
    var s := front + [c] + back;
    assert s[..|front|] == front && s[|front| + 1..] == back;
  }

  /** A list written with ", " splits at its commas into its parts, each but the first behind a space. */
  lemma {:induction false} SplitJoin(parts: seq<string>)
    requires parts != [] && forall i :: 0 <= i < |parts| ==> ',' !in parts[i]
    ensures var pieces := Split(Join(parts), ',');
      && |pieces| == |parts| && pieces[0] == parts[0]
      && forall i :: 0 < i < |parts| ==> pieces[i] == " " + parts[i]
    decreases |parts|
  {
    if |parts| == 1 {
      assert IndexOf(parts[0], ',') == |parts[0]|;
    } else {
      var spaced := [" " + parts[1]] + parts[2..];
      SplitJoin(spaced);
      SpacedJoin(parts);
      assert Join(parts) == parts[0] + [','] + Join(spaced);
      SplitAfter(parts[0], ',', Join(spaced));
      forall i | 0 < i < |parts|
        ensures Split(Join(parts), ',')[i] == " " + parts[i]
      {
        assert Split(Join(parts), ',')[i] == Split(Join(spaced), ',')[i - 1];
        assert i > 1 ==> spaced[i - 1] == parts[i];
      }
    }
  }

  /** The space after the first comma belongs to the second part. */
  lemma SpacedJoin(parts: seq<string>)
    requires |parts| > 1
    ensures Join(parts) == parts[0] + [','] + Join([" " + parts[1]] + parts[2..])
  {
    SpaceFirst(parts[1..]);
    assert parts[1..][1..] == parts[2..];
    assert Join(parts) == parts[0] + (", " + Join(parts[1..]));
    CommaThenSpace(parts[0], Join(parts[1..]));
  }

  lemma CommaThenSpace(first: string, rest: string)
    ensures first + (", " + rest) == first + [','] + (" " + rest)
  {
    assert ", " == [','] + " ";
  }

  lemma SpaceFirst(parts: seq<string>)
    requires parts != []
    ensures Join([" " + parts[0]] + parts[1..]) == " " + Join(parts)
  {
    var spaced := [" " + parts[0]] + parts[1..];
    assert spaced[0] == " " + parts[0] && spaced[1..] == parts[1..];
    if |parts| > 1 {
      SpaceMoves(parts[0], ", " + Join(parts[1..]));
    }
  }

  lemma SpaceMoves(first: string, rest: string)
    ensures (" " + first) + rest == " " + (first + rest)
  {
  }

  function LowerChar(c: char): char {
    if 'A' <= c <= 'Z' then 'a' + (c - 'A') else c
  }

  /** `s.to_ascii_lowercase()` */
  function Lower(s: string): (t: string)
    ensures |t| == |s|
  {
    seq(|s|, i requires 0 <= i < |s| => LowerChar(s[i]))
  }

  /** `char::is_whitespace` */
  predicate IsSpace(c: char) {
    || '\t' <= c <= '\r' || c == ' '
    || c == 0x85 as char || c == 0xA0 as char || c == 0x1680 as char
    || 0x2000 as char <= c <= 0x200A as char || c == 0x2028 as char || c == 0x2029 as char
    || c == 0x202F as char || c == 0x205F as char || c == 0x3000 as char
  }

  function TrimStart(s: string): (t: string)
    ensures |t| <= |s|
    ensures t == s[|s| - |t|..]
  {
    if s != "" && IsSpace(s[0]) then TrimStart(s[1..]) else s
  }

  function TrimEnd(s: string): (t: string)
    ensures |t| <= |s|
    ensures t == s[..|t|]
  {
    if s != "" && IsSpace(s[|s| - 1]) then TrimEnd(s[..|s| - 1]) else s
  }

  function Trim(s: string): (t: string)
    ensures |t| <= |s|
  {
    TrimEnd(TrimStart(s))
  }

  //  What the characters mean

  /** Digits up to 9, then letters in either case; nothing else, and no letter beyond the radix. */
  lemma DigitMeaning(c: char)
    ensures DigitValue(c, 10) == if '0' <= c <= '9' then Some((c - '0') as nat) else None
    ensures DigitValue(c, 16) ==
            if c in "0123456789" then DigitValue(c, 10)
            else if c == 'a' || c == 'A' then Some(10) else if c == 'b' || c == 'B' then Some(11)
            else if c == 'c' || c == 'C' then Some(12) else if c == 'd' || c == 'D' then Some(13)
            else if c == 'e' || c == 'E' then Some(14) else if c == 'f' || c == 'F' then Some(15)
            else None
  {
  }

  /** Only the letters A to Z change, each to its small form. */
  lemma LowerMeaning(c: char)
    ensures 'A' <= c <= 'Z' ==> 'a' <= LowerChar(c) <= 'z' && LowerChar(c) - 'a' == c - 'A'
    ensures !('A' <= c <= 'Z') ==> LowerChar(c) == c
  {
  }

  /** Of the ASCII characters, tab, line feed, vertical tab, form feed, carriage return and space are whitespace. */
  lemma SpaceMeaning(c: char)
    requires c < 128 as char
    ensures IsSpace(c) <==> 9 <= c as int <= 13 || c as int == 32
  {
  }
}
