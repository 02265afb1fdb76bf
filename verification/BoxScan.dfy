/**
 The scan for the rotation box of an ISOBMFF file (box layout of section 4.2
 of ISO/IEC 14496-12), and what it means on a forest of boxes.
 */
module BoxScan {
  import opened Prelude

  //  The scan

  /** Four-character codes, as the big-endian number their octets spell. */
  const IROT: nat := 0x6972_6F74 // 'irot'
  const META: nat := 0x6D65_7461 // 'meta'
  const IINF: nat := 0x6969_6E66 // 'iinf'
  const MOOV: nat := 0x6D6F_6F76 // 'moov'
  const TRAK: nat := 0x7472_616B // 'trak'
  const MDIA: nat := 0x6D64_6961 // 'mdia'
  const MINF: nat := 0x6D69_6E66 // 'minf'
  const STBL: nat := 0x7374_626C // 'stbl'
  const IPCO: nat := 0x6970_636F // 'ipco'
  const IPRP: nat := 0x6970_7270 // 'iprp'
  const DINF: nat := 0x6469_6E66 // 'dinf'

  /** Boxes whose children follow a version and flags word. */
  predicate IsFullBox(code: nat) {
    code == META || code == IINF
  }

  predicate IsContainer(code: nat) {
    code == MOOV || code == TRAK || code == MDIA || code == MINF || code == STBL || IsFullBox(code)
    || code == IPCO || code == IPRP || code == DINF
  }

  /** Clockwise degrees for the two low bits of the payload's first byte. */
  function Degrees(b: byte): nat {
    match b % 4
    case 1 => 270
    case 2 => 180
    case 3 => 90
    case _ => 0
  }

  /**
   What the header at `pos` tells the scan: nothing more here, a rotation, or
   a box of some size with `[from, to)` to look into.
   */
  datatype Header = End | Found(degrees: nat) | Sized(size: nat, from: nat, to: nat)

  function ReadHeader(d: seq<byte>, pos: nat): (h: Header)
    ensures h.Sized? ==> pos + 8 <= |d| && h.to <= |d| && pos < h.from
  {
    if pos + 8 > |d| then End
    else
      var size, code := BigEndian(d, pos, 4), BigEndian(d, pos + 4, 4);
      if code == IROT && pos + 9 <= |d| then Found(Degrees(d[pos + 8]))
      else
        var header := if IsFullBox(code) then 12 else 8;
        if IsContainer(code) then Sized(size, pos + header, if size >= header then Min(pos + size, |d|) else |d|)
        else Sized(size, pos + header, 0)
  }

  /** The bytes a header tells the scan to look into. */
  function Inner(d: seq<byte>, h: Header): (inner: seq<byte>)
    requires h.Sized? ==> h.to <= |d|
  {
    if h.Sized? && h.from < h.to then d[h.from..h.to] else []
  }

  /** The rotation found from `pos` on; 0 when there is none. */
  function Scan(d: seq<byte>, pos: nat): nat
    decreases |d|, |d| - pos
  {
    var h := ReadHeader(d, pos);
    match h
    case End => 0
    case Found(degrees) => degrees
    case Sized(size, _, _) =>
      var nested := Scan(Inner(d, h), 0);
      if nested != 0 then nested
      else if size < 8 then 0
      else Scan(d, pos + size)
  }

  /** The scan as it runs: a loop over the boxes of one level, and recursion into containers. */
  method IsobmffRotation(d: seq<byte>) returns (degrees: nat)
    ensures degrees == Scan(d, 0)
    decreases |d|
  {
    hide BigEndian;
    var pos := 0;
    while pos + 8 <= |d|
      invariant Scan(d, pos) == Scan(d, 0)
      decreases |d| - pos
    {
      var size, code := BigEndian(d, pos, 4), BigEndian(d, pos + 4, 4);
      if code == IROT && pos + 9 <= |d| {
        return Degrees(d[pos + 8]);
      }
      var header := if IsFullBox(code) then 12 else 8;
      if IsContainer(code) {
        var innerStart := pos + header;
        var innerEnd := if size >= header then Min(pos + size, |d|) else |d|;
        if innerStart < innerEnd {
          var r := IsobmffRotation(d[innerStart..innerEnd]);
          if r != 0 {
            return r;
          }
        }
      }
      if size < 8 {
        break;
      }
      pos := pos + size;
    }
    return 0;
  }

  /** The number that four letters spell. */
  function Spelled(s: string): nat
    requires |s| == 4
  {
    s[0] as nat * 0x100_0000 + s[1] as nat * 0x1_0000 + s[2] as nat * 0x100 + s[3] as nat
  }

  /** Which boxes are looked into, and which of them begin with a version and flags. */
  lemma CodesMeaning(code: nat)
    ensures IROT == Spelled("irot")
    ensures IsFullBox(code) <==> code == Spelled("meta") || code == Spelled("iinf")
    ensures IsContainer(code) <==>
              || code == Spelled("moov") || code == Spelled("trak") || code == Spelled("mdia") || code == Spelled("minf")
              || code == Spelled("stbl") || code == Spelled("meta") || code == Spelled("iinf") || code == Spelled("ipco")
              || code == Spelled("iprp") || code == Spelled("dinf")
  {
  }

  //  Boxes as trees

  /** How a box gives its size: in 32 bits, as "to the end" for the last box, or in 64 bits behind the code. */
  datatype Size = Compact | ToEnd | Large

  datatype Box =
    | Rotation(size: Size, payload: seq<byte>)
    | Container(size: Size, code: nat, flags: seq<byte>, children: Forest)
    | Leaf(size: Size, code: nat, payload: seq<byte>)

  datatype Forest = Empty | Boxes(first: Box, rest: Forest)

  function ContentLength(b: Box): nat
    decreases b, 0
  {
    match b
    case Rotation(_, payload) => |payload|
    case Container(_, _, flags, children) => |flags| + ForestLength(children)
    case Leaf(_, _, payload) => |payload|
  }

  function ForestLength(f: Forest): nat
    decreases f, 1
  {
    match f
    case Empty => 0
    case Boxes(first, rest) => (if first.size.Large? then 16 else 8) + ContentLength(first) + ForestLength(rest)
  }

  /** The smallest code the scan knows, read as a number: 1.6 GB. */
  const LARGE_LIMIT: nat := DINF

  /** The size fits its field. */
  predicate SizeFits(b: Box) {
    match b.size
    case Compact => 8 + ContentLength(b) <= U32_MAX
    case ToEnd => true
    case Large =>
      16 + ContentLength(b) <= (if b.Container? then LARGE_LIMIT - 1 else if b.Rotation? then U64_MAX / 256 else U64_MAX)
  }

  /** A box that its own header describes: a non-empty rotation payload, and flags exactly where the code has them. */
  predicate WellFormed(b: Box)
    decreases b, 0
  {
    && SizeFits(b)
    && match b
       case Rotation(_, payload) => payload != []
       case Container(size, code, flags, children) =>
         && code <= U32_MAX && IsContainer(code)
         && |flags| == (if IsFullBox(code) then 4 else 0)
         && (size.Large? && IsFullBox(code) ==> NoCode(flags))
         && WellFormedForest(children)
       case Leaf(_, code, _) => code <= U32_MAX && code != IROT && !IsContainer(code)
  }

  /** Version and flags do not happen to spell a code the scan knows. */
  predicate NoCode(flags: seq<byte>)
    requires |flags| == 4
  {
    BigEndian(flags, 0, 4) != IROT && !IsContainer(BigEndian(flags, 0, 4))
  }

  /** Only the last box of a level reaches to its end, and a full box with a 64-bit size comes last, too. */
  predicate WellFormedForest(f: Forest)
    decreases f, 0
  {
    match f
    case Empty => true
    case Boxes(first, rest) =>
      && WellFormed(first) && WellFormedForest(rest)
      && (first.size.ToEnd? || (first.size.Large? && first.Container? && IsFullBox(first.code)) ==> rest.Empty?)
  }

  /** Size, code, the 64-bit size if there is one, content. */
  function Framed(size: Size, code: nat, content: seq<byte>): (r: seq<byte>)
    requires code <= U32_MAX
    requires size.Compact? ==> 8 + |content| <= U32_MAX
    requires size.Large? ==> 16 + |content| <= U64_MAX
  {
    match size
    case Compact => Word(8 + |content|) + (Word(code) + content)
    case ToEnd => Word(0) + (Word(code) + content)
    case Large =>
      var n := 16 + |content|;
      Word(1) + (Word(code) + (Word(n / 0x1_0000_0000) + (Word(n % 0x1_0000_0000) + content)))
  }

  function RenderBox(b: Box): (r: seq<byte>)
    requires WellFormed(b)
    ensures |r| == (if b.size.Large? then 16 else 8) + ContentLength(b)
    decreases b, 1
  {
    match b
    case Rotation(size, payload) => Framed(size, IROT, payload)
    case Container(size, code, flags, children) => Framed(size, code, flags + RenderForest(children))
    case Leaf(size, code, payload) => Framed(size, code, payload)
  }

  function RenderForest(f: Forest): (r: seq<byte>)
    requires WellFormedForest(f)
    ensures |r| == ForestLength(f)
    decreases f, 1
  {
    match f
    case Empty => []
    case Boxes(first, rest) => RenderBox(first) + RenderForest(rest)
  }

  /**
   The rotation of a forest: its boxes in order, a rotation box deciding its
   level, a container answering when something inside it turns the image.
   */
  function Turn(f: Forest): nat {
    match f
    case Empty => 0
    case Boxes(first, rest) =>
      match first
      case Rotation(_, payload) => if payload == [] then Turn(rest) else Degrees(payload[0])
      case Container(_, _, _, children) => if Turn(children) != 0 then Turn(children) else Turn(rest)
      case Leaf(_, _, _) => Turn(rest)
  }

  /** The same fold, blind from the first 64-bit box of a level on. */
  function Seen(f: Forest): nat {
    match f
    case Empty => 0
    case Boxes(first, rest) =>
      if first.size.Large? then 0
      else
        match first
        case Rotation(_, payload) => if payload == [] then Seen(rest) else Degrees(payload[0])
        case Container(_, _, _, children) => if Seen(children) != 0 then Seen(children) else Seen(rest)
        case Leaf(_, _, _) => Seen(rest)
  }

  //  The scan computes the fold

  lemma {:induction false} BigEndianShift(pre: seq<byte>, d: seq<byte>, pos: nat, n: nat)
    requires pos + n <= |d|
    ensures BigEndian(pre + d, |pre| + pos, n) == BigEndian(d, pos, n)
  {
    if n > 0 {
      BigEndianShift(pre, d, pos, n - 1);
    }
  }

  function Shifted(h: Header, n: nat): Header {
    if h.Sized? then Sized(h.size, h.from + n, if h.to == 0 then 0 else h.to + n) else h
  }

  lemma HeaderShift(pre: seq<byte>, d: seq<byte>, pos: nat)
    ensures ReadHeader(pre + d, |pre| + pos) == Shifted(ReadHeader(d, pos), |pre|)
  {
    if pos + 8 <= |d| {
      BigEndianShift(pre, d, pos, 4);
      BigEndianShift(pre, d, pos + 4, 4);
    }
  }

  lemma InnerShift(pre: seq<byte>, d: seq<byte>, h: Header)
    requires h.Sized? ==> h.to <= |d|
    ensures Inner(pre + d, Shifted(h, |pre|)) == Inner(d, h)
  {
  }

  /** What the scan does with one header, given what it finds inside and after the box. */
  function Decide(h: Header, inside: nat, after: nat): nat {
    match h
    case End => 0
    case Found(degrees) => degrees
    case Sized(size, _, _) => if inside != 0 then inside else if size < 8 then 0 else after
  }

  lemma ScanDecides(d: seq<byte>, pos: nat)
    ensures var h := ReadHeader(d, pos);
      Scan(d, pos) == Decide(h, Scan(Inner(d, h), 0), if h.Sized? && h.size >= 8 then Scan(d, pos + h.size) else 0)
  {
    hide ReadHeader, Inner;
  }

  /** Two places with the same header, the same inside and the same remainder scan alike. */
  lemma SameDecision(a: seq<byte>, p: nat, b: seq<byte>, q: nat, n: nat)
    requires ReadHeader(a, p) == Shifted(ReadHeader(b, q), n)
    requires Inner(a, ReadHeader(a, p)) == Inner(b, ReadHeader(b, q))
    requires var h := ReadHeader(b, q);
      h.Sized? && h.size >= 8 ==> Scan(a, p + h.size) == Scan(b, q + h.size)
    ensures Scan(a, p) == Scan(b, q)
  {
    ScanDecides(a, p);
    ScanDecides(b, q);
    hide ReadHeader, Inner, Scan;
  }

  /** Scanning from a position is scanning what lies behind it. */
  lemma {:induction false} ScanShift(pre: seq<byte>, d: seq<byte>, pos: nat)
    ensures Scan(pre + d, |pre| + pos) == Scan(d, pos)
    decreases |d| - pos
  {
    hide Scan;
    var h := ReadHeader(d, pos);
    HeaderShift(pre, d, pos);
    InnerShift(pre, d, h);
    hide ReadHeader, Inner;
    if h.Sized? && h.size >= 8 {
      var next, at := pos + h.size, |pre| + pos;
      ScanShift(pre, d, next);
      assert at + h.size == |pre| + next;
    }
    SameDecision(pre + d, |pre| + pos, d, pos, |pre|);
  }

  lemma TwoWords(a: nat, b: nat, tail: seq<byte>)
    requires a <= U32_MAX && b <= U32_MAX
    ensures var d := Word(a) + (Word(b) + tail);
      BigEndian(d, 0, 4) == a && BigEndian(d, 4, 4) == b && d[8..] == tail
  {
    var d := Word(a) + (Word(b) + tail);
    assert d[0..4] == Word(a) && d[4..8] == Word(b);
    WordReads(a, d, 0);
    WordReads(b, d, 4);
  }

  /** The header of a framed box, read back. */
  lemma HeaderReads(size: Size, code: nat, content: seq<byte>, rest: seq<byte>)
    requires code <= U32_MAX && !size.Large?
    requires size.Compact? ==> 8 + |content| <= U32_MAX
    ensures var d := Framed(size, code, content) + rest;
      && |d| == 8 + |content| + |rest|
      && BigEndian(d, 0, 4) == (if size.Compact? then 8 + |content| else 0) && BigEndian(d, 4, 4) == code
      && d[8..] == content + rest
  {
    var field := if size.Compact? then 8 + |content| else 0;
    TwoWords(field, code, content + rest);
    hide BigEndian, Word;
    assert Framed(size, code, content) + rest == Word(field) + (Word(code) + (content + rest));
  }

  /** Past a box that decides nothing, the scan goes on with what follows. */
  lemma SkipBox(code: nat, content: seq<byte>, rest: seq<byte>)
    requires code <= U32_MAX && 8 + |content| <= U32_MAX && code != IROT
    requires IsContainer(code) ==>
               var header := if IsFullBox(code) then 4 else 0;
               header <= |content| && Scan(content[header..], 0) == 0
    ensures Scan(Framed(Compact, code, content) + rest, 0) == Scan(rest, 0)
  {
    var box := Framed(Compact, code, content);
    HeaderReads(Compact, code, content, rest);
    if IsContainer(code) {
      InnerReads(Compact, code, content, rest);
    }
    ScanShift(box, rest, 0);
  }

  lemma SliceBehind(d: seq<byte>, content: seq<byte>, rest: seq<byte>, skip: nat)
    requires 8 <= |d| && d[8..] == content + rest && skip <= |content|
    ensures d[8 + skip..8 + |content|] == content[skip..]
  {
    assert d[8 + skip..8 + |content|] == d[8..][skip..|content|];
  }

  /** A container's children are what its flags leave of its content. */
  lemma InnerReads(size: Size, code: nat, content: seq<byte>, rest: seq<byte>)
    requires code <= U32_MAX && IsContainer(code) && !size.Large?
    requires size.Compact? ==> 8 + |content| <= U32_MAX
    requires size.ToEnd? ==> rest == []
    requires IsFullBox(code) ==> 4 <= |content|
    ensures var d := Framed(size, code, content) + rest;
      var skip := if IsFullBox(code) then 4 else 0;
      && ReadHeader(d, 0) == Sized(if size.Compact? then 8 + |content| else 0, 8 + skip, 8 + |content|)
      && Inner(d, ReadHeader(d, 0)) == content[skip..]
  {
    HeaderReads(size, code, content, rest);
    var d := Framed(size, code, content) + rest;
    var skip := if IsFullBox(code) then 4 else 0;
    SliceBehind(d, content, rest, skip);
    hide BigEndian, Framed;
  }

  /** A last box that reaches to the end: a container answers for its children, another box for nothing. */
  lemma LastBox(code: nat, content: seq<byte>)
    requires code <= U32_MAX && code != IROT
    requires IsFullBox(code) ==> 4 <= |content|
    ensures Scan(Framed(ToEnd, code, content), 0)
         == if IsContainer(code) then Scan(content[if IsFullBox(code) then 4 else 0..], 0) else 0
  {
    var d := Framed(ToEnd, code, content);
    assert d + [] == d;
    HeaderReads(ToEnd, code, content, []);
    if IsContainer(code) {
      InnerReads(ToEnd, code, content, []);
    }
  }

  /** The words a 64-bit box starts with, and those behind its code. */
  lemma LargeReads(code: nat, content: seq<byte>, rest: seq<byte>)
    requires code <= U32_MAX && 16 + |content| <= U64_MAX
    ensures var d, n := Framed(Large, code, content) + rest, 16 + |content|;
      && |d| == n + |rest|
      && BigEndian(d, 0, 4) == 1 && BigEndian(d, 4, 4) == code
      && BigEndian(d[8..], 0, 4) == n / 0x1_0000_0000 && BigEndian(d[8..], 4, 4) == n % 0x1_0000_0000
      && (n <= U64_MAX / 256 ==> d[8] == 0)
  {
    var n := 16 + |content|;
    var high, low := n / 0x1_0000_0000, n % 0x1_0000_0000;
    var tail := Word(high) + (Word(low) + (content + rest));
    TwoWords(1, code, tail);
    TwoWords(high, low, content + rest);
    assert tail[0] == Word(high)[0] == high / 0x100_0000;
    assert n <= U64_MAX / 256 ==> high < 0x100_0000;
    hide BigEndian, Word;
    assert Framed(Large, code, content) + rest == Word(1) + (Word(code) + tail);
  }

  /** Read as a level of boxes, a 64-bit size below the limit is one box of no size and no known code. */
  lemma LargeSizeIsNothing(d: seq<byte>)
    requires 8 <= |d| && BigEndian(d, 0, 4) == 0 && BigEndian(d, 4, 4) < LARGE_LIMIT
    ensures Scan(d, 0) == 0
  {
    hide BigEndian;
    assert ReadHeader(d, 0) == Sized(0, 8, 0) && Inner(d, ReadHeader(d, 0)) == [];
    assert Scan([], 0) == 0;
  }

  /** A 64-bit box ends its level: neither what is in it nor what follows is seen. */
  lemma LargeEnds(code: nat, content: seq<byte>, rest: seq<byte>)
    requires code <= U32_MAX && !IsFullBox(code) && 16 + |content| <= U64_MAX
    requires code == IROT ==> 16 + |content| <= U64_MAX / 256
    requires IsContainer(code) ==> 16 + |content| < LARGE_LIMIT
    ensures Scan(Framed(Large, code, content) + rest, 0) == 0
  {
    var d := Framed(Large, code, content) + rest;
    LargeReads(code, content, rest);
    if IsContainer(code) {
      LargeSizeIsNothing(d[8..]);
    }
    hide BigEndian, Framed;
    assert Scan([], 0) == 0;
    if code == IROT {
      assert ReadHeader(d, 0) == Found(0);
    } else if IsContainer(code) {
      assert ReadHeader(d, 0) == Sized(1, 8, |d|) && Inner(d, ReadHeader(d, 0)) == d[8..];
    } else {
      assert ReadHeader(d, 0) == Sized(1, 8, 0) && Inner(d, ReadHeader(d, 0)) == [];
    }
  }

  /** Twelve octets into a 64-bit full box the scan reads the low half of its size, and its flags for a code. */
  lemma LargeFullReads(code: nat, flags: seq<byte>, content: seq<byte>, rest: seq<byte>)
    requires code <= U32_MAX && |flags| == 4 && 20 + |content| < LARGE_LIMIT
    ensures var d := Framed(Large, code, flags + content) + rest;
      && 12 <= |d| && d[12..] == Word(20 + |content|) + (flags + content) + rest
      && BigEndian(d[12..], 0, 4) == 20 + |content| && BigEndian(d[12..], 4, 4) == BigEndian(flags, 0, 4)
  {
    var n := 20 + |content|;
    var d := Framed(Large, code, flags + content) + rest;
    var inner := Word(n) + (flags + content) + rest;
    assert n / 0x1_0000_0000 == 0 && n % 0x1_0000_0000 == n;
    assert d == (Word(1) + Word(code) + Word(0)) + inner;
    assert inner[0..4] == Word(n) && inner[4..8] == flags;
    WordReads(n, inner, 0);
    hide Framed, Word;
    FlagsRead(inner, flags);
  }

  lemma FlagsRead(d: seq<byte>, flags: seq<byte>)
    requires 8 <= |d| && |flags| == 4 && d[4..8] == flags
    ensures BigEndian(d, 4, 4) == BigEndian(flags, 0, 4)
  {
    assert d[4] == flags[0] && d[5] == flags[1] && d[6] == flags[2] && d[7] == flags[3];
    assert BigEndian(d, 4, 1) == BigEndian(flags, 0, 1);
    assert BigEndian(d, 4, 2) == BigEndian(flags, 0, 2);
    assert BigEndian(d, 4, 3) == BigEndian(flags, 0, 3);
  }

  /** The two headers the scan makes of it: the box itself, and one that is twelve octets late. */
  lemma LargeFullHeaders(code: nat, flags: seq<byte>, content: seq<byte>, rest: seq<byte>)
    requires IsFullBox(code) && |flags| == 4 && NoCode(flags) && 20 + |content| < LARGE_LIMIT
    ensures var d := Framed(Large, code, flags + content) + rest;
      && 12 <= |d|
      && ReadHeader(d, 0) == Sized(1, 12, |d|) && Inner(d, ReadHeader(d, 0)) == d[12..]
      && ReadHeader(d[12..], 0) == Sized(20 + |content|, 8, 0)
  {
    LargeReads(code, flags + content, rest);
    LargeFullReads(code, flags, content, rest);
    hide BigEndian, Framed, Word;
  }

  /** Scanned from its own wrong header, the late level is what begins where that header points. */
  lemma LateScan(front: seq<byte>, rest: seq<byte>, n: nat)
    requires |front| + 12 == n && 8 <= |front|
    requires ReadHeader(front + rest, 0) == Sized(n, 8, 0)
    ensures Scan(front + rest, 0) == if 12 <= |rest| then Scan(rest[12..], 0) else 0
  {
    var d := front + rest;
    hide BigEndian;
    assert Inner(d, ReadHeader(d, 0)) == [] && Scan([], 0) == 0;
    ScanDecides(d, 0);
    if 12 <= |rest| {
      assert d == (front + rest[..12]) + rest[12..];
      ScanShift(front + rest[..12], rest[12..], 0);
      hide ReadHeader;
    } else {
      assert ReadHeader(d, n) == End;
    }
  }

  /**
   A 64-bit full box takes its own size for that of a box which begins twelve
   octets late: the scan goes on twelve octets into whatever follows.
   */
  lemma LargeFullBoxReadsOn(code: nat, flags: seq<byte>, content: seq<byte>, rest: seq<byte>)
    requires IsFullBox(code) && |flags| == 4 && NoCode(flags) && 20 + |content| < LARGE_LIMIT
    ensures Scan(Framed(Large, code, flags + content) + rest, 0) == if 12 <= |rest| then Scan(rest[12..], 0) else 0
  {
    var n := 20 + |content|;
    var d := Framed(Large, code, flags + content) + rest;
    LargeFullHeaders(code, flags, content, rest);
    LargeFullReads(code, flags, content, rest);
    hide BigEndian, Framed, ReadHeader, NoCode;
    LateScan(Word(n) + (flags + content), rest, n);
    hide Word;
    ScanDecides(d, 0);
  }

  /** On the bytes of any well-formed forest, the scan is the fold that is blind behind 64-bit boxes. */
  lemma {:induction false} ScanIsSeen(f: Forest)
    requires WellFormedForest(f)
    ensures Scan(RenderForest(f), 0) == Seen(f)
    decreases f
  {
    match f
    case Empty =>
    case Boxes(first, rest) =>
      ScanIsSeen(rest);
      var after := RenderForest(rest);
      match first {
        case Rotation(size, payload) => RotationStep(size, payload, after);
        case Leaf(size, code, payload) => LeafStep(size, code, payload, after);
        case Container(size, code, flags, children) =>
          ScanIsSeen(children);
          ContainerStep(first, after);
      }
  }

  lemma RotationStep(size: Size, payload: seq<byte>, after: seq<byte>)
    requires WellFormed(Rotation(size, payload))
    ensures Scan(RenderBox(Rotation(size, payload)) + after, 0) == if size.Large? then 0 else Degrees(payload[0])
  {
    if size.Large? {
      LargeEnds(IROT, payload, after);
    } else {
      HeaderReads(size, IROT, payload, after);
      var d := Framed(size, IROT, payload) + after;
      assert d[8] == d[8..][0] == payload[0];
    }
  }

  lemma LeafStep(size: Size, code: nat, payload: seq<byte>, after: seq<byte>)
    requires WellFormed(Leaf(size, code, payload)) && (size.ToEnd? ==> after == [])
    ensures Scan(RenderBox(Leaf(size, code, payload)) + after, 0) == if size.Large? then 0 else Scan(after, 0)
  {
    match size
    case Compact => SkipBox(code, payload, after);
    case Large => LargeEnds(code, payload, after);
    case ToEnd =>
      LastBox(code, payload);
      assert Framed(ToEnd, code, payload) + [] == Framed(ToEnd, code, payload);
  }

  lemma ContainerStep(b: Box, after: seq<byte>)
    requires b.Container? && WellFormed(b)
    requires b.size.ToEnd? || (b.size.Large? && IsFullBox(b.code)) ==> after == []
    requires Scan(RenderForest(b.children), 0) == Seen(b.children)
    ensures Scan(RenderBox(b) + after, 0)
         == if b.size.Large? then 0 else if Seen(b.children) != 0 then Seen(b.children) else Scan(after, 0)
  {
    var content := b.flags + RenderForest(b.children);
    assert content[|b.flags|..] == RenderForest(b.children);
    match b.size
    case Large =>
      if IsFullBox(b.code) {
        LargeFullBoxReadsOn(b.code, b.flags, RenderForest(b.children), after);
      } else {
        LargeEnds(b.code, content, after);
      }
    case ToEnd =>
      LastBox(b.code, content);
      assert Framed(ToEnd, b.code, content) + [] == Framed(ToEnd, b.code, content);
    case Compact =>
      if Seen(b.children) == 0 {
        SkipBox(b.code, content, after);
      } else {
        HeaderReads(Compact, b.code, content, after);
        InnerReads(Compact, b.code, content, after);
      }
  }

  /** The angle undoes the quarter turns the payload counts, which are anticlockwise. */
  lemma DegreesUndo(b: byte)
    ensures var turns: nat := b % 4; Degrees(b) < 360 && (Degrees(b) + 90 * turns) % 360 == 0
  {
  }

  /** Whatever its payload and whatever follows, one rotation box is told as the angle that undoes it. */
  lemma OneRotationTold(size: Size, payload: seq<byte>, after: seq<byte>)
    requires WellFormed(Rotation(size, payload)) && !size.Large?
    ensures var told, turns: nat := Scan(RenderBox(Rotation(size, payload)) + after, 0), payload[0] % 4;
      told < 360 && (told + 90 * turns) % 360 == 0
  {
    RotationStep(size, payload, after);
    DegreesUndo(payload[0]);
  }

  //  When the scan tells the rotation

  predicate Turns(f: Forest) {
    match f
    case Empty => false
    case Boxes(first, rest) =>
      match first
      case Rotation(_, _) => true
      case Container(_, _, _, children) => Turns(children) || Turns(rest)
      case Leaf(_, _, _) => Turns(rest)
  }

  /** No rotation that the fold could reach is in a 64-bit box, or behind one on its level. */
  predicate HidesNothing(f: Forest) {
    match f
    case Empty => true
    case Boxes(first, rest) =>
      if first.size.Large? then !Turns(f)
      else
        match first
        case Rotation(_, _) => true
        case Container(_, _, _, children) => HidesNothing(children) && HidesNothing(rest)
        case Leaf(_, _, _) => HidesNothing(rest)
  }

  /** No size field is 1. */
  predicate NoLarge(f: Forest) {
    match f
    case Empty => true
    case Boxes(first, rest) => !first.size.Large? && (first.Container? ==> NoLarge(first.children)) && NoLarge(rest)
  }

  lemma {:induction false} NoLargeHidesNothing(f: Forest)
    requires NoLarge(f)
    ensures HidesNothing(f)
  {
    match f
    case Empty =>
    case Boxes(first, rest) =>
      NoLargeHidesNothing(rest);
      if first.Container? {
        NoLargeHidesNothing(first.children);
      }
  }

  lemma {:induction false} NothingTurns(f: Forest)
    requires !Turns(f)
    ensures Turn(f) == 0
  {
    match f
    case Empty =>
    case Boxes(first, rest) =>
      NothingTurns(rest);
      if first.Container? {
        NothingTurns(first.children);
      }
  }

  lemma {:induction false} SeenIsTurn(f: Forest)
    requires WellFormedForest(f) && HidesNothing(f)
    ensures Seen(f) == Turn(f)
    decreases f
  {
    match f
    case Empty =>
    case Boxes(first, rest) =>
      if first.size.Large? {
        NothingTurns(f);
      } else {
        if !first.Rotation? {
          SeenIsTurn(rest);
        }
        if first.Container? {
          SeenIsTurn(first.children);
        }
      }
  }

  /** The scan is the fold over the trees whenever no rotation hides in or behind a 64-bit box. */
  lemma ScanIsTurn(f: Forest)
    requires WellFormedForest(f) && HidesNothing(f)
    ensures Scan(RenderForest(f), 0) == Turn(f)
  {
    ScanIsSeen(f);
    SeenIsTurn(f);
  }

  //  And only then

  /** The same boxes; only the contents of rotation boxes may differ. */
  predicate SameShape(f: Forest, g: Forest) {
    match f
    case Empty => g.Empty?
    case Boxes(first, rest) =>
      && g.Boxes? && SameShape(rest, g.rest) && g.first.size == first.size
      && match first
         case Rotation(_, payload) => g.first.Rotation? && |g.first.payload| == |payload|
         case Container(_, code, flags, children) =>
           g.first.Container? && g.first.code == code && g.first.flags == flags && SameShape(children, g.first.children)
         case Leaf(_, _, _) => g.first == first
  }

  lemma {:induction false} ShapeKeeps(f: Forest, g: Forest)
    requires SameShape(f, g)
    ensures ForestLength(g) == ForestLength(f)
    ensures WellFormedForest(f) ==> WellFormedForest(g)
    ensures Turns(g) == Turns(f) && HidesNothing(g) == HidesNothing(f)
    decreases f
  {
    match f
    case Empty =>
    case Boxes(first, rest) =>
      ShapeKeeps(rest, g.rest);
      if first.Container? {
        ShapeKeeps(first.children, g.first.children);
      }
      assert ContentLength(g.first) == ContentLength(first);
      assert WellFormed(first) ==> WellFormed(g.first);
      assert rest.Empty? == g.rest.Empty?;
  }

  /** A rotation box whose first byte is `b`. */
  function Set(r: Box, b: byte): (t: Box)
    requires r.Rotation?
    ensures t.Rotation? && t.size == r.size && |t.payload| == |r.payload|
  {
    Rotation(r.size, if r.payload == [] then [] else r.payload[0 := b])
  }

  /** No rotation turns anything. */
  function Blank(f: Forest): Forest {
    match f
    case Empty => Empty
    case Boxes(first, rest) =>
      match first
      case Rotation(_, _) => Boxes(Set(first, 0), Blank(rest))
      case Container(_, _, _, children) => Boxes(first.(children := Blank(children)), Blank(rest))
      case Leaf(_, _, _) => Boxes(first, Blank(rest))
  }

  /** Only the first rotation the fold reaches turns. */
  function Marked(f: Forest): Forest {
    match f
    case Empty => Empty
    case Boxes(first, rest) =>
      match first
      case Rotation(_, _) => Boxes(Set(first, 1), Blank(rest))
      case Leaf(_, _, _) => Boxes(first, Marked(rest))
      case Container(_, _, _, children) =>
        if Turns(children) then Boxes(first.(children := Marked(children)), Blank(rest))
        else Boxes(first.(children := Blank(children)), Marked(rest))
  }

  /** Only a hidden rotation turns. */
  function Exposed(f: Forest): Forest {
    match f
    case Empty => Empty
    case Boxes(first, rest) =>
      if first.size.Large? then Marked(f)
      else
        match first
        case Rotation(_, _) => f
        case Leaf(_, _, _) => Boxes(first, Exposed(rest))
        case Container(_, _, _, children) =>
          if HidesNothing(children) then Boxes(first.(children := Blank(children)), Exposed(rest))
          else Boxes(first.(children := Exposed(children)), Blank(rest))
  }

  lemma {:induction false} BlankTurns(f: Forest)
    requires WellFormedForest(f)
    ensures SameShape(f, Blank(f)) && Turn(Blank(f)) == 0 && Seen(Blank(f)) == 0
    decreases f
  {
    match f
    case Empty =>
    case Boxes(first, rest) =>
      BlankTurns(rest);
      if first.Container? {
        BlankTurns(first.children);
      }
  }

  lemma {:induction false} MarkedTurns(f: Forest)
    requires WellFormedForest(f) && Turns(f)
    ensures SameShape(f, Marked(f)) && Turn(Marked(f)) != 0
    decreases f
  {
    match f
    case Boxes(first, rest) =>
      BlankTurns(rest);
      if !first.Rotation? && !(first.Container? && Turns(first.children)) {
        MarkedTurns(rest);
      }
      if first.Container? {
        BlankTurns(first.children);
        if Turns(first.children) {
          MarkedTurns(first.children);
        }
      }
  }

  lemma {:induction false} ExposedTurns(f: Forest)
    requires WellFormedForest(f) && !HidesNothing(f)
    ensures SameShape(f, Exposed(f)) && Turn(Exposed(f)) != 0 && Seen(Exposed(f)) == 0
    decreases f
  {
    match f
    case Boxes(first, rest) =>
      if first.size.Large? {
        MarkedTurns(f);
      } else if first.Leaf? {
        ExposedTurns(rest);
      } else if first.Container? {
        BlankTurns(rest);
        BlankTurns(first.children);
        if HidesNothing(first.children) {
          ExposedTurns(rest);
        } else {
          ExposedTurns(first.children);
        }
      }
  }

  /**
   The scan tells the rotation of a file of this shape, whatever its rotation
   boxes say, exactly when none of them hides in or behind a 64-bit box.
   */
  lemma ScanTellsIffNothingHides(f: Forest)
    requires WellFormedForest(f)
    ensures HidesNothing(f)
       <==> forall g :: SameShape(f, g) && WellFormedForest(g) ==> Scan(RenderForest(g), 0) == Turn(g)
  {
    if HidesNothing(f) {
      forall g | SameShape(f, g) && WellFormedForest(g) ensures Scan(RenderForest(g), 0) == Turn(g) {
        ShapeKeeps(f, g);
        ScanIsTurn(g);
      }
    } else {
      var g := Exposed(f);
      ExposedTurns(f);
      ShapeKeeps(f, g);
      ScanIsSeen(g);
    }
  }

  /** An empty `mdat` box with a 64-bit size of 16. */
  const LARGE_MEDIA: seq<byte> := [0, 0, 0, 1, 0x6D, 0x64, 0x61, 0x74, 0, 0, 0, 0, 0, 0, 0, 16]

  /** A rotation by 270 degrees. */
  const ROTATION: seq<byte> := [0, 0, 0, 9, 0x69, 0x72, 0x6F, 0x74, 1]

  lemma MediaIsBox()
    ensures LARGE_MEDIA == Framed(Large, 0x6D64_6174, [])
  {
    assert Word(1) == [0, 0, 0, 1] && Word(0x6D64_6174) == [0x6D, 0x64, 0x61, 0x74];
    assert Word(0) == [0, 0, 0, 0] && Word(16) == [0, 0, 0, 16];
    hide Word;
  }

  lemma RotationIsBox()
    ensures ROTATION == Framed(Compact, IROT, [1])
  {
    assert Word(9) == [0, 0, 0, 9] && Word(IROT) == [0x69, 0x72, 0x6F, 0x74];
    hide Word;
  }

  /** The rotation box alone is found; behind media data with a 64-bit size it is not. */
  lemma LargeMediaHidesRotation()
    ensures Scan(ROTATION, 0) == 270 && Scan(LARGE_MEDIA + ROTATION, 0) == 0
  {
    MediaIsBox();
    RotationIsBox();
    hide Scan, Framed;
    LargeEnds(0x6D64_6174, [], ROTATION);
    RotationStep(Compact, [1], []);
    assert ROTATION + [] == ROTATION;
  }

  //  A file whose end is cut off

  /** Every full box the scan comes to from `pos` on has room for its flags, or a size below 8. */
  ghost predicate Roomy(d: seq<byte>, pos: nat)
    decreases |d|, |d| - pos
  {
    var h := ReadHeader(d, pos);
    h.Sized? ==>
      && (h.size < 8 || h.from <= pos + h.size)
      && Roomy(Inner(d, h), 0)
      && (8 <= h.size ==> Roomy(d, pos + h.size))
  }

  lemma {:induction false} BigEndianPrefix(d: seq<byte>, k: nat, pos: nat, n: nat)
    requires pos + n <= k <= |d|
    ensures BigEndian(d[..k], pos, n) == BigEndian(d, pos, n)
  {
    if n > 0 {
      BigEndianPrefix(d, k, pos, n - 1);
    }
  }

  /** A header that lies in the prefix tells the prefix the same size, and the same start of what is inside. */
  lemma HeaderPrefix(d: seq<byte>, k: nat, pos: nat)
    requires pos + 8 <= k <= |d|
    ensures var h, p := ReadHeader(d, pos), ReadHeader(d[..k], pos);
      if pos + 9 <= k && h.Found? then p == h
      else
        && p.Sized? && !h.End? && (h.Found? ==> k == pos + 8 && p.to == 0)
        && (h.Sized? ==>
              && p.size == h.size && p.from == h.from
              && if h.from <= pos + h.size <= k then p.to == h.to else p.to == Min(h.to, k))
  {
    BigEndianPrefix(d, k, pos, 4);
    BigEndianPrefix(d, k, pos + 4, 4);
    hide BigEndian;
  }

  lemma InnerPrefix(d: seq<byte>, k: nat, h: Header, p: Header)
    requires k <= |d| && h.Sized? && p.Sized? && p.from == h.from && p.to <= h.to <= |d| && p.to <= k
    ensures Inner(d[..k], p) <= Inner(d, h)
    ensures p.to == h.to ==> Inner(d[..k], p) == Inner(d, h)
  {
    if p.from < p.to {
      var part, inner := d[..k][p.from..p.to], d[p.from..h.to];
      forall i | 0 <= i < |part|
        ensures part[i] == inner[i]
      {
        assert part[i] == d[..k][p.from + i] == d[p.from + i] == inner[i];
      }
    }
  }

  lemma SizedStep(d: seq<byte>, pos: nat)
    requires ReadHeader(d, pos).Sized?
    ensures var h := ReadHeader(d, pos);
      var nested := Scan(Inner(d, h), 0);
      Scan(d, pos) == if nested != 0 then nested else if h.size < 8 then 0 else Scan(d, pos + h.size)
  {
  }

  lemma RoomyStep(d: seq<byte>, pos: nat)
    requires ReadHeader(d, pos).Sized? && Roomy(d, pos)
    ensures var h := ReadHeader(d, pos);
      && |Inner(d, h)| < |d| && Roomy(Inner(d, h), 0)
      && (8 <= h.size ==> h.from <= pos + h.size && Roomy(d, pos + h.size))
  {
  }

  /** There is nothing to see in less than a header. */
  lemma ShortScan(d: seq<byte>, pos: nat)
    requires |d| < pos + 8
    ensures Scan(d, pos) == 0
  {
  }

  /** A header at the very end that has nothing inside. */
  lemma CutScan(d: seq<byte>, pos: nat)
    requires |d| == pos + 8 && ReadHeader(d, pos).Sized? && ReadHeader(d, pos).to == 0
    ensures Scan(d, pos) == 0
  {
    var h := ReadHeader(d, pos);
    hide ReadHeader;
    ShortScan([], 0);
    if 8 <= h.size {
      ShortScan(d, pos + h.size);
    }
  }

  /** What a prefix of a file shows is the rotation of the file, or none. */
  lemma {:induction false} PrefixTellsNoOther(d: seq<byte>, k: nat, pos: nat)
    requires k <= |d| && Roomy(d, pos)
    ensures Scan(d[..k], pos) != 0 ==> Scan(d[..k], pos) == Scan(d, pos)
    decreases |d|, |d| - pos
  {
    hide ReadHeader, Inner, Roomy;
    var h, p := ReadHeader(d, pos), ReadHeader(d[..k], pos);
    if k < pos + 8 {
      ShortScan(d[..k], pos);
    } else if h.Sized? {
      hide Scan;
      HeaderPrefix(d, k, pos);
      SizedStep(d, pos);
      SizedStep(d[..k], pos);
      RoomyStep(d, pos);
      InnerPrefix(d, k, h, p);
      var inner, part := Inner(d, h), Inner(d[..k], p);
      assert part == inner[..|part|];
      PrefixTellsNoOther(inner, |part|, 0);
      if k <= pos + h.size {
        ShortScan(d[..k], pos + h.size);
      } else if h.size >= 8 {
        PrefixTellsNoOther(d, k, pos + h.size);
      }
    } else {
      HeaderPrefix(d, k, pos);
      if p.Sized? {
        CutScan(d[..k], pos);
      }
    }
  }

  lemma SameRoom(a: seq<byte>, p: nat, b: seq<byte>, q: nat, n: nat)
    requires ReadHeader(a, p) == Shifted(ReadHeader(b, q), n) && p == q + n
    requires Inner(a, ReadHeader(a, p)) == Inner(b, ReadHeader(b, q))
    requires var h := ReadHeader(b, q);
      h.Sized? && h.size >= 8 ==> Roomy(a, p + h.size) == Roomy(b, q + h.size)
    ensures Roomy(a, p) == Roomy(b, q)
  {
    hide ReadHeader, Inner;
  }

  lemma {:induction false} RoomyShift(pre: seq<byte>, d: seq<byte>, pos: nat)
    ensures Roomy(pre + d, |pre| + pos) == Roomy(d, pos)
    decreases |d| - pos
  {
    hide Roomy;
    var h := ReadHeader(d, pos);
    HeaderShift(pre, d, pos);
    InnerShift(pre, d, h);
    hide ReadHeader, Inner;
    if h.Sized? && h.size >= 8 {
      var next, at := pos + h.size, |pre| + pos;
      RoomyShift(pre, d, next);
      assert at + h.size == |pre| + next;
    }
    SameRoom(pre + d, |pre| + pos, d, pos, |pre|);
  }

  lemma RoomyIf(d: seq<byte>)
    requires var h := ReadHeader(d, 0);
      h.Sized? ==> (h.size < 8 || h.from <= h.size) && Roomy(Inner(d, h), 0) && (8 <= h.size ==> Roomy(d, h.size))
    ensures Roomy(d, 0)
  {
    hide ReadHeader, Inner;
  }

  lemma NoRoomNeeded(d: seq<byte>, pos: nat)
    requires |d| < pos + 8
    ensures Roomy(d, pos)
  {
  }

  /** A box in 32 bits, or one that reaches to the end: there is room if there is in it and behind it. */
  lemma RoomInBox(size: Size, code: nat, content: seq<byte>, rest: seq<byte>)
    requires code <= U32_MAX && !size.Large? && code != IROT
    requires size.Compact? ==> 8 + |content| <= U32_MAX
    requires size.ToEnd? ==> rest == []
    requires IsContainer(code) ==>
               var skip := if IsFullBox(code) then 4 else 0;
               skip <= |content| && Roomy(content[skip..], 0)
    requires Roomy(rest, 0)
    ensures Roomy(Framed(size, code, content) + rest, 0)
  {
    var box := Framed(size, code, content);
    var d := box + rest;
    hide Roomy;
    HeaderReads(size, code, content, rest);
    if IsContainer(code) {
      InnerReads(size, code, content, rest);
    } else {
      assert ReadHeader(d, 0) == Sized(if size.Compact? then 8 + |content| else 0, 8, 0);
      NoRoomNeeded([], 0);
    }
    RoomyShift(box, rest, 0);
    hide Framed, BigEndian;
    RoomyIf(d);
  }

  lemma RoomInLarge(code: nat, content: seq<byte>, rest: seq<byte>)
    requires code <= U32_MAX && !IsFullBox(code) && code != IROT && 16 + |content| <= U64_MAX
    requires IsContainer(code) ==> 16 + |content| < LARGE_LIMIT
    ensures Roomy(Framed(Large, code, content) + rest, 0)
  {
    var d := Framed(Large, code, content) + rest;
    LargeReads(code, content, rest);
    hide BigEndian, Framed, Roomy;
    NoRoomNeeded([], 0);
    if IsContainer(code) {
      assert ReadHeader(d, 0) == Sized(1, 8, |d|) && Inner(d, ReadHeader(d, 0)) == d[8..];
      assert ReadHeader(d[8..], 0) == Sized(0, 8, 0) && Inner(d[8..], Sized(0, 8, 0)) == [];
      RoomyIf(d[8..]);
    } else {
      assert ReadHeader(d, 0) == Sized(1, 8, 0) && Inner(d, ReadHeader(d, 0)) == [];
    }
    hide ReadHeader, Inner;
    RoomyIf(d);
  }

  lemma RoomInLargeFull(code: nat, flags: seq<byte>, content: seq<byte>)
    requires IsFullBox(code) && |flags| == 4 && NoCode(flags) && 20 + |content| < LARGE_LIMIT
    ensures Roomy(Framed(Large, code, flags + content) + [], 0)
  {
    var d := Framed(Large, code, flags + content) + [];
    LargeFullHeaders(code, flags, content, []);
    LargeFullReads(code, flags, content, []);
    hide BigEndian, Framed, Roomy;
    assert Inner(d[12..], Sized(20 + |content|, 8, 0)) == [];
    hide ReadHeader, Inner, NoCode, Word;
    NoRoomNeeded([], 0);
    NoRoomNeeded(d[12..], 20 + |content|);
    RoomyIf(d[12..]);
    RoomyIf(d);
  }

  /** The bytes of a well-formed forest always have the room. */
  lemma {:induction false} FormedIsRoomy(f: Forest)
    requires WellFormedForest(f)
    ensures Roomy(RenderForest(f), 0)
    decreases f
  {
    match f
    case Empty =>
    case Boxes(first, rest) =>
      FormedIsRoomy(rest);
      var after := RenderForest(rest);
      if first.Container? {
        FormedIsRoomy(first.children);
      }
      RoomAtBox(first, after);
  }

  lemma RoomAtBox(b: Box, after: seq<byte>)
    requires WellFormed(b) && Roomy(after, 0)
    requires b.size.ToEnd? || (b.size.Large? && b.Container? && IsFullBox(b.code)) ==> after == []
    requires b.Container? ==> Roomy(RenderForest(b.children), 0)
    ensures Roomy(RenderBox(b) + after, 0)
  {
    hide Roomy;
    match b
    case Rotation(size, payload) => RoomAtRotation(size, payload, after);
    case Leaf(size, code, payload) =>
      if size.Large? {
        RoomInLarge(code, payload, after);
      } else {
        RoomInBox(size, code, payload, after);
      }
    case Container(size, code, flags, children) =>
      var inside := RenderForest(children);
      assert (flags + inside)[|flags|..] == inside;
      if !size.Large? {
        RoomInBox(size, code, flags + inside, after);
      } else if IsFullBox(code) {
        RoomInLargeFull(code, flags, inside);
      } else {
        RoomInLarge(code, flags + inside, after);
      }
  }

  lemma RoomAtRotation(size: Size, payload: seq<byte>, after: seq<byte>)
    requires WellFormed(Rotation(size, payload))
    ensures Roomy(RenderBox(Rotation(size, payload)) + after, 0)
  {
    if size.Large? {
      LargeReads(IROT, payload, after);
    } else {
      HeaderReads(size, IROT, payload, after);
    }
    var d := Framed(size, IROT, payload) + after;
    assert ReadHeader(d, 0).Found?;
  }

  /** The beginning of a well-formed file that hides no rotation shows the rotation of the file, or none. */
  lemma BeginningTells(f: Forest, k: nat)
    requires WellFormedForest(f) && HidesNothing(f) && k <= |RenderForest(f)|
    ensures Scan(RenderForest(f)[..k], 0) in {0, Turn(f)}
  {
    FormedIsRoomy(f);
    PrefixTellsNoOther(RenderForest(f), k, 0);
    ScanIsTurn(f);
  }

  /** A `meta` box of size 8: its first child is read across its end, and behind it stands an `irot` box. */
  const SHORT_META: seq<byte> :=
    [0, 0, 0, 8, 0x6D, 0x65, 0x74, 0x61, 0, 0, 0, 9, 0x69, 0x72, 0x6F, 0x74, 0x69, 0x72, 0x6F, 0x74, 2]

  lemma FourOctets(d: seq<byte>, pos: nat, a: byte, b: byte, c: byte, e: byte)
    requires pos + 4 <= |d| && d[pos..pos + 4] == [a, b, c, e]
    ensures BigEndian(d, pos, 4) == a * 0x100_0000 + b * 0x1_0000 + c * 0x100 + e
  {
    var w := d[pos..pos + 4];
    assert d[pos] == w[0] && d[pos + 1] == w[1] && d[pos + 2] == w[2] && d[pos + 3] == w[3];
    assert BigEndian(d, pos, 1) == a;
    assert BigEndian(d, pos, 2) == a * 0x100 + b;
    assert BigEndian(d, pos, 3) == a * 0x1_0000 + b * 0x100 + c;
  }

  /** A size-8 `meta` box at the start, and an `irot` box behind it. */
  lemma ShortMetaReads(d: seq<byte>)
    requires d <= SHORT_META && 17 <= |d|
    ensures ReadHeader(d, 0) == Sized(8, 12, |d|) && ReadHeader(d, 8) == Found(270)
  {
    var w: seq<byte>, m: seq<byte>, r: seq<byte> := [0, 0, 0, 8], [0x6D, 0x65, 0x74, 0x61], [0x69, 0x72, 0x6F, 0x74];
    assert d[0..4] == w && d[4..8] == m && d[12..16] == r && d[16] == 0x69;
    hide BigEndian;
    FourOctets(d, 0, 0, 0, 0, 8);
    FourOctets(d, 4, 0x6D, 0x65, 0x74, 0x61);
    FourOctets(d, 12, 0x69, 0x72, 0x6F, 0x74);
  }

  /** Without the condition a prefix can show another rotation than the file. */
  lemma ShortMetaTellsAnother()
    ensures Scan(SHORT_META, 0) == 180 && Scan(SHORT_META[..17], 0) == 270
  {
    var d, p := SHORT_META, SHORT_META[..17];
    var inner, part := d[12..], p[12..];
    assert |part| == 5 && |inner| == 9 && inner[8] == 2;
    ShortMetaReads(d);
    ShortMetaReads(p);
    assert inner[4..8] == [0x69, 0x72, 0x6F, 0x74];
    hide BigEndian;
    FourOctets(inner, 4, 0x69, 0x72, 0x6F, 0x74);
    assert ReadHeader(inner, 0) == Found(180) && ReadHeader(part, 0) == End;
    hide ReadHeader;
    assert Inner(d, Sized(8, 12, 21)) == inner && Inner(p, Sized(8, 12, 17)) == part;
    hide Inner;
    assert Scan(part, 0) == 0 && Scan(p, 8) == 270;
  }
}
