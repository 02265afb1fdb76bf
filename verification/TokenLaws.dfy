/**
 What survives the wire.  Trimming drops bytes that the positional decoder
 cannot tell from absent fields; these lemmas say exactly when that loses
 something, and that freshness never depends on it.
 */
module TokenLaws {
  import opened Prelude
  import opened Text
  import Base64
  import opened CacheHints

  /** A validator as the record keeps it: at most 255 bytes, and an empty one is absent. */
  function Stored(v: Option<seq<byte>>): Option<seq<byte>> {
    if v.Some? && v.value != [] then Some(v.value[..Min(|v.value|, 255)]) else None
  }

  /** The kept bytes do not end in NUL, which trimming could not tell from padding. */
  predicate NoTrailingNul(v: Option<seq<byte>>) {
    Stored(v).Some? ==> Stored(v).value[|Stored(v).value| - 1] != 0
  }

  /** Kept whole: present validators have 1 to 255 bytes. */
  predicate Whole(v: Option<seq<byte>>) {
    Stored(v) == v
  }

  /** stale-while-revalidate is the only field that is not zero. */
  predicate OnlyStaleWindow(h: CacheHints) {
    && h.staleWhileRevalidate.Some? && !h.immutable && !h.noCache && h.maxAge.None?
    && Stored(h.etag).None? && Stored(h.lastModified).None?
  }

  /** The number's last byte is zero, so it can fall to trimming. */
  predicate LastByteZero(n: Option<nat>) {
    n.Some? && n.value % 256 == 0
  }

  //  Reading a trimmed record.  `full` is the record before trimming, cut
  //  after `n` bytes, and all that was cut is zero.

  ghost predicate Trimmed(full: seq<byte>, n: nat) {
    && n <= |full|
    && forall i :: n <= i < |full| ==> full[i] == 0
  }

  /** `field` is what the record holds at `p`. */
  ghost predicate At(full: seq<byte>, p: nat, field: seq<byte>) {
    && p + |field| <= |full|
    && forall j :: 0 <= j < |field| ==> field[j] == full[p + j]
  }

  lemma FlagSurvives(full: seq<byte>, p: nat, b: bool, n: nat)
    requires Trimmed(full, n) && At(full, p, FlagField(b))
    ensures TakeFlag(full[..n], Min(p, n), false) == (b, Min(p + 1, n))
  {
    assert FlagField(b)[0] == full[p];
  }

  lemma StringSurvives(full: seq<byte>, p: nat, v: Option<seq<byte>>, n: nat)
    requires NoTrailingNul(v)
    requires Trimmed(full, n) && At(full, p, StringField(v))
    ensures TakeString(full[..n], Min(p, n)) == (Stored(v), Min(p + |StringField(v)|, n))
  {
    var field := StringField(v);
    assert field[0] == full[p];
    if Stored(v).Some? {
      assert field[|field| - 1] == full[p + |field| - 1] != 0;
      assert field == [field[0]] + Stored(v).value;
      forall j | 0 <= j < |field| - 1
        ensures full[..n][p + 1..p + |field|][j] == Stored(v).value[j]
      {
        assert field[j + 1] == full[p + (j + 1)];
      }
      assert full[..n][p + 1..p + |field|] == Stored(v).value;
    }
  }

  lemma NumberSurvives(full: seq<byte>, p: nat, v: Option<nat>, n: nat)
    requires v.Some? ==> v.value <= U32_MAX
    requires Trimmed(full, n) && At(full, p, NumberField(v))
    requires v.Some? ==> p + 5 <= n
    ensures TakeNumber(full[..n], Min(p, n)) == (v, Min(p + |NumberField(v)|, n))
  {
    var field := NumberField(v);
    assert field[0] == full[p];
    if v.Some? {
      assert field[1] == full[p + 1] && field[2] == full[p + 2] && field[3] == full[p + 3] && field[4] == full[p + 4];
      assert full[..n][p + 1..p + 5] == Word(v.value);
      WordReads(v.value, full[..n], p + 1);
    }
  }

  /** The last field survives trimming unless its own last byte is zero. */
  lemma LastNumberSurvives(full: seq<byte>, p: nat, v: Option<nat>, n: nat)
    requires v.Some? ==> v.value <= U32_MAX
    requires At(full, p, NumberField(v)) && |full| == p + |NumberField(v)| && 0 < p
    requires Trimmed(full, n) && (n > 1 ==> full[n - 1] != 0)
    ensures TakeNumber(full[..n], Min(p, n)).0 == if LastByteZero(v) then None else v
  {
    var field := NumberField(v);
    assert field[0] == full[p];
    if v.Some? {
      assert full[p + 4] == field[4] == v.value % 256;
    }
    if !LastByteZero(v) {
      NumberSurvives(full, p, v, n);
    }
  }

  //  Where each field of the record starts

  function P1(h: CacheHints): nat requires h.InRange() {
    |NumberField(h.staleWhileRevalidate)|
  }
  function P2(h: CacheHints): nat requires h.InRange() {
    P1(h) + |FlagField(h.immutable)|
  }
  function P3(h: CacheHints): nat requires h.InRange() {
    P2(h) + |StringField(h.etag)|
  }
  function P4(h: CacheHints): nat requires h.InRange() {
    P3(h) + |StringField(h.lastModified)|
  }
  function P5(h: CacheHints): nat requires h.InRange() {
    P4(h) + |FlagField(h.noStore)|
  }
  function P6(h: CacheHints): nat requires h.InRange() {
    P5(h) + |FlagField(h.isPrivate)|
  }
  function P7(h: CacheHints): nat requires h.InRange() {
    P6(h) + |FlagField(h.noCache)|
  }

  /** Appending a field puts it at the end and moves no other. */
  lemma Appended(x: seq<byte>, last: seq<byte>)
    ensures At(x + last, |x|, last)
    ensures forall p: nat, field :: At(x, p, field) ==> At(x + last, p, field)
  {
    forall p: nat, field | At(x, p, field)
      ensures At(x + last, p, field)
    {
    }
  }

  /** Eight fields end to end. */
  ghost predicate At8(r: seq<byte>, a: seq<byte>, b: seq<byte>, c: seq<byte>, d: seq<byte>,
                      e: seq<byte>, f: seq<byte>, g: seq<byte>, i: seq<byte>)
  {
    && At(r, 0, a) && At(r, |a|, b) && At(r, |a| + |b|, c) && At(r, |a| + |b| + |c|, d)
    && At(r, |a| + |b| + |c| + |d|, e) && At(r, |a| + |b| + |c| + |d| + |e|, f)
    && At(r, |a| + |b| + |c| + |d| + |e| + |f|, g) && At(r, |a| + |b| + |c| + |d| + |e| + |f| + |g|, i)
    && |r| == |a| + |b| + |c| + |d| + |e| + |f| + |g| + |i|
  }

  lemma Layout8(a: seq<byte>, b: seq<byte>, c: seq<byte>, d: seq<byte>,
                e: seq<byte>, f: seq<byte>, g: seq<byte>, i: seq<byte>)
    ensures At8(a + b + c + d + e + f + g + i, a, b, c, d, e, f, g, i)
  {
    assert At(a, 0, a);
    Appended(a, b);
    Appended(a + b, c);
    Appended(a + b + c, d);
    Appended(a + b + c + d, e);
    Appended(a + b + c + d + e, f);
    Appended(a + b + c + d + e + f, g);
    Appended(a + b + c + d + e + f + g, i);
  }

  /** Every field sits at its place in `full`. */
  ghost predicate LaidOut(full: seq<byte>, h: CacheHints)
    requires h.InRange()
  {
    At8(full, NumberField(h.staleWhileRevalidate), FlagField(h.immutable), StringField(h.etag),
        StringField(h.lastModified), FlagField(h.noStore), FlagField(h.isPrivate), FlagField(h.noCache),
        NumberField(h.maxAge))
  }

  lemma FieldsAt(full: seq<byte>, h: CacheHints)
    requires h.InRange() && LaidOut(full, h)
    ensures At(full, 0, NumberField(h.staleWhileRevalidate)) && At(full, P1(h), FlagField(h.immutable))
    ensures At(full, P2(h), StringField(h.etag)) && At(full, P3(h), StringField(h.lastModified))
    ensures At(full, P4(h), FlagField(h.noStore)) && At(full, P5(h), FlagField(h.isPrivate))
    ensures At(full, P6(h), FlagField(h.noCache)) && At(full, P7(h), NumberField(h.maxAge))
    ensures |full| == P7(h) + |NumberField(h.maxAge)|
  {
    hide NumberField, FlagField, StringField, At;
  }

  lemma Layout(h: CacheHints)
    requires h.InRange()
    ensures LaidOut(Blob(h), h)
  {
    Layout8(NumberField(h.staleWhileRevalidate), FlagField(h.immutable), StringField(h.etag),
            StringField(h.lastModified), FlagField(h.noStore), FlagField(h.isPrivate), FlagField(h.noCache),
            NumberField(h.maxAge));
  }

  /** A non-zero byte is never trimmed, nor anything before it. */
  lemma NonzeroKept(full: seq<byte>, p: nat, field: seq<byte>, j: nat)
    requires At(full, p, field) && j < |field| && field[j] != 0
    ensures p + j < |TrimZeros(full)|
  {
  }

  lemma StaleWindowKept(h: CacheHints, full: seq<byte>)
    requires h.InRange() && !h.DisallowCaching() && LaidOut(full, h)
    requires h.staleWhileRevalidate.Some?
    requires !(OnlyStaleWindow(h) && LastByteZero(h.staleWhileRevalidate))
    ensures 5 <= |TrimZeros(full)|
  {
    FieldsAt(full, h);
    hide LaidOut, At, TrimZeros;
    if !LastByteZero(h.staleWhileRevalidate) {
      NonzeroKept(full, 0, NumberField(h.staleWhileRevalidate), 4);
    } else if h.immutable {
      NonzeroKept(full, P1(h), FlagField(h.immutable), 0);
    } else if Stored(h.etag).Some? {
      NonzeroKept(full, P2(h), StringField(h.etag), 0);
    } else if Stored(h.lastModified).Some? {
      NonzeroKept(full, P3(h), StringField(h.lastModified), 0);
    } else if h.noCache {
      NonzeroKept(full, P6(h), FlagField(h.noCache), 0);
    } else {
      NonzeroKept(full, P7(h), NumberField(h.maxAge), 0);
    }
  }

  /** The record read back after trimming, when the first field was not cut. */
  lemma RecordSurvives(h: CacheHints, epoch: nat)
    requires h.InRange() && !h.DisallowCaching() && epoch != 0
    requires NoTrailingNul(h.etag) && NoTrailingNul(h.lastModified)
    requires !(OnlyStaleWindow(h) && LastByteZero(h.staleWhileRevalidate))
    ensures DecodeBlob(epoch, TrimZeros(Blob(h)))
         == h.(expiresAt := Some(epoch), etag := Stored(h.etag), lastModified := Stored(h.lastModified),
               maxAge := if LastByteZero(h.maxAge) then None else h.maxAge)
  {
    Layout(h);
    hide LaidOut, DecodeBlob, Blob, LastByteZero, Stored, NoTrailingNul, OnlyStaleWindow;
    CutRecordRead(Blob(h), TrimZeros(Blob(h)), h, epoch);
  }

  lemma CutRecordRead(full: seq<byte>, t: seq<byte>, h: CacheHints, epoch: nat)
    requires h.InRange() && !h.DisallowCaching() && epoch != 0
    requires NoTrailingNul(h.etag) && NoTrailingNul(h.lastModified)
    requires !(OnlyStaleWindow(h) && LastByteZero(h.staleWhileRevalidate))
    requires LaidOut(full, h) && t == TrimZeros(full)
    ensures DecodeBlob(epoch, t)
         == h.(expiresAt := Some(epoch), etag := Stored(h.etag), lastModified := Stored(h.lastModified),
               maxAge := if LastByteZero(h.maxAge) then None else h.maxAge)
  {
    hide LaidOut, DecodeBlob, LastByteZero, Stored, NoTrailingNul, OnlyStaleWindow, Trimmed;
    FieldsAt(full, h);
    TrimLeaves(full);
    if h.staleWhileRevalidate.Some? {
      StaleWindowKept(h, full);
    }
    hide NumberField, At;
    TrimmedRecordRead(full, |t|, h, epoch);
  }

  lemma TrimLeaves(full: seq<byte>)
    requires full != []
    ensures var n := |TrimZeros(full)|;
      && TrimZeros(full) == full[..n] && Trimmed(full, n) && 1 <= n && (n > 1 ==> full[n - 1] != 0)
  {
    assert TrimZeros(full) != [];
  }

  lemma TrimmedRecordRead(full: seq<byte>, n: nat, h: CacheHints, epoch: nat)
    requires h.InRange() && !h.DisallowCaching() && epoch != 0
    requires NoTrailingNul(h.etag) && NoTrailingNul(h.lastModified)
    requires LaidOut(full, h) && Trimmed(full, n) && 1 <= n && (n > 1 ==> full[n - 1] != 0)
    requires h.staleWhileRevalidate.Some? ==> 5 <= n
    ensures DecodeBlob(epoch, full[..n])
         == h.(expiresAt := Some(epoch), etag := Stored(h.etag), lastModified := Stored(h.lastModified),
               maxAge := if LastByteZero(h.maxAge) then None else h.maxAge)
  {
    NumberAndImmutableRead(full, n, h);
    EtagRead(full, n, h);
    LastModifiedRead(full, n, h);
    NoStoreRead(full, n, h);
    PrivateRead(full, n, h);
    NoCacheRead(full, n, h);
    MaxAgeRead(full, n, h);
    BlobFromFields(epoch, full[..n], Min(P1(h), n), Min(P2(h), n), Min(P3(h), n), Min(P4(h), n), Min(P5(h), n),
                   Min(P6(h), n), Min(P7(h), n));
  }

  lemma NumberAndImmutableRead(full: seq<byte>, n: nat, h: CacheHints)
    requires h.InRange() && LaidOut(full, h) && Trimmed(full, n)
    requires h.staleWhileRevalidate.Some? ==> 5 <= n
    ensures TakeNumber(full[..n], 0) == (h.staleWhileRevalidate, Min(P1(h), n))
    ensures TakeFlag(full[..n], Min(P1(h), n), false) == (h.immutable, Min(P2(h), n))
  {
    hide LaidOut, At, NumberField, StringField, TakeNumber, TakeFlag, TakeString, Stored, Trimmed;
    FieldsAt(full, h);
    NumberSurvives(full, 0, h.staleWhileRevalidate, n);
    FlagSurvives(full, P1(h), h.immutable, n);
  }

  lemma EtagRead(full: seq<byte>, n: nat, h: CacheHints)
    requires h.InRange() && LaidOut(full, h) && Trimmed(full, n)
    requires NoTrailingNul(h.etag)
    ensures TakeString(full[..n], Min(P2(h), n)) == (Stored(h.etag), Min(P3(h), n))
  {
    hide LaidOut, At, NumberField, StringField, TakeNumber, TakeFlag, TakeString, Stored, Trimmed;
    FieldsAt(full, h);
    StringSurvives(full, P2(h), h.etag, n);
  }

  lemma LastModifiedRead(full: seq<byte>, n: nat, h: CacheHints)
    requires h.InRange() && LaidOut(full, h) && Trimmed(full, n)
    requires NoTrailingNul(h.lastModified)
    ensures TakeString(full[..n], Min(P3(h), n)) == (Stored(h.lastModified), Min(P4(h), n))
  {
    hide LaidOut, At, NumberField, StringField, TakeNumber, TakeFlag, TakeString, Stored, Trimmed;
    FieldsAt(full, h);
    StringSurvives(full, P3(h), h.lastModified, n);
  }

  lemma NoStoreRead(full: seq<byte>, n: nat, h: CacheHints)
    requires h.InRange() && LaidOut(full, h) && Trimmed(full, n)
    ensures TakeFlag(full[..n], Min(P4(h), n), false) == (h.noStore, Min(P5(h), n))
  {
    hide LaidOut, At, NumberField, StringField, TakeNumber, TakeFlag, TakeString, Stored, Trimmed;
    FieldsAt(full, h);
    FlagSurvives(full, P4(h), h.noStore, n);
  }

  lemma PrivateRead(full: seq<byte>, n: nat, h: CacheHints)
    requires h.InRange() && LaidOut(full, h) && Trimmed(full, n)
    ensures TakeFlag(full[..n], Min(P5(h), n), false) == (h.isPrivate, Min(P6(h), n))
  {
    hide LaidOut, At, NumberField, StringField, TakeNumber, TakeFlag, TakeString, Stored, Trimmed;
    FieldsAt(full, h);
    FlagSurvives(full, P5(h), h.isPrivate, n);
  }

  lemma NoCacheRead(full: seq<byte>, n: nat, h: CacheHints)
    requires h.InRange() && LaidOut(full, h) && Trimmed(full, n)
    ensures TakeFlag(full[..n], Min(P6(h), n), false) == (h.noCache, Min(P7(h), n))
  {
    hide LaidOut, At, NumberField, StringField, TakeNumber, TakeFlag, TakeString, Stored, Trimmed;
    FieldsAt(full, h);
    FlagSurvives(full, P6(h), h.noCache, n);
  }

  lemma MaxAgeRead(full: seq<byte>, n: nat, h: CacheHints)
    requires h.InRange() && LaidOut(full, h) && Trimmed(full, n)
    requires n > 1 ==> full[n - 1] != 0
    ensures TakeNumber(full[..n], Min(P7(h), n)).0 == if LastByteZero(h.maxAge) then None else h.maxAge
  {
    hide LaidOut, At, NumberField, StringField, TakeNumber, TakeFlag, TakeString, Stored, Trimmed;
    FieldsAt(full, h);
    LastNumberSurvives(full, P7(h), h.maxAge, n);
  }

  /** The record as its eight reads, when each starts where the one before it stopped. */
  lemma BlobFromFields(epoch: nat, t: seq<byte>, p1: nat, p2: nat, p3: nat, p4: nat, p5: nat, p6: nat, p7: nat)
    requires epoch != 0
    requires TakeNumber(t, 0).1 == p1 && TakeFlag(t, p1, false).1 == p2 && TakeString(t, p2).1 == p3
    requires TakeString(t, p3).1 == p4 && TakeFlag(t, p4, false).1 == p5 && TakeFlag(t, p5, false).1 == p6
    requires TakeFlag(t, p6, false).1 == p7
    ensures DecodeBlob(epoch, t)
         == CacheHints(Some(epoch), TakeNumber(t, 0).0, TakeNumber(t, p7).0, TakeFlag(t, p1, false).0,
                       TakeString(t, p2).0, TakeString(t, p3).0, TakeFlag(t, p4, false).0,
                       TakeFlag(t, p5, false).0, TakeFlag(t, p6, false).0)
  {
  }

  /**
   A lone window whose bytes, cut short and read one field late, look like an
   ETag of one byte: 65536 + 256 c seconds, give or take multiples of 2^24.
   */
  predicate PhantomWindow(h: CacheHints) {
    && OnlyStaleWindow(h)
    && h.staleWhileRevalidate.value % 0x100 == 0
    && h.staleWhileRevalidate.value / 0x100 % 0x100 != 0
    && h.staleWhileRevalidate.value / 0x1_0000 % 0x100 == 1
  }

  /** The record of a lone window: its length, its four bytes, and seven empty fields. */
  lemma LoneWindowBlob(h: CacheHints)
    requires h.InRange() && !h.DisallowCaching() && OnlyStaleWindow(h)
    ensures Blob(h) == [4] + Word(h.staleWhileRevalidate.value) + [0, 0, 0, 0, 0, 0, 0]
  {
  }

  /** What is left of a lone window that lost its last byte. */
  lemma LoneWindowTrimmed(h: CacheHints)
    requires h.InRange() && !h.DisallowCaching()
    requires OnlyStaleWindow(h) && LastByteZero(h.staleWhileRevalidate)
    ensures var b, t := Word(h.staleWhileRevalidate.value), TrimZeros(Blob(h));
      && 1 <= |t| <= 4 && t == [4, b[0], b[1], b[2]][..|t|]
      && (|t| > 1 ==> t[|t| - 1] != 0)
      && (|t| < 4 ==> b[2] == 0)
  {
    var b, full, t := Word(h.staleWhileRevalidate.value), Blob(h), TrimZeros(Blob(h));
    LoneWindowBlob(h);
    assert full == [4, b[0], b[1], b[2]] + [0, 0, 0, 0, 0, 0, 0, 0];
    assert full[3] == b[2];
    assert full[..|t|] == [4, b[0], b[1], b[2]][..|t|];
  }

  /** What such a remnant reads as: nothing, or an ETag of one byte. */
  lemma RemnantRead(t: seq<byte>, b: seq<byte>, epoch: nat)
    requires epoch != 0 && |b| == 4
    requires 1 <= |t| <= 4 && t == [4, b[0], b[1], b[2]][..|t|]
    requires |t| > 1 ==> t[|t| - 1] != 0
    requires |t| < 4 ==> b[2] == 0
    ensures var d := DecodeBlob(epoch, t);
      && d.expiresAt == Some(epoch) && d.staleWhileRevalidate.None? && d.maxAge.None?
      && !d.noStore && !d.isPrivate && !d.noCache && d.lastModified.None?
      && d.etag == if b[2] != 0 && b[1] == 1 then Some([b[2]]) else None
  {
    assert t[0] == 4;
    assert TakeNumber(t, 0) == (None, 1);
    var p2 := TakeFlag(t, 1, false).1;
    var (etag, p3) := TakeString(t, p2);
    if |t| == 4 {
      assert t[1] == b[0] && t[2] == b[1] && t[3] == b[2];
      assert t[3..4] == [b[2]];
    }
    var (modified, p4) := TakeString(t, p3);
    assert etag == if b[2] != 0 && b[1] == 1 then Some([b[2]]) else None;
    assert modified.None? && p4 >= |t|;
  }

  /** A lone window that lost its last byte: whatever it is misread as, nothing past the ETag is touched. */
  lemma LoneWindowMisread(h: CacheHints, epoch: nat)
    requires h.InRange() && !h.DisallowCaching() && epoch != 0
    requires OnlyStaleWindow(h) && LastByteZero(h.staleWhileRevalidate)
    ensures var d := DecodeBlob(epoch, TrimZeros(Blob(h)));
      && d.expiresAt == Some(epoch) && d.staleWhileRevalidate.None? && d.maxAge.None?
      && !d.noStore && !d.isPrivate && !d.noCache && d.lastModified.None?
      && (d.etag.Some? <==> PhantomWindow(h))
      && (d.etag.Some? ==> d.etag == Some([h.staleWhileRevalidate.value / 0x100 % 0x100]))
  {
    LoneWindowTrimmed(h);
    RemnantRead(TrimZeros(Blob(h)), Word(h.staleWhileRevalidate.value), epoch);
  }

  //  The whole token

  lemma TokenOpens(h: CacheHints, ttl: nat, now: nat)
    requires h.InRange() && !h.DisallowCaching() && Epoch(h, ttl, now) <= U64_MAX
    ensures FromToken(Token(h, ttl, now)) == Some(DecodeBlob(Epoch(h, ttl, now), TrimZeros(Blob(h))))
  {
    var epoch, t := Epoch(h, ttl, now), TrimZeros(Blob(h));
    var head, tail := Print(epoch, 16), Base64.Encode(t);
    var wire := Token(h, ttl, now);
    assert wire == head + [':'] + tail;
    IndexOfJoin(head, ':', tail);
    assert wire[..|head|] == head && wire[|head| + 1..] == tail;
    ParsePrint(epoch, 16, U64_MAX);
    Base64.DecodeEncode(t);
    assert Blob(h) != [];
    assert tail != "";
  }

  /** What a reader of the token gets back. */
  lemma {:induction false} TokenRoundTrip(h: CacheHints, ttl: nat, now: nat)
    requires h.InRange() && !h.DisallowCaching() && 0 < Epoch(h, ttl, now) <= U64_MAX
    requires NoTrailingNul(h.etag) && NoTrailingNul(h.lastModified)
    requires !(OnlyStaleWindow(h) && LastByteZero(h.staleWhileRevalidate))
    ensures FromToken(Token(h, ttl, now))
         == Some(h.(expiresAt := Some(Epoch(h, ttl, now)),
                    etag := Stored(h.etag), lastModified := Stored(h.lastModified),
                    maxAge := if LastByteZero(h.maxAge) then None else h.maxAge))
  {
    TokenOpens(h, ttl, now);
    RecordSurvives(h, Epoch(h, ttl, now));
  }

  /** The token gives every field back exactly when trimming cuts into neither number. */
  lemma TokenFaithfulIff(h: CacheHints, ttl: nat, now: nat)
    requires h.InRange() && !h.DisallowCaching() && 0 < Epoch(h, ttl, now) <= U64_MAX
    requires NoTrailingNul(h.etag) && NoTrailingNul(h.lastModified)
    requires Whole(h.etag) && Whole(h.lastModified)
    ensures FromToken(Token(h, ttl, now)) == Some(h.(expiresAt := Some(Epoch(h, ttl, now))))
       <==> !LastByteZero(h.maxAge) && !(OnlyStaleWindow(h) && LastByteZero(h.staleWhileRevalidate))
  {
    if OnlyStaleWindow(h) && LastByteZero(h.staleWhileRevalidate) {
      TokenOpens(h, ttl, now);
      LoneWindowMisread(h, Epoch(h, ttl, now));
    } else {
      TokenRoundTrip(h, ttl, now);
    }
  }

  /** Freshness survives the wire even where trimming makes the decoder misread other fields. */
  lemma FreshnessSurvives(h: CacheHints, ttl: nat, encodedAt: nat, now: nat)
    requires h.InRange() && !h.DisallowCaching()
    requires h.expiresAt.Some? && h.expiresAt.value != 0
    requires NoTrailingNul(h.etag) && NoTrailingNul(h.lastModified)
    requires now >= 1
    ensures FromToken(Token(h, ttl, encodedAt)).Some?
    ensures FromToken(Token(h, ttl, encodedAt)).value.IsFresh(now) == h.IsFresh(now)
  {
    if OnlyStaleWindow(h) && LastByteZero(h.staleWhileRevalidate) {
      TokenOpens(h, ttl, encodedAt);
      LoneWindowMisread(h, Epoch(h, ttl, encodedAt));
    } else {
      TokenRoundTrip(h, ttl, encodedAt);
    }
  }

  /** The token of any hints is fresh until their expiry or, without one, until the lifetime it was encoded with is over. */
  lemma TokenFreshUntil(h: CacheHints, ttl: nat, encodedAt: nat, now: nat)
    requires h.InRange() && !h.DisallowCaching() && 0 < Epoch(h, ttl, encodedAt) <= U64_MAX
    requires NoTrailingNul(h.etag) && NoTrailingNul(h.lastModified) && now >= 1
    ensures FromToken(Token(h, ttl, encodedAt)).Some?
    ensures FromToken(Token(h, ttl, encodedAt)).value.IsFresh(now)
       <==> !h.noCache && now < h.expiresAt.GetOr(encodedAt + ttl)
  {
    var epoch := Epoch(h, ttl, encodedAt);
    TokenOpens(h, ttl, encodedAt);
    hide FromToken, Token;
    if OnlyStaleWindow(h) && LastByteZero(h.staleWhileRevalidate) {
      LoneWindowMisread(h, epoch);
    } else {
      hide OnlyStaleWindow, LastByteZero, DecodeBlob, TrimZeros, Blob;
      RecordSurvives(h, epoch);
    }
  }


  /** Validators that come back as they were sent, so that the token still names its representation. */
  predicate ValidatorsSafe(h: CacheHints) {
    && NoTrailingNul(h.etag) && NoTrailingNul(h.lastModified)
    && Whole(h.etag) && Whole(h.lastModified)
    && !PhantomWindow(h)
  }

  /** Validators read from the token are those the hints had. */
  lemma ValidatorsSurvive(h: CacheHints, ttl: nat, now: nat)
    requires h.InRange() && !h.DisallowCaching() && 0 < Epoch(h, ttl, now) <= U64_MAX
    requires ValidatorsSafe(h)
    ensures var d := FromToken(Token(h, ttl, now));
      d.Some? && d.value.etag == h.etag && d.value.lastModified == h.lastModified
  {
    if OnlyStaleWindow(h) && LastByteZero(h.staleWhileRevalidate) {
      TokenOpens(h, ttl, now);
      LoneWindowMisread(h, Epoch(h, ttl, now));
    } else {
      TokenRoundTrip(h, ttl, now);
    }
  }

  /** The conditional request read from the token is the one the hints stood for, exactly without a phantom window. */
  lemma ConditionalSurvivesIff(h: CacheHints, ttl: nat, now: nat)
    requires h.InRange() && !h.DisallowCaching() && 0 < Epoch(h, ttl, now) <= U64_MAX
    requires NoTrailingNul(h.etag) && NoTrailingNul(h.lastModified)
    requires Whole(h.etag) && Whole(h.lastModified)
    ensures FromToken(Token(h, ttl, now)).Some?
    ensures FromToken(Token(h, ttl, now)).value.ToConditional() == h.ToConditional() <==> !PhantomWindow(h)
  {
    if PhantomWindow(h) {
      TokenOpens(h, ttl, now);
      LoneWindowMisread(h, Epoch(h, ttl, now));
    } else {
      ValidatorsSurvive(h, ttl, now);
    }
  }

  /** A window of 82176 seconds comes back as an ETag "A" that nobody ever sent. */
  lemma PhantomExample(ttl: nat, now: nat)
    requires 0 < now && now + ttl <= U64_MAX
    ensures var h := EMPTY.(staleWhileRevalidate := Some(82176));
      && h.ToConditional().None?
      && FromToken(Token(h, ttl, now)).Some?
      && FromToken(Token(h, ttl, now)).value.ToConditional() == Some(IfNoneMatch([65]))
  {
    hide FromToken, Token, Blob, TrimZeros, DecodeBlob;
    var h := EMPTY.(staleWhileRevalidate := Some(82176));
    assert PhantomWindow(h);
    TokenOpens(h, ttl, now);
    LoneWindowMisread(h, Epoch(h, ttl, now));
  }

  /** A lifetime of thirty days, 2592000 seconds, does not survive; everything else does. */
  lemma {:induction false} ThirtyDaysLost(h: CacheHints, ttl: nat, now: nat)
    requires h.InRange() && !h.DisallowCaching() && 0 < Epoch(h, ttl, now) <= U64_MAX
    requires NoTrailingNul(h.etag) && NoTrailingNul(h.lastModified)
    requires Whole(h.etag) && Whole(h.lastModified)
    requires h.maxAge == Some(2592000)
    ensures FromToken(Token(h, ttl, now)) == Some(h.(expiresAt := Some(Epoch(h, ttl, now)), maxAge := None))
  {
    hide FromToken, Token, Epoch, NoTrailingNul;
    assert LastByteZero(h.maxAge);
    TokenRoundTrip(h, ttl, now);
  }

  const SAMPLE: CacheHints := CacheHints(Some(9), Some(60), Some(5), true, Some([97]), Some([98]), false, false, true)

  lemma SampleFields()
    ensures NumberField(SAMPLE.staleWhileRevalidate) == [4, 0, 0, 0, 60] && NumberField(SAMPLE.maxAge) == [4, 0, 0, 0, 5]
    ensures StringField(SAMPLE.etag) == [1, 97] && StringField(SAMPLE.lastModified) == [1, 98]
  {
    assert Word(60) == [0, 0, 0, 60] && Word(5) == [0, 0, 0, 5];
  }

  /** A whole record: every field in its place, 1 for a flag, 4 in front of a number, a length in front of text. */
  lemma RecordExample()
    ensures SAMPLE.InRange()
    ensures TrimZeros(Blob(SAMPLE)) == [4, 0, 0, 0, 60, 1, 1, 97, 1, 98, 0, 0, 1, 4, 0, 0, 0, 5]
  {
    SampleFields();
    hide NumberField, StringField;
    var record: seq<byte> := [4, 0, 0, 0, 60, 1, 1, 97, 1, 98, 0, 0, 1, 4, 0, 0, 0, 5];
    assert Blob(SAMPLE) == [4, 0, 0, 0, 60] + [1] + [1, 97] + [1, 98] + [0] + [0] + [1] + [4, 0, 0, 0, 5];
    hide Blob;
    assert record[17] == 5 && Blob(SAMPLE) == record;
  }

  /** What must be validated every time has the epoch 1, so that nobody takes it for fresh. */
  lemma NoCacheToken(h: CacheHints, ttl: nat, now: nat)
    requires h.InRange() && !h.DisallowCaching() && h.noCache
    ensures Token(h, ttl, now) == "1:" + Base64.Encode(TrimZeros(Blob(h)))
  {
    hide Base64.Encode, TrimZeros, Blob;
    assert Print(1, 16) == ['1'];
    hide Print;
    assert ['1'] + ":" == "1:";
  }
}
