/**
 Cache hints and their opaque wire token: `hex_epoch:base64url(blob)`, where
 the blob is a positional record with its trailing zero bytes trimmed.
 */
module CacheHints {
  import opened Prelude
  import opened Text
  import Base64

  /** Validators are kept as their UTF-8 bytes. */
  datatype CacheHints = CacheHints(
    expiresAt: Option<nat>,
    staleWhileRevalidate: Option<nat>,
    maxAge: Option<nat>,
    immutable: bool,
    etag: Option<seq<byte>>,
    lastModified: Option<seq<byte>>,
    noStore: bool,
    isPrivate: bool,
    noCache: bool)
  {
    predicate DisallowCaching() {
      noStore || isPrivate
    }

    predicate IsFresh(now: nat) {
      !noCache && !DisallowCaching() && expiresAt.Some? && now < expiresAt.value
    }

    /** The conditional request these hints allow; an ETag takes precedence. */
    function ToConditional(): Option<Conditional> {
      if etag.Some? then Some(IfNoneMatch(etag.value))
      else if lastModified.Some? then Some(IfModifiedSince(lastModified.value))
      else None
    }

    /** Every number fits its machine word. */
    predicate InRange() {
      && (expiresAt.Some? ==> expiresAt.value <= U64_MAX)
      && (staleWhileRevalidate.Some? ==> staleWhileRevalidate.value <= U32_MAX)
      && (maxAge.Some? ==> maxAge.value <= U32_MAX)
    }
  }

  datatype Conditional = IfNoneMatch(tag: seq<byte>) | IfModifiedSince(date: seq<byte>)

  const EMPTY: CacheHints := CacheHints(None, None, None, false, None, None, false, false, false)

  //  The positional record

  function FlagField(b: bool): seq<byte> {
    if b then [1] else [0]
  }

  function NumberField(n: Option<nat>): (f: seq<byte>)
    requires n.Some? ==> n.value <= U32_MAX
    ensures f != [] && |f| == if n.Some? then 5 else 1
  {
    if n.Some? then [4] + Word(n.value) else [0]
  }

  function StringField(v: Option<seq<byte>>): (f: seq<byte>)
    ensures f != []
  {
    if v.Some? && v.value != [] then
      var len := Min(|v.value|, 255);
      [len] + v.value[..len]
    else [0]
  }

  function Blob(h: CacheHints): seq<byte>
    requires h.InRange()
  {
    NumberField(h.staleWhileRevalidate) + FlagField(h.immutable) + StringField(h.etag) + StringField(h.lastModified)
    + FlagField(h.noStore) + FlagField(h.isPrivate) + FlagField(h.noCache) + NumberField(h.maxAge)
  }

  /** Drop trailing zero bytes, but keep the first byte. */
  function TrimZeros(b: seq<byte>): (t: seq<byte>)
    ensures |t| <= |b| && t == b[..|t|]
    ensures b != [] ==> t != []
    ensures forall i :: |t| <= i < |b| ==> b[i] == 0
    ensures |t| > 1 ==> t[|t| - 1] != 0
  {
    if |b| > 1 && b[|b| - 1] == 0 then TrimZeros(b[..|b| - 1]) else b
  }

  function TakeNumber(buf: seq<byte>, pos: nat): (r: (Option<nat>, nat)) {
    if pos >= |buf| then (None, pos)
    else if buf[pos] == 4 && pos + 5 <= |buf| then (Some(BigEndian(buf, pos + 1, 4)), pos + 5)
    else (None, pos + 1)
  }

  function TakeFlag(buf: seq<byte>, pos: nat, default: bool): (r: (bool, nat)) {
    if pos >= |buf| then (default, pos) else (buf[pos] != 0, pos + 1)
  }

  function TakeString(buf: seq<byte>, pos: nat): (r: (Option<seq<byte>>, nat)) {
    if pos >= |buf| then (None, pos)
    else
      var len := buf[pos];
      if len == 0 || pos + 1 + len > |buf| then (None, pos + 1)
      else (Some(buf[pos + 1..pos + 1 + len]), pos + 1 + len)
  }

  /** Epoch 0 is the marker older tokens used for uncacheable. */
  function DecodeBlob(epoch: nat, buf: seq<byte>): CacheHints {
    var (swr, p1) := TakeNumber(buf, 0);
    var (immutable, p2) := TakeFlag(buf, p1, false);
    var (etag, p3) := TakeString(buf, p2);
    var (lastModified, p4) := TakeString(buf, p3);
    var (noStore, p5) := TakeFlag(buf, p4, epoch == 0);
    var (isPrivate, p6) := TakeFlag(buf, p5, false);
    var (noCache, p7) := TakeFlag(buf, p6, false);
    var (maxAge, _) := TakeNumber(buf, p7);
    CacheHints(if epoch == 0 then None else Some(epoch), swr, maxAge, immutable, etag, lastModified,
               noStore, isPrivate, noCache)
  }

  //  The token

  /** The expiry the token carries. */
  function Epoch(h: CacheHints, ttl: nat, now: nat): nat {
    if h.noCache then 1 else if h.expiresAt.Some? then h.expiresAt.value else now + ttl
  }

  function Token(h: CacheHints, ttl: nat, now: nat): string
    requires h.InRange()
  {
    if h.DisallowCaching() then ""
    else Print(Epoch(h, ttl, now), 16) + ":" + Base64.Encode(TrimZeros(Blob(h)))
  }

  function FromToken(wire: string): Option<CacheHints> {
    var colon := IndexOf(wire, ':');
    if colon == |wire| || wire[colon + 1..] == "" then None
    else
      var epoch := Parse(wire[..colon], 16, U64_MAX);
      var buf := Base64.Decode(wire[colon + 1..]);
      if epoch.None? || buf.None? then None else Some(DecodeBlob(epoch.value, buf.value))
  }

  /** Build the token: the record field by field, then trimmed. */
  method Encode(h: CacheHints, ttl: nat, now: nat) returns (wire: string)
    requires h.InRange()
    ensures wire == Token(h, ttl, now)
  {
    if h.noStore || h.isPrivate {
      return "";
    }
    var epoch := now + ttl;
    if h.noCache {
      epoch := 1;
    } else if h.expiresAt.Some? {
      epoch := h.expiresAt.value;
    }
    var buf := PushNumber([], h.staleWhileRevalidate);
    buf := buf + [if h.immutable then 1 else 0];
    buf := PushString(buf, h.etag);
    buf := PushString(buf, h.lastModified);
    buf := buf + [if h.noStore then 1 else 0];
    buf := buf + [if h.isPrivate then 1 else 0];
    buf := buf + [if h.noCache then 1 else 0];
    buf := PushNumber(buf, h.maxAge);
    assert [] + NumberField(h.staleWhileRevalidate) == NumberField(h.staleWhileRevalidate);
    ghost var blob := Blob(h);
    assert buf == blob;
    while |buf| > 1 && buf[|buf| - 1] == 0
      invariant TrimZeros(buf) == TrimZeros(blob)
    {
      buf := buf[..|buf| - 1];
    }
    wire := Print(epoch, 16) + ":" + Base64.Encode(buf);
  }

  method PushNumber(buf: seq<byte>, n: Option<nat>) returns (out: seq<byte>)
    requires n.Some? ==> n.value <= U32_MAX
    ensures out == buf + NumberField(n)
  {
    if n.Some? {
      out := buf + [4];
      out := out + Word(n.value);
    } else {
      out := buf + [0];
    }
  }

  method PushString(buf: seq<byte>, v: Option<seq<byte>>) returns (out: seq<byte>)
    ensures out == buf + StringField(v)
  {
    if v.Some? && v.value != [] {
      var len := Min(|v.value|, 255);
      out := buf + [len];
      out := out + v.value[..len];
    } else {
      out := buf + [0];
    }
  }

  /** Read the record back, advancing a position through the blob. */
  method Decode(wire: string) returns (r: Option<CacheHints>)
    ensures r == FromToken(wire)
  {
    var colon := IndexOf(wire, ':');
    if colon == |wire| {
      return None;
    }
    var blob := wire[colon + 1..];
    if blob == "" {
      return None;
    }
    var epoch := Parse(wire[..colon], 16, U64_MAX);
    if epoch.None? {
      return None;
    }
    var decoded := Base64.Decode(blob);
    if decoded.None? {
      return None;
    }
    var hints := DecodeRecord(epoch.value, decoded.value);
    return Some(hints);
  }

  method DecodeRecord(epoch: nat, buf: seq<byte>) returns (hints: CacheHints)
    ensures hints == DecodeBlob(epoch, buf)
  {
    hints := EMPTY.(expiresAt := Some(epoch));
    if epoch == 0 {
      hints := hints.(expiresAt := None, noStore := true);
    }
    var pos := 0;
    var number := PopNumber(buf, pos);
    hints, pos := hints.(staleWhileRevalidate := number.0), number.1;
    if pos < |buf| {
      hints := hints.(immutable := buf[pos] != 0);
      pos := pos + 1;
    }
    var text := PopString(buf, pos);
    hints, pos := hints.(etag := text.0), text.1;
    text := PopString(buf, pos);
    hints, pos := hints.(lastModified := text.0), text.1;
    if pos < |buf| {
      hints := hints.(noStore := buf[pos] != 0);
      pos := pos + 1;
    }
    if pos < |buf| {
      hints := hints.(isPrivate := buf[pos] != 0);
      pos := pos + 1;
    }
    if pos < |buf| {
      hints := hints.(noCache := buf[pos] != 0);
      pos := pos + 1;
    }
    number := PopNumber(buf, pos);
    hints := hints.(maxAge := number.0);
  }

  method PopNumber(buf: seq<byte>, start: nat) returns (r: (Option<nat>, nat))
    ensures r == TakeNumber(buf, start)
  {
    var number, pos := None, start;
    if pos < |buf| {
      var header := buf[pos];
      pos := pos + 1;
      if header == 4 && pos + 4 <= |buf| {
        number := Some(BigEndian(buf, pos, 4));
        pos := pos + 4;
      }
    }
    return (number, pos);
  }

  method PopString(buf: seq<byte>, start: nat) returns (r: (Option<seq<byte>>, nat))
    ensures r == TakeString(buf, start)
  {
    if start >= |buf| {
      return (None, start);
    }
    var len: nat := buf[start];
    var pos := start + 1;
    if len == 0 {
      return (None, pos);
    }
    if pos + len > |buf| {
      return (None, pos);
    }
    return (Some(buf[pos..pos + len]), pos + len);
  }
}
