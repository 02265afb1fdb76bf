/**
 Random-access reads over a forward-only HTTP body: page cache, tail Range
 fetch, artificial EOF and the one-way streaming mode.
 */
module HttpBuffer {
  import opened Prelude
  import opened PageCache
  import opened HttpStream

  /** How far ahead of the stream a tail page must lie to be requested on its own. */
  const STREAM_SKIP_THRESHOLD: nat := 500 * 1024
  /** The same threshold in streaming mode: 16 pages. */
  const STREAMING_SKIP_THRESHOLD: nat := 16 * 4096
  /** How much of the end counts as the tail. */
  const TAIL_FETCH_SIZE: nat := 60 * 1024

  /** First byte of the tail request, rounded down to a page. */
  function TailStart(length: nat): nat {
    SaturatingSub(length, TAIL_FETCH_SIZE) / PAGE_SIZE * PAGE_SIZE
  }

  /** The tail request begins at the last page boundary that leaves it the last 60 KiB. */
  lemma TailStartMeaning(length: nat)
    ensures TailStart(length) % 4096 == 0
    ensures TailStart(length) <= SaturatingSub(length, 61440) < TailStart(length) + 4096
  {
  }

  /** Last byte of the tail request; on an empty resource it wraps to the largest u64. */
  function TailEnd(length: nat): nat {
    if length == 0 then U64_MAX else length - 1
  }

  /** Page `i` holds every byte the resource has for it. */
  ghost predicate PageComplete(p: Pages, i: nat, length: nat) {
    i * PAGE_SIZE < length ==> |PageAt(p, i)| >= Min(PAGE_SIZE, length - i * PAGE_SIZE)
  }

  lemma CoverIsContiguous(p: Pages, n: nat)
    requires Covers(p, 0, n)
    ensures Contiguous(p, n)
  {
    if n % PAGE_SIZE > 0 {
      assert Has(p, n - 1);
      assert (n - 1) / PAGE_SIZE == n / PAGE_SIZE && (n - 1) % PAGE_SIZE == n % PAGE_SIZE - 1;
    }
  }

  lemma CoverCompletesPage(p: Pages, i: nat, from: nat, to: nat, length: nat)
    requires Covers(p, from, to)
    requires from <= i * PAGE_SIZE
    requires to == length || (i + 1) * PAGE_SIZE <= to
    ensures PageComplete(p, i, length)
  {
    if i * PAGE_SIZE < length {
      CoverFillsPage(p, i, from, to);
    }
  }

  lemma NothingStored(p: Pages, start: nat, r: seq<byte>)
    requires Agrees(p, r)
    ensures StoreChunk(p, start, []) == p
  {
  }

  /** A complete page holds exactly what the resource has for it. */
  lemma FullPage(p: Pages, i: nat, r: seq<byte>)
    requires Agrees(p, r) && PageComplete(p, i, |r|)
    ensures |PageAt(p, i)| == Min(PAGE_SIZE, SaturatingSub(|r|, i * PAGE_SIZE))
  {
    var page := PageAt(p, i);
    if page != [] {
      PageIsSlice(p, r, i, 0, |page|);
    }
  }

  lemma SplitTail<T>(r: seq<T>, pos: nat, end: nat, front: seq<T>, back: seq<T>)
    requires pos <= end <= |r| && r[pos..end] == front + back
    ensures pos + |front| <= end
    ensures front == r[pos..pos + |front|] && back == r[pos + |front|..end]
  {
    assert front == r[pos..end][..|front|] && back == r[pos..end][|front|..];
  }

  lemma SliceOfSlice<T>(r: seq<T>, a: nat, b: nat, c: nat, d: nat)
    requires a <= b <= |r| && c <= d <= b - a
    ensures r[a..b][c..d] == r[a + c..a + d]
  {
    var s := r[a..b];
    forall i | 0 <= i < d - c
      ensures s[c..d][i] == r[a + c..a + d][i]
    {
      assert s[c..d][i] == s[c + i] == r[a + (c + i)];
    }
  }

  lemma JoinSlices<T>(r: seq<T>, a: nat, b: nat, c: nat)
    requires a <= b <= c <= |r|
    ensures r[a..b] + r[b..c] == r[a..c]
  {
  }

  /**
   The stream was left at `pos` as soon as possible: what was pulled last, if
   anything, is a chunk that began in front of `bound`.
   */
  ghost predicate NoFurther(before: seq<StreamEvent>, after: seq<StreamEvent>, pos: nat, bound: nat) {
    after != before ==>
      && |after| < |before| && after == before[|before| - |after|..]
      && before[|before| - |after| - 1].Chunk?
      && pos - |before[|before| - |after| - 1].bytes| < bound
  }

  /** All of the resource is sent, and its first `end` bytes are delivered. */
  ghost predicate Delivers(sent: seq<StreamEvent>, r: seq<byte>, end: nat) {
    Sent(sent) == r && |Body(sent)| == end
  }

  class HttpBuffer {
    /** The bytes of the remote resource; the code never sees them as a whole. */
    ghost const resource: seq<byte>
    /** The response carried a Content-Length. */
    ghost const advertised: bool
    /** What the server sends on the primary stream. */
    ghost const sent: seq<StreamEvent>
    /** Where the primary stream ends: at the end of the resource, unless a failure cuts it off. */
    ghost const end: nat
    const stream: ByteStream
    const server: RangeServer
    const acceptsRanges: bool

    var contentLength: Option<nat>
    var cursor: nat
    var streamPos: nat
    var bytesFetched: nat
    var pages: Pages
    var eofOverride: Option<nat>
    var streamingMode: bool
    var streamingChunk: seq<byte>
    var streamingChunkStart: nat
    var didTailFetch: bool
    /** Range requests issued so far. */
    var rangeRequests: nat

    /** Bytes that came from Range requests rather than the primary stream. */
    ghost var rangedBytes: nat
    ghost var closed: bool

    ghost predicate Valid()
      reads this, stream
    {
      && !closed
      && cursor <= U64_MAX && |resource| <= U64_MAX
      && Honest(server, resource)
      && Delivers(sent, resource, end)
      && streamPos <= end <= |resource| && Body(stream.events) == resource[streamPos..end]
      // a length that was not advertised is learned only at the end of the primary stream
      && (advertised ==> contentLength == Some(|resource|))
      && (!advertised && contentLength.Some? ==> contentLength.value == end && streamPos == end)
      && Agrees(pages, resource)
      && (!streamingMode ==> Covers(pages, 0, streamPos))
      && streamingChunkStart + |streamingChunk| <= |resource|
      && streamingChunk == resource[streamingChunkStart..streamingChunkStart + |streamingChunk|]
      && (didTailFetch && advertised ==> Covers(pages, TailStart(|resource|), |resource|))
      && (!streamingMode && didTailFetch ==> advertised)
      && bytesFetched == streamPos + rangedBytes
    }

    /** The server answers the next Range request, if it is this one, without a failure. */
    ghost predicate Served(first: nat, last: nat)
      reads this`rangeRequests
    {
      Serves(server, RangeRequest(first, last, rangeRequests))
    }

    /** The same for the request of the tail. */
    ghost predicate TailServed()
      reads this`rangeRequests
    {
      Served(TailStart(|resource|), TailEnd(|resource|))
    }

    /** The same for the request made on the strength of the length known so far. */
    ghost predicate KnownTailServed()
      reads this`rangeRequests, this`contentLength
    {
      contentLength.Some? ==> Served(TailStart(contentLength.value), TailEnd(contentLength.value))
    }

    /** Nothing is going to fail: not the stream, nor the tail request if there is still one to come. */
    ghost predicate Reliable()
      reads this`rangeRequests, this`didTailFetch, stream
    {
      Clean(stream.events) && (acceptsRanges && !didTailFetch ==> TailServed())
    }

    /** An incomplete page in the last 60 KiB, more than 500 KiB ahead of the stream. */
    ghost predicate FarTail(pageIndex: nat)
      reads this
    {
      && contentLength.Some? && acceptsRanges
      && var start, length := pageIndex * PAGE_SIZE, contentLength.value;
         && start < length <= start + 61440 && start > streamPos + 512000
         && |PageAt(pages, pageIndex)| < Min(PAGE_SIZE, length - start)
    }

    /** In streaming mode: a cursor in the last 60 KiB, more than 64 KiB ahead of the stream. */
    ghost predicate FarByte()
      reads this
    {
      acceptsRanges && contentLength.Some? && contentLength.value <= cursor + 61440 && cursor > streamPos + 65536
    }

    /** The cursor is at or past the artificial EOF or, without one, the known length. */
    ghost predicate AtEof()
      reads this
    {
      var eof := if eofOverride.Some? then eofOverride else contentLength;
      eof.Some? && eof.value <= cursor
    }

    /** Where reads end: the end of the resource, or the artificial EOF if that comes first. */
    ghost function VisibleEnd(): nat
      reads this
    {
      Min(|resource|, eofOverride.GetOr(|resource|))
    }

    /** How far reads are sure to get; a body that is cut off may end earlier. */
    ghost function SureEnd(): nat
      reads this
    {
      Min(end, eofOverride.GetOr(end))
    }

    /** Byte `k` sits in the rolling chunk of streaming mode. */
    predicate InChunk(k: nat)
      reads this
    {
      streamingChunkStart <= k < streamingChunkStart + |streamingChunk|
    }

    /** Where page `i` ends, or the resource if that comes first. */
    ghost function PageGoal(i: nat): nat
      reads this
    {
      Max(i * PAGE_SIZE, Min((i + 1) * PAGE_SIZE, contentLength.GetOr((i + 1) * PAGE_SIZE)))
    }

    /** How many bytes from `k` on one read can give in streaming mode: to the end of the page, or of the rolling chunk. */
    ghost function Available(k: nat): nat
      reads this
    {
      if Has(pages, k) then |PageAt(pages, k / PAGE_SIZE)| - k % PAGE_SIZE
      else if InChunk(k) then streamingChunkStart + |streamingChunk| - k
      else 0
    }

    /** Every byte the stream has passed at or after the cursor can still be served. */
    ghost predicate ForwardReady()
      reads this
    {
      forall k: nat :: cursor <= k < streamPos ==> Has(pages, k) || InChunk(k)
    }

    constructor Open(stream: ByteStream, server: RangeServer, contentLength: Option<nat>, acceptsRanges: bool,
                     ghost resource: seq<byte>)
      requires |resource| <= U64_MAX
      requires Sent(stream.events) == resource
      requires Honest(server, resource)
      requires contentLength.Some? ==> contentLength.value == |resource|
      ensures Valid() && ForwardReady()
      ensures this.stream == stream && this.resource == resource && this.server == server
      ensures this.contentLength == contentLength && this.acceptsRanges == acceptsRanges
      ensures cursor == 0 && streamPos == 0 && pages == map[] && eofOverride == None
      ensures advertised == contentLength.Some? && sent == stream.events && end == |Body(stream.events)|
      ensures !streamingMode && !didTailFetch && rangeRequests == 0
    {
      this.resource, this.stream, this.server := resource, stream, server;
      this.contentLength, this.acceptsRanges := contentLength, acceptsRanges;
      cursor, streamPos, bytesFetched := 0, 0, 0;
      pages, eofOverride := map[], None;
      streamingMode, streamingChunk, streamingChunkStart := false, [], 0;
      didTailFetch, rangeRequests := false, 0;
      rangedBytes, closed := 0, false;
      advertised, sent, end := contentLength.Some?, stream.events, |Body(stream.events)|;
      BodyOfSent(stream.events);
    }

    method Seek(offset: nat)
      requires Valid() && offset <= U64_MAX
      modifies this`cursor
      ensures Valid() && cursor == offset
      ensures old(ForwardReady()) && old(cursor) <= offset ==> ForwardReady()
    {
      cursor := offset;
    }

    method Rewind()
      requires Valid()
      modifies this`cursor
      ensures Valid() && cursor == 0
    {
      cursor := 0;
    }

    method SeekRelative(delta: int)
      requires Valid()
      modifies this`cursor
      ensures Valid()
      ensures cursor == if delta < 0 then SaturatingSub(old(cursor), -delta) else SaturatingAdd(old(cursor), delta)
      ensures old(ForwardReady()) && 0 <= delta ==> ForwardReady()
    {
      if delta < 0 {
        cursor := SaturatingSub(cursor, -delta);
      } else {
        cursor := SaturatingAdd(cursor, delta);
      }
    }

    method SetEof(len: nat)
      requires Valid()
      modifies this`eofOverride
      ensures Valid() && eofOverride == Some(len)
    {
      eofOverride := Some(len);
    }

    method ClearEof()
      requires Valid()
      modifies this`eofOverride
      ensures Valid() && eofOverride == None
    {
      eofOverride := None;
    }

    /** One-way.  Coming from cached mode, everything passed so far is still held. */
    method EnterStreamingMode()
      requires Valid()
      modifies this`streamingMode
      ensures Valid() && streamingMode
      ensures !old(streamingMode) || old(ForwardReady()) ==> ForwardReady()
    {
      streamingMode := true;
    }

    /** Gives back the first page, and ends the buffer's life. */
    method Close() returns (page0: Option<seq<byte>>)
      requires Valid()
      modifies this`pages, this`closed
      ensures closed && pages == old(pages) - {0}
      ensures page0.Some? <==> 0 in old(pages)
      ensures page0.Some? ==> |page0.value| <= |resource| && page0.value == resource[..|page0.value|]
    {
      page0 := if 0 in pages then Some(pages[0]) else None;
      if 0 in pages && pages[0] != [] {
        PageIsSlice(pages, resource, 0, 0, |pages[0]|);
      }
      pages := pages - {0};
      closed := true;
    }

    //  Page cache population

    /** One turn of the store loop: fill or skip within one page. */
    method StoreTurn(offset: nat, bytes: seq<byte>) returns (used: nat)
      requires Sized(pages) && bytes != []
      modifies this`pages
      ensures (pages, used) == StoreStep(old(pages), offset, bytes)
    {
      var pageIndex: nat, inPage := offset / PAGE_SIZE, offset % PAGE_SIZE;
      var page := PageAt(pages, pageIndex);
      if inPage < |page| {
        used := Min(|page| - inPage, |bytes|);
      } else {
        if |page| < inPage {
          page := page + Zeros(inPage - |page|);
        }
        used := Min(PAGE_SIZE - |page|, |bytes|);
        pages := pages[pageIndex := page + bytes[..used]];
      }
    }

    method StoreChunkAt(start: nat, bytes: seq<byte>)
      requires Sized(pages)
      modifies this`pages
      ensures pages == StoreChunk(old(pages), start, bytes)
    {
      var offset, rest := start, bytes;
      while rest != []
        invariant Sized(pages)
        invariant StoreChunk(pages, offset, rest) == StoreChunk(old(pages), start, bytes)
        decreases |rest|
      {
        var used := StoreTurn(offset, rest);
        offset, rest := offset + used, rest[used..];
      }
    }

    /** Store a slice of the resource.  The cache goes on agreeing with the resource if it leaves no hole. */
    method StoreSlice(start: nat, bytes: seq<byte>)
      requires Agrees(pages, resource)
      requires bytes != [] ==> start + |bytes| <= |resource| && bytes == resource[start..start + |bytes|]
      modifies this`pages
      ensures pages == StoreChunk(old(pages), start, bytes)
      ensures old(Contiguous(pages, start)) ==> Agrees(pages, resource)
      ensures Extends(old(pages), pages)
      ensures Covers(pages, start, start + |bytes|)
    {
      StoreChunkGrows(pages, start, bytes);
      if bytes != [] && Contiguous(pages, start) {
        StoreChunkAgrees(pages, start, bytes, resource);
      }
      StoreChunkAt(start, bytes);
    }

    /** Pull from the primary stream. */
    method PullChunk() returns (r: Result<Option<seq<byte>>, HttpError>)
      requires streamPos <= end <= |resource| && Body(stream.events) == resource[streamPos..end]
      modifies stream
      ensures r.Ok? && r.value.Some? ==>
                && streamPos + |r.value.value| <= end
                && r.value.value == resource[streamPos..streamPos + |r.value.value|]
                && Body(stream.events) == resource[streamPos + |r.value.value|..end]
                && old(stream.events) != [] && old(stream.events)[0] == Chunk(r.value.value)
                && stream.events == old(stream.events)[1..]
      ensures r.Err? || r.value.Some? ==> |stream.events| < |old(stream.events)|
      ensures r.Ok? && r.value.None? ==> streamPos == end && stream.events == old(stream.events)
      ensures r.Err? || r.value.None? ==> Body(stream.events) == resource[streamPos..end]
      ensures r.Err? ==> r.error.Network?
      ensures old(Clean(stream.events)) ==> r.Ok? && Clean(stream.events)
    {
      r := stream.NextChunk();
      if r.Ok? && r.value.Some? {
        SplitTail(resource, streamPos, end, r.value.value, Body(stream.events));
      }
    }

    /** Drain the reply to one Range request. */
    method RequestRange(first: nat, last: nat) returns (r: Result<seq<byte>, HttpError>)
      requires Honest(server, resource)
      modifies this`rangeRequests
      ensures rangeRequests == old(rangeRequests) + 1
      ensures r.Ok? <==> old(Served(first, last))
      ensures r.Ok? ==> r.value == Clip(resource, first, last + 1)
      ensures r.Err? ==> r.error.Network?
    {
      var reply := Answer(server, RangeRequest(first, last, rangeRequests));
      rangeRequests := rangeRequests + 1;
      if reply.Refused? {
        return Err(Network(reply.message));
      }
      var response := new ByteStream(reply.events);
      r := response.Drain();
    }

    /** Request a range and keep what arrives in the page cache. */
    method FetchIntoPages(first: nat, last: nat) returns (r: Result<seq<byte>, HttpError>)
      requires Valid()
      modifies this`pages, this`bytesFetched, this`rangedBytes, this`rangeRequests
      ensures r.Ok? <==> old(Served(first, last))
      ensures r.Err? ==> r.error.Network? && pages == old(pages)
      ensures r.Ok? ==> r.value == Clip(resource, first, last + 1)
      ensures r.Ok? ==> pages == StoreChunk(old(pages), first, r.value)
      ensures Extends(old(pages), pages)
      ensures rangeRequests == old(rangeRequests) + 1
      ensures r.Ok? ==> Covers(pages, first, first + |r.value|)
      ensures r.Err? || old(Contiguous(pages, first)) ==> Valid()
    {
      hide Agrees, Has, ByteAt, StoreChunk, Contiguous, Honest, Body, Served;
      r := RequestRange(first, last);
      if r.Ok? {
        StoreSlice(first, r.value);
        bytesFetched := bytesFetched + |r.value|;
        rangedBytes := rangedBytes + |r.value|;
      }
    }

    method FetchTailIntoPages(length: nat) returns (r: Result<(), HttpError>)
      requires Valid() && contentLength == Some(length)
      requires !streamingMode ==> advertised && !didTailFetch
      modifies this`pages, this`didTailFetch, this`bytesFetched, this`rangedBytes, this`rangeRequests
      ensures Valid()
      ensures rangeRequests == old(rangeRequests) + 1
      ensures Extends(old(pages), pages)
      ensures r.Ok? <==> old(Served(TailStart(length), TailEnd(length)))
      ensures r.Ok? ==> didTailFetch && Covers(pages, TailStart(length), length)
      ensures r.Err? ==> r.error.Network? && didTailFetch == old(didTailFetch)
    {
      hide Agrees, Has, ByteAt, StoreChunk, Honest, Body, Served;
      var tailStart := TailStart(length);
      assert tailStart % PAGE_SIZE == 0;
      var fetched := FetchIntoPages(tailStart, TailEnd(length));
      if fetched.Err? {
        return Err(fetched.error);
      }
      didTailFetch := true;
      return Ok(());
    }

    /** Pull one chunk of the primary stream into the page cache; false at its end. */
    method StoreNextChunk() returns (r: Result<bool, HttpError>)
      requires Valid() && !streamingMode
      modifies this`pages, this`streamPos, this`bytesFetched, this`contentLength, stream
      ensures Valid()
      ensures r == Ok(true) ==>
                && contentLength == old(contentLength)
                && old(stream.events) != [] && old(stream.events)[0].Chunk? && stream.events == old(stream.events)[1..]
                && streamPos == old(streamPos) + |old(stream.events)[0].bytes|
      ensures r == Ok(false) ==> streamPos == end && contentLength.Some? && stream.events == old(stream.events)
      ensures r != Ok(false) ==> |stream.events| < |old(stream.events)|
      ensures r.Err? ==> r.error.Network?
      ensures old(Clean(stream.events)) ==> r.Ok? && Clean(stream.events)
    {
      hide Agrees, Has, ByteAt, StoreChunk, Contiguous, Honest, Body, Clean;
      var next := PullChunk();
      if next.Err? {
        r := Err(next.error);
      } else if next.value.None? {
        if contentLength.None? {
          contentLength := Some(streamPos);
        }
        r := Ok(false);
      } else {
        var chunk := next.value.value;
        CoverIsContiguous(pages, streamPos);
        StoreSlice(streamPos, chunk);
        streamPos := streamPos + |chunk|;
        bytesFetched := bytesFetched + |chunk|;
        r := Ok(true);
      }
    }

    method StreamForwardToPage(targetPage: nat) returns (r: Result<(), HttpError>)
      requires Valid() && !streamingMode
      requires targetPage * PAGE_SIZE < end || contentLength.None? || advertised
      modifies this`pages, this`streamPos, this`bytesFetched, this`contentLength, stream
      ensures Valid()
      ensures r.Ok? ==> PageComplete(pages, targetPage, end)
      ensures r.Ok? ==> contentLength.Some? || |PageAt(pages, targetPage)| == PAGE_SIZE
      // no chunk is pulled once the page has all there is for it
      ensures r.Ok? ==> NoFurther(old(stream.events), stream.events, streamPos, old(PageGoal(targetPage)))
      ensures |stream.events| <= |old(stream.events)|
      ensures r.Err? ==> r.error.Network? && |stream.events| < |old(stream.events)|
      ensures old(Clean(stream.events)) ==> r.Ok? && Clean(stream.events)
    {
      hide Clean;
      var pageStart := targetPage * PAGE_SIZE;
      var pageEnd := pageStart + PAGE_SIZE;
      var expected := match contentLength
        case Some(length) => SaturatingSub(Min(length, pageEnd), pageStart)
        case None => PAGE_SIZE;
      while true
        invariant Valid() && contentLength == old(contentLength)
        invariant |stream.events| <= |old(stream.events)|
        invariant old(Clean(stream.events)) ==> Clean(stream.events)
        invariant NoFurther(old(stream.events), stream.events, streamPos, pageStart + expected)
        decreases |stream.events|
      {
        var have := |PageAt(pages, targetPage)|;
        if have >= expected {
          break;
        }
        if streamPos >= pageEnd {
          CoverCompletesPage(pages, targetPage, 0, streamPos, end);
          break;
        }
        if streamPos >= pageStart + expected && 0 < expected {
          CoverFillsPage(pages, targetPage, 0, streamPos);
        }
        var more := StoreNextChunk();
        if more.Err? {
          return Err(more.error);
        }
        if !more.value {
          CoverCompletesPage(pages, targetPage, 0, streamPos, end);
          break;
        }
      }
      return Ok(());
    }

    method EnsurePageCached(pageIndex: nat) returns (r: Result<(), HttpError>)
      requires Valid() && !streamingMode
      modifies this`pages, this`streamPos, this`bytesFetched, this`contentLength, this`didTailFetch, this`rangedBytes,
               this`rangeRequests, stream
      ensures Valid()
      ensures r.Ok? ==> PageComplete(pages, pageIndex, end)
      ensures r.Ok? ==> contentLength.Some? || |PageAt(pages, pageIndex)| == PAGE_SIZE
      ensures old(didTailFetch) ==> didTailFetch && rangeRequests == old(rangeRequests)
      ensures |stream.events| <= |old(stream.events)|
      ensures r.Err? ==> r.error.Network?
      ensures r.Err? ==> |stream.events| < |old(stream.events)| || rangeRequests > old(rangeRequests)
      // exactly a far tail is bridged by a Range request, and then the stream is left where it is
      ensures rangeRequests == old(rangeRequests) + if old(FarTail(pageIndex)) then 1 else 0
      ensures old(FarTail(pageIndex)) ==>
                && (r.Ok? <==> old(TailServed())) && (r.Ok? ==> didTailFetch)
                && streamPos == old(streamPos) && stream.events == old(stream.events)
      ensures !old(FarTail(pageIndex)) ==> didTailFetch == old(didTailFetch)
      ensures r.Ok? && !old(FarTail(pageIndex)) ==>
                NoFurther(old(stream.events), stream.events, streamPos, old(PageGoal(pageIndex)))
      ensures old(pageIndex * PAGE_SIZE + |PageAt(pages, pageIndex)| >= PageGoal(pageIndex)) ==>
                r.Ok? && stream.events == old(stream.events) && pages == old(pages)
      ensures old(Clean(stream.events)) ==> Clean(stream.events) && (r.Ok? || old(FarTail(pageIndex)))
    {
      hide Clean, Served;
      var pageStart := pageIndex * PAGE_SIZE;
      var pageEnd := pageStart + PAGE_SIZE;
      var expected := PAGE_SIZE;
      if contentLength.Some? {
        if pageStart >= contentLength.value {
          return Ok(());
        }
        expected := SaturatingSub(Min(contentLength.value, pageEnd), pageStart);
      }
      var have := |PageAt(pages, pageIndex)|;
      if have >= expected {
        return Ok(());
      }
      if streamPos >= pageEnd {
        CoverCompletesPage(pages, pageIndex, 0, streamPos, end);
        return Ok(());
      }
      if contentLength.Some? {
        var total := contentLength.value;
        var inTail := pageStart >= SaturatingSub(total, TAIL_FETCH_SIZE);
        var bigGap := SaturatingSub(pageStart, streamPos) > STREAM_SKIP_THRESHOLD;
        if inTail && bigGap && acceptsRanges {
          if didTailFetch {
            CoverCompletesPage(pages, pageIndex, TailStart(total), total, total);
            assert false;
          }
          r := FetchTailIntoPages(total);
          if r.Ok? {
            CoverCompletesPage(pages, pageIndex, TailStart(total), total, total);
          }
          return;
        }
      }
      r := StreamForwardToPage(pageIndex);
    }

    //  Reads

    /** Copy out of the page under the cursor, if that page reaches the cursor. */
    method ReadPage(want: nat) returns (bytes: seq<byte>)
      requires Valid() && 0 < want
      modifies this`cursor
      ensures Valid()
      ensures bytes == [] <==> !Has(pages, old(cursor))
      ensures |bytes| <= want && cursor == old(cursor) + |bytes|
      ensures |bytes| == Min(want, SaturatingSub(|PageAt(pages, old(cursor) / PAGE_SIZE)|, old(cursor) % PAGE_SIZE))
      ensures |bytes| <= PAGE_SIZE - old(cursor) % PAGE_SIZE
      ensures bytes != [] ==> cursor <= |resource| && bytes == resource[old(cursor)..cursor]
    {
      hide Covers, Honest, Body, Delivers, Sent;
      var pageIndex: nat, inPage := cursor / PAGE_SIZE, cursor % PAGE_SIZE;
      var page := PageAt(pages, pageIndex);
      if inPage >= |page| {
        return [];
      }
      var n := Min(want, |page| - inPage);
      PageIsSlice(pages, resource, pageIndex, inPage, inPage + n);
      assert cursor == pageIndex * PAGE_SIZE + inPage;
      bytes := page[inPage..inPage + n];
      cursor := cursor + n;
    }

    /** Copy out of a page that holds all the stream delivers for it, up to the visible end. */
    method CopyFromPage(want: nat) returns (bytes: seq<byte>)
      requires Valid() && !streamingMode && 0 < want
      requires PageComplete(pages, cursor / PAGE_SIZE, end)
      requires contentLength.Some? || |PageAt(pages, cursor / PAGE_SIZE)| == PAGE_SIZE
      modifies this`cursor
      ensures Valid()
      ensures |bytes| <= want && |bytes| <= PAGE_SIZE - old(cursor) % PAGE_SIZE && cursor == old(cursor) + |bytes|
      ensures bytes != [] ==> cursor <= VisibleEnd() && bytes == resource[old(cursor)..cursor]
      ensures bytes == [] ==> SureEnd() <= old(cursor) && (eofOverride.None? ==> contentLength.Some?)
      ensures end == |resource| ==>
                |bytes| == Min(want, Min(PAGE_SIZE - old(cursor) % PAGE_SIZE, SaturatingSub(VisibleEnd(), old(cursor))))
    {
      hide Covers, Honest, Body, Delivers;
      assert cursor < end ==> Has(pages, cursor);
      if end == |resource| {
        FullPage(pages, cursor / PAGE_SIZE, resource);
      }
      hide Agrees, PageComplete;
      var end := if eofOverride.Some? then eofOverride else contentLength;
      var limit := if end.Some? then Min(want, SaturatingSub(end.value, cursor)) else want;
      if limit == 0 {
        return [];
      }
      bytes := ReadPage(limit);
    }

    method ReadCached(want: nat) returns (r: Result<seq<byte>, HttpError>)
      requires Valid() && !streamingMode && 0 < want
      modifies this`cursor, this`pages, this`streamPos, this`bytesFetched, this`contentLength, this`didTailFetch,
               this`rangedBytes, this`rangeRequests, stream
      ensures Valid()
      ensures old(didTailFetch) ==> didTailFetch && rangeRequests == old(rangeRequests)
      ensures r.Ok? ==> |r.value| <= want && cursor == old(cursor) + |r.value|
      ensures r.Ok? && r.value != [] ==> cursor <= VisibleEnd() && r.value == resource[old(cursor)..cursor]
      ensures r.Ok? && end == |resource| ==>
                |r.value| == Min(want, Min(PAGE_SIZE - old(cursor) % PAGE_SIZE, SaturatingSub(VisibleEnd(), old(cursor))))
      ensures r.Ok? ==> |r.value| <= PAGE_SIZE - old(cursor) % PAGE_SIZE
      ensures old(Reliable()) ==> r.Ok? && Reliable()
      ensures r.Ok? && r.value == [] ==> SureEnd() <= old(cursor) && (eofOverride.None? ==> contentLength.Some?)
      ensures |stream.events| <= |old(stream.events)| && (!acceptsRanges ==> rangeRequests == old(rangeRequests))
      ensures rangeRequests == old(rangeRequests) || (rangeRequests == old(rangeRequests) + 1 && (r.Ok? ==> didTailFetch))
      ensures r.Err? ==> cursor == old(cursor) && r.error.Network?
      ensures r.Err? ==> |stream.events| < |old(stream.events)| || rangeRequests > old(rangeRequests)
    {
      hide Clean, Served, TailStart, Agrees, Has, Covers, Honest, Body, Delivers, PageComplete, PageAt;
      var ensured := EnsurePageCached(cursor / PAGE_SIZE);
      if ensured.Err? {
        return Err(ensured.error);
      }
      var bytes := CopyFromPage(want);
      return Ok(bytes);
    }

    /** Serve from the rolling chunk. */
    method ReadChunk(want: nat) returns (bytes: seq<byte>)
      requires Valid() && 0 < want && InChunk(cursor)
      modifies this`cursor
      ensures Valid() && bytes != []
      ensures |bytes| == Min(want, streamingChunkStart + |streamingChunk| - old(cursor))
      ensures cursor == old(cursor) + |bytes| && cursor <= |resource|
      ensures bytes == resource[old(cursor)..cursor]
    {
      var inChunk := cursor - streamingChunkStart;
      var n := Min(want, |streamingChunk| - inChunk);
      bytes := streamingChunk[inChunk..inChunk + n];
      SliceOfSlice(resource, streamingChunkStart, streamingChunkStart + |streamingChunk|, inChunk, inChunk + n);
      cursor := cursor + n;
    }

    /** Streaming mode bridges even a modest gap to the tail with a Range request. */
    method FetchTailIfFar() returns (r: Result<(), HttpError>)
      requires Valid() && streamingMode
      modifies this`pages, this`didTailFetch, this`bytesFetched, this`rangedBytes, this`rangeRequests
      ensures Valid()
      ensures r.Err? ==> r.error.Network? && rangeRequests > old(rangeRequests)
      // exactly a tail byte more than 64 KiB ahead of the stream is asked for
      ensures rangeRequests == old(rangeRequests) + if FarByte() then 1 else 0
      ensures r.Err? <==> rangeRequests > old(rangeRequests) && !old(KnownTailServed())
      ensures old(ForwardReady()) ==> ForwardReady()
    {
      if contentLength.Some? {
        var total := contentLength.value;
        var inTail := cursor >= SaturatingSub(total, TAIL_FETCH_SIZE);
        var bigGap := SaturatingSub(cursor, streamPos) > STREAMING_SKIP_THRESHOLD;
        if inTail && bigGap && acceptsRanges {
          r := FetchTailIntoPages(total);
          return;
        }
      }
      return Ok(());
    }

    /** Pull one chunk of the primary stream into the rolling buffer; false at its end. */
    method RollNextChunk() returns (r: Result<bool, HttpError>)
      requires Valid() && streamingMode
      modifies this`streamPos, this`bytesFetched, this`contentLength, this`streamingChunk, this`streamingChunkStart, stream
      ensures Valid()
      ensures r != Ok(false) ==> |stream.events| < |old(stream.events)|
      ensures r == Ok(true) ==> forall k: nat :: old(streamPos) <= k < streamPos <==> InChunk(k)
      ensures r == Ok(true) ==> streamingChunkStart + |streamingChunk| == streamPos
      ensures r == Ok(false) ==> streamPos == end && contentLength.Some? && stream.events == old(stream.events)
      ensures r != Ok(true) ==> streamPos == old(streamPos)
      ensures r != Ok(true) ==>
                streamingChunk == old(streamingChunk) && streamingChunkStart == old(streamingChunkStart)
      ensures old(Clean(stream.events)) ==> r.Ok? && Clean(stream.events)
      ensures r.Err? ==> r.error.Network?
    {
      hide Agrees, Has, Covers, Honest, Body, Clean;
      var next := PullChunk();
      if next.Err? {
        r := Err(next.error);
      } else if next.value.None? {
        if contentLength.None? {
          contentLength := Some(streamPos);
        }
        r := Ok(false);
      } else {
        streamingChunkStart := streamPos;
        streamingChunk := next.value.value;
        streamPos := streamPos + |streamingChunk|;
        bytesFetched := bytesFetched + |streamingChunk|;
        r := Ok(true);
      }
    }

    /** Pull chunks until one contains the cursor. */
    method PullToCursor(want: nat) returns (r: Result<seq<byte>, HttpError>)
      requires Valid() && streamingMode && 0 < want && streamPos <= cursor && !InChunk(cursor)
      modifies this`cursor, this`streamPos, this`bytesFetched, this`contentLength, this`streamingChunk,
               this`streamingChunkStart, stream
      ensures Valid()
      ensures r.Ok? ==> |r.value| <= want && cursor == old(cursor) + |r.value|
      ensures r.Ok? && r.value != [] ==> cursor <= |resource| && r.value == resource[old(cursor)..cursor]
      ensures r.Ok? && r.value == [] ==> end <= old(cursor) && contentLength.Some? && !InChunk(old(cursor))
      ensures |stream.events| <= |old(stream.events)|
      ensures r.Ok? && r.value != [] ==> InChunk(old(cursor)) && streamingChunkStart + |streamingChunk| == streamPos
      ensures r.Ok? ==> |r.value| == Min(want, SaturatingSub(streamPos, old(cursor)))
      ensures r.Err? ==> cursor == old(cursor) && r.error.Network? && |stream.events| < |old(stream.events)|
      ensures old(Clean(stream.events)) ==> r.Ok? && Clean(stream.events)
      ensures ForwardReady()
    {
      hide Clean;
      var found := false;
      while !found
        invariant Valid()
        invariant cursor == old(cursor)
        invariant if found then InChunk(cursor) else streamPos <= cursor && !InChunk(cursor)
        invariant ForwardReady()
        invariant |stream.events| <= |old(stream.events)|
        invariant old(Clean(stream.events)) ==> Clean(stream.events)
        invariant found ==> streamingChunkStart + |streamingChunk| == streamPos
        decreases |stream.events|
      {
        var more := RollNextChunk();
        if more.Err? {
          return Err(more.error);
        }
        if !more.value {
          assert streamPos <= old(cursor);
          return Ok([]);
        }
        found := InChunk(cursor);
      }
      var bytes := ReadChunk(want);
      return Ok(bytes);
    }

    method ReadStreaming(want: nat) returns (r: Result<seq<byte>, HttpError>)
      requires Valid() && streamingMode && 0 < want
      modifies this`cursor, this`pages, this`streamPos, this`bytesFetched, this`contentLength, this`didTailFetch,
               this`rangedBytes, this`rangeRequests, this`streamingChunk, this`streamingChunkStart, stream
      ensures Valid()
      ensures r.Ok? ==> |r.value| <= want && cursor == old(cursor) + |r.value|
      ensures r.Ok? && r.value != [] ==> cursor <= |resource| && r.value == resource[old(cursor)..cursor]
      ensures r.Ok? && r.value == [] ==> end <= old(cursor) && contentLength.Some?
      ensures r.Ok? ==> |r.value| == Min(want, Available(old(cursor)))
      ensures old(FarByte()) && !old(KnownTailServed()) ==> r.Err?
      ensures |stream.events| <= |old(stream.events)| && (!acceptsRanges ==> rangeRequests == old(rangeRequests))
      ensures r.Err? ==> cursor == old(cursor)
      ensures r.Err? && r.error.Network? ==>
                |stream.events| < |old(stream.events)| || rangeRequests > old(rangeRequests)
      ensures old(Clean(stream.events)) && (acceptsRanges ==> old(KnownTailServed())) ==>
                (r.Err? ==> r.error == SeekBehindStream) && Clean(stream.events)
      ensures old(ForwardReady()) ==> ForwardReady() && r != Err(SeekBehindStream)
      ensures r == Err(SeekBehindStream) ==> cursor < streamPos && !Has(pages, cursor) && !InChunk(cursor)
    {
      hide Agrees, Covers, Honest, Body, Delivers, Clean, Served, TailStart;
      var fetched := FetchTailIfFar();
      if fetched.Err? {
        return Err(fetched.error);
      }
      // pages from cached mode, or from the tail
      var bytes := ReadPage(want);
      if bytes != [] {
        return Ok(bytes);
      }
      // an earlier read may have used up only part of its chunk
      if InChunk(cursor) {
        bytes := ReadChunk(want);
        return Ok(bytes);
      }
      if cursor < streamPos {
        return Err(SeekBehindStream);
      }
      r := PullToCursor(want);
    }

    /** Read up to `want` bytes at the cursor. */
    method Read(want: nat) returns (r: Result<seq<byte>, HttpError>)
      requires Valid()
      modifies this`cursor, this`pages, this`streamPos, this`bytesFetched, this`contentLength, this`didTailFetch,
               this`rangedBytes, this`rangeRequests, this`streamingChunk, this`streamingChunkStart, stream
      ensures Valid()
      ensures !streamingMode && old(didTailFetch) ==> didTailFetch && rangeRequests == old(rangeRequests)
      ensures r.Ok? ==> |r.value| <= want && cursor == old(cursor) + |r.value|
      ensures r.Ok? && r.value != [] ==> cursor <= |resource| && r.value == resource[old(cursor)..cursor]
      ensures r.Ok? && r.value != [] && !streamingMode ==> cursor <= VisibleEnd()
      ensures r.Ok? && !streamingMode ==> |r.value| <= PAGE_SIZE - old(cursor) % PAGE_SIZE
      ensures r.Ok? && r.value == [] && 0 < want ==>
                SureEnd() <= old(cursor) && (eofOverride.None? ==> contentLength.Some?)
      ensures |stream.events| <= |old(stream.events)| && (!acceptsRanges ==> rangeRequests == old(rangeRequests))
      ensures r.Err? ==> cursor == old(cursor)
      ensures r.Err? && r.error.Network? ==>
                |stream.events| < |old(stream.events)| || rangeRequests > old(rangeRequests)
      ensures !streamingMode ==>
                rangeRequests == old(rangeRequests) || (rangeRequests == old(rangeRequests) + 1 && (r.Ok? ==> didTailFetch))
      // at the artificial EOF, or at the end of a resource whose length is known, nothing is asked of anyone
      ensures old(AtEof()) || want == 0 ==>
                r == Ok([]) && stream.events == old(stream.events) && rangeRequests == old(rangeRequests)
      ensures !old(AtEof()) && 0 < want && streamingMode && old(FarByte()) && !old(KnownTailServed()) ==> r.Err?
      ensures !streamingMode && old(Reliable()) ==> r.Ok? && Reliable()
      ensures streamingMode && old(Clean(stream.events)) && (acceptsRanges ==> old(KnownTailServed())) ==>
                (r.Err? ==> r.error == SeekBehindStream) && Clean(stream.events)
      ensures r.Ok? && r.value != [] && streamingMode ==> |r.value| == Min(want, Available(old(cursor)))
      ensures r.Ok? && !streamingMode && end == |resource| ==>
                |r.value| == Min(want, Min(PAGE_SIZE - old(cursor) % PAGE_SIZE, SaturatingSub(VisibleEnd(), old(cursor))))
      ensures !streamingMode ==> r != Err(SeekBehindStream)
      ensures streamingMode && old(ForwardReady()) ==> ForwardReady() && r != Err(SeekBehindStream)
      ensures r == Err(SeekBehindStream) ==> cursor < streamPos && !Has(pages, cursor) && !InChunk(cursor)
    {
      if want == 0 {
        return Ok([]);
      }
      var end := if eofOverride.Some? then eofOverride else contentLength;
      if end.Some? && cursor >= end.value {
        return Ok([]);
      }
      if streamingMode {
        r := ReadStreaming(want);
      } else {
        r := ReadCached(want);
      }
    }

    /** Read from the cursor until `len` bytes are there or a read comes back empty. */
    method ReadUpTo(len: nat) returns (r: Result<seq<byte>, HttpError>)
      requires Valid()
      modifies this`cursor, this`pages, this`streamPos, this`bytesFetched, this`contentLength, this`didTailFetch,
               this`rangedBytes, this`rangeRequests, this`streamingChunk, this`streamingChunkStart, stream
      ensures Valid()
      ensures !streamingMode && old(didTailFetch) ==> didTailFetch && rangeRequests == old(rangeRequests)
      ensures old(cursor) <= cursor <= old(cursor) + len
      ensures old(cursor) < cursor ==> cursor <= |resource|
      ensures r.Ok? ==> r.value == Clip(resource, old(cursor), cursor) && |r.value| == cursor - old(cursor)
      ensures r.Ok? && |r.value| < len ==> SureEnd() <= cursor && (eofOverride.None? ==> contentLength.Some?)
      ensures !streamingMode && old(cursor) < cursor ==> cursor <= VisibleEnd()
      ensures !streamingMode ==> r != Err(SeekBehindStream)
      ensures !streamingMode ==> old(rangeRequests) <= rangeRequests <= old(rangeRequests) + 1
      ensures !streamingMode && old(Reliable()) ==> r.Ok? && Reliable()
    {
      var out := [];
      while |out| < len
        invariant Valid()
        invariant !streamingMode && old(didTailFetch) ==> didTailFetch && rangeRequests == old(rangeRequests)
        invariant |out| <= len && cursor == old(cursor) + |out|
        invariant out == Clip(resource, old(cursor), cursor)
        invariant !streamingMode && out != [] ==> cursor <= VisibleEnd()
        invariant !streamingMode && old(Reliable()) ==> Reliable()
        invariant !streamingMode ==>
                    rangeRequests == old(rangeRequests) || (rangeRequests == old(rangeRequests) + 1 && didTailFetch)
        decreases len - |out|
      {
        var before := cursor;
        var want := Min(len - |out|, PAGE_SIZE);
        var got := Read(want);
        if got.Err? {
          return Err(got.error);
        }
        if got.value == [] {
          break;
        }
        JoinSlices(resource, before - |out|, before, cursor);
        out := out + got.value;
      }
      return Ok(out);
    }

    /** Read `len` bytes at `offset`; the cursor comes back only if the read succeeds. */
    method ReadAt(offset: nat, len: nat) returns (r: Result<seq<byte>, HttpError>)
      requires Valid() && offset <= U64_MAX
      modifies this`cursor, this`pages, this`streamPos, this`bytesFetched, this`contentLength, this`didTailFetch,
               this`rangedBytes, this`rangeRequests, this`streamingChunk, this`streamingChunkStart, stream
      ensures Valid()
      ensures !streamingMode && old(didTailFetch) ==> didTailFetch && rangeRequests == old(rangeRequests)
      ensures r.Ok? ==> cursor == old(cursor)
      ensures r.Ok? && !streamingMode && end == |resource| ==>
                r.value == Clip(resource, offset, Min(offset + len, VisibleEnd()))
      ensures r.Ok? ==>
                && r.value == Clip(resource, offset, offset + |r.value|)
                && |r.value| <= len
                && (|r.value| < len ==>
                      SureEnd() <= offset + |r.value| && (eofOverride.None? ==> contentLength.Some?))
      ensures r.Ok? && r.value != [] && !streamingMode ==> offset + |r.value| <= VisibleEnd()
      ensures r.Err? ==> offset <= cursor <= Max(offset, |resource|)
      ensures !streamingMode ==> r != Err(SeekBehindStream)
      ensures !streamingMode ==> old(rangeRequests) <= rangeRequests <= old(rangeRequests) + 1
      ensures !streamingMode && old(Reliable()) ==> r.Ok? && Reliable()
    {
      hide Agrees, Has, ByteAt, Covers, Honest, Body, Delivers, Clean, Served, TailServed;
      var saved := cursor;
      cursor := offset;
      r := ReadUpTo(len);
      if r.Ok? {
        cursor := saved;
      }
    }

    /** Fetch a slice over a fresh connection and keep it in the page cache. */
    method FetchRange(start: nat, len: nat) returns (r: Result<seq<byte>, HttpError>)
      requires Valid()
      modifies this`pages, this`bytesFetched, this`rangedBytes, this`rangeRequests
      ensures r.Ok? <==> len == 0 || old(Served(start, start + len - 1))
      ensures rangeRequests == old(rangeRequests) + if len == 0 then 0 else 1
      ensures r.Ok? ==> r.value == Clip(resource, start, start + len)
      ensures r.Err? ==> r.error.Network? && pages == old(pages)
      ensures r.Ok? ==> pages == StoreChunk(old(pages), start, r.value)
      ensures old(Contiguous(pages, start)) ==> Valid()
      ensures old(ForwardReady()) ==> ForwardReady()
    {
      hide Agrees, ByteAt, Covers, StoreChunk, Contiguous, Honest, Body, Delivers, Served;
      if len == 0 {
        NothingStored(pages, start, resource);
        return Ok([]);
      }
      r := FetchIntoPages(start, start + len - 1);
    }
  }

  /**
   A length that was not advertised is learned at the end of the stream.  It
   is too small exactly when a failure ended the stream in front of bytes that
   were still to come.
   */
  lemma LearnedLength(b: HttpBuffer)
    requires b.Valid() && b.contentLength.Some?
    ensures b.contentLength.value == |b.resource| <==> b.advertised || NothingLost(b.sent)
    ensures b.contentLength.value <= |b.resource|
  {
    hide Body, Sent, NothingLost;
    BodyOfSent(b.sent);
    assert b.end == |b.resource| <==> Body(b.sent) == Sent(b.sent);
  }

  /** A caller that reads on, over every failure, until a read comes back empty. */
  method ReadOn(b: HttpBuffer)
    requires b.Valid() && !b.streamingMode && b.eofOverride.None? && !b.acceptsRanges
    modifies b, b.stream
    ensures b.Valid() && b.contentLength.Some?
  {
    hide Agrees, Has, Covers, Honest, Body, Delivers;
    while true
      invariant b.Valid() && !b.streamingMode && b.eofOverride.None?
      decreases |b.stream.events|, Max(0, |b.resource| - b.cursor)
    {
      var got := b.Read(PAGE_SIZE);
      if got.Ok? && got.value == [] {
        return;
      }
    }
  }

  /** The length learned from any body, however it is cut up and wherever it fails. */
  method LearnLength(events: seq<StreamEvent>) returns (length: nat)
    requires |Sent(events)| <= U64_MAX
    ensures length <= |Sent(events)|
    ensures length == |Sent(events)| <==> NothingLost(events)
  {
    var stream := new ByteStream(events);
    var b := new HttpBuffer.Open(stream, map[], None, false, Sent(events));
    ReadOn(b);
    hide Body, Sent, NothingLost;
    LearnedLength(b);
    length := b.contentLength.value;
  }

  /** Two bytes are on their way; the connection breaks after the first, and the length learned is less than 2. */
  method LearnsTooShort() returns (length: nat)
    ensures length < 2
  {
    var events := [Chunk([7]), Cut("connection reset"), Chunk([8])];
    assert Sent(events) == [7, 8];
    assert events[1].Cut? && events[2].Chunk? && events[2].bytes != [];
    length := LearnLength(events);
  }
}
