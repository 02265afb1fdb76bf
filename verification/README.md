# Model of the thumbnail server's streaming, caching and request protocols

The server fetches remote files, renders thumbnails and caches them.  This
project models the parts of it where a mistake is silent: the buffer that
reads a remote file out of order, the text tokens and headers that carry
freshness, the cache with its deferred writes, the two protocols that merge
concurrent requests, and three parsers.  `dafny verify dfyconfig.toml` checks
everything.

Code that changes state is modelled by classes and loops with the same
branches, constants and failure cases; each method is proved against a
specification, and the laws below are proved of that specification, over all
inputs and, for the protocols, over all runs and interleavings.

| module | what it models |
|---|---|
| `Prelude`, `Text` | options, machine words, and the standard-library text functions the code relies on |
| `PageCache`, `HttpStream`, `HttpBuffer`, `HttpBufferRuns` | random access over a forward-only body: sparse 4 KiB pages, tail Range fetch, artificial EOF, one-way streaming mode; whole runs against the plain bytes |
| `FileStream` | the `file://` backend and its Range header |
| `Base64`, `CacheHints`, `TokenLaws` | the opaque cache token: a positional record, trimmed, in base64url, behind a hex epoch |
| `Freshness`, `HeaderLaws` | Cache-Control, Age and validators; renewal on a 304 |
| `CacheEntry`, `MemoryCache`, `PinLaws`, `EntryLaws` | deadlines of an entry, the memory backend, and pins and entries over whole runs |
| `ChainCache`, `BackfillLaws` | the chain of tiers and its background copies |
| `Coherence`, `CoherenceLaws` | lookup, conditional fetch, render, handoff, eviction and deferred writes as a transition system against an origin with versions |
| `ServeLaws` | what lookups, answers of the origin and written pictures lead to |
| `HandoffCoherence`, `JoinedHandoff` | when a handoff keeps the cache coherent, and a run in which it does not |
| `PinHeaders` | validators and Cache-Control of a pinned thumbnail |
| `Debounce`, `Handoff` | the request front end with its leader generations, and the single-flight handoff |
| `CookPipeline` | one request from cache resolution to its result |
| `IfNoneMatch`, `BoxScan`, `PathExpansion` | three parsers with their grammars |
| `RotationHint` | the rotation scan on what one read of the buffer returns |

## The environment

- The primary stream delivers the resource in order, in chunks of any size,
  with network failures anywhere; only a failure ends it early.  A Range request
  that is answered without a failure delivers exactly the slice asked for; an
  advertised length is right.  The resource does not change while one buffer
  is open on it, and a file does not shrink while it is served.
- The origin answers 304 only to a validator that names its current version.
  Validators it sends fit the token: at most 255 bytes, no trailing NUL, and
  no policy whose record decodes as an ETag that nobody sent (a phantom window,
  see below).
- A picture made from one response depicts the version whose headers came with
  it.  A picture that came back from a handoff depicts the version the origin
  served when the higher tier connected, whatever that was.
  The origin answers a higher tier with content: in the code the payload carries
  the request's validator (tier1/src/cook.rs:858-863), so an origin that by then
  serves the version it names again may answer 304, and the answer tier 1 stores
  is then a success without bytes.  The protocol has no such step.
- Clocks, dates, hashes and file-system grants are parameters.
- Reads in streaming mode are not clipped to the artificial EOF.  On an empty
  resource the tail fetch asks for a last byte that wraps to the largest 64-bit
  number.  The model does both as the code does.

## What the proofs show about the code

- `fetch_range` zero-fills a gap in front of an unaligned fetch, and the
  pages then hold zeros where the resource has other bytes.  Agreement with the
  resource survives exactly for fetches that start no further than their page
  already reaches (`PageCache.StoreSafeIffContiguous`, and
  `PageCache.GappedStoreCorrupts` for a two-byte instance).  The ZIP shortcut
  (tier1/src/pipeline/shortcut.rs:497) starts wherever the tail window starts.
- A handoff connects to the source a second time, and its picture is stored
  beside the hints of the first response.  A delivery is stored coherently
  exactly when both saw the same version, or the hints have no validator
  (`HandoffCoherence.DeliveryCoherentIff`).  A run without a publication of the
  key between the two keeps every stored entry coherent
  (`UndisturbedRunsCoherent`), and so does a run without handoffs, where all
  pictures come from the response their hints came from
  (`SingleConnectionRunsCoherent`).  `JoinedHandoff.JoinerMixesVersions` is a
  run of an honest origin in which a request joins an older handoff, stores the
  old picture beside the new validator, and a later 304 releases that picture
  as current.
- A fallback of tier 2 arrives without bytes and is stored that way.  Once it
  is stale, a 304 that renews it is answered from the cache with an empty
  thumbnail (`CookPipeline.EmptyAnswer`).  A cook that is no replay ends
  without a thumbnail exactly in this case and in the two "not modified" ones
  (`CookPipeline.Run`).
- The rotation scan stops at a box with a 64-bit size: nothing in it or behind
  it on its level is seen (`BoxScan.LargeMediaHidesRotation`).  It tells the
  rotation exactly for files that have no rotation box in such a place
  (`BoxScan.ScanTellsIffNothingHides`); without any size field of 1 it always
  does.
- A length that was not advertised is learned when the stream ends: at the
  latest by the first read that comes back empty.  It is too small exactly when
  a failure ended the stream in front of bytes that were still to come
  (`HttpBuffer.LearnedLength`; `LearnLength` for every body and
  `LearnsTooShort` for one).
- A background copy that runs after its key was written uncacheable brings the
  old entry back (`BackfillLaws.CopyRevives`); `LateCopyInvisibleIff` says
  exactly when a late copy stays invisible.
- A `max_age` that is a multiple of 256, thirty days for one, is lost in the
  token.  A `stale-while-revalidate` that is the only content of the record
  and a multiple of 256 is lost too, and if its third byte is 1 and its
  second not 0 it comes back as a one-byte ETag that nobody sent, which is
  then used for conditional requests and stored entries.  Both conditions
  are exact (`TokenLaws.TokenFaithfulIff`, `TokenLaws.ConditionalSurvivesIff`,
  `CoherenceLaws.CoherentIffNoPhantom`).
- A handoff leader that goes away before completing blocks its key for good
  (`Handoff.LostLeaderBlocks`); the debounce front end does not have this
  problem (`Debounce.SlotHasRunningLeader`).
- The documentation of `revalidated` says that without a window in the 304
  the expiry becomes the default lifetime; the code prefers the recorded
  `max_age`, and the model follows the code (`Freshness.RecordedLifetimeRestarts`).
  A `Cache-Control` on a 304 replaces the stored policy only when the response
  says something recognised.
- The If-None-Match matcher stops at the first empty list element, which a
  recipient has to accept (section 5.6.1.2 of RFC 9110): it knows the members in
  front of it and no others (`IfNoneMatch.GapHides`, `IfNoneMatch.TwoCommas`).
- The rotation is looked for in what one read returns.  The caller asks for
  64 KiB, but a read in cached mode ends with its page, so what lies behind the
  first 4096 bytes is not seen (`RotationHint.ContainerRotationHint`).  On
  well-formed files that hide no rotation the beginning shows the file's own or
  none (`BoxScan.BeginningTells`); a `meta` box too small for its flags can make
  it show another one (`BoxScan.ShortMetaTellsAnother`).

## Model

| member | source | states |
|---|---|---|
| PageCache.StoreStepByte | tier1/src/http_buf.rs:609-628 | One turn of the store loop, byte by byte: cached bytes win, the chunk fills what was missing, a gap in front becomes zeros, and the next turn starts without a gap |
| PageCache.StoreChunkByte | tier1/src/http_buf.rs:607-629 | The same for a whole chunk over any number of pages |
| PageCache.StoreSafeIffContiguous | tier1/src/http_buf.rs:607-629 | A stored slice keeps the cache in agreement with every resource it agreed with before if and only if the slice starts no further than its page already reaches |
| PageCache.GappedStoreCorrupts | tier1/src/http_buf.rs:620-622 | A concrete gapped store after which the cache holds a zero the resource does not have |
| HttpStream.BodyOfSent | tier1/src/http_buf.rs:118-122 | What a stream delivers is a prefix of what is sent, and all of it if and only if no bytes stand behind a cut |
| HttpStream.ByteStream.NextChunk | tier1/src/http_buf.rs:120-122 | What was delivered and what is still to come make up the body; a failure loses nothing of it, unless it ends the body |
| HttpStream.ByteStream.Drain | tier1/src/http_buf.rs:597-600 | Collecting a reply succeeds if and only if no failure interrupts it, and then yields its whole body |
| HttpBuffer.HttpBuffer.Open | tier1/src/http_buf.rs:206-235 | A new buffer satisfies the invariant every operation keeps: pages and rolling chunk hold exactly the resource's bytes at their offsets, no page exceeds 4096 bytes, everything streamed in cached mode is held, and a length is known only if advertised or learned at the end of the stream |
| HttpBuffer.HttpBuffer.Seek | tier1/src/http_buf.rs:240-242 | Moves the cursor only; moving forward keeps everything ahead servable |
| HttpBuffer.HttpBuffer.Rewind | tier1/src/http_buf.rs:250-252 | The cursor is at the start and nothing else changes |
| HttpBuffer.HttpBuffer.SeekRelative | tier1/src/http_buf.rs:255-261 | Moves the cursor by a signed distance, saturating at both ends |
| HttpBuffer.HttpBuffer.SetEof | tier1/src/http_buf.rs:271-273 | An artificial EOF is set, wherever it lies |
| HttpBuffer.HttpBuffer.ClearEof | tier1/src/http_buf.rs:275-277 | The artificial EOF is gone |
| HttpBuffer.HttpBuffer.EnterStreamingMode | tier1/src/http_buf.rs:282-284 | From cached mode, every byte at or after the cursor that the stream has passed can still be served |
| HttpBuffer.HttpBuffer.Close | tier1/src/http_buf.rs:302-305 | Gives back the first page, a prefix of the resource, if there is one |
| HttpBuffer.HttpBuffer.ReadUpTo | tier1/src/http_buf.rs:352-361 | Repeated reads join to one slice of the resource, short only at the artificial EOF or the end of the stream |
| HttpBuffer.HttpBuffer.FetchTailIfFar | tier1/src/http_buf.rs:443-453 | In streaming mode the tail is asked for if and only if the cursor is in the last 60 KiB and more than 64 KiB ahead; it fails only if that request does, and loses nothing ahead of the cursor |
| HttpBuffer.HttpBuffer.ReadPage | tier1/src/http_buf.rs:457-466 | Copies the resource's bytes out of the page under the cursor, and nothing exactly when that page does not reach it |
| HttpBuffer.HttpBuffer.ReadChunk | tier1/src/http_buf.rs:472-484 | Copies the resource's bytes out of the rolling chunk, as many as wanted up to its end |
| HttpBuffer.HttpBuffer.RollNextChunk | tier1/src/http_buf.rs:494-504 | The rolling chunk is exactly what the stream has just passed |
| HttpBuffer.HttpBuffer.StoreNextChunk | tier1/src/http_buf.rs:540-550 | One pulled chunk goes into the pages and keeps the invariant; a length is learned at the end only |
| HttpBuffer.HttpBuffer.StoreChunkAt | tier1/src/http_buf.rs:607-629 | The store loop computes the specified page cache |
| HttpBuffer.HttpBuffer.FetchTailIntoPages | tier1/src/http_buf.rs:555-574 | One request is issued, and the call succeeds if and only if it is answered without a failure; then every byte of the last 60 KiB, from a page boundary, is cached and correct |
| HttpBuffer.TailStartMeaning | tier1/src/http_buf.rs:555-557 | The tail request begins at the last page boundary that leaves it the last 60 KiB |
| HttpBuffer.HttpBuffer.RequestRange | tier1/src/http_buf.rs:559-573 | One Range request: its slice if and only if the answer is not interrupted |
| HttpBuffer.HttpBuffer.StreamForwardToPage | tier1/src/http_buf.rs:519-553 | After success the page holds all the stream delivers for it, and no chunk was pulled that begins behind the end of the page; a length is learned only at the end of the stream; a clean stream does not fail |
| HttpBuffer.HttpBuffer.EnsurePageCached | tier1/src/http_buf.rs:396-432 | After success the page holds all bytes the stream delivers for it; a Range request is issued if and only if the page is incomplete, in the last 60 KiB and more than 500 KiB ahead, then decides success alone and leaves the stream where it is; a clean stream never fails otherwise |
| HttpBuffer.HttpBuffer.ReadCached | tier1/src/http_buf.rs:368-394 | A read returns the resource's bytes at the cursor, as many as wanted up to the end of the page and the visible end, when the body is delivered in full; it succeeds if neither the stream nor the tail request fails |
| HttpBuffer.HttpBuffer.CopyFromPage | tier1/src/http_buf.rs:372-393 | The copy out of a complete page, exactly as long as the page and the visible end allow |
| HttpBuffer.HttpBuffer.PullToCursor | tier1/src/http_buf.rs:493-514 | Pulling finds the cursor's bytes or the end of the stream, and leaves everything ahead servable |
| HttpBuffer.HttpBuffer.ReadStreaming | tier1/src/http_buf.rs:436-515 | A streaming read returns the resource's bytes at the cursor; while everything passed ahead of the cursor is servable it never reports lost data, and it does so only for a byte in neither pages nor chunk |
| HttpBuffer.HttpBuffer.Read | tier1/src/http_buf.rs:331-345 | Both modes: `Ok(n)` is the resource's `[cursor, cursor+n)`, as long as one page or chunk allows, and advances by n; empty only past what the stream delivers or the artificial EOF, and without one the length is known from then on; an error moves nothing and comes from the stream, from the tail request, or from data that streaming mode has dropped |
| HttpBuffer.HttpBuffer.ReadAt | tier1/src/http_buf.rs:349-364 | In cached mode, with the body delivered in full, success is exactly `resource[offset..min(offset+len, end)]`, and certain if neither the stream nor the tail request fails; otherwise a prefix of it; the cursor comes back on success only |
| HttpBuffer.HttpBuffer.FetchRange | tier1/src/http_buf.rs:587-605 | Succeeds if and only if nothing is asked for or the one request is answered without a failure, and returns exactly the slice; the invariant survives a fetch that leaves no gap |
| HttpBuffer.LearnedLength | tier1/src/http_buf.rs:541-546 | A length that was not advertised is never learned too large, and is the resource's if and only if no failure cut the stream in front of bytes |
| HttpBuffer.LearnLength | tier1/src/http_buf.rs:536-546 | For every body: read on to the end over all failures, the length learned is right if and only if no bytes stand behind a cut |
| HttpBuffer.LearnsTooShort | tier1/src/http_buf.rs:541-546 | A two-byte resource whose connection breaks after the first byte: the length learned is less than 2 |
| HttpBufferRuns.ModeLaws | tier1/src/http_buf.rs:282-288 | Streaming mode is one-way, and cached mode never reports lost data |
| HttpBufferRuns.Run | tier1/src/http_buf.rs:237-629 | Any run of seeks, EOF changes, mode changes, reads and fetches shows what a cursor over the plain bytes explains, up to the first gapped fetch; moved only forward after entering streaming mode, a buffer never reports lost data; in cached mode nothing fails over a clean stream with answered requests |
| FileStream.RangeRoundTrip | tier1/src/http_buf.rs:783-797 | Parsing the Range header the buffer prints gives back both bounds, clipped to the file |
| FileStream.FileStream.Connect | tier1/src/http_buf.rs:689-718 | The open file is positioned at the asked-for slice |
| FileStream.FileStream.NextChunk | tier1/src/http_buf.rs:758-774 | The next chunk is the next bytes of the slice, up to 4096 and as many as the system grants; none when the slice is done or the file was cut short; a read that fails is reported and moves nothing |
| FileStream.FileStream.Collect | tier1/src/http_buf.rs:752-777 | While no read of the file fails, the chunk loop delivers the specified chunks |
| FileStream.ServeRange | tier1/src/http_buf.rs:689-774 | A Range request is served from the file with the specified chunks |
| FileStream.OpenFile | tier1/src/http_buf.rs:689-718 | A buffer opened on a file, with the file backend serving its body and any finite set of its Range requests, satisfies the buffer's invariant with the file as its resource, and its stream delivers the whole file |
| FileStream.ReadFile | tier1/src/http_buf.rs:689-774 | A file opened and read from end to end comes back byte for byte; the read succeeds whenever the tail request is among those the server answers |
| FileStream.ParseFileRange | tier1/src/http_buf.rs:783-797 | Whatever the header, both bounds lie within the file |
| FileStream.OpenRange | tier1/src/http_buf.rs:783-797 | A range without an end reaches to the end of the file |
| FileStream.SuffixReadFromStart | tier1/src/http_buf.rs:787-795 | A range without a start is read from the first byte on, not as a suffix |
| FileStream.FirstRangeCounts | tier1/src/http_buf.rs:783-784 | The first Range header counts, in any case |
| FileStream.WholeFile | tier1/src/http_buf.rs:783-797 | Without a Range header in bytes the whole file is served |
| FileStream.ChunksAreSlice | tier1/src/http_buf.rs:752-777 | However the system cuts up the reads, the chunks make up exactly the slice |
| FileStream.ChunksArePrefix | tier1/src/http_buf.rs:765-770 | If the file is cut short they make up a prefix of it |
| FileStream.AnsweredIff | tier1/src/http_buf.rs:783-797 | A printed Range request is answered with its slice if and only if one can be added to its end in 64 bits, or it asks for nothing |
| FileStream.FileServerHonest | tier1/src/http_buf.rs:689-774 | The file backend is an honest Range server |
| Text.ParsePrint | tier1/src/source.rs:518-532 | A printed number parses back, in decimal and in hex |
| Base64.DecodeEncode | tier1/src/source.rs:517-534 | Decoding inverts unpadded base64url encoding (section 5 of RFC 4648) |
| Base64.EncodeDecode | tier1/src/source.rs:533-534 | Every accepted spelling is the one encoding produces |
| Base64.Alphabet | tier1/src/source.rs:517-519 | The URL-safe alphabet (section 5 of RFC 4648) |
| CacheHints.Encode | tier1/src/source.rs:462-519 | The record is built field by field and trimmed as the token is specified |
| CacheHints.PushNumber | tier1/src/source.rs:477-483 | A number field is appended |
| CacheHints.DecodeRecord | tier1/src/source.rs:536-595 | The positional reader with its advancing position computes the specified hints |
| CacheHints.Decode | tier1/src/source.rs:526-596 | The whole decoder, with its failures |
| CacheHints.PopNumber | tier1/src/source.rs:546-555 | A number field is read and the position moves past it |
| CacheHints.PushString | tier1/src/source.rs:598-607 | A validator field is appended, cut at 255 bytes |
| CacheHints.PopString | tier1/src/source.rs:609-624 | A validator field is read and the position moves past it |
| TokenLaws.RecordSurvives | tier1/src/source.rs:462-596 | What the positional decoder reads back after trimming, field by field |
| TokenLaws.ValidatorsSurvive | tier1/src/source.rs:488-492 | Both validators come back from the token as they were |
| TokenLaws.LoneWindowMisread | tier1/src/source.rs:511-515 | What a lone stale window that lost its last byte is misread as: nothing, or a one-byte ETag, and exactly when |
| TokenLaws.TokenRoundTrip | tier1/src/source.rs:462-596 | Every field survives the token; a `max_age` that is a multiple of 256 is lost, and nothing else |
| TokenLaws.TokenFaithfulIff | tier1/src/source.rs:462-596 | The round trip is faithful if and only if trimming cuts into neither number |
| TokenLaws.ThirtyDaysLost | tier1/src/source.rs:502-515 | A concrete lifetime the token loses |
| TokenLaws.FreshnessSurvives | tier1/src/source.rs:356-360 | The decoded token is fresh at any time exactly when the original is, even where other fields are misread |
| TokenLaws.TokenFreshUntil | tier1/src/source.rs:462-596 | The token of any hints is fresh exactly until their expiry or, without one, until the lifetime it was encoded with is over |
| TokenLaws.ConditionalSurvivesIff | tier1/src/source.rs:342-350 | The conditional request read from the token is the original one if and only if there is no phantom window |
| TokenLaws.PhantomExample | tier1/src/source.rs:511-515 | A concrete window that becomes an ETag |
| TokenLaws.RecordExample | tier1/src/source.rs:462-519 | A whole record, octet by octet |
| TokenLaws.NoCacheToken | tier1/src/source.rs:462-475 | What must be validated every time has epoch 1 |
| Freshness.ReadDirectives | tier1/src/source.rs:262-304 | The directive loop computes the window, the flags and whether anything was recognised |
| Freshness.ReadDirective | tier1/src/source.rs:263-304 | One turn of the directive loop keeps what the list so far means |
| Freshness.FromResponseHeaders | tier1/src/source.rs:256-336 | The header parser computes the specified hints |
| Freshness.LastNumberMeaning | tier1/src/source.rs:270-274 | The window is the last `s-maxage` that parses, wherever it stands |
| Freshness.FirstNumberMeaning | tier1/src/source.rs:275-279 | Without one it is the first `max-age` that parses |
| HeaderLaws.ValueDirective | tier1/src/source.rs:263-269 | A directive with a value is read in any case and with whitespace wherever it is allowed |
| HeaderLaws.FlagDirective | tier1/src/source.rs:263-269 | So is one without a value |
| HeaderLaws.ValidatorRead | tier1/src/source.rs:319-330 | A validator is what stands between the whitespace; a blank one is none |
| HeaderLaws.AgeRead | tier1/src/source.rs:307-311 | The Age is the number between the whitespace |
| Freshness.RevalidationLaw | tier1/src/source.rs:369-410 | After a 304 the merged hints are fresh if and only if the policy in force permits reuse and the 304's window exceeds its Age or, without one, the recorded or default lifetime is positive |
| Freshness.FreshFor | tier1/src/source.rs:307-336 | At every later moment a response is fresh if and only if it may be reused and the time since plus its Age is less than its window |
| Freshness.RenewedFor | tier1/src/source.rs:369-410 | At every later moment merged hints are fresh if and only if reuse is permitted and that time is less than the window of the 304 less its Age or, without one, than the recorded or default lifetime |
| Freshness.SaysNothingIff | tier1/src/source.rs:262-336 | A response says nothing exactly when it has no number that counts, no flag and no validator |
| Freshness.RecordedLifetime | tier1/src/source.rs:307-317 | A window is recorded as the lifetime if it fits 32 bits; an Age that is no number counts as none |
| Freshness.RevalidatedPolicy | tier1/src/source.rs:369-398 | After a 304 the policy is its own in every part, or the stored one in every part |
| Freshness.AgedResponse | tier1/src/source.rs:307-311 | Sixty seconds of which fifty have passed leave ten |
| Freshness.RecordedLifetimeRestarts | tier1/src/source.rs:400-407 | Without a window the recorded lifetime restarts, unshortened |
| CacheEntry.FreshEntryHasFreshHints | tier1/src/cache/mod.rs:83-92 | An entry is fresh exactly when the hints in its token are |
| CacheEntry.RetentionBounds | tier1/src/cache/mod.rs:779-798 | Nothing is kept without hints or against them, nor beyond the longest retention |
| CacheEntry.RetentionMeaning | tier1/src/cache/mod.rs:779-798 | A validator earns the cache lifetime; without one an entry is kept until it expires, or for the freshness lifetime; each capped |
| MemoryCache.MemoryCacheBackend.Lookup | tier1/src/cache/memory.rs:77-88 | The new entries and the answer of a lookup by cache or pin deadline |
| MemoryCache.MemoryCacheBackend.Promote | tier1/src/cache/memory.rs:158-171 | A copy is stored only if alive and nothing alive is there |
| MemoryCache.MemoryCacheBackend.Revalidate | tier1/src/cache/memory.rs:173-190 | Compare-and-set on the token, keeping the later pin deadline |
| MemoryCache.MemoryCacheBackend.Store | tier1/src/cache/memory.rs:192-217 | A write keeps the later pin deadline and drops dead entries |
| MemoryCache.MemoryCacheBackend.ClaimPin | tier1/src/cache/memory.rs:105-122 | Conflict, missing or claimed, with both maps after it |
| MemoryCache.MemoryCacheBackend.ReadPin | tier1/src/cache/memory.rs:124-141 | What an alias serves |
| PinLaws.PinKept | tier1/src/cache/memory.rs:77-217 | No single operation takes a live pin away or shortens it |
| PinLaws.PinPromise | tier1/src/cache/memory.rs:105-217 | Over any run of operations before T, an entry pinned until T is there with a deadline of at least T |
| PinLaws.AliasKeepsOwner | tier1/src/cache/memory.rs:105-122 | Over any such run an alias does not change its owner |
| PinLaws.AliasKept | tier1/src/cache/memory.rs:109-119 | No single operation gives a live alias to another owner |
| PinLaws.ClaimHolds | tier1/src/cache/memory.rs:105-122 | After a successful claim, whatever happens before its deadline, the owner's entry is pinned and another owner's claim of the name is turned away |
| PinLaws.OnlyRewritesChangeBytes | tier1/src/cache/memory.rs:77-217 | A pinned payload changes only by writes of its key and by revalidations that find the token they expect |
| PinLaws.AliasServesLatestRewrite | tier1/src/cache/memory.rs:124-217 | An alias serves exactly the bytes and token of the last such rewrite for its owner, whatever else was tried since |
| EntryLaws.OthersKept | tier1/src/cache/memory.rs:77-217 | No operation on one key changes an entry of another that is still retained |
| EntryLaws.OthersKeptOverRuns | tier1/src/cache/memory.rs:77-217 | Over any run of operations on other keys, an entry is as it was until its last deadline |
| EntryLaws.LookupFinds | tier1/src/cache/memory.rs:77-88 | A lookup finds an entry exactly before the deadline it goes by, with what was stored |
| EntryLaws.LookupExtends | tier1/src/cache/memory.rs:77-88 | An ordinary lookup with a pin lifetime makes the entry last that long; no lookup shortens a pin |
| EntryLaws.LookupMisses | tier1/src/cache/memory.rs:77-88 | A lookup that finds nothing drops an entry exactly when neither deadline is left |
| EntryLaws.WrittenIsFound | tier1/src/cache/memory.rs:192-217 | What is written is found until its deadline, whatever happens to other keys in between |
| EntryLaws.UncacheableWrite | tier1/src/cache/memory.rs:192-217 | A write that may not be cached leaves an entry exactly if a live pin holds it |
| EntryLaws.RenewalReplaces | tier1/src/cache/memory.rs:173-190 | A renewal replaces exactly an entry whose token it expects, or none, and shortens no pin |
| EntryLaws.CopyTaken | tier1/src/cache/memory.rs:158-171 | A copy is taken over exactly where nothing retained is in its place, without its source URL |
| EntryLaws.ClaimSucceedsIff | tier1/src/cache/memory.rs:105-122 | A claim succeeds if and only if the entry is retained and no live pin of another owner holds the name |
| EntryLaws.ClaimServedUntil | tier1/src/cache/memory.rs:105-141 | A claimed pin is served with its entry's bytes until its deadline, over any run on other keys, and not after |
| ChainCache.ChainCacheBackend.ScheduleBackfill | tier1/src/cache/chain.rs:47-53 | One copy is scheduled for each tier that missed |
| ChainCache.ChainCacheBackend.GetEntry | tier1/src/cache/chain.rs:335-358 | The answer is that of the first tier that hits, the tiers looked at are the specified ones, and a copy is scheduled for each tier before it |
| ChainCache.ChainCacheBackend.GetPinEntry | tier1/src/cache/chain.rs:360-375 | The same for pin lookups, without extending anything |
| ChainCache.PinReachesEveryTier | tier1/src/cache/chain.rs:335-358 | An ordinary lookup with a pin lifetime pins the entry in every tier that has it |
| ChainCache.TiersBehindUntouched | tier1/src/cache/chain.rs:335-358 | Any other lookup leaves the tiers behind the first hit as they are |
| ChainCache.ChainCacheBackend.RunScheduled | tier1/src/cache/chain.rs:47-53 | A background copy changes its own tier only |
| ChainCache.ChainCacheBackend.Store | tier1/src/cache/chain.rs:386-402 | A write reaches every tier |
| ChainCache.ChainCacheBackend.Revalidate | tier1/src/cache/chain.rs:404-411 | A renewal reaches every tier |
| ChainCache.ChainCacheBackend.ClaimPin | tier1/src/cache/chain.rs:314-323 | The last tier decides a claim; success carries its entry to the earlier tiers |
| ChainCache.RefreshCarriesPin | tier1/src/cache/chain.rs:55-63 | After the refresh an earlier tier keeps another representation, or the pin and its bytes hold there too |
| BackfillLaws.SameAnswers | tier1/src/cache/chain.rs:335-358 | A chain with copies answers like the chain without, up to URL and access time |
| BackfillLaws.BackfillInvisible | tier1/src/cache/chain.rs:47-53 | Over any run of ordinary lookups, running or dropping any scheduled copies in any order changes no answer, deadline or cost |
| BackfillLaws.LateCopyInvisibleIff | tier1/src/cache/memory.rs:158-171 | After any writes in between, a late copy stays invisible for good if and only if it is not written, dies before the tiers in front of it, or equals what the chain answers then |
| BackfillLaws.CopyRevives | tier1/src/cache/chain.rs:47-53 | A lookup, an uncacheable write and the late copy: the old entry is back |
| CoherenceLaws.StepKeeps | tier1/src/cook.rs:978-1037 | Every step keeps stored and waiting bytes paired with validators of the same version, but for a delivery of another version |
| CoherenceLaws.LookedUpTiersCoherent | tier1/src/cache/memory.rs:77-88 | Lookups move no bytes between versions |
| CoherenceLaws.StoredEntriesCoherent | tier1/src/cache/memory.rs:158-217 | In every run whose deliveries are of the version their requests have read, each stored entry pairs bytes and validators of one version |
| CoherenceLaws.ReleasedBytesAreCurrent | tier1/src/cook.rs:1004-1018 | In every such run stored bytes leave on a 304 only if the validator sent was that entry's own, and they depict the version the origin serves |
| CoherenceLaws.WrittenCoherent | tier1/src/cache/memory.rs:158-217 | Whichever deferred write runs, a coherent tier stays coherent |
| CoherenceLaws.RevalidationReplacesSameVersion | tier1/src/cache/memory.rs:173-190 | In every such run a late renewal replaces only an entry of the same version |
| CoherenceLaws.RenewalNamesVersion | tier1/src/source.rs:369-410 | After a 304 to an entry's own validator, the new token names the confirmed version |
| CoherenceLaws.CoherentIffNoPhantom | tier1/src/source.rs:511-515 | Where the origin has no validators, a stored rendering is coherent if and only if its hints are no phantom window |
| CoherenceLaws.SoundKept | tier1/src/cook.rs:978-1037 | Whatever a handoff delivers, requests remember the version whose headers they read, and pictures the version they were fetched at |
| HandoffCoherence.DeliveryCoherentIff | tier1/src/cook.rs:1327-1344 | What a handoff stores is coherent if and only if the remote fetch saw the version the hints name, or they name none |
| HandoffCoherence.UndisturbedRunsCoherent | tier1/src/cook.rs:1283-1344 | A run in which nothing is published for a key between the headers a request read and the fetch it is served from keeps everything coherent |
| HandoffCoherence.SingleConnectionRunsCoherent | tier1/src/cook.rs:1129-1145 | So does every run without handoffs |
| ServeLaws.LookUpOutcome | tier1/src/cook.rs:971-991 | A request ends with its own fresh copy or a fresh entry, or goes on to the origin with what was found |
| ServeLaws.ConnectOutcome | tier1/src/cook.rs:1001-1026 | What each answer of the origin makes of the request |
| ServeLaws.LookUpCopies | tier1/src/cook.rs:978-991 | A lookup schedules the entry found for each tier in front of the hit |
| ServeLaws.RenewalWrites | tier1/src/cook.rs:1004-1018 | What a 304 writes back, to each tier, over the entry that was found |
| ServeLaws.SentOwnFirst | tier1/src/cook.rs:992-998 | The stored entry's own validator is sent if it has one, else the client's |
| ServeLaws.ProducedWrites | tier1/src/cook.rs:1327-1344 | A picture is written to each tier, with the token and retention of its hints |
| ServeLaws.RenderingServed | tier1/src/cook.rs:978-991 | A rendering whose write has run is served to the next visitor exactly until its hints go stale, and found as long as it is retained |
| ServeLaws.RenewedEntry | tier1/src/cook.rs:1004-1018 | A renewal keeps picture and pin, and takes token, freshness and retention from the merged hints |
| ServeLaws.RenewalServed | tier1/src/cook.rs:1004-1018 | Once a renewal is written back, the confirmed bytes are served exactly as long as the merged hints are fresh |
| JoinedHandoff.JoinerMixesVersions | tier1/src/cook.rs:1283-1344 | A run of an honest origin in which a joined handoff is stored beside a newer validator, and a 304 releases the old picture as current |
| PinHeaders.WritePolicy | tier1/src/http_cache.rs:94-114 | The policy text, pushed piece by piece, is the joined list of its directives |
| PinHeaders.Headers | tier1/src/http_cache.rs:54-122 | Which pins can be presented, with which validators, and exactly when the caller's copy is current |
| PinHeaders.QuotedSendableIff | tier1/src/http_cache.rs:75-80 | A quoted tag is sent if and only if it has no control characters |
| PinHeaders.SendableIsQuoted | tier1/src/http_cache.rs:75-80 | What is sent is quoted behind an optional weak prefix, and breaks no header line |
| PinHeaders.OwnTagMatches | tier1/src/http_cache.rs:87-88 | A client that sends its tag back is told that nothing changed |
| PinHeaders.NoTokenNoStore | tier1/src/http_cache.rs:60-64 | A pin without a token may not be kept by anyone |
| PinHeaders.PolicyReadsBack | tier1/src/http_cache.rs:100-113 | Parsing the written policy gives back its directives |
| PinHeaders.PinNeverOutlived | tier1/src/http_cache.rs:94-113 | A cache that reads the policy treats the pin as fresh until its expiry or the end of the pin, exactly, and stale use ends with the pin |
| PinHeaders.UncacheablePinSaysSo | tier1/src/http_cache.rs:95-98 | A pin that must not be reused is never fresh to a cache that reads its policy |
| Debounce.CacheFrontend.Forget | tier1/src/cache/mod.rs:399-406 | A recent answer lapses and nothing else changes |
| Debounce.CacheFrontend.Lookup | tier1/src/cache/mod.rs:418-447 | Hit, join or lead, and the state after it |
| Debounce.CacheFrontend.Complete | tier1/src/cache/mod.rs:449-462 | Only the generation that holds the key publishes, and then all its joiners receive |
| Debounce.CacheFrontend.Cancel | tier1/src/cache/mod.rs:464-469 | Only the generation that holds the key is cancelled, and its joiners are woken |
| Debounce.CacheFrontend.DropLeader | tier1/src/cache/mod.rs:521-538 | A leader's guard publishes a final response or none, and gives the key back |
| Debounce.StepKeeps | tier1/src/cache/mod.rs:418-469 | Every step keeps the invariant of leaders, seats and answers |
| Debounce.SlotHasRunningLeader | tier1/src/cache/mod.rs:363-366 | In every run a key in flight is led by a running request, the newest of its generations |
| Debounce.JoinerFate | tier1/src/cache/mod.rs:630-659 | In every run a joiner has received exactly what its leader published, is woken without an answer if that leader ended or was given up, and waits only while it holds the key |
| Debounce.StickyIsNewest | tier1/src/cache/mod.rs:449-462 | In every run the repeated answer is that of the newest generation that published |
| Debounce.SupersededNeverPublishes | tier1/src/cache/mod.rs:449-453 | Once a key has a newer leader, an older one never publishes |
| Debounce.EndReleases | tier1/src/cache/mod.rs:533-538 | However a leader ends, it does not hold its key afterwards |
| Debounce.SameClientRecognised | tier1/src/cache/mod.rs:594-610 | A "not modified" is repeated to the same client if and only if its token kept what the client's hints said |
| Debounce.NotModifiedStaysWithHolders | tier1/src/cache/mod.rs:594-610 | It is repeated to no client with another validator |
| Debounce.HitIff | tier1/src/cache/mod.rs:594-610 | A recent answer is given at once to anyone, and a "not modified" exactly to a client with the same validator or, without one, the same expiry |
| Debounce.NextAskerJoins | tier1/src/cache/mod.rs:418-447 | Who asks for a key that has just got a leader joins that leader |
| Debounce.OtherKeysKept | tier1/src/cache/mod.rs:418-447 | Asking for one key changes nothing for another |
| Debounce.Perform | tier1/src/cache/mod.rs:418-469 | Each step of the protocol is one call on the class |
| Handoff.HandoffInflight.TryLead | tier1/src/handoff.rs:203-216 | Lead a free key, or join the slot on a new channel |
| Handoff.HandoffInflight.DropReceiver | tier1/src/handoff.rs:218-221 | A joiner that left is skipped from then on |
| Handoff.HandoffInflight.Complete | tier1/src/handoff.rs:222-229 | The slot goes and each waiting receiver gets the result |
| Handoff.SendAllReaches | tier1/src/handoff.rs:225-227 | Each waiter that is still there receives exactly once |
| Handoff.StepKeeps | tier1/src/handoff.rs:203-229 | Every step keeps leadership, seats and deliveries in order |
| Handoff.OneLeaderPerKey | tier1/src/cook.rs:1283-1305 | In every run a key has at most one running leader |
| Handoff.SlotIffLeader | tier1/src/handoff.rs:203-223 | In every run a slot stands if and only if a leader runs or was lost |
| Handoff.JoinerServedIffLeaderCompleted | tier1/src/handoff.rs:218-229 | In every run a joiner that stayed has received something if and only if the leader it joined completed, and then that leader's result, once |
| Handoff.LostLeaderBlocks | tier1/src/handoff.rs:203-216 | After a leader is lost its key is never led again |
| Handoff.Perform | tier1/src/handoff.rs:203-229 | Each step of the protocol is one call on the class, or none |
| CookPipeline.ThumbCook.Connect | tier1/src/pipeline/connect.rs:34-127 | How a connection or refusal classifies |
| CookPipeline.OpeningsMeaning | tier1/src/pipeline/connect.rs:34-127 | Which status codes and refusals go on, are overloaded, or fail: 200 to 299, 429 and 503, and the rest but a 304 that was asked for |
| CookPipeline.ThumbCook.ResolveCache | tier1/src/cook.rs:940-1026 | Debounce, caller freshness, stored freshness, then the stored entry's own validator if it has one; what a 304 releases and writes back is what the coherence protocol says |
| CookPipeline.ThumbCook.ApplyHandoff | tier1/src/cook.rs:876-898 | The state shows the remote answer |
| CookPipeline.ThumbCook.RestoreCachedMedia | tier1/src/cook.rs:1028-1037 | Bytes, kind and label of the stored entry are what the cook serves, as a cache hit |
| CookPipeline.ThumbCook.Apply | tier1/src/cook.rs:1040-1214 | An abstract later step: the new state is its effect |
| CookPipeline.ThumbCook.HandOff | tier1/src/cook.rs:1249-1370 | The first success of the chain is taken, a tier 2 placeholder only without a tier 3, and stored as it is; otherwise failed or, with no tier asked, a placeholder |
| CookPipeline.ThumbCook.Finish | tier1/src/cook.rs:1393-1444 | Nothing produced is replaced by the right placeholder, except an unchanged source |
| CookPipeline.Run | tier1/src/cook.rs:940-1486 | A finished cook that is no replay has an empty thumbnail if and only if the caller was fresh, a 304 answered the caller's own validator, or a 304 renewed a stored entry without bytes; it says which, and otherwise serves the stored bytes or a picture; whatever local steps left it open, a handoff's answer is stored as it came, unless it is a missing handler's placeholder; a refusal is reported as what it is, and after content the caller gets the picture of the steps or of the higher tier, under its label, or a stand-in where there is none |
| CookPipeline.Serve | tier1/src/cook.rs:1070-1486 | The same for the part of a cook behind an opened source |
| CookPipeline.LastPictureCounts | tier1/src/pipeline/deliver.rs:82-87 | The picture, kind and label a cook shows are those of the last step that brought one |
| CookPipeline.RenderedAnswer | tier1/src/cook.rs:1129-1145 | A picture made on the spot is the answer, as a render or a shortcut |
| CookPipeline.TakenPictureReturned | tier1/src/cook.rs:876-898 | A picture a higher tier sent is what the caller gets, under its label; without bytes, the stand-in for its kind |
| CookPipeline.TierTwoFirst | tier1/src/cook.rs:1310-1328 | Tier 2 decides when it succeeds, but for a stand-in where tier 3 could do better |
| CookPipeline.TierThreeLast | tier1/src/cook.rs:1259-1371 | Tier 3 decides when tier 2 is not asked or asked in vain |
| CookPipeline.UnansweredMeaning | tier1/src/cook.rs:1259-1371 | A handoff nobody answered is a failure if anyone was asked, else a placeholder |
| CookPipeline.ReplayMeaning | tier1/src/cook.rs:955-967 | A recent answer is repeated unchanged but for its source |
| CookPipeline.ThumbCook.Produce | tier1/src/cook.rs:1070-1371 | Local steps until one ends the cook, else the handoff: what is shown in the end, the picture included, and what a handoff stores before anything is filled in |
| CookPipeline.StandInStored | tier1/src/routes.rs:1415-1421 | After any inspection that leaves the cook open, a tier 2 fallback without its bytes is answered with a filled-in picture and stored with none |
| CookPipeline.RenewedEmpty | tier1/src/cook.rs:1004-1018 | A 304 that renews an entry without bytes is answered from the cache with none |
| CookPipeline.EmptyAnswer | tier1/src/cook.rs:1327-1344 | The two in sequence: how a caller gets an empty answer from the cache |
| IfNoneMatch.EtagMatches | tier1/src/http_cache.rs:22-51 | The matcher loop decides the specified matching of values |
| IfNoneMatch.MatchValue | tier1/src/http_cache.rs:24-48 | The member loop of one value computes its specified answer |
| IfNoneMatch.AnyTagMeaning | tier1/src/http_cache.rs:29-48 | The member loop finds a tag if and only if some member weakly equals it |
| IfNoneMatch.StarMatches | tier1/src/http_cache.rs:25-28 | A star, and nothing else, matches every tag |
| IfNoneMatch.ListMatches | tier1/src/http_cache.rs:22-51 | For any well-formed list without empty elements, with optional whitespace and weak prefixes, the matcher decides weak equality with some member (sections 8.8.3.2 and 13.1.2 of RFC 9110) |
| IfNoneMatch.GapHides | tier1/src/http_cache.rs:29-44 | A list with an empty element: the matcher decides weak equality with the members in front of the first one, whatever stands behind it |
| IfNoneMatch.LeadingGapHides | tier1/src/http_cache.rs:31-33 | A list that starts with an empty element matches nothing |
| IfNoneMatch.GapHarmlessIff | tier1/src/http_cache.rs:29-44 | An empty element between two lists leaves the answer right if and only if the tag is in the first one or in neither |
| IfNoneMatch.TwoCommas | tier1/src/http_cache.rs:38-44 | A concrete list whose second tag is not found |
| IfNoneMatch.JoinIsMerge | tier1/src/routes.rs:386-393 | Values joined with ", " are the list of all their members |
| IfNoneMatch.JoinedValuesAgree | tier1/src/routes.rs:265-267 | Several values give the same answer one by one and joined |
| IfNoneMatch.TakeTag | tier1/src/http_cache.rs:30-44 | One member is taken off the front, or the value is malformed |
| BoxScan.IsobmffRotation | tier2/src/renderer.rs:1181-1227 | The loop with its recursion stays in bounds, ends, and computes the scan, on arbitrary bytes |
| BoxScan.DegreesUndo | tier2/src/renderer.rs:1187-1192 | The angle undoes the anticlockwise quarter turns that the two low bits count |
| BoxScan.OneRotationTold | tier2/src/renderer.rs:1186-1192 | Whatever its payload and whatever follows, a rotation box in 32 bits is told as the angle that undoes it |
| BoxScan.CodesMeaning | tier2/src/renderer.rs:1196-1212 | Which four-letter codes are looked into, and which begin with a version and flags |
| BoxScan.ScanShift | tier2/src/renderer.rs:1183-1225 | Scanning from a position depends only on the bytes behind it |
| BoxScan.ScanIsTurn | tier2/src/renderer.rs:1181-1227 | On the bytes of any well-formed box forest with no rotation in or behind a 64-bit box, the scan is the pre-order fold over the tree |
| BoxScan.SkipBox | tier2/src/renderer.rs:1196-1224 | A box that decides nothing is passed over exactly |
| BoxScan.ScanIsSeen | tier2/src/renderer.rs:1181-1227 | On the bytes of any well-formed box forest, compact, to-end and 64-bit sizes included, the scan is the fold that sees nothing from the first 64-bit box of a level on |
| BoxScan.LargeFullBoxReadsOn | tier2/src/renderer.rs:1196-1220 | Behind a `meta` or `iinf` box with a 64-bit size the scan goes on twelve octets late |
| BoxScan.ScanTellsIffNothingHides | tier2/src/renderer.rs:1221-1224 | The scan tells the rotation of every file of a shape if and only if no rotation box is in or behind a 64-bit box |
| BoxScan.NoLargeHidesNothing | tier2/src/renderer.rs:1221-1224 | The guard: without a size field of 1 nothing hides |
| BoxScan.LargeMediaHidesRotation | tier2/src/renderer.rs:1221-1223 | Concrete bytes whose rotation box is not found |
| BoxScan.PrefixTellsNoOther | tier2/src/renderer.rs:1181-1227 | On arbitrary bytes, where every full box the scan reaches has room for its flags, a prefix shows the rotation of the whole or none |
| BoxScan.FormedIsRoomy | tier2/src/renderer.rs:1199-1216 | The bytes of any well-formed box forest have that room, 64-bit boxes included |
| BoxScan.BeginningTells | tier2/src/renderer.rs:1168-1174 | Any beginning of a well-formed file that hides no rotation shows the rotation its tree has, or none |
| BoxScan.ShortMetaTellsAnother | tier2/src/renderer.rs:1214-1216 | Concrete bytes, with a `meta` box of size 8, whose beginning shows another rotation than the whole |
| RotationHint.ContainerRotationHint | tier2/src/renderer.rs:1168-1174 | The hint is the scan of what one read returns: exactly the first page in cached mode when nothing fails, else what one page or chunk allows, up to 64 KiB; where full boxes have room it is the file's rotation or none; the cursor is back at the start |
| RotationHint.HintOfForest | tier2/src/renderer.rs:1168-1174 | For a well-formed file that hides no rotation the hint is the rotation of its tree, or none |
| PathExpansion.Expand | tier1/src/config_path.rs:24-90 | The scanner equals a single pass over tokens, each substituted once |
| PathExpansion.ExpandBody | tier1/src/config_path.rs:40-85 | The index loop computes the substitution of the token list |
| PathExpansion.EscapedBody | tier1/src/config_path.rs:42-84 | Text with its reference characters doubled is read back character by character |
| PathExpansion.ReadToken | tier1/src/config_path.rs:43-84 | Reading by look-ahead finds the token the grammar says |
| PathExpansion.EscapedPath | tier1/src/config_path.rs:24-90 | A path with its reference characters doubled expands to itself, whatever the variables are |
| PathExpansion.ValuesAreLiteral | tier1/src/config_path.rs:48-59 | A substituted value is never scanned again |
| PathExpansion.BareReference | tier1/src/config_path.rs:60-68 | A bare name reaches as far as letters, digits and underscores do; an unset one fails |
| PathExpansion.PercentReference | tier1/src/config_path.rs:73-78 | A name between percent signs is a reference on Windows |
| PathExpansion.BadBraces | tier1/src/config_path.rs:48-56 | Braces that do not close, or hold nothing, fail the path |
| PathExpansion.LoneDollar | tier1/src/config_path.rs:79-83 | A dollar sign in front of anything else is text |
| PathExpansion.InHome | tier1/src/config_path.rs:32-39 | `~/x`, and on Windows `~\x`, is a path in the home directory |
| PathExpansion.NotHome | tier1/src/config_path.rs:32-39 | `~x` is not |
| PathExpansion.ExpansionUsable | tier1/src/config_path.rs:33-37 | What a path expands to is not empty and has no NUL; a missing or empty home directory fails |
| PathExpansion.NameEnd | tier1/src/config_path.rs:61-65 | A bare name ends at its first character that is no name character |

## Left out

- The network itself, async scheduling, cancellation inside a call, timing and telemetry.
- `open` reading its length and range support from response headers: both are parameters of the model.
- The caller's mutable read slice: a read returns the bytes as a sequence.
- HttpBuffer.HttpBuffer.EnsurePageCached: the end of the page under a cursor within 4096 bytes of 2^64 wraps in the code; offsets in the model do not wrap.
- FileStream.FileStream.Collect: a read of the file that fails is an error of `NextChunk`; the loop is modelled without one.
- FileStream.OpenFile: a file that shrinks while it is served is excluded; its chunks are then a prefix (`FileStream.ChunksArePrefix`).
- HttpBuffer.HttpBuffer.FetchTailIntoPages: in streaming mode a tail request may be repeated, because the code tests the trigger before the pages; the once-only law is for cached mode.
- CacheHints.Decode: validators are raw bytes; the lossy UTF-8 conversion on reading is not modelled.
- One clock reading stands for the several that a chain lookup or a renewal makes.
- `with_min_expiry`, `expiring_in` and the deprecated ETag helpers: easy functions of one field.
- Media other than thumbnail, kind, placeholder label, token and URL (mime, size, properties): carried along unchanged.
- The memory cache's own eviction policy: eviction is a step of the environment.
- SQLite and cloud backends, and the two-step write of a pin (`pin_result`): every tier of the chain is a memory backend.
- A write through the chain runs tier by tier; the coherence protocol runs its parts in any order and may lose any of them, which allows more.
- Pin identifiers: an HMAC of the key, taken as opaque names.
- `debounce_store`, which publishes without a leader: native requests that reach the front end always hold one.
- The join loop around a debounce lookup: its timeouts and retries are steps of the protocol, in any order and number.
- HTTP date parsing and the hash used as a fallback ETag: parameters of `PinHeaders.Headers`.
- Messages, trace fields and the back-off and failure tables written by `connect`: only the classification is modelled.
- CookPipeline.ThumbCook.Apply: inspection, shortcuts, local rendering and delivery are an arbitrary effect that does not report an unchanged source; what they store is not modelled.
- BoxScan.ScanIsSeen: a `meta` or `iinf` box with a 64-bit size that is not the last of its level (`BoxScan.LargeFullBoxReadsOn` says what the scan does there), and a 64-bit container of 1.6 GB or more, whose size field may spell a code.
- Downloaded byte totals: the local count is read after the buffer was closed.
- Sandboxing, foreign decoders, scaling and tone mapping, command line and configuration: nothing to prove about a result.
