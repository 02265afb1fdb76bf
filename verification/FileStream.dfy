/**
 The `file://` backend: the Range header is parsed back from the text the
 buffer printed, and the slice is read in page-sized chunks.
 */
module FileStream {
  import opened Prelude
  import opened Text
  import opened PageCache
  import opened HttpStream
  import opened HttpBuffer

  type Headers = seq<(string, string)>

  /** The header the buffer sends for an inclusive byte range. */
  function RangeHeader(first: nat, last: nat): (string, string) {
    ("range", "bytes=" + Print(first, 10) + "-" + Print(last, 10))
  }

  function FindRange(headers: Headers): Option<string> {
    if headers == [] then None
    else if Lower(headers[0].0) == "range" then Some(headers[0].1)
    else FindRange(headers[1..])
  }

  /** `end + 1` on machine words. */
  function Successor(n: nat): nat {
    if n >= U64_MAX then 0 else n + 1
  }

  /** Half-open byte range asked for by the first Range header; the whole file when it is absent or foreign. */
  function ParseFileRange(headers: Headers, fileLen: nat): (r: (nat, nat))
    ensures r.0 <= fileLen && r.1 <= fileLen
  {
    var header := FindRange(headers);
    var range := if header.Some? then StripPrefix(header.value, "bytes=") else None;
    if range.None? then (0, fileLen)
    else
      var dash := IndexOf(range.value, '-');
      var start := Parse(range.value[..dash], 10, U64_MAX).GetOr(0);
      var inclusive := if dash < |range.value| then Parse(range.value[dash + 1..], 10, U64_MAX) else None;
      var end := if inclusive.Some? then Successor(inclusive.value) else fileLen;
      (if start < fileLen then start else fileLen, if end < fileLen then end else fileLen)
  }

  /** What the buffer prints is what the backend reads. */
  lemma RangeRoundTrip(first: nat, last: nat, fileLen: nat)
    requires first <= U64_MAX && last <= U64_MAX
    ensures ParseFileRange([RangeHeader(first, last)], fileLen)
         == (Min(first, fileLen), Min(Successor(last), fileLen))
  {
    var (name, text) := RangeHeader(first, last);
    assert Lower(name) == name;
    var body := Print(first, 10) + "-" + Print(last, 10);
    assert text == "bytes=" + body;
    assert text[|"bytes="|..] == body;
    assert StripPrefix(text, "bytes=") == Some(body);
    assert body == Print(first, 10) + ['-'] + Print(last, 10);
    IndexOfJoin(Print(first, 10), '-', Print(last, 10));
    var dash := |Print(first, 10)|;
    assert body[..dash] == Print(first, 10) && body[dash + 1..] == Print(last, 10);
    ParsePrint(first, 10, U64_MAX);
    ParsePrint(last, 10, U64_MAX);
  }

  /** Without an end the range reaches to the end of the file. */
  lemma OpenRange(first: nat, fileLen: nat)
    requires first <= U64_MAX
    ensures ParseFileRange([("range", "bytes=" + (Print(first, 10) + "-"))], fileLen) == (Min(first, fileLen), fileLen)
  {
    var digits := Print(first, 10);
    ParsePrint(first, 10, U64_MAX);
    assert Parse("", 10, U64_MAX).None?;
    hide Print, Parse, FindRange;
    var body := digits + "-";
    RangeBody(body);
    assert body == digits + ['-'] + [];
    IndexOfJoin(digits, '-', []);
    hide IndexOf, StripPrefix;
    assert body[..|digits|] == digits && body[|digits| + 1..] == "";
  }

  /** A range without a start is no suffix here: it is read from the first byte on. */
  lemma SuffixReadFromStart(n: nat, fileLen: nat)
    requires n <= U64_MAX
    ensures ParseFileRange([("range", "bytes=" + ("-" + Print(n, 10)))], fileLen) == (0, Min(Successor(n), fileLen))
  {
    var digits := Print(n, 10);
    ParsePrint(n, 10, U64_MAX);
    assert Parse("", 10, U64_MAX).None?;
    hide Print, Parse, FindRange;
    var body := "-" + digits;
    RangeBody(body);
    assert body == [] + ['-'] + digits;
    IndexOfJoin([], '-', digits);
    hide IndexOf, StripPrefix;
    assert body[..0] == "" && body[1..] == digits;
  }

  lemma RangeBody(body: string)
    ensures FindRange([("range", "bytes=" + body)]) == Some("bytes=" + body)
    ensures StripPrefix("bytes=" + body, "bytes=") == Some(body)
  {
    assert Lower("range") == "range";
    assert ("bytes=" + body)[|"bytes="|..] == body;
  }

  /** The first header of that name counts, in whatever case it is written. */
  lemma FirstRangeCounts(name: string, value: string, rest: Headers)
    ensures FindRange([(name, value)] + rest) == if Lower(name) == "range" then Some(value) else FindRange(rest)
  {
    assert ([(name, value)] + rest)[1..] == rest;
  }

  /** Without a Range header, or with one in another unit, the whole file is served; the first one counts. */
  lemma WholeFile(headers: Headers, fileLen: nat)
    requires FindRange(headers).None? || !("bytes=" <= FindRange(headers).value)
    ensures ParseFileRange(headers, fileLen) == (0, fileLen)
  {
  }

  /** Every chunk is non-empty and no larger than a page. */
  predicate PageSized(events: seq<StreamEvent>) {
    forall e :: e in events ==> e.Chunk? && 0 < |e.bytes| <= PAGE_SIZE
  }

  lemma BodyCons(bytes: seq<byte>, rest: seq<StreamEvent>)
    ensures Body([Chunk(bytes)] + rest) == bytes + Body(rest)
  {
    assert ([Chunk(bytes)] + rest)[1..] == rest;
  }

  /** The bytes of one read of which the system grants at most `granted`: none if the file has been cut short. */
  function ReadSize(remaining: nat, granted: nat): (n: nat)
    ensures n <= remaining && n <= PAGE_SIZE && (n == 0 <==> remaining == 0 || granted == 0)
  {
    Min(granted, Min(PAGE_SIZE, remaining))
  }

  /** The file stays as long as it was when it was opened. */
  ghost predicate Steady(granted: nat -> nat) {
    forall r: nat :: 0 < r ==> 0 < granted(r)
  }

  /** What the chunk loop delivers, when `granted(r)` bytes are granted with `r` to go. */
  function Chunks(file: seq<byte>, position: nat, remaining: nat, granted: nat -> nat): (events: seq<StreamEvent>)
    requires position + remaining <= |file|
    decreases remaining
  {
    var n := ReadSize(remaining, granted(remaining));
    if n == 0 then []
    else
      [Chunk(file[position..position + n])] + Chunks(file, position + n, remaining - n, granted)
  }

  lemma ChunksStep(file: seq<byte>, position: nat, remaining: nat, granted: nat -> nat)
    requires position + remaining <= |file| && 0 < ReadSize(remaining, granted(remaining))
    ensures var n := ReadSize(remaining, granted(remaining));
      Chunks(file, position, remaining, granted)
      == [Chunk(file[position..position + n])] + Chunks(file, position + n, remaining - n, granted)
  {
  }

  /** However the system cuts it up, the loop delivers the slice. */
  lemma {:induction false} ChunksAreSlice(file: seq<byte>, position: nat, remaining: nat, granted: nat -> nat)
    requires position + remaining <= |file| && Steady(granted)
    ensures Body(Chunks(file, position, remaining, granted)) == file[position..position + remaining]
    decreases remaining
  {
    if remaining > 0 {
      var n := ReadSize(remaining, granted(remaining));
      var middle, end := position + n, position + remaining;
      var rest := Chunks(file, middle, remaining - n, granted);
      ChunksStep(file, position, remaining, granted);
      ChunksAreSlice(file, middle, remaining - n, granted);
      hide Chunks, Body, ReadSize, Steady;
      assert middle + (remaining - n) == end && Body(rest) == file[middle..end];
      BodyCons(file[position..middle], rest);
      JoinSlices(file, position, middle, end);
    }
  }

  lemma PrefixBehind<T>(r: seq<T>, a: nat, b: nat, c: nat, rest: seq<T>)
    requires a <= b <= c <= |r| && rest <= r[b..c]
    ensures r[a..b] + rest <= r[a..c]
  {
    JoinSlices(r, a, b, c);
  }

  /** If the file is cut short, a prefix of it. */
  lemma {:induction false} ChunksArePrefix(file: seq<byte>, position: nat, remaining: nat, granted: nat -> nat)
    requires position + remaining <= |file|
    ensures Body(Chunks(file, position, remaining, granted)) <= file[position..position + remaining]
    decreases remaining
  {
    var n := ReadSize(remaining, granted(remaining));
    if n > 0 {
      var middle, end := position + n, position + remaining;
      var rest := Chunks(file, middle, remaining - n, granted);
      ChunksStep(file, position, remaining, granted);
      ChunksArePrefix(file, middle, remaining - n, granted);
      hide Chunks, Body, ReadSize;
      assert middle + (remaining - n) == end;
      BodyCons(file[position..middle], rest);
      PrefixBehind(file, position, middle, end, Body(rest));
    }
  }

  lemma {:induction false} ChunksArePageSized(file: seq<byte>, position: nat, remaining: nat, granted: nat -> nat)
    requires position + remaining <= |file|
    ensures PageSized(Chunks(file, position, remaining, granted))
    decreases remaining
  {
    var n := ReadSize(remaining, granted(remaining));
    if n > 0 {
      ChunksStep(file, position, remaining, granted);
      ChunksArePageSized(file, position + n, remaining - n, granted);
      hide Chunks, ReadSize;
    }
  }

  class FileStream {
    const file: seq<byte>
    var position: nat
    var remaining: nat

    ghost predicate Valid()
      reads this
    {
      position + remaining <= |file|
    }

    /** Open the file and seek to the start of the requested range. */
    constructor Connect(file: seq<byte>, headers: Headers)
      ensures Valid() && this.file == file
      ensures (position, position + remaining) ==
              var (a, b) := ParseFileRange(headers, |file|); (a, Max(a, b))
    {
      var (start, end) := ParseFileRange(headers, |file|);
      this.file := file;
      position := start;
      remaining := SaturatingSub(end, start);
    }

    /** One read of the file: the system grants some bytes, or fails. */
    method NextChunk(granted: Result<nat, string>) returns (r: Result<Option<seq<byte>>, HttpError>)
      requires Valid()
      modifies this
      ensures Valid()
      ensures r.Err? <==> granted.Err? && old(remaining) != 0
      ensures r.Err? ==> r.error.Network?
      ensures r == Ok(None) <==> old(remaining) == 0 || granted == Ok(0)
      ensures r.Err? || r.value.None? ==> position == old(position) && remaining == old(remaining)
      ensures r.Ok? && r.value.Some? ==>
                && granted.Ok? && |r.value.value| == ReadSize(old(remaining), granted.value)
                && position == old(position) + |r.value.value|
                && r.value.value == file[old(position)..position]
                && position + remaining == old(position + remaining)
                && remaining < old(remaining)
    {
      if remaining == 0 {
        return Ok(None);
      }
      if granted.Err? {
        return Err(Network("file read: " + granted.error));
      }
      var n := ReadSize(remaining, granted.value);
      if n == 0 {
        return Ok(None);
      }
      var chunk := file[position..position + n];
      position, remaining := position + n, remaining - n;
      return Ok(Some(chunk));
    }

    /** Everything the stream delivers while no read of the file fails. */
    method Collect(granted: nat -> nat) returns (events: seq<StreamEvent>)
      requires Valid()
      modifies this
      ensures events == Chunks(file, old(position), old(remaining), granted)
    {
      events := [];
      ghost var whole := Chunks(file, position, remaining, granted);
      hide Chunks, ReadSize;
      while true
        invariant Valid()
        invariant events + Chunks(file, position, remaining, granted) == whole
        decreases remaining
      {
        NoMoreChunks(file, position, remaining, granted);
        ghost var from, left := position, remaining;
        var chunk := NextChunk(Ok(granted(remaining)));
        if chunk.value.None? {
          break;
        }
        ChunksStep(file, from, left, granted);
        assert position == from + ReadSize(left, granted(left)) && remaining == left - ReadSize(left, granted(left));
        MoveOne(events, Chunk(chunk.value.value), Chunks(file, position, remaining, granted), whole);
        events := events + [Chunk(chunk.value.value)];
      }
    }
  }

  lemma NoMoreChunks(file: seq<byte>, position: nat, remaining: nat, granted: nat -> nat)
    requires position + remaining <= |file|
    ensures ReadSize(remaining, granted(remaining)) == 0 ==> Chunks(file, position, remaining, granted) == []
  {
  }

  lemma MoveOne<T>(done: seq<T>, x: T, rest: seq<T>, whole: seq<T>)
    requires done + ([x] + rest) == whole
    ensures (done + [x]) + rest == whole
  {
  }

  /** What the file backend answers to one Range request of the buffer. */
  function Answered(file: seq<byte>, q: RangeRequest, granted: nat -> nat): seq<StreamEvent> {
    var (start, end) := ParseFileRange([RangeHeader(q.first, q.last)], |file|);
    Chunks(file, start, SaturatingSub(end, start), granted)
  }

  /** The file backend as a Range server, for whatever finite set of requests is ever made of it. */
  function FileServer(file: seq<byte>, requests: set<RangeRequest>, granted: nat -> nat): RangeServer {
    map q | q in requests :: Serving(Answered(file, q, granted))
  }

  /** The end of the request can be counted one up, or it asks for nothing. */
  predicate Servable(file: seq<byte>, q: RangeRequest) {
    q.first <= U64_MAX && q.last <= U64_MAX && (q.last < U64_MAX || |file| <= q.first)
  }

  /** A request is answered with its slice exactly when it is servable. */
  lemma AnsweredIff(file: seq<byte>, q: RangeRequest, granted: nat -> nat)
    requires |file| <= U64_MAX && q.first <= U64_MAX && q.last <= U64_MAX && Steady(granted)
    ensures Body(Answered(file, q, granted)) == Clip(file, q.first, q.last + 1) <==> Servable(file, q)
    ensures PageSized(Answered(file, q, granted))
  {
    RangeRoundTrip(q.first, q.last, |file|);
    var start, end := Min(q.first, |file|), Min(Successor(q.last), |file|);
    ChunksAreSlice(file, start, SaturatingSub(end, start), granted);
    ChunksArePageSized(file, start, SaturatingSub(end, start), granted);
  }

  lemma FileServerHonest(file: seq<byte>, requests: set<RangeRequest>, granted: nat -> nat)
    requires |file| <= U64_MAX && Steady(granted)
    requires forall q :: q in requests ==> Servable(file, q)
    ensures Honest(FileServer(file, requests, granted), file)
  {
    forall q | q in requests
      ensures Body(Answered(file, q, granted)) == Clip(file, q.first, q.last + 1)
    {
      AnsweredIff(file, q, granted);
    }
  }

  /** Serve one Range request of the buffer from the file. */
  method ServeRange(file: seq<byte>, q: RangeRequest, granted: nat -> nat) returns (events: seq<StreamEvent>)
    ensures events == Answered(file, q, granted)
  {
    hide Chunks;
    var stream := new FileStream.Connect(file, [RangeHeader(q.first, q.last)]);
    events := stream.Collect(granted);
  }

  lemma ChunksAreClean(events: seq<StreamEvent>)
    requires PageSized(events)
    ensures NothingLost(events) && Clean(events)
  {
    forall i | 0 <= i < |events|
      ensures events[i].Chunk?
    {
      assert events[i] in events;
    }
  }

  lemma FileBody(file: seq<byte>, granted: nat -> nat)
    requires Steady(granted)
    ensures Body(Chunks(file, 0, |file|, granted)) == Sent(Chunks(file, 0, |file|, granted)) == file
    ensures Clean(Chunks(file, 0, |file|, granted))
  {
    var events := Chunks(file, 0, |file|, granted);
    hide Chunks, Body, Sent, Steady, PageSized, NothingLost, Clean;
    ChunksAreSlice(file, 0, |file|, granted);
    assert file[0..|file|] == file;
    ChunksArePageSized(file, 0, |file|, granted);
    ChunksAreClean(events);
    BodyOfSent(events);
  }

  /** The file backend answers each of the requests without a failure. */
  lemma FileServerServes(file: seq<byte>, requests: set<RangeRequest>, granted: nat -> nat, q: RangeRequest)
    requires |file| <= U64_MAX && Steady(granted) && q in requests && Servable(file, q)
    ensures Serves(FileServer(file, requests, granted), q)
  {
    AnsweredIff(file, q, granted);
    ChunksAreClean(Answered(file, q, granted));
    hide Answered, Clean, PageSized;
  }

  /**
   The buffer opened on a file URL, with the file backend behind its body and
   its Range requests, satisfies everything proved of the buffer, with the
   file as its resource.
   */
  method OpenFile(file: seq<byte>, granted: nat -> nat, requests: set<RangeRequest>) returns (b: HttpBuffer)
    requires |file| <= U64_MAX && Steady(granted)
    requires forall q :: q in requests ==> Servable(file, q)
    ensures fresh(b) && fresh(b.stream) && b.Valid() && b.ForwardReady()
    ensures b.resource == file && b.contentLength == Some(|file|) && b.acceptsRanges
    ensures b.server == FileServer(file, requests, granted)
    ensures b.cursor == 0 && b.eofOverride == None && !b.streamingMode && b.end == |file|
    ensures Clean(b.stream.events) && b.rangeRequests == 0
  {
    hide Chunks, Body, Sent, Honest, Steady, Servable, Clean;
    var source := new FileStream.Connect(file, []);
    var length := source.remaining;
    FileBody(file, granted);
    var events := source.Collect(granted);
    FileServerHonest(file, requests, granted);
    var stream := new ByteStream(events);
    b := new HttpBuffer.Open(stream, FileServer(file, requests, granted), Some(length), true, file);
  }

  /** A file that is opened and read from end to end: what comes back is the file. */
  method ReadFile(file: seq<byte>, granted: nat -> nat, requests: set<RangeRequest>)
      returns (r: Result<seq<byte>, HttpError>)
    requires |file| <= U64_MAX && Steady(granted)
    requires forall q :: q in requests ==> Servable(file, q)
    ensures r.Ok? ==> r.value == file
    ensures r.Err? ==> r.error.Network?
    ensures RangeRequest(TailStart(|file|), TailEnd(|file|), 0) in requests ==> r.Ok?
  {
    var b := OpenFile(file, granted, requests);
    var tail := RangeRequest(TailStart(|file|), TailEnd(|file|), 0);
    hide Steady, Servable, Clean, Serves;
    if tail in requests {
      FileServerServes(file, requests, granted, tail);
    }
    r := b.ReadAt(0, |file|);
  }
}
