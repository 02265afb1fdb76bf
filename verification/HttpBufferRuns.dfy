/**
 Whole runs of the HTTP buffer against a reference that knows only the plain
 bytes of the resource and a cursor.
 */
module HttpBufferRuns {
  import opened Prelude
  import opened PageCache
  import opened HttpStream
  import opened HttpBuffer

  datatype Op =
    | Seek(offset: nat)
    | SeekRelative(delta: int)
    | Rewind
    | SetEof(len: nat)
    | ClearEof
    | EnterStreaming
    | Read(want: nat)
    | ReadAt(at: nat, count: nat)
    | FetchRange(start: nat, size: nat)

  datatype Observation = Quiet | Data(bytes: seq<byte>) | Failed(error: HttpError)

  /** The reference: a cursor over the resource, how far reads may look, and how much the primary stream delivers. */
  datatype Reference = Reference(cursor: nat, eof: Option<nat>, streaming: bool, delivered: nat) {
    function End(r: seq<byte>): nat {
      Min(|r|, eof.GetOr(|r|))
    }

    /** Short of this no read comes back empty; it is the end unless the body was cut off. */
    function SureEnd(): nat {
      Min(delivered, eof.GetOr(delivered))
    }
  }

  /** Offsets are machine words. */
  predicate InRange(op: Op) {
    match op
    case Seek(offset) => offset <= U64_MAX
    case ReadAt(at, _) => at <= U64_MAX
    case _ => true
  }

  /** What the reference allows an operation to show and to leave behind. */
  ghost predicate Allows(r: seq<byte>, s: Reference, op: Op, seen: Observation, t: Reference) {
    match op
    case Seek(offset) => seen.Quiet? && t == s.(cursor := offset)
    case SeekRelative(delta) =>
      && seen.Quiet?
      && t == s.(cursor := if delta < 0 then Max(0, s.cursor + delta) else Min(U64_MAX, s.cursor + delta))
    case Rewind => seen.Quiet? && t == s.(cursor := 0)
    case SetEof(len) => seen.Quiet? && t == s.(eof := Some(len))
    case ClearEof => seen.Quiet? && t == s.(eof := None)
    case EnterStreaming => seen.Quiet? && t == s.(streaming := true)
    case Read(want) => AllowsRead(r, s, want, seen, t)
    case ReadAt(at, count) => AllowsReadAt(r, s, at, count, seen, t)
    case FetchRange(start, size) =>
      && t == s
      && (seen.Data? ==> seen.bytes == Clip(r, start, start + size))
      && (seen.Failed? ==> seen.error.Network?)
      && !seen.Quiet?
  }

  ghost predicate AllowsRead(r: seq<byte>, s: Reference, want: nat, seen: Observation, t: Reference) {
    match seen
    case Quiet => false
    case Failed(error) => t == s && (!s.streaming ==> error.Network?)
    case Data(bytes) =>
      && t == s.(cursor := s.cursor + |bytes|)
      && |bytes| <= want
      && bytes == Clip(r, s.cursor, t.cursor)
      && (bytes == [] && 0 < want ==> s.SureEnd() <= s.cursor)
      && (bytes != [] && !s.streaming ==> t.cursor <= s.End(r))
  }

  ghost predicate AllowsReadAt(r: seq<byte>, s: Reference, at: nat, count: nat, seen: Observation, t: Reference) {
    match seen
    case Quiet => false
    case Failed(error) => t == s.(cursor := t.cursor) && at <= t.cursor && (!s.streaming ==> error.Network?)
    case Data(bytes) =>
      && t == s
      && bytes == Clip(r, at, at + |bytes|)
      && |bytes| <= count
      && (|bytes| < count ==> s.SureEnd() <= at + |bytes|)
      && (!s.streaming && s.delivered == |r| ==> bytes == Clip(r, at, Min(at + count, s.End(r))))
      && (!s.streaming && bytes != [] ==> at + |bytes| <= s.End(r))
  }

  /** The observations of a run, one per executed operation, with the reference state around each. */
  ghost predicate Explains(r: seq<byte>, ops: seq<Op>, seen: seq<Observation>, states: seq<Reference>) {
    && |seen| <= |ops| && |states| == |seen| + 1
    && forall i :: 0 <= i < |seen| ==> Allows(r, states[i], ops[i], seen[i], states[i + 1])
  }

  /**
   Streaming mode was entered from cached mode, and since then the cursor has
   only moved forward and nothing was read elsewhere.
   */
  ghost predicate ForwardOnly(ops: seq<Op>, states: seq<Reference>, i: nat)
    requires i < |states| <= |ops| + 1
  {
    if !states[i].streaming then true
    else if i == 0 then false
    else if !states[i - 1].streaming then true
    else ForwardOnly(ops, states, i - 1) && !ops[i - 1].ReadAt? && states[i - 1].cursor <= states[i].cursor
  }

  ghost function Abstract(b: HttpBuffer): Reference
    reads b
  {
    Reference(b.cursor, b.eofOverride, b.streamingMode, b.end)
  }

  /** `ForwardOnly` looks back only. */
  lemma {:induction false} ForwardOnlyStable(ops: seq<Op>, states: seq<Reference>, more: Reference, i: nat)
    requires i < |states| <= |ops|
    ensures ForwardOnly(ops, states + [more], i) == ForwardOnly(ops, states, i)
  {
    if i > 0 {
      ForwardOnlyStable(ops, states, more, i - 1);
    }
  }

  /** Streaming mode is one-way, and in cached mode no operation reports lost data. */
  lemma ModeLaws(r: seq<byte>, s: Reference, op: Op, seen: Observation, t: Reference)
    requires Allows(r, s, op, seen, t)
    ensures s.streaming ==> t.streaming
    ensures !s.streaming ==> seen != Failed(SeekBehindStream)
  {
  }

  predicate MovesBytes(op: Op) {
    op.Read? || op.ReadAt? || op.FetchRange?
  }

  function Show(r: Result<seq<byte>, HttpError>): Observation {
    if r.Ok? then Data(r.value) else Failed(r.error)
  }

  /** No Range request an operation might make is refused or interrupted, whatever number from `base` on it has. */
  ghost predicate ServesRun(b: HttpBuffer, ops: seq<Op>, base: nat) {
    forall serial: nat :: base <= serial <= base + |ops| ==>
      && Serves(b.server, RangeRequest(TailStart(|b.resource|), TailEnd(|b.resource|), serial))
      && forall op :: op in ops && op.FetchRange? && 0 < op.size ==>
           Serves(b.server, RangeRequest(op.start, op.start + op.size - 1, serial))
  }

  /** Nothing fails under this operation: the stream is clean, and the requests it might make are served. */
  ghost predicate Secure(b: HttpBuffer, op: Op)
    reads b, b.stream
  {
    && Clean(b.stream.events) && b.TailServed()
    && (op.FetchRange? && 0 < op.size ==> b.Served(op.start, op.start + op.size - 1))
  }

  lemma ServesNow(b: HttpBuffer, ops: seq<Op>, base: nat, op: Op)
    requires ServesRun(b, ops, base) && op in ops && Clean(b.stream.events)
    requires base <= b.rangeRequests <= base + |ops|
    ensures Secure(b, op)
  {
    hide Serves, Clean;
    assert Serves(b.server, RangeRequest(TailStart(|b.resource|), TailEnd(|b.resource|), b.rangeRequests));
  }

  method PerformRead(b: HttpBuffer, want: nat) returns (seen: Observation)
    requires b.Valid()
    modifies b, b.stream
    ensures b.Valid()
    ensures AllowsRead(b.resource, old(Abstract(b)), want, seen, Abstract(b))
    ensures b.streamingMode == old(b.streamingMode)
    ensures !b.streamingMode ==> old(b.rangeRequests) <= b.rangeRequests <= old(b.rangeRequests) + 1
    ensures !b.streamingMode && old(b.Reliable()) ==> seen.Data? && b.Reliable()
    ensures old(b.ForwardReady()) && b.streamingMode ==> b.ForwardReady() && seen != Failed(SeekBehindStream)
  {
    var r := b.Read(want);
    seen := Show(r);
  }

  method PerformReadAt(b: HttpBuffer, at: nat, count: nat) returns (seen: Observation)
    requires b.Valid() && at <= U64_MAX
    modifies b, b.stream
    ensures b.Valid()
    ensures AllowsReadAt(b.resource, old(Abstract(b)), at, count, seen, Abstract(b))
    ensures b.streamingMode == old(b.streamingMode)
    ensures !b.streamingMode ==> old(b.rangeRequests) <= b.rangeRequests <= old(b.rangeRequests) + 1
    ensures !b.streamingMode && old(b.Reliable()) ==> seen.Data? && b.Reliable()
  {
    var r := b.ReadAt(at, count);
    seen := Show(r);
  }

  method PerformMove(b: HttpBuffer, op: Op) returns (seen: Observation)
    requires b.Valid() && InRange(op)
    requires !MovesBytes(op)
    modifies b
    ensures b.Valid() && seen.Quiet? && b.rangeRequests == old(b.rangeRequests)
    ensures Allows(b.resource, old(Abstract(b)), op, seen, Abstract(b))
    ensures !old(b.streamingMode) && b.streamingMode ==> b.ForwardReady()
    ensures old(b.ForwardReady()) && b.streamingMode && !op.ReadAt? && old(b.cursor) <= b.cursor ==>
              b.ForwardReady() && seen != Failed(SeekBehindStream)
  {
    seen := Quiet;
    match op
    case Seek(offset) => b.Seek(offset);
    case SeekRelative(delta) => b.SeekRelative(delta);
    case Rewind => b.Rewind();
    case SetEof(len) => b.SetEof(len);
    case ClearEof => b.ClearEof();
    case EnterStreaming => b.EnterStreamingMode();
  }

  method Perform(b: HttpBuffer, op: Op) returns (seen: Observation)
    requires b.Valid() && InRange(op)
    requires op.FetchRange? ==> Contiguous(b.pages, op.start)
    modifies b, b.stream
    ensures b.Valid()
    ensures Allows(b.resource, old(Abstract(b)), op, seen, Abstract(b))
    ensures !old(b.streamingMode) ==> old(b.rangeRequests) <= b.rangeRequests <= old(b.rangeRequests) + 1
    ensures !old(b.streamingMode) && old(Secure(b, op)) ==> !seen.Failed? && Clean(b.stream.events)
    ensures !old(b.streamingMode) && b.streamingMode ==> b.ForwardReady()
    ensures old(b.ForwardReady()) && b.streamingMode && !op.ReadAt? && old(b.cursor) <= b.cursor ==>
              b.ForwardReady() && seen != Failed(SeekBehindStream)
  {
    hide AllowsRead, AllowsReadAt, b.Valid, b.ForwardReady, Clean, Serves;
    match op
    case Read(want) => seen := PerformRead(b, want);
    case ReadAt(at, count) => seen := PerformReadAt(b, at, count);
    case FetchRange(start, size) =>
      var r := b.FetchRange(start, size);
      seen := Show(r);
    case _ => seen := PerformMove(b, op);
  }

  /**
   Any run of operations shows what the plain bytes explain, up to the first
   range fetch that would leave a hole in its page; and a buffer that is only
   moved forward after entering streaming mode never reports lost data.
   */
  method Run(b: HttpBuffer, ops: seq<Op>) returns (seen: seq<Observation>, ghost states: seq<Reference>)
    requires b.Valid()
    requires forall op :: op in ops ==> InRange(op)
    modifies b, b.stream
    ensures b.Valid()
    ensures Explains(b.resource, ops, seen, states)
    ensures states[0] == old(Abstract(b)) && states[|seen|] == Abstract(b)
    ensures |seen| < |ops| ==> ops[|seen|].FetchRange? && !Contiguous(b.pages, ops[|seen|].start)
    ensures forall i :: 0 <= i < |seen| && ForwardOnly(ops, states, i) && ForwardOnly(ops, states, i + 1) ==>
              seen[i] != Failed(SeekBehindStream)
    ensures old(Clean(b.stream.events)) && ServesRun(b, ops, old(b.rangeRequests)) ==>
              forall i :: 0 <= i < |seen| && !states[i].streaming ==> !seen[i].Failed?
  {
    hide Allows, InRange, Clean, ServesRun, Secure;
    seen, states := [], [Abstract(b)];
    while |seen| < |ops|
      invariant b.Valid()
      invariant Explains(b.resource, ops, seen, states)
      invariant states[0] == old(Abstract(b)) && states[|seen|] == Abstract(b)
      invariant b.streamingMode && ForwardOnly(ops, states, |seen|) ==> b.ForwardReady()
      invariant forall i :: 0 <= i < |seen| && ForwardOnly(ops, states, i) && ForwardOnly(ops, states, i + 1) ==>
                  seen[i] != Failed(SeekBehindStream)
      invariant !b.streamingMode ==> old(b.rangeRequests) <= b.rangeRequests <= old(b.rangeRequests) + |seen|
      invariant old(Clean(b.stream.events)) && ServesRun(b, ops, old(b.rangeRequests)) ==>
                  && (!b.streamingMode ==> Clean(b.stream.events))
                  && forall i :: 0 <= i < |seen| && !states[i].streaming ==> !seen[i].Failed?
      decreases |ops| - |seen|
    {
      var op := ops[|seen|];
      if op.FetchRange? && !Contiguous(b.pages, op.start) {
        return;
      }
      if !b.streamingMode && Clean(b.stream.events) && ServesRun(b, ops, old(b.rangeRequests)) {
        ServesNow(b, ops, old(b.rangeRequests), op);
      }
      var shown := Perform(b, op);
      ModeLaws(b.resource, states[|seen|], op, shown, Abstract(b));
      forall i | 0 <= i < |states|
        ensures ForwardOnly(ops, states + [Abstract(b)], i) == ForwardOnly(ops, states, i)
      {
        ForwardOnlyStable(ops, states, Abstract(b), i);
      }
      seen, states := seen + [shown], states + [Abstract(b)];
    }
  }
}
