/**
 The network as the HTTP buffer sees it: a primary body stream that hands out
 chunks and may fault between them, and a server that answers Range requests.
 */
module HttpStream {
  import opened Prelude

  datatype HttpError = Network(message: string) | SeekBehindStream

  /** What one pull of the body produces: some bytes, a network failure, or one that also ends the body. */
  datatype StreamEvent = Chunk(bytes: seq<byte>) | Fault(message: string) | Cut(message: string)

  /** The bytes a stream still delivers. */
  function Body(events: seq<StreamEvent>): seq<byte> {
    if events == [] || events[0].Cut? then []
    else (if events[0].Chunk? then events[0].bytes else []) + Body(events[1..])
  }

  /** The bytes the server sends, including what stands behind a cut and is lost. */
  function Sent(events: seq<StreamEvent>): seq<byte> {
    if events == [] then []
    else (if events[0].Chunk? then events[0].bytes else []) + Sent(events[1..])
  }

  /** No bytes stand behind a cut. */
  predicate NothingLost(events: seq<StreamEvent>) {
    forall i, j :: 0 <= i < j < |events| && events[i].Cut? && events[j].Chunk? ==> events[j].bytes == []
  }

  lemma {:induction false} SentNothing(events: seq<StreamEvent>)
    ensures Sent(events) == [] <==> forall j :: 0 <= j < |events| && events[j].Chunk? ==> events[j].bytes == []
  {
    if events != [] {
      var rest := events[1..];
      SentNothing(rest);
      assert forall j :: 1 <= j < |events| ==> events[j] == rest[j - 1];
    }
  }

  /** What is delivered is a prefix of what is sent, and all of it exactly when no bytes stand behind a cut. */
  lemma {:induction false} BodyOfSent(events: seq<StreamEvent>)
    ensures Body(events) <= Sent(events)
    ensures Body(events) == Sent(events) <==> NothingLost(events)
  {
    if events != [] {
      var rest := events[1..];
      assert forall j :: 1 <= j < |events| ==> events[j] == rest[j - 1];
      if events[0].Cut? {
        SentNothing(rest);
      } else {
        BodyOfSent(rest);
      }
    }
  }

  datatype RangeReply = Refused(message: string) | Serving(events: seq<StreamEvent>)

  /** A request for the inclusive byte range `first..last`; `serial` tells repeated requests apart. */
  datatype RangeRequest = RangeRequest(first: nat, last: nat, serial: nat)

  /** What the server would do with each request it is reachable for. */
  type RangeServer = map<RangeRequest, RangeReply>

  function Answer(server: RangeServer, request: RangeRequest): RangeReply {
    if request in server then server[request] else Refused("connection failed")
  }

  /** The request is answered, and no failure interrupts the answer. */
  ghost predicate Serves(server: RangeServer, q: RangeRequest) {
    var reply := Answer(server, q);
    reply.Serving? && Clean(reply.events)
  }

  /** No failure interrupts the body. */
  predicate Clean(events: seq<StreamEvent>) {
    forall i :: 0 <= i < |events| ==> events[i].Chunk?
  }

  /** A Range request that is answered without a failure delivers exactly that slice of the resource. */
  ghost predicate Honest(server: RangeServer, r: seq<byte>) {
    forall q :: q in server && server[q].Serving? && Clean(server[q].events) ==>
      Body(server[q].events) == Clip(r, q.first, q.last + 1)
  }

  /** The body of an open response. */
  class ByteStream {
    var events: seq<StreamEvent>

    constructor (events: seq<StreamEvent>)
      ensures this.events == events
    {
      this.events := events;
    }

    /** Pull the next bytes of the body; `None` when it is exhausted, or was cut. */
    method NextChunk() returns (r: Result<Option<seq<byte>>, HttpError>)
      modifies this
      ensures r.Ok? && r.value.Some? ==> Body(old(events)) == r.value.value + Body(events)
      ensures r.Ok? && r.value.None? ==> old(events) == [] && events == []
      ensures r.Err? ==> Body(old(events)) == Body(events) && r.error.Network?
      ensures r.Err? || r.value.Some? ==> |events| < |old(events)|
      ensures r.Ok? && r.value.Some? ==> old(events)[0] == Chunk(r.value.value) && events == old(events)[1..]
      ensures old(Clean(events)) ==> r.Ok? && Clean(events)
      ensures r.Ok? && Clean(events) ==> old(Clean(events))
    {
      if events == [] {
        return Ok(None);
      }
      var event := events[0];
      events := events[1..];
      match event
      case Chunk(bytes) => return Ok(Some(bytes));
      case Fault(message) => return Err(Network(message));
      case Cut(message) =>
        events := [];
        return Err(Network(message));
    }

    /** Pull until the body is exhausted, failing on the first fault. */
    method Drain() returns (r: Result<seq<byte>, HttpError>)
      modifies this
      ensures r.Ok? <==> old(Clean(events))
      ensures r.Ok? ==> r.value == Body(old(events)) && events == []
      ensures r.Err? ==> r.error.Network?
    {
      var bytes := [];
      while true
        invariant bytes + Body(events) == Body(old(events))
        invariant Clean(events) <==> old(Clean(events))
        decreases |events|
      {
        var next := NextChunk();
        if next.Err? {
          return Err(next.error);
        }
        if next.value.None? {
          return Ok(bytes);
        }
        bytes := bytes + next.value.value;
      }
    }
  }
}
