/**
 The rotation a decoder is told before it sees a file: the scan of what one
 read of the buffer returns.
 */
module RotationHint {
  import opened Prelude
  import opened PageCache
  import opened HttpStream
  import opened HttpBuffer
  import opened BoxScan

  /** How much the caller asks for. */
  const HINT_SIZE: nat := 65536

  /**
   One read from the start, scanned, and the cursor put back.  In cached mode
   one read ends with its page, so no more than the first 4096 bytes are seen.
   */
  method ContainerRotationHint(b: HttpBuffer) returns (degrees: nat, ghost seen: nat)
    requires b.Valid() && b.cursor == 0
    modifies b, b.stream
    ensures b.Valid() && b.cursor == 0
    ensures seen <= |b.resource| && seen <= 65536 && (!old(b.streamingMode) ==> seen <= 4096)
    ensures !old(b.streamingMode) && old(b.Reliable()) && b.end == |b.resource| && b.eofOverride.None? ==>
              seen == Min(4096, |b.resource|)
    ensures b.streamingMode && seen != 0 ==> seen == Min(65536, b.Available(0))
    ensures degrees == Scan(b.resource[..seen], 0)
    ensures degrees != 0 && Roomy(b.resource, 0) ==> degrees == Scan(b.resource, 0)
  {
    hide Scan, Roomy, Agrees, Has, Covers, Honest, Body, Delivers;
    var read := b.Read(HINT_SIZE);
    var header := if read.Ok? then read.value else [];
    seen := |header|;
    b.Seek(0);
    assert header == b.resource[..seen];
    hide b.Valid;
    degrees := IsobmffRotation(header);
    BeginningTellsNoOther(b.resource, seen);
  }

  lemma BeginningTellsNoOther(file: seq<byte>, seen: nat)
    requires seen <= |file|
    ensures Roomy(file, 0) && Scan(file[..seen], 0) != 0 ==> Scan(file[..seen], 0) == Scan(file, 0)
  {
    if Roomy(file, 0) {
      PrefixTellsNoOther(file, seen, 0);
    }
  }

  /** For a well-formed file that hides no rotation, the hint is the rotation of its tree, or none. */
  method HintOfForest(b: HttpBuffer, f: Forest) returns (degrees: nat)
    requires b.Valid() && b.cursor == 0
    requires WellFormedForest(f) && HidesNothing(f) && b.resource == RenderForest(f)
    modifies b, b.stream
    ensures b.Valid() && degrees in {0, Turn(f)}
  {
    hide Scan, Roomy, WellFormedForest, HidesNothing, RenderForest, Turn, b.Valid;
    FormedIsRoomy(f);
    ScanIsTurn(f);
    ghost var seen;
    degrees, seen := ContainerRotationHint(b);
  }
}
