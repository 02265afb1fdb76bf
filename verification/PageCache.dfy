/**
 The sparse 4 KiB page cache of the HTTP buffer, as a value: what one stored
 chunk does to it, byte by byte.
 */
module PageCache {
  import opened Prelude

  const PAGE_SIZE: nat := 4096

  type Pages = map<nat, seq<byte>>

  function PageAt(p: Pages, i: nat): seq<byte> {
    if i in p then p[i] else []
  }

  /** Byte `k` of the resource is held by the cache. */
  predicate Has(p: Pages, k: nat) {
    k % PAGE_SIZE < |PageAt(p, k / PAGE_SIZE)|
  }

  function ByteAt(p: Pages, k: nat): byte
    requires Has(p, k)
  {
    PageAt(p, k / PAGE_SIZE)[k % PAGE_SIZE]
  }

  /** No page outgrows its slot. */
  ghost predicate Sized(p: Pages) {
    forall i :: i in p ==> |p[i]| <= PAGE_SIZE
  }

  /** Every cached byte is the byte of the resource at that offset. */
  ghost predicate Agrees(p: Pages, r: seq<byte>) {
    && Sized(p)
    && forall k: nat :: Has(p, k) ==> k < |r| && ByteAt(p, k) == r[k]
  }

  /** Every byte of `[from, to)` is cached. */
  ghost predicate Covers(p: Pages, from: nat, to: nat) {
    forall k: nat :: from <= k < to ==> Has(p, k)
  }

  /** `q` holds every byte `p` holds, unchanged. */
  ghost predicate Extends(p: Pages, q: Pages) {
    forall k: nat :: Has(p, k) ==> Has(q, k) && ByteAt(q, k) == ByteAt(p, k)
  }

  /** A chunk stored at `offset` would leave no hole in front of itself. */
  predicate Contiguous(p: Pages, offset: nat) {
    offset % PAGE_SIZE <= |PageAt(p, offset / PAGE_SIZE)|
  }

  /** Byte `k` lies in the hole that a chunk stored at `offset` leaves in its first page. */
  predicate InGap(p: Pages, offset: nat, k: nat) {
    && k / PAGE_SIZE == offset / PAGE_SIZE
    && |PageAt(p, offset / PAGE_SIZE)| <= k % PAGE_SIZE < offset % PAGE_SIZE
  }

  function Zeros(n: nat): (z: seq<byte>)
    ensures |z| == n && forall j :: 0 <= j < n ==> z[j] == 0
  {
    seq(n, _ => 0)
  }

  /** One turn of the store loop: the new pages and how many bytes of the chunk it used up. */
  function StoreStep(p: Pages, offset: nat, bytes: seq<byte>): (r: (Pages, nat))
    requires Sized(p)
    requires bytes != []
    ensures 0 < r.1 <= |bytes|
    ensures Sized(r.0)
  {
    var i := offset / PAGE_SIZE;
    var inPage := offset % PAGE_SIZE;
    var page := PageAt(p, i);
    if inPage < |page| then
      (p, Min(|page| - inPage, |bytes|))
    else
      var padded := if |page| < inPage then page + Zeros(inPage - |page|) else page;
      var take := Min(PAGE_SIZE - |padded|, |bytes|);
      (p[i := padded + bytes[..take]], take)
  }

  /** The whole store loop. */
  function StoreChunk(p: Pages, offset: nat, bytes: seq<byte>): (q: Pages)
    requires Sized(p)
    ensures Sized(q)
    decreases |bytes|
  {
    if bytes == [] then p
    else
      var (q, used) := StoreStep(p, offset, bytes);
      StoreChunk(q, offset + used, bytes[used..])
  }

  lemma Coordinates(i: nat, j: nat)
    requires j < PAGE_SIZE
    ensures (i * PAGE_SIZE + j) / PAGE_SIZE == i
    ensures (i * PAGE_SIZE + j) % PAGE_SIZE == j
  {
  }

  /** What one turn of the loop does to byte `k`. */
  lemma {:induction false} StoreStepByte(p: Pages, offset: nat, bytes: seq<byte>, k: nat)
    requires Sized(p)
    requires bytes != []
    ensures
      var (q, used) := StoreStep(p, offset, bytes);
      && (Has(q, k) <==> Has(p, k) || offset <= k < offset + used || InGap(p, offset, k))
      && (Has(p, k) ==> ByteAt(q, k) == ByteAt(p, k))
      && (!Has(p, k) && offset <= k < offset + used ==> ByteAt(q, k) == bytes[k - offset])
      && (InGap(p, offset, k) ==> ByteAt(q, k) == 0)
      && (used < |bytes| ==> Contiguous(q, offset + used))
  {
    var i, inPage := offset / PAGE_SIZE, offset % PAGE_SIZE;
    var page := PageAt(p, i);
    var (q, used) := StoreStep(p, offset, bytes);
    assert inPage + used <= PAGE_SIZE;
    if k / PAGE_SIZE == i {
      var j := k % PAGE_SIZE;
      assert offset <= k < offset + used <==> inPage <= j < inPage + used;
    } else {
      assert !(offset <= k < offset + used);
    }
    if used < |bytes| {
      if inPage + used == PAGE_SIZE {
        assert offset + used == (i + 1) * PAGE_SIZE;
      } else {
        Coordinates(i, inPage + used);
        assert offset + used == i * PAGE_SIZE + (inPage + used);
      }
    }
  }

  /**
   What storing a chunk means, for every byte offset: bytes already cached win,
   the chunk fills what was missing, a hole in front of it is filled with
   zeros, and nothing else changes.
   */
  lemma {:induction false} StoreChunkByte(p: Pages, offset: nat, bytes: seq<byte>, k: nat)
    requires Sized(p)
    ensures
      var q := StoreChunk(p, offset, bytes);
      && (Has(q, k) <==>
          Has(p, k) || offset <= k < offset + |bytes| || (bytes != [] && InGap(p, offset, k)))
      && (Has(p, k) ==> ByteAt(q, k) == ByteAt(p, k))
      && (!Has(p, k) && offset <= k < offset + |bytes| ==> ByteAt(q, k) == bytes[k - offset])
      && (bytes != [] && InGap(p, offset, k) ==> ByteAt(q, k) == 0)
    decreases |bytes|
  {
    if bytes == [] {
    } else {
      hide StoreStep;
      var (q, used) := StoreStep(p, offset, bytes);
      StoreStepByte(p, offset, bytes, k);
      StoreChunkByte(q, offset + used, bytes[used..], k);
    }
  }

  /** Storing grows the cache, and holds the chunk's whole range afterwards. */
  lemma StoreChunkGrows(p: Pages, offset: nat, bytes: seq<byte>)
    requires Sized(p)
    ensures Extends(p, StoreChunk(p, offset, bytes))
    ensures Covers(StoreChunk(p, offset, bytes), offset, offset + |bytes|)
  {
    forall k: nat
      ensures
        var q := StoreChunk(p, offset, bytes);
        && (Has(p, k) ==> Has(q, k) && ByteAt(q, k) == ByteAt(p, k))
        && (offset <= k < offset + |bytes| ==> Has(q, k))
    {
      StoreChunkByte(p, offset, bytes, k);
    }
  }

  /** A slice of the resource stored without a gap keeps the cache in agreement with the resource. */
  lemma StoreChunkAgrees(p: Pages, offset: nat, bytes: seq<byte>, r: seq<byte>)
    requires Agrees(p, r)
    requires Contiguous(p, offset)
    requires offset + |bytes| <= |r| && bytes == r[offset..offset + |bytes|]
    ensures Agrees(StoreChunk(p, offset, bytes), r)
  {
    var q := StoreChunk(p, offset, bytes);
    forall k: nat | Has(q, k)
      ensures k < |r| && ByteAt(q, k) == r[k]
    {
      StoreChunkByte(p, offset, bytes, k);
    }
  }

  /**
   Exactly when is it safe to store a fetched slice?  When the caller can see
   that it leaves no gap: then, and only then, agreement survives whatever the
   resource is.
   */
  lemma StoreSafeIffContiguous(p: Pages, offset: nat, n: nat, r: seq<byte>)
    requires 0 < n && offset + n <= |r|
    requires Agrees(p, r)
    ensures Contiguous(p, offset) <==>
            forall r': seq<byte> :: |r'| == |r| && Agrees(p, r') ==>
              Agrees(StoreChunk(p, offset, r'[offset..offset + n]), r')
  {
    if Contiguous(p, offset) {
      forall r': seq<byte> | |r'| == |r| && Agrees(p, r')
        ensures Agrees(StoreChunk(p, offset, r'[offset..offset + n]), r')
      {
        StoreChunkAgrees(p, offset, r'[offset..offset + n], r');
      }
    } else {
      var k := offset - 1;
      assert k / PAGE_SIZE == offset / PAGE_SIZE && k % PAGE_SIZE == offset % PAGE_SIZE - 1;
      assert InGap(p, offset, k) && !Has(p, k);
      var r' := r[k := 1];
      assert Agrees(p, r') by {
        forall j: nat | Has(p, j) ensures j < |r'| && ByteAt(p, j) == r'[j] {
          assert j != k;
        }
      }
      StoreChunkByte(p, offset, r'[offset..offset + n], k);
      assert !Agrees(StoreChunk(p, offset, r'[offset..offset + n]), r');
    }
  }

  /** One byte fetched at offset 1 into an empty cache puts a zero where the resource has a 7. */
  lemma GappedStoreCorrupts()
    ensures var r: seq<byte>, q := [7, 8], StoreChunk(map[], 1, [8]);
      && Agrees(map[], r) && !Contiguous(map[], 1)
      && Has(q, 0) && ByteAt(q, 0) == 0 != r[0] && !Agrees(q, r)
  {
    StoreChunkByte(map[], 1, [8], 0);
  }

  /** The bytes a page holds are a slice of the resource. */
  lemma PageIsSlice(p: Pages, r: seq<byte>, i: nat, from: nat, to: nat)
    requires Agrees(p, r)
    requires from <= to <= |PageAt(p, i)|
    requires from < PAGE_SIZE
    ensures from < to ==> i * PAGE_SIZE + to <= |r|
    ensures from < to ==> PageAt(p, i)[from..to] == r[i * PAGE_SIZE + from..i * PAGE_SIZE + to]
  {
    if from < to {
      forall j | from <= j < to
        ensures i * PAGE_SIZE + j < |r| && PageAt(p, i)[j] == r[i * PAGE_SIZE + j]
      {
        Coordinates(i, j);
        assert Has(p, i * PAGE_SIZE + j);
      }
      var last := to - 1;
      Coordinates(i, last);
      assert Has(p, i * PAGE_SIZE + last);
    }
  }

  /** A covered prefix that reaches into page `i` fills that page as far as it reaches. */
  lemma CoverFillsPage(p: Pages, i: nat, from: nat, to: nat)
    requires Covers(p, from, to)
    requires from <= i * PAGE_SIZE < to
    ensures |PageAt(p, i)| >= Min(PAGE_SIZE, to - i * PAGE_SIZE)
  {
    var m := Min(PAGE_SIZE, to - i * PAGE_SIZE);
    Coordinates(i, m - 1);
    assert Has(p, i * PAGE_SIZE + (m - 1));
  }
}
