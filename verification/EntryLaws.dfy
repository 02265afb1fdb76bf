/**
 What one operation of a backend does to the entry it names, that it leaves
 the others alone, and both over whole runs.
 */
module EntryLaws {
  import opened Prelude
  import opened CacheEntry
  import opened MemoryCache
  import opened PinLaws

  /** No operation but on `key` itself changes an entry that anyone may still want. */
  lemma OthersKept(s: Store, t: Timed, key: string)
    requires t.op.key != key && RetainedIn(s.cache, key, t.now)
    ensures key in Apply(s, t).cache && Apply(s, t).cache[key] == s.cache[key]
  {
  }

  /** Nor does it bring one about. */
  lemma NothingAppears(s: Store, t: Timed, key: string)
    requires t.op.key != key && key !in s.cache
    ensures key !in Apply(s, t).cache
  {
  }

  predicate Elsewhere(ops: seq<Timed>, key: string) {
    forall i :: 0 <= i < |ops| ==> ops[i].op.key != key
  }

  /** Until its last deadline an entry is as it was, whatever is done to other keys. */
  lemma {:induction false} OthersKeptOverRuns(s: Store, ops: seq<Timed>, key: string)
    requires key in s.cache && Elsewhere(ops, key) && Before(ops, s.cache[key].RetainUntil())
    ensures key in Run(s, ops).cache && Run(s, ops).cache[key] == s.cache[key]
    decreases |ops|
  {
    if ops != [] {
      OthersKept(s, ops[0], key);
      assert forall i :: 0 <= i < |ops[1..]| ==> ops[1..][i] == ops[i + 1];
      OthersKeptOverRuns(Apply(s, ops[0]), ops[1..], key);
    }
  }

  /** A lookup by the cache deadline finds an entry exactly before that deadline, and by the pin deadline before that one. */
  lemma LookupFinds(c: Entries, key: string, pin: bool, pinTtl: nat, now: nat)
    ensures var found := Looked(c, key, pin, pinTtl, now).1;
      && (found.Some? <==> key in c && now < if pin then c[key].pinUntil else c[key].cacheUntil)
      && (found.Some? ==>
            && found.value.media == c[key].media && found.value.freshUntil == c[key].freshUntil
            && found.value.cacheUntil == c[key].cacheUntil && found.value.cost == c[key].cost
            && found.value.lastAccessed == now)
  {
  }

  /** An ordinary lookup with a pin lifetime makes the entry last that long, and shortens nothing; no other does. */
  lemma LookupExtends(c: Entries, key: string, pin: bool, pinTtl: nat, now: nat)
    requires Looked(c, key, pin, pinTtl, now).1.Some? && now + pinTtl <= U64_MAX
    ensures var after, found := Looked(c, key, pin, pinTtl, now).0, Looked(c, key, pin, pinTtl, now).1.value;
      && key in after && after[key] == found
      && c[key].pinUntil <= found.pinUntil
      && (!pin && pinTtl > 0 ==> now + pinTtl <= found.pinUntil)
      && (found.pinUntil > c[key].pinUntil ==> !pin && found.pinUntil == now + pinTtl)
  {
  }

  /** A lookup that finds nothing drops an entry exactly when nobody can want it any more. */
  lemma LookupMisses(c: Entries, key: string, pin: bool, pinTtl: nat, now: nat)
    requires Looked(c, key, pin, pinTtl, now).1.None?
    ensures Looked(c, key, pin, pinTtl, now).0 == if key in c && !RetainedIn(c, key, now) then c - {key} else c
  {
  }

  /** What is written is what is found, until its deadline, whatever happens to other keys in between. */
  lemma WrittenIsFound(s: Store, key: string, media: Media, cost: nat, cacheUntil: nat, pinTtl: nat, now: nat,
                       later: seq<Timed>, moment: nat)
    requires now <= moment < cacheUntil && now + pinTtl <= U64_MAX && Elsewhere(later, key) && Before(later, cacheUntil)
    ensures var written := Apply(s, At(Write(key, media, cost, cacheUntil, pinTtl), now));
      var found := Looked(Run(written, later).cache, key, false, 0, moment).1;
      && found.Some? && found.value.media == media.(url := "") && found.value.cost == cost
      && found.value.cacheUntil == cacheUntil && found.value.freshUntil == FreshnessDeadline(media.cache)
      && (pinTtl > 0 ==> now + pinTtl <= found.value.pinUntil)
  {
    var written := Apply(s, At(Write(key, media, cost, cacheUntil, pinTtl), now));
    hide FreshnessDeadline;
    assert key in written.cache && written.cache[key].cacheUntil == cacheUntil;
    OthersKeptOverRuns(written, later, key);
  }

  /** A write that may not be cached takes away what was there, unless a pin holds it or is asked for. */
  lemma UncacheableWrite(c: Entries, key: string, media: Media, cost: nat, cacheUntil: nat, now: nat)
    requires cacheUntil <= now
    ensures var after := Put(c, key, media, cost, cacheUntil, 0, now);
      && Looked(after, key, false, 0, now).1.None?
      && (key in after <==> key in c && now < c[key].pinUntil)
      && (key in after ==> after[key].pinUntil == c[key].pinUntil && after[key].media == media.(url := ""))
  {
    hide FreshnessDeadline;
  }

  /** A renewal replaces exactly an entry whose token it expects, or none, and never takes a pin away. */
  lemma RenewalReplaces(c: Entries, key: string, entry: CacheEntry, expected: string, now: nat)
    requires entry.Live(now)
    ensures var after := MemoryCache.Revalidated(c, key, entry, expected, now);
      if key in c && c[key].media.cache != expected then after == c
      else
        && key in after && after[key].media == entry.media.(url := "")
        && after[key].cacheUntil == entry.cacheUntil && after[key].freshUntil == entry.freshUntil
        && entry.pinUntil <= after[key].pinUntil && (key in c ==> c[key].pinUntil <= after[key].pinUntil)
        && (after[key].pinUntil == entry.pinUntil || (key in c && after[key].pinUntil == c[key].pinUntil))
  {
  }

  /** A copy is taken over where nothing that may still be wanted is in its place, and without its source URL. */
  lemma CopyTaken(c: Entries, key: string, entry: CacheEntry, now: nat)
    ensures var after := Promoted(c, key, entry, now);
      if RetainedIn(c, key, now) || (entry.cacheUntil <= now && entry.pinUntil <= now) then after == c
      else
        && key in after && after[key].media == entry.media.(url := "")
        && after[key].cacheUntil == entry.cacheUntil && after[key].pinUntil == entry.pinUntil
        && after[key].freshUntil == entry.freshUntil && after[key].cost == entry.cost
  {
  }

  /** When a claim succeeds: the entry may still be wanted, and nobody else's pin holds the name. */
  lemma ClaimSucceedsIff(s: Store, id: string, key: string, ttl: nat, now: nat)
    ensures PinClaimed(s.cache, s.pins, id, key, ttl, now).2 == Claimed
       <==> && RetainedIn(s.cache, key, now)
            && forall owner :: Owns(s, id, owner) && owner in s.cache && now < s.cache[owner].pinUntil ==> owner == key
    ensures PinClaimed(s.cache, s.pins, id, key, ttl, now).2 != Claimed ==>
              PinClaimed(s.cache, s.pins, id, key, ttl, now).0 == s.cache
  {
  }

  /** A claimed pin is served with the entry's own bytes until it ends, and not a moment longer. */
  lemma ClaimServedUntil(s: Store, id: string, key: string, ttl: nat, now: nat, later: seq<Timed>, moment: nat)
    requires PinClaimed(s.cache, s.pins, id, key, ttl, now).2 == Claimed && now + ttl <= U64_MAX
    requires var end := Max(s.cache[key].pinUntil, now + ttl);
      Elsewhere(later, key) && Before(later, end)
    ensures var end := Max(s.cache[key].pinUntil, now + ttl);
      var after := Run(Apply(s, At(Claim(id, key, ttl), now)), later);
      PinData(after.cache, after.pins, id, moment)
      == if moment < end then Some(PinnedThumbnail(s.cache[key].media.thumbnail, s.cache[key].media.cache, end)) else None
  {
    var claimed := Apply(s, At(Claim(id, key, ttl), now));
    var end := Max(s.cache[key].pinUntil, now + ttl);
    assert claimed.cache[key].pinUntil == end && Owns(claimed, id, key);
    OthersKeptOverRuns(claimed, later, key);
    AliasKeepsOwner(claimed, later, id, key, end);
  }
}
