/**
 A chain of backends, fastest first: reads stop at the first hit and schedule
 copies into the tiers that missed, writes go through to every tier, and pin
 aliases belong to the last one.
 */
module ChainCache {
  import opened Prelude
  import opened CacheEntry
  import opened MemoryCache

  /** A copy waiting to be written into an earlier tier. */
  datatype Promotion = Promotion(tier: nat, key: string, entry: CacheEntry)

  /** The tier's lookup would hit: its cache deadline, or its pin deadline, is ahead. */
  predicate Hits(c: Entries, key: string, pin: bool, now: nat) {
    key in c && (if pin then c[key].pinUntil > now else c[key].cacheUntil > now)
  }

  lemma LookupHits(c: Entries, key: string, pin: bool, pinTtl: nat, now: nat)
    ensures Looked(c, key, pin, pinTtl, now).1.Some? <==> Hits(c, key, pin, now)
  {
  }

  /** The first tier that hits, or the number of tiers. */
  function FirstHit(tiers: seq<Entries>, key: string, pin: bool, now: nat): (h: nat)
    ensures h <= |tiers|
    ensures forall i :: 0 <= i < h ==> !Hits(tiers[i], key, pin, now)
    ensures h < |tiers| ==> Hits(tiers[h], key, pin, now)
  {
    if tiers == [] || Hits(tiers[0], key, pin, now) then 0 else 1 + FirstHit(tiers[1..], key, pin, now)
  }

  /** There is only one first hit. */
  lemma FirstHitIs(tiers: seq<Entries>, key: string, pin: bool, now: nat, h: nat)
    requires h <= |tiers|
    requires forall i :: 0 <= i < h ==> !Hits(tiers[i], key, pin, now)
    requires h < |tiers| ==> Hits(tiers[h], key, pin, now)
    ensures FirstHit(tiers, key, pin, now) == h
  {
  }

  /** What a chain lookup returns. */
  function Answer(tiers: seq<Entries>, key: string, pin: bool, pinTtl: nat, now: nat): Option<CacheEntry> {
    var h := FirstHit(tiers, key, pin, now);
    if h < |tiers| then Looked(tiers[h], key, pin, pinTtl, now).1 else None
  }

  /** The tiers after a chain lookup; only a pin refresh looks past the first hit. */
  function AfterGet(tiers: seq<Entries>, key: string, pin: bool, pinTtl: nat, now: nat): (r: seq<Entries>)
    ensures |r| == |tiers|
  {
    var h := FirstHit(tiers, key, pin, now);
    seq(|tiers|, i requires 0 <= i < |tiers| =>
      if i <= h || (!pin && pinTtl > 0) then Looked(tiers[i], key, pin, pinTtl, now).0 else tiers[i])
  }

  /** The copies a hit schedules, one for each tier in front of it. */
  function Backfill(tiers: seq<Entries>, key: string, pin: bool, pinTtl: nat, now: nat): (p: seq<Promotion>) {
    var answer := Answer(tiers, key, pin, pinTtl, now);
    if answer.None? then []
    else seq(FirstHit(tiers, key, pin, now), i requires 0 <= i => Promotion(i, key, answer.value))
  }

  /** An ordinary lookup with a pin lifetime pins the entry in every tier that has it, behind the first hit, too. */
  lemma PinReachesEveryTier(tiers: seq<Entries>, key: string, pinTtl: nat, now: nat, i: nat)
    requires i < |tiers| && LiveIn(tiers[i], key, now) && 0 < pinTtl && now + pinTtl <= U64_MAX
    ensures var after := AfterGet(tiers, key, false, pinTtl, now)[i];
      && key in after && now + pinTtl <= after[key].pinUntil && after[key].media == tiers[i][key].media
      && after[key].cacheUntil == tiers[i][key].cacheUntil
  {
  }

  /** Any other lookup leaves the tiers behind the first hit as they are. */
  lemma TiersBehindUntouched(tiers: seq<Entries>, key: string, pin: bool, pinTtl: nat, now: nat, i: nat)
    requires FirstHit(tiers, key, pin, now) < i < |tiers| && (pin || pinTtl == 0)
    ensures AfterGet(tiers, key, pin, pinTtl, now)[i] == tiers[i]
  {
  }

  class ChainCacheBackend {
    const tiers: seq<MemoryCacheBackend>
    /** Promotions handed to the background scheduler and not yet run. */
    var scheduled: seq<Promotion>

    ghost predicate Valid() {
      && 2 <= |tiers|
      && forall i, j :: 0 <= i < j < |tiers| ==> tiers[i] != tiers[j]
    }

    /** The entries of every tier. */
    ghost function Caches(): (c: seq<Entries>)
      reads this, tiers
      ensures |c| == |tiers|
    {
      seq(|tiers|, i requires 0 <= i < |tiers| reads tiers => tiers[i].cache)
    }

    constructor (tiers: seq<MemoryCacheBackend>)
      requires 2 <= |tiers|
      requires forall i, j :: 0 <= i < j < |tiers| ==> tiers[i] != tiers[j]
      ensures Valid() && this.tiers == tiers && scheduled == []
    {
      this.tiers, scheduled := tiers, [];
    }

    method GetEntry(key: string, pinTtl: nat, now: nat) returns (hit: Option<CacheEntry>)
      requires Valid()
      modifies this`scheduled, tiers
      ensures hit == Answer(old(Caches()), key, false, pinTtl, now)
      ensures Caches() == AfterGet(old(Caches()), key, false, pinTtl, now)
      ensures scheduled == old(scheduled) + Backfill(old(Caches()), key, false, pinTtl, now)
    {
      hide Looked, Hits;
      ghost var before := Caches();
      ghost var h := FirstHit(before, key, false, now);
      hit := None;
      var missed: seq<nat> := [];
      var index := 0;
      while index < |tiers|
        invariant 0 <= index <= |tiers|
        invariant forall j :: 0 <= j < index ==> tiers[j].cache == Looked(before[j], key, false, pinTtl, now).0
        invariant forall j :: index <= j < |tiers| ==> tiers[j].cache == before[j]
        invariant hit.None? ==> index <= h && missed == seq(index, i requires 0 <= i => i)
        invariant hit.None? ==> scheduled == old(scheduled)
        invariant hit.Some? ==> h < index && hit == Answer(before, key, false, pinTtl, now)
        invariant hit.Some? ==> scheduled == old(scheduled) + Backfill(before, key, false, pinTtl, now)
        invariant pinTtl == 0 ==> hit.None?
      {
        LookupHits(before[index], key, false, pinTtl, now);
        var found := tiers[index].Lookup(key, false, pinTtl, now);
        index := index + 1;
        if found.Some? {
          if hit.None? {
            ScheduleBackfill(key, found.value, missed);
            assert seq(|missed|, i requires 0 <= i < |missed| => Promotion(missed[i], key, found.value))
                == Backfill(before, key, false, pinTtl, now);
            hit := found;
          }
          if pinTtl == 0 {
            break;
          }
        } else if hit.None? {
          missed := missed + [index - 1];
        }
      }
      assert Caches() == AfterGet(before, key, false, pinTtl, now);
    }

    method GetPinEntry(key: string, now: nat) returns (hit: Option<CacheEntry>)
      requires Valid()
      modifies this`scheduled, tiers
      ensures hit == Answer(old(Caches()), key, true, 0, now)
      ensures Caches() == AfterGet(old(Caches()), key, true, 0, now)
      ensures scheduled == old(scheduled) + Backfill(old(Caches()), key, true, 0, now)
    {
      hide Looked, Hits;
      ghost var before := Caches();
      ghost var h := FirstHit(before, key, true, now);
      var missed: seq<nat> := [];
      for index := 0 to |tiers|
        invariant index <= h && missed == seq(index, i requires 0 <= i => i)
        invariant forall j :: 0 <= j < index ==> tiers[j].cache == Looked(before[j], key, true, 0, now).0
        invariant forall j :: index <= j < |tiers| ==> tiers[j].cache == before[j]
        invariant scheduled == old(scheduled)
      {
        LookupHits(before[index], key, true, 0, now);
        var found := tiers[index].Lookup(key, true, 0, now);
        if found.Some? {
          ScheduleBackfill(key, found.value, missed);
          assert seq(|missed|, i requires 0 <= i < |missed| => Promotion(missed[i], key, found.value))
              == Backfill(before, key, true, 0, now);
          assert Caches() == AfterGet(before, key, true, 0, now);
          return found;
        }
        missed := missed + [index];
      }
      assert Caches() == AfterGet(before, key, true, 0, now);
      return None;
    }

    method ScheduleBackfill(key: string, entry: CacheEntry, missed: seq<nat>)
      modifies this`scheduled
      ensures scheduled == old(scheduled)
            + seq(|missed|, i requires 0 <= i < |missed| => Promotion(missed[i], key, entry))
    {
      for i := 0 to |missed|
        invariant scheduled == old(scheduled) + seq(i, j requires 0 <= j < |missed| => Promotion(missed[j], key, entry))
      {
        scheduled := scheduled + [Promotion(missed[i], key, entry)];
      }
    }

    /** The background scheduler runs one waiting copy. */
    method RunScheduled(n: nat, now: nat)
      requires Valid() && n < |scheduled| && scheduled[n].tier < |tiers|
      modifies this`scheduled, tiers
      ensures scheduled == old(scheduled[..n] + scheduled[n + 1..])
      ensures var p := old(scheduled)[n];
        Caches() == old(Caches())[p.tier := Promoted(old(Caches())[p.tier], p.key, p.entry, now)]
    {
      var p := scheduled[n];
      scheduled := scheduled[..n] + scheduled[n + 1..];
      tiers[p.tier].Promote(p.key, p.entry, now);
      assert Caches() == old(Caches())[p.tier := Promoted(old(Caches())[p.tier], p.key, p.entry, now)];
    }

    method Store(key: string, media: Media, cost: nat, cacheUntil: nat, pinTtl: nat, now: nat)
      requires Valid()
      modifies tiers
      ensures forall i :: 0 <= i < |tiers| ==>
                tiers[i].cache == Put(old(tiers[i].cache), key, media, cost, cacheUntil, pinTtl, now)
    {
      for i := 0 to |tiers|
        invariant forall j :: 0 <= j < i ==>
                    tiers[j].cache == Put(old(tiers[j].cache), key, media, cost, cacheUntil, pinTtl, now)
        invariant forall j :: i <= j < |tiers| ==> tiers[j].cache == old(tiers[j].cache)
      {
        tiers[i].Store(key, media, cost, cacheUntil, pinTtl, now);
      }
    }

    method Revalidate(key: string, entry: CacheEntry, expected: string, now: nat)
      requires Valid()
      modifies tiers
      ensures forall i :: 0 <= i < |tiers| ==>
                tiers[i].cache == Revalidated(old(tiers[i].cache), key, entry, expected, now)
    {
      for i := 0 to |tiers|
        invariant forall j :: 0 <= j < i ==>
                    tiers[j].cache == Revalidated(old(tiers[j].cache), key, entry, expected, now)
        invariant forall j :: i <= j < |tiers| ==> tiers[j].cache == old(tiers[j].cache)
      {
        tiers[i].Revalidate(key, entry, expected, now);
      }
    }

    /** Claim in the last tier, then carry the refreshed deadline to the earlier ones. */
    method ClaimPin(id: string, key: string, ttl: nat, now: nat) returns (r: Result<PinClaim, string>)
      requires Valid()
      modifies tiers
      ensures var last := |tiers| - 1;
        var (cache, pins, claim) := PinClaimed(old(tiers[last].cache), old(tiers[last].pins), id, key, ttl, now);
        && tiers[last].pins == pins
        && (claim != Claimed ==> r == Ok(claim) && Caches() == old(Caches()))
        && (claim == Claimed ==> (r == Ok(Claimed) <==> cache[key].pinUntil > now))
      ensures r == Ok(Claimed) ==>
        var last := |tiers| - 1;
        && key in tiers[last].cache
        && tiers[last].cache[key].pinUntil >= SaturatingAdd(now, ttl)
        && forall i :: 0 <= i < last ==>
             tiers[i].cache == Revalidated(old(tiers[i].cache), key, tiers[last].cache[key],
                                           tiers[last].cache[key].media.cache, now)
    {
      var last := |tiers| - 1;
      var claim := tiers[last].ClaimPin(id, key, ttl, now);
      if claim != Claimed {
        assert Caches() == old(Caches());
        return Ok(claim);
      }
      var entry := tiers[last].Lookup(key, true, 0, now);
      if entry.None? {
        return Err("claimed pin entry disappeared from its backend");
      }
      for i := 0 to last
        invariant tiers[last].pins == PinClaimed(old(tiers[last].cache), old(tiers[last].pins), id, key, ttl, now).1
        invariant key in tiers[last].cache && tiers[last].cache[key] == entry.value
        invariant forall j :: 0 <= j < i ==>
                    tiers[j].cache == Revalidated(old(tiers[j].cache), key, entry.value, entry.value.media.cache, now)
        invariant forall j :: i <= j < last ==> tiers[j].cache == old(tiers[j].cache)
      {
        tiers[i].Revalidate(key, entry.value, entry.value.media.cache, now);
      }
      return Ok(Claimed);
    }
  }

  /** The refresh after a claim: an earlier tier either keeps another representation, or the pin holds there too. */
  lemma RefreshCarriesPin(c: Entries, key: string, entry: CacheEntry, now: nat)
    requires entry.pinUntil > now
    ensures var after := Revalidated(c, key, entry, entry.media.cache, now);
      if key in c && c[key].media.cache != entry.media.cache then after == c
      else key in after && after[key].pinUntil >= entry.pinUntil && after[key].media.thumbnail == entry.media.thumbnail
  {
  }
}
