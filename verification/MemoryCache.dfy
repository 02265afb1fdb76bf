/**
 The in-memory cache backend: ordinary and pin lookups, conditional
 promotion, compare-and-set revalidation, deferred puts and pin aliases.
 */
module MemoryCache {
  import opened Prelude
  import opened CacheEntry

  type Entries = map<string, CacheEntry>
  /** Which key owns each public pin identifier. */
  type Aliases = map<string, string>

  datatype PinClaim = Claimed | Conflict | Missing

  datatype PinnedThumbnail = PinnedThumbnail(bytes: seq<byte>, cache: string, until: nat)

  //  The operations on values

  predicate LiveIn(c: Entries, key: string, now: nat) {
    key in c && c[key].Live(now)
  }

  predicate RetainedIn(c: Entries, key: string, now: nat) {
    key in c && c[key].Retained(now)
  }

  function Looked(c: Entries, key: string, pin: bool, pinTtl: nat, now: nat): (Entries, Option<CacheEntry>) {
    if key !in c then (c, None)
    else
      var (entry, hit) := c[key].Access(now, pin, pinTtl);
      (if entry.RetainUntil() <= now then c - {key} else if hit then c[key := entry] else c,
       if hit then Some(entry) else None)
  }

  function Promoted(c: Entries, key: string, entry: CacheEntry, now: nat): Entries {
    if !entry.Retained(now) || RetainedIn(c, key, now) then c else c[key := entry.ClearUrl()]
  }

  function Revalidated(c: Entries, key: string, entry: CacheEntry, expected: string, now: nat): Entries {
    if key in c && c[key].media.cache != expected then c
    else
      var kept := if key in c then entry.(pinUntil := Max(entry.pinUntil, c[key].pinUntil)) else entry;
      if kept.Retained(now) then c[key := kept.ClearUrl()] else c - {key}
  }

  function Put(c: Entries, key: string, media: Media, cost: nat, cacheUntil: nat, pinTtl: nat, now: nat): Entries {
    var made := NewEntry(media, cost, cacheUntil, pinTtl, now);
    var kept := if key in c then made.(pinUntil := Max(made.pinUntil, c[key].pinUntil)) else made;
    if !kept.Retained(now) then c - {key}
    else (map k | k in c && c[k].Retained(now) :: c[k])[key := kept]
  }

  /** Aliases whose owner still has a live pin. */
  function LiveAliases(c: Entries, pins: Aliases, now: nat): Aliases {
    map id | id in pins && pins[id] in c && c[pins[id]].pinUntil > now :: pins[id]
  }

  function PinClaimed(c: Entries, pins: Aliases, id: string, key: string, ttl: nat, now: nat)
    : (Entries, Aliases, PinClaim)
  {
    var live := LiveAliases(c, pins, now);
    if id in live && live[id] != key then (c, live, Conflict)
    else if !RetainedIn(c, key, now) then (c, live, Missing)
    else
      (c[key := c[key].(pinUntil := Max(c[key].pinUntil, SaturatingAdd(now, ttl)))], live[id := key], Claimed)
  }

  function PinData(c: Entries, pins: Aliases, id: string, now: nat): Option<PinnedThumbnail> {
    if id in pins && pins[id] in c && c[pins[id]].pinUntil > now then
      var e := c[pins[id]];
      Some(PinnedThumbnail(e.media.thumbnail, e.media.cache, e.pinUntil))
    else None
  }

  //  The backend

  class MemoryCacheBackend {
    var cache: Entries
    var pins: Aliases

    constructor ()
      ensures cache == map[] && pins == map[]
    {
      cache, pins := map[], map[];
    }

    method Lookup(key: string, pin: bool, pinTtl: nat, now: nat) returns (found: Option<CacheEntry>)
      modifies this`cache
      ensures (cache, found) == Looked(old(cache), key, pin, pinTtl, now)
    {
      if key !in cache {
        return None;
      }
      var (entry, hit) := cache[key].Access(now, pin, pinTtl);
      if entry.RetainUntil() <= now {
        cache := cache - {key};
      } else if hit {
        cache := cache[key := entry];
      }
      return if hit then Some(entry) else None;
    }

    method Promote(key: string, entry: CacheEntry, now: nat)
      modifies this`cache
      ensures cache == Promoted(old(cache), key, entry, now)
    {
      if entry.RetainUntil() <= now || (key in cache && cache[key].RetainUntil() > now) {
        return;
      }
      cache := cache[key := entry.(media := entry.media.(url := ""))];
    }

    method Revalidate(key: string, entry: CacheEntry, expected: string, now: nat)
      modifies this`cache
      ensures cache == Revalidated(old(cache), key, entry, expected, now)
    {
      var kept := entry;
      if key in cache {
        if cache[key].media.cache != expected {
          return;
        }
        kept := kept.(pinUntil := Max(kept.pinUntil, cache[key].pinUntil));
      }
      kept := kept.(media := kept.media.(url := ""));
      if kept.RetainUntil() <= now {
        cache := cache - {key};
      } else {
        cache := cache[key := kept];
      }
    }

    method Store(key: string, media: Media, cost: nat, cacheUntil: nat, pinTtl: nat, now: nat)
      modifies this`cache
      ensures cache == Put(old(cache), key, media, cost, cacheUntil, pinTtl, now)
    {
      var entry := NewEntry(media, cost, cacheUntil, pinTtl, now);
      if key in cache {
        entry := entry.(pinUntil := Max(entry.pinUntil, cache[key].pinUntil));
      }
      if entry.RetainUntil() <= now {
        cache := cache - {key};
        return;
      }
      cache := map k | k in cache && cache[k].RetainUntil() > now :: cache[k];
      cache := cache[key := entry];
    }

    method ClaimPin(id: string, key: string, ttl: nat, now: nat) returns (claim: PinClaim)
      modifies this
      ensures (cache, pins, claim) == PinClaimed(old(cache), old(pins), id, key, ttl, now)
    {
      pins := map i | i in pins && pins[i] in cache && cache[pins[i]].pinUntil > now :: pins[i];
      if id in pins && pins[id] != key {
        return Conflict;
      }
      if key !in cache || cache[key].RetainUntil() <= now {
        return Missing;
      }
      var entry := cache[key];
      entry := entry.(pinUntil := Max(entry.pinUntil, SaturatingAdd(now, ttl)));
      cache := cache[key := entry];
      pins := pins[id := key];
      return Claimed;
    }

    method ReadPin(id: string, now: nat) returns (pinned: Option<PinnedThumbnail>)
      ensures pinned == PinData(cache, pins, id, now)
    {
      if id !in pins || pins[id] !in cache {
        return None;
      }
      var entry := cache[pins[id]];
      if entry.pinUntil <= now {
        return None;
      }
      return Some(PinnedThumbnail(entry.media.thumbnail, entry.media.cache, entry.pinUntil));
    }
  }
}
