/**
 One cached payload with its independent deadlines.  Times are Unix seconds;
 zero disables a deadline.
 */
module CacheEntry {
  import opened Prelude
  import opened CacheHints

  datatype Kind = Image | Video | Audio | Vector | Document | Geometry | Archive | Plain | Binary | Unknown

  /** What a cook produces: the bytes, the kind of file they show, and a label when they only stand in for it. */
  datatype Picture = Picture(thumbnail: seq<byte>, kind: Kind, placeholder: string)

  /** A picture with its cache token and the source URL (cleared when stored). */
  datatype Media = Media(thumbnail: seq<byte>, kind: Kind, placeholder: string, cache: string, url: string)

  function WithToken(p: Picture, cache: string): Media {
    Media(p.thumbnail, p.kind, p.placeholder, cache, "")
  }

  datatype CacheEntry = CacheEntry(
    media: Media, freshUntil: nat, cacheUntil: nat, pinUntil: nat, lastAccessed: nat, cost: nat)
  {
    predicate IsFresh(now: nat) {
      freshUntil > now
    }

    function RetainUntil(): nat {
      if cacheUntil < pinUntil then pinUntil else cacheUntil
    }

    predicate Retained(now: nat) {
      RetainUntil() > now
    }

    /** Eligible for an ordinary lookup. */
    predicate Live(now: nat) {
      cacheUntil > now
    }

    function SetCache(cache: string): CacheEntry {
      this.(media := media.(cache := cache), freshUntil := FreshnessDeadline(cache))
    }

    function ClearUrl(): CacheEntry {
      this.(media := media.(url := ""))
    }

    /** A lookup by the cache deadline, or by the pin deadline, at `now`. */
    function Access(now: nat, pin: bool, pinTtl: nat): (CacheEntry, bool) {
      var deadline := if pin then pinUntil else cacheUntil;
      if deadline <= now then (this, false)
      else
        var touched := this.(lastAccessed := now);
        (if !pin && pinTtl > 0 then touched.(pinUntil := Max(pinUntil, SaturatingAdd(now, pinTtl))) else touched,
         true)
    }
  }

  /** Missing, invalid and non-reusable hints are stale at once. */
  function FreshnessDeadline(cache: string): nat {
    var hints := FromToken(cache);
    if hints.Some? && !hints.value.noCache && !hints.value.DisallowCaching() then hints.value.expiresAt.GetOr(0)
    else 0
  }

  function NewEntry(media: Media, cost: nat, cacheUntil: nat, pinTtl: nat, now: nat): CacheEntry {
    CacheEntry(media.(url := ""), FreshnessDeadline(media.cache), cacheUntil,
               if pinTtl == 0 then 0 else SaturatingAdd(now, pinTtl), now, cost)
  }

  /** How long a representation is kept; validators earn long retention. */
  function RetentionDeadline(now: nat, hints: Option<CacheHints>, cacheTtl: nat, freshnessTtl: nat, maxTtl: nat): nat {
    if hints.None? || hints.value.DisallowCaching() then 0
    else
      var deadline :=
        if hints.value.ToConditional().Some? then SaturatingAdd(now, cacheTtl)
        else if hints.value.expiresAt.Some? then hints.value.expiresAt.value
        else SaturatingAdd(now, freshnessTtl);
      var cap := SaturatingAdd(now, maxTtl);
      if deadline < cap then deadline else cap
  }

  /** The entry's own freshness test is the freshness of the hints in its token. */
  lemma FreshEntryHasFreshHints(cache: string, now: nat)
    ensures FreshnessDeadline(cache) > now <==> FromToken(cache).Some? && FromToken(cache).value.IsFresh(now)
  {
  }

  /** Without hints, or with hints that forbid keeping, nothing is kept; and nothing ever beyond the longest retention. */
  lemma RetentionBounds(now: nat, hints: Option<CacheHints>, cacheTtl: nat, freshnessTtl: nat, maxTtl: nat)
    ensures var kept := RetentionDeadline(now, hints, cacheTtl, freshnessTtl, maxTtl);
      && kept <= now + maxTtl
      && (hints.None? || hints.value.noStore || hints.value.isPrivate ==> kept == 0)
  {
  }

  /** With a validator an entry is kept for `cacheTtl`; without one until it expires, or for `freshnessTtl`. */
  lemma RetentionMeaning(now: nat, hints: CacheHints, cacheTtl: nat, freshnessTtl: nat, maxTtl: nat)
    requires !hints.noStore && !hints.isPrivate
    requires now + maxTtl <= U64_MAX && now + cacheTtl <= U64_MAX && now + freshnessTtl <= U64_MAX
    ensures var kept := RetentionDeadline(now, Some(hints), cacheTtl, freshnessTtl, maxTtl);
      if hints.etag.Some? || hints.lastModified.Some? then kept == now + Min(cacheTtl, maxTtl)
      else if hints.expiresAt.Some? then kept == Min(hints.expiresAt.value, now + maxTtl)
      else kept == now + Min(freshnessTtl, maxTtl)
  {
  }
}
