/**
 What requests are answered with: a rendering is served from the cache as long
 as its hints are fresh, and a renewed entry as long as the renewal says.
 */
module ServeLaws {
  import opened Prelude
  import opened CacheHints
  import opened TokenLaws
  import opened Freshness
  import opened CacheEntry
  import opened MemoryCache
  import opened ChainCache
  import opened Coherence

  /** A chain whose first tier hits answers from that tier. */
  lemma FirstTierAnswers(c: Entries, rest: seq<Entries>, key: string, pinTtl: nat, now: nat)
    requires LiveIn(c, key, now)
    ensures Answer([c] + rest, key, false, pinTtl, now) == Looked(c, key, false, pinTtl, now).1
    ensures Answer([c] + rest, key, false, pinTtl, now).Some?
  {
    FirstHitIs([c] + rest, key, false, now, 0);
  }

  /** What a lookup makes of a request: its own copy, a fresh entry, or a question to the origin. */
  lemma LookUpOutcome(cfg: Config, w: World, id: nat, key: string, client: Option<CacheHints>)
    ensures var next := LookedUp(cfg, w, id, key, client);
      var found := Answer(w.tiers, key, false, cfg.pinTtl, w.now);
      && id in next.cooks
      && next.cooks[id] ==
         (if client.Some? && client.value.IsFresh(w.now) then Done(key, ClientFresh)
          else if found.Some? && found.value.freshUntil > w.now then Done(key, Served(found.value.media.thumbnail))
          else Resolving(key, client, found))
      && (client.Some? && client.value.IsFresh(w.now) ==> next.tiers == w.tiers && next.writes == w.writes)
      && (!(client.Some? && client.value.IsFresh(w.now)) ==>
            && next.tiers == AfterGet(w.tiers, key, false, cfg.pinTtl, w.now)
            && |next.writes| == |w.writes| + |Backfill(w.tiers, key, false, cfg.pinTtl, w.now)|)
  {
  }

  /** What becomes of the answer of the origin. */
  lemma ConnectOutcome(cfg: Config, w: World, id: nat, c: Cook, reply: Reply)
    requires c.Resolving? && (c.client.Some? ==> c.client.value.InRange()) && w.now <= U64_MAX
    ensures var next := Connected(cfg, w, id, c, reply);
      && id in next.cooks
      && next.cooks[id] ==
         match reply
         case Refusal => Done(c.key, Failed)
         case Content(headers) => Rendering(c.key, w.Version(c.key), FromHeaders(headers, w.now))
         case NotModified(_) =>
           var sent := Sent(c.client, c.found);
           if sent.None? then Done(c.key, Failed)
           else if OwnHints(c.found).Some? then Done(c.key, StoredValidated(c.found.value.media.thumbnail, sent.value))
           else Done(c.key, ClientValidated(sent.value))
    ensures !reply.NotModified? ==> Connected(cfg, w, id, c, reply).writes == w.writes
  {
  }

  /** The copies a lookup schedules: one for each tier in front of the hit, each with the entry found. */
  lemma LookUpCopies(cfg: Config, w: World, id: nat, key: string, client: Option<CacheHints>, i: nat)
    requires !(client.Some? && client.value.IsFresh(w.now))
    requires i < FirstHit(w.tiers, key, false, w.now) < |w.tiers|
    ensures var next := LookedUp(cfg, w, id, key, client);
      && |w.writes| + i < |next.writes|
      && next.writes[|w.writes| + i]
         == WritePromote(i, key, Answer(w.tiers, key, false, cfg.pinTtl, w.now).value)
  {
    LookupHits(w.tiers[FirstHit(w.tiers, key, false, w.now)], key, false, cfg.pinTtl, w.now);
  }

  /** What a 304 writes back: to each tier the renewed entry, over the one that was found and no other. */
  lemma RenewalWrites(cfg: Config, w: World, id: nat, c: Cook, headers: Headers, i: nat)
    requires c.Resolving? && (c.client.Some? ==> c.client.value.InRange()) && w.now <= U64_MAX
    requires OwnHints(c.found).Some? && i < |w.tiers|
    ensures var next := Connected(cfg, w, id, c, NotModified(headers));
      var own := OwnHints(c.found).value;
      && own.InRange()
      && var merged := Freshness.Revalidated(own, headers, cfg.freshnessTtl, w.now);
         && merged.InRange()
         && |next.writes| == |w.writes| + |w.tiers| && next.writes[..|w.writes|] == w.writes
         && next.writes[|w.writes| + i]
            == WriteRevalidate(i, c.key, Renewed(cfg, c.found.value, merged, w.now), c.found.value.media.cache)
  {
    OwnHintsInRange(c.found);
    RevalidatedInRange(OwnHints(c.found).value, headers, cfg.freshnessTtl, w.now);
    hide Freshness.Revalidated, Renewed, FromToken;
  }

  /** A validator is sent exactly if the stored entry or, failing that, the client has one; the entry's comes first. */
  lemma SentOwnFirst(client: Option<CacheHints>, found: Option<CacheEntry>)
    ensures var own := if found.Some? then FromToken(found.value.media.cache) else None;
      Sent(client, found) ==
      if own.Some? && own.value.ToConditional().Some? then own.value.ToConditional()
      else if client.Some? then client.value.ToConditional()
      else None
  {
  }

  /** One write for each tier, all alike. */
  lemma ProducedWrites(cfg: Config, w: World, id: nat, key: string, hints: Option<CacheHints>, picture: Picture, cost: nat,
                       i: nat)
    requires (hints.Some? ==> hints.value.InRange()) && i < |w.tiers|
    ensures var next := Produced(cfg, w, id, key, hints, picture, cost);
      && |next.writes| == |w.writes| + |w.tiers|
      && var wr := next.writes[|w.writes| + i];
         && wr.WritePut? && wr.tier == i && wr.key == key && wr.cost == cost && wr.pinTtl == cfg.pinTtl
         && wr.media == WithToken(picture, HintsToken(hints, cfg.freshnessTtl, w.now))
         && (hints.None? || hints.value.DisallowCaching() ==> wr.cacheUntil == 0)
         && (hints.Some? && HintsToken(hints, cfg.freshnessTtl, w.now) != "" ==>
               wr.cacheUntil == RetentionDeadline(w.now, hints, cfg.cacheTtl, cfg.freshnessTtl, cfg.maxTtl))
    ensures Produced(cfg, w, id, key, hints, picture, cost).cooks == w.cooks[id := Done(key, Rendered(picture.thumbnail))]
    ensures Produced(cfg, w, id, key, hints, picture, cost).writes[..|w.writes|] == w.writes
  {
    assert hints.Some? && hints.value.DisallowCaching() ==> HintsToken(hints, cfg.freshnessTtl, w.now) == "";
    hide Token, RetentionDeadline;
  }

  /**
   A rendering whose write has run is found by the next visitor as long as it
   is retained, and served to it, without a question to the origin, exactly
   until its hints go stale.
   */
  lemma RenderingServed(cfg: Config, w: World, id: nat, key: string, h: CacheHints, picture: Picture, cost: nat,
                        rest: seq<Entries>, visitor: nat, later: nat)
    requires |w.tiers| > 0 && h.InRange() && !h.DisallowCaching() && 0 < Epoch(h, cfg.freshnessTtl, w.now) <= U64_MAX
    requires NoTrailingNul(h.etag) && NoTrailingNul(h.lastModified)
    requires 1 <= w.now <= later < RetentionDeadline(w.now, Some(h), cfg.cacheTtl, cfg.freshnessTtl, cfg.maxTtl)
    ensures var wr := Produced(cfg, w, id, key, Some(h), picture, cost).writes[|w.writes|];
      var after := w.(tiers := [Written(w.tiers[0], wr, w.now)] + rest, now := later);
      var seen := LookedUp(cfg, after, visitor, key, None);
      && visitor in seen.cooks
      && if !h.noCache && later < h.expiresAt.GetOr(w.now + cfg.freshnessTtl) then
           seen.cooks[visitor] == Done(key, Served(picture.thumbnail))
         else
           && seen.cooks[visitor].Resolving? && seen.cooks[visitor].found.Some?
           && seen.cooks[visitor].found.value.media.thumbnail == picture.thumbnail
  {
    var token := HintsToken(Some(h), cfg.freshnessTtl, w.now);
    TokenFreshUntil(h, cfg.freshnessTtl, w.now, later);
    TokenIsText(h, cfg.freshnessTtl, w.now);
    FreshEntryHasFreshHints(token, later);
    hide Token, FromToken, FreshnessDeadline, RetentionDeadline, Epoch;
    ProducedWrites(cfg, w, id, key, Some(h), picture, cost, 0);
    var wr := Produced(cfg, w, id, key, Some(h), picture, cost).writes[|w.writes|];
    var c := Written(w.tiers[0], wr, w.now);
    hide Produced;
    assert LiveIn(c, key, later) && c[key].media == WithToken(picture, token);
    assert c[key].freshUntil == FreshnessDeadline(token);
    FirstTierAnswers(c, rest, key, cfg.pinTtl, later);
    var after := w.(tiers := [c] + rest, now := later);
    hide Written, Answer, LookedUp;
    LookUpOutcome(cfg, after, visitor, key, None);
  }

  lemma TokenIsText(h: CacheHints, ttl: nat, now: nat)
    requires h.InRange() && !h.DisallowCaching()
    ensures Token(h, ttl, now) != ""
  {
  }

  /** A renewal keeps what is shown and pinned; token, freshness and retention are those of the merged hints. */
  lemma RenewedEntry(cfg: Config, found: CacheEntry, merged: CacheHints, now: nat)
    requires merged.InRange()
    ensures var entry := Renewed(cfg, found, merged, now);
      && entry.media == found.media.(cache := Token(merged, cfg.freshnessTtl, now))
      && entry.freshUntil == FreshnessDeadline(entry.media.cache)
      && entry.cacheUntil == RetentionDeadline(now, Some(merged), cfg.cacheTtl, cfg.freshnessTtl, cfg.maxTtl)
      && entry.pinUntil == found.pinUntil && entry.cost == found.cost && entry.lastAccessed == now
  {
    hide Token, FreshnessDeadline, RetentionDeadline;
  }

  /**
   After a 304 has been written back over the entry it confirmed, the next
   visitor is served the confirmed bytes exactly as long as the merged hints
   are fresh.
   */
  lemma RenewalServed(cfg: Config, c: Entries, key: string, found: CacheEntry, merged: CacheHints, rest: seq<Entries>,
                      w: World, visitor: nat, later: nat)
    requires key in c && c[key].media.cache == found.media.cache
    requires merged.InRange() && !merged.DisallowCaching() && 0 < Epoch(merged, cfg.freshnessTtl, w.now) <= U64_MAX
    requires NoTrailingNul(merged.etag) && NoTrailingNul(merged.lastModified)
    requires 1 <= w.now <= later < RetentionDeadline(w.now, Some(merged), cfg.cacheTtl, cfg.freshnessTtl, cfg.maxTtl)
    ensures var written := MemoryCache.Revalidated(c, key, Renewed(cfg, found, merged, w.now), found.media.cache, w.now);
      var seen := LookedUp(cfg, w.(tiers := [written] + rest, now := later), visitor, key, None);
      && visitor in seen.cooks
      && if !merged.noCache && later < merged.expiresAt.GetOr(w.now + cfg.freshnessTtl) then
           seen.cooks[visitor] == Done(key, Served(found.media.thumbnail))
         else
           && seen.cooks[visitor].Resolving? && seen.cooks[visitor].found.Some?
           && seen.cooks[visitor].found.value.media.thumbnail == found.media.thumbnail
  {
    var entry := Renewed(cfg, found, merged, w.now);
    RenewedEntry(cfg, found, merged, w.now);
    TokenFreshUntil(merged, cfg.freshnessTtl, w.now, later);
    FreshEntryHasFreshHints(entry.media.cache, later);
    hide Token, FromToken, FreshnessDeadline, RetentionDeadline, Epoch, Renewed;
    var written := MemoryCache.Revalidated(c, key, entry, found.media.cache, w.now);
    assert LiveIn(written, key, later) && written[key].media.thumbnail == found.media.thumbnail;
    assert written[key].freshUntil == entry.freshUntil;
    FirstTierAnswers(written, rest, key, cfg.pinTtl, later);
    var after := w.(tiers := [written] + rest, now := later);
    hide MemoryCache.Revalidated, Answer, LookedUp;
    LookUpOutcome(cfg, after, visitor, key, None);
  }
}
