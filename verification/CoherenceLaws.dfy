/**
 Coherence of the cache over runs of the protocol: stored bytes and the
 validator beside them belong to one version of the resource, and bytes
 released on a 304 are those of the version the origin is serving.  A handoff
 keeps this exactly when the remote fetch finds the version whose headers the
 request has read.
 */
module CoherenceLaws {
  import opened Prelude
  import opened Text
  import opened CacheHints
  import opened TokenLaws
  import opened Freshness
  import opened CacheEntry
  import opened MemoryCache
  import opened ChainCache
  import opened Coherence

  /** Every validator the token can send names version `v`, and survives another encoding. */
  ghost predicate TokenNames(o: Origin, key: string, token: string, v: nat) {
    var h := FromToken(token);
    h.Some? ==>
      && SafeValidator(h.value.etag) && SafeValidator(h.value.lastModified)
      && (h.value.ToConditional().Some? ==> o.names(key, h.value.ToConditional().value) == Some(v))
  }

  /** Bytes and token are those of version `v`. */
  ghost predicate OfVersion(o: Origin, key: string, m: Media, v: nat) {
    o.depicts(key, v, m.thumbnail) && TokenNames(o, key, m.cache, v)
  }

  /** Bytes and token are those of one version. */
  ghost predicate Coherent(o: Origin, key: string, m: Media) {
    exists v: nat :: OfVersion(o, key, m, v)
  }

  ghost predicate CoherentTier(o: Origin, c: Entries) {
    forall k :: k in c ==> Coherent(o, k, c[k].media)
  }

  ghost predicate CoherentWrite(o: Origin, wr: DeferredWrite) {
    match wr
    case WritePromote(_, key, entry) => Coherent(o, key, entry.media)
    case WritePut(_, key, media, _, _, _) => Coherent(o, key, media)
    case WriteRevalidate(_, key, entry, expected) =>
      // it renews a token that has a validator, for the version that validator names
      && OwnHints(Some(entry.(media := entry.media.(cache := expected)))).Some?
      && exists v: nat :: OfVersion(o, key, entry.media, v) && TokenNames(o, key, expected, v)
  }

  ghost predicate CoherentCook(o: Origin, c: Cook) {
    c.Resolving? && c.found.Some? ==> Coherent(o, c.key, c.found.value.media)
  }

  /** Hints read from the headers of version `v`: their validator names it, and survives the token. */
  ghost predicate HintsOf(o: Origin, key: string, v: nat, hints: Option<CacheHints>) {
    hints.Some? ==>
      && ValidatorsSafe(hints.value)
      && (hints.value.expiresAt.Some? ==> 0 < hints.value.expiresAt.value)
      && (hints.value.ToConditional().Some? ==> o.names(key, hints.value.ToConditional().value) == Some(v))
  }

  /** A request past the headers remembers them rightly, and waits for a flight of its own key. */
  ghost predicate SoundCook(o: Origin, flights: seq<Flight>, c: Cook) {
    && (c.Rendering? || c.Awaiting? ==> HintsOf(o, c.key, c.version, c.hints))
    && (c.Awaiting? ==> c.flight < |flights| && flights[c.flight].key == c.key)
  }

  ghost predicate SoundFlight(o: Origin, flight: Flight) {
    flight.fetched.Some? ==> o.depicts(flight.key, flight.fetched.value.version, flight.fetched.value.picture.thumbnail)
  }

  /** What holds in every run, handoffs or not. */
  ghost predicate Sound(o: Origin, cfg: Config, w: World) {
    && WellFormed(cfg, w)
    && (forall id :: id in w.cooks ==> SoundCook(o, w.flights, w.cooks[id]))
    && (forall n :: 0 <= n < |w.flights| ==> SoundFlight(o, w.flights[n]))
    && (forall k :: k in w.leading ==> w.leading[k] < |w.flights| && w.flights[w.leading[k]].key == k)
  }

  /** What is stored, waiting to be written, or looked up pairs bytes and validators of one version. */
  ghost predicate CoherentStore(o: Origin, w: World) {
    && (forall i :: 0 <= i < |w.tiers| ==> CoherentTier(o, w.tiers[i]))
    && (forall i :: 0 <= i < |w.writes| ==> CoherentWrite(o, w.writes[i]))
    && (forall id :: id in w.cooks ==> CoherentCook(o, w.cooks[id]))
  }

  ghost predicate Invariant(o: Origin, cfg: Config, w: World) {
    Sound(o, cfg, w) && CoherentStore(o, w)
  }

  /** The hints put a validator into the token. */
  predicate Validated(hints: Option<CacheHints>) {
    hints.Some? && !hints.value.DisallowCaching() && hints.value.ToConditional().Some?
  }

  /** A delivered picture and the hints it is stored with are of one version, or the hints name none. */
  predicate Aligned(w: World, step: Step) {
    step.Deliver? && step.id in w.cooks && Landed(w, w.cooks[step.id]) ==>
      var c := w.cooks[step.id];
      Validated(c.hints) ==> w.flights[c.flight].fetched.value.version == c.version
  }

  //  Tokens

  /** The empty token of an uncacheable response names nothing. */
  lemma EmptyTokenNames(o: Origin, key: string, v: nat)
    ensures TokenNames(o, key, "", v)
  {
    assert FromToken("").None?;
  }

  /** A token built from hints whose validator names `v` names `v`. */
  lemma TokenNamesVersion(o: Origin, key: string, h: CacheHints, ttl: nat, now: nat, v: nat)
    requires h.InRange() && ValidatorsSafe(h)
    requires h.DisallowCaching() || 0 < Epoch(h, ttl, now) <= U64_MAX
    requires h.ToConditional().Some? ==> o.names(key, h.ToConditional().value) == Some(v)
    ensures TokenNames(o, key, Token(h, ttl, now), v)
  {
    if h.DisallowCaching() {
      EmptyTokenNames(o, key, v);
    } else {
      ValidatorsSurvive(h, ttl, now);
    }
  }

  /**
   Why the contract rules phantom windows out: where the origin has no
   validators at all, a stored rendering is coherent exactly when its hints
   are not one.
   */
  lemma CoherentIffNoPhantom(o: Origin, key: string, picture: Picture, h: CacheHints, ttl: nat, now: nat, v: nat)
    requires h.InRange() && !h.DisallowCaching() && 0 < Epoch(h, ttl, now) <= U64_MAX
    requires h.etag.None? && h.lastModified.None?
    requires o.depicts(key, v, picture.thumbnail) && forall c: Conditional :: o.names(key, c) == None
    ensures Coherent(o, key, WithToken(picture, Token(h, ttl, now))) <==> !PhantomWindow(h)
  {
    hide FromToken, Token, PhantomWindow, Epoch;
    ConditionalSurvivesIff(h, ttl, now);
    if !PhantomWindow(h) {
      TokenNamesVersion(o, key, h, ttl, now, v);
      assert OfVersion(o, key, WithToken(picture, Token(h, ttl, now)), v);
    }
  }

  /** A 304 to an entry's own validator leaves it with validators of the version it confirmed. */
  lemma RenewalNamesVersion(o: Origin, key: string, cfg: Config, prior: CacheHints, headers: Headers, now: nat, v: nat)
    requires prior.InRange() && 0 < now && now + cfg.freshnessTtl < U64_MAX
    requires SafeValidator(prior.etag) && SafeValidator(prior.lastModified) && prior.ToConditional().Some?
    requires HonestNotModified(o, key, v, prior.ToConditional(), headers)
    ensures var m := Freshness.Revalidated(prior, headers, cfg.freshnessTtl, now);
      m.InRange() && TokenNames(o, key, Token(m, cfg.freshnessTtl, now), v)
  {
    var m := Freshness.Revalidated(prior, headers, cfg.freshnessTtl, now);
    RevalidatedInRange(prior, headers, cfg.freshnessTtl, now);
    RevalidationValidators(prior, headers, cfg.freshnessTtl, now);
    RenewedEpoch(prior, headers, cfg.freshnessTtl, now);
    TokenNamesVersion(o, key, m, cfg.freshnessTtl, now, v);
  }

  /** Renewed hints that may be stored carry an expiry the token can hold. */
  lemma RenewedEpoch(prior: CacheHints, headers: Headers, ttl: nat, now: nat)
    requires prior.InRange() && 0 < now && now + ttl < U64_MAX
    ensures var m := Freshness.Revalidated(prior, headers, ttl, now);
      m.DisallowCaching() || 0 < Epoch(m, ttl, now) <= U64_MAX
  {
  }

  /** The token made of hints read from version `v` names `v`, or nothing. */
  lemma TokenOfHints(o: Origin, key: string, v: nat, hints: Option<CacheHints>, ttl: nat, now: nat)
    requires HintsOf(o, key, v, hints) && (hints.Some? ==> hints.value.InRange())
    requires 0 < now && now + ttl < U64_MAX
    ensures TokenNames(o, key, HintsToken(hints, ttl, now), v)
    ensures !Validated(hints) ==> forall u: nat :: TokenNames(o, key, HintsToken(hints, ttl, now), u)
  {
    if hints.None? {
      EmptyTokenNames(o, key, v);
    } else {
      TokenNamesVersion(o, key, hints.value, ttl, now, v);
      if !Validated(hints) {
        forall u: nat ensures TokenNames(o, key, HintsToken(hints, ttl, now), u) {
          if hints.value.DisallowCaching() {
            EmptyTokenNames(o, key, u);
          } else {
            TokenNamesVersion(o, key, hints.value, ttl, now, u);
          }
        }
      }
    }
  }

  //  Steps that keep what holds with and without handoffs

  lemma ContentSound(o: Origin, cfg: Config, w: World, id: nat, headers: Headers)
    requires Sound(o, cfg, w) && Enabled(o, cfg, w, Connect(id, Content(headers)))
    ensures Sound(o, cfg, Next(cfg, w, Connect(id, Content(headers))))
  {
    HeadersInRange(headers, w.now);
    HeaderExpiryPositive(headers, w.now);
  }

  /** Without content to render, a response finishes the request. */
  lemma ConnectFinishes(cfg: Config, w: World, id: nat, c: Cook, reply: Reply)
    requires c.Resolving? && (c.client.Some? ==> c.client.value.InRange()) && w.now <= U64_MAX && !reply.Content?
    ensures var next := Connected(cfg, w, id, c, reply);
      && id in next.cooks && next.cooks[id].Done? && next.cooks == w.cooks[id := next.cooks[id]]
      && next.now == w.now && next.flights == w.flights && next.leading == w.leading
  {
    hide OwnHints, SentHints, Freshness.Revalidated, Renewed;
  }

  lemma ConnectSound(o: Origin, cfg: Config, w: World, id: nat, reply: Reply)
    requires Sound(o, cfg, w) && Enabled(o, cfg, w, Connect(id, reply))
    ensures Sound(o, cfg, Next(cfg, w, Connect(id, reply)))
  {
    if reply.Content? {
      hide Sound, Enabled, Next;
      ContentSound(o, cfg, w, id, reply.headers);
    } else {
      hide HintsOf;
      ConnectFinishes(cfg, w, id, w.cooks[id], reply);
      hide HonestReply, Connected;
    }
  }

  lemma HandOverSound(o: Origin, cfg: Config, w: World, id: nat, alone: bool)
    requires Sound(o, cfg, w) && Enabled(o, cfg, w, HandOver(id, alone))
    ensures Sound(o, cfg, Next(cfg, w, HandOver(id, alone)))
  {
    assert SoundCook(o, w.flights, w.cooks[id]) && CookInRange(w.cooks[id]);
    hide HintsOf;
  }

  lemma RemoteFetchSound(o: Origin, cfg: Config, w: World, n: nat, picture: Picture)
    requires Sound(o, cfg, w) && Enabled(o, cfg, w, RemoteFetch(n, picture))
    ensures Sound(o, cfg, Next(cfg, w, RemoteFetch(n, picture)))
  {
    hide HintsOf;
  }

  lemma LookUpSound(o: Origin, cfg: Config, w: World, id: nat)
    requires Sound(o, cfg, w) && Enabled(o, cfg, w, LookUp(id))
    ensures Sound(o, cfg, Next(cfg, w, LookUp(id)))
  {
    hide HintsOf, Answer, AfterGet, Backfill;
    assert CookInRange(w.cooks[id]);
  }

  lemma ProducedSound(o: Origin, cfg: Config, w: World, id: nat, key: string, hints: Option<CacheHints>, picture: Picture,
                      cost: nat)
    requires Sound(o, cfg, w) && (hints.Some? ==> hints.value.InRange())
    ensures Sound(o, cfg, Produced(cfg, w, id, key, hints, picture, cost))
  {
    hide HintsOf, HintsToken, RetentionDeadline;
  }

  lemma PlainSound(o: Origin, cfg: Config, w: World, step: Step)
    requires Sound(o, cfg, w) && Enabled(o, cfg, w, step)
    requires step.Tick? || step.Publish? || step.Evict? || step.Request? || step.Land? || step.GiveUp?
             || step.RunWrite? || step.LoseWrite?
    ensures Sound(o, cfg, Next(cfg, w, step))
  {
    hide HintsOf, HonestReply, Written;
  }

  /** Every step, whatever a handoff delivers. */
  lemma SoundKept(o: Origin, cfg: Config, w: World, step: Step)
    requires Sound(o, cfg, w) && Enabled(o, cfg, w, step)
    ensures Sound(o, cfg, Next(cfg, w, step))
  {
    match step
    case Connect(id, reply) => ConnectSound(o, cfg, w, id, reply);
    case HandOver(id, alone) => HandOverSound(o, cfg, w, id, alone);
    case RemoteFetch(n, picture) => RemoteFetchSound(o, cfg, w, n, picture);
    case LookUp(id) => LookUpSound(o, cfg, w, id);
    case Render(id, picture, cost) =>
      ProducedSound(o, cfg, w, id, w.cooks[id].key, w.cooks[id].hints, picture, cost);
    case Deliver(id, cost) =>
      var c := w.cooks[id];
      ProducedSound(o, cfg, w, id, c.key, c.hints, w.flights[c.flight].fetched.value.picture, cost);
    case _ => PlainSound(o, cfg, w, step);
  }

  //  Steps that keep the store coherent

  /** Whatever is written into a coherent tier, it stays coherent. */
  lemma WrittenCoherent(o: Origin, c: Entries, wr: DeferredWrite, now: nat)
    requires CoherentTier(o, c) && CoherentWrite(o, wr)
    ensures CoherentTier(o, Written(c, wr, now))
  {
    var after := Written(c, wr, now);
    forall k | k in after
      ensures Coherent(o, k, after[k].media)
    {
      if k in c && after[k].media == c[k].media {
        assert Coherent(o, k, c[k].media);
      } else {
        assert k == wr.key;
        match wr
        case WritePromote(_, key, entry) =>
          var v: nat :| OfVersion(o, key, entry.media, v);
          assert OfVersion(o, k, after[k].media, v);
        case WritePut(_, key, media, _, _, _) =>
          var v: nat :| OfVersion(o, key, media, v);
          assert OfVersion(o, k, after[k].media, v);
        case WriteRevalidate(_, key, entry, expected) =>
          var v: nat :| OfVersion(o, key, entry.media, v) && TokenNames(o, key, expected, v);
          assert OfVersion(o, k, after[k].media, v);
      }
    }
  }

  /** Lookups move no bytes. */
  lemma LookedUpTiersCoherent(o: Origin, tiers: seq<Entries>, key: string, pinTtl: nat, now: nat)
    requires forall i :: 0 <= i < |tiers| ==> CoherentTier(o, tiers[i])
    ensures var after := AfterGet(tiers, key, false, pinTtl, now);
      forall i :: 0 <= i < |after| ==> CoherentTier(o, after[i])
    ensures Answer(tiers, key, false, pinTtl, now).Some? ==>
              Coherent(o, key, Answer(tiers, key, false, pinTtl, now).value.media)
  {
    hide Coherent;
    var after := AfterGet(tiers, key, false, pinTtl, now);
    forall i | 0 <= i < |after| ensures CoherentTier(o, after[i]) {
      forall k | k in after[i] ensures Coherent(o, k, after[i][k].media) {
        assert k in tiers[i] && after[i][k].media == tiers[i][k].media;
      }
    }
  }

  /** What a lookup returns may be copied forward. */
  lemma CopiesCoherent(o: Origin, tiers: seq<Entries>, key: string, pinTtl: nat, now: nat)
    requires Answer(tiers, key, false, pinTtl, now).Some? ==>
               Coherent(o, key, Answer(tiers, key, false, pinTtl, now).value.media)
    ensures var copies := Backfill(tiers, key, false, pinTtl, now);
      forall i :: 0 <= i < |copies| ==> CoherentWrite(o, WritePromote(copies[i].tier, copies[i].key, copies[i].entry))
  {
    hide Coherent, Answer;
  }

  lemma LookUpKeeps(o: Origin, cfg: Config, w: World, id: nat)
    requires Invariant(o, cfg, w) && Enabled(o, cfg, w, LookUp(id))
    ensures CoherentStore(o, Next(cfg, w, LookUp(id)))
  {
    hide Coherent, Answer, AfterGet, Backfill, OwnHints;
    var key, client := w.cooks[id].key, w.cooks[id].client;
    LookedUpTiersCoherent(o, w.tiers, key, cfg.pinTtl, w.now);
    CopiesCoherent(o, w.tiers, key, cfg.pinTtl, w.now);
    var next := Next(cfg, w, LookUp(id));
    assert CookInRange(w.cooks[id]);
    var more := next.writes[|w.writes|..];
    assert next.writes == w.writes + more;
    WritesAppended(o, w.writes, more);
  }

  /** An epoch read from response headers is never the uncacheable marker. */
  lemma HeaderExpiryPositive(headers: Headers, now: nat)
    requires 0 < now
    ensures FromHeaders(headers, now).Some? && FromHeaders(headers, now).value.expiresAt.Some? ==>
              0 < FromHeaders(headers, now).value.expiresAt.value
  {
  }

  lemma ContentKeeps(o: Origin, cfg: Config, w: World, id: nat, headers: Headers)
    requires Invariant(o, cfg, w) && Enabled(o, cfg, w, Connect(id, Content(headers)))
    ensures CoherentStore(o, Next(cfg, w, Connect(id, Content(headers))))
  {
    HeadersInRange(headers, w.now);
    HeaderExpiryPositive(headers, w.now);
  }

  /** What a 304 to a stored entry's own validator proves. */
  lemma StoredValidation(o: Origin, cfg: Config, w: World, id: nat, headers: Headers)
    requires Invariant(o, cfg, w) && Enabled(o, cfg, w, Connect(id, NotModified(headers)))
    requires OwnHints(w.cooks[id].found).Some?
    ensures var c := w.cooks[id];
      var merged := Freshness.Revalidated(OwnHints(c.found).value, headers, cfg.freshnessTtl, w.now);
      && merged.InRange()
      && OfVersion(o, c.key, Renewed(cfg, c.found.value, merged, w.now).media, w.Version(c.key))
      && TokenNames(o, c.key, c.found.value.media.cache, w.Version(c.key))
      && o.depicts(c.key, w.Version(c.key), c.found.value.media.thumbnail)
  {
    var c := w.cooks[id];
    assert CoherentCook(o, c);
    var v: nat :| OfVersion(o, c.key, c.found.value.media, v);
    OwnHintsInRange(c.found);
    assert v == w.Version(c.key);
    RenewalNamesVersion(o, c.key, cfg, OwnHints(c.found).value, headers, w.now, v);
  }

  /** The write that renews an entry after such a 304. */
  lemma RenewalWriteCoherent(o: Origin, key: string, found: CacheEntry, entry: CacheEntry, v: nat, tier: nat)
    requires OwnHints(Some(found)).Some?
    requires OfVersion(o, key, entry.media, v) && TokenNames(o, key, found.media.cache, v)
    ensures CoherentWrite(o, WriteRevalidate(tier, key, entry, found.media.cache))
  {
    assert OwnHints(Some(entry.(media := entry.media.(cache := found.media.cache)))) == OwnHints(Some(found));
  }

  /** More coherent writes behind the waiting ones. */
  lemma WritesAppended(o: Origin, writes: seq<DeferredWrite>, more: seq<DeferredWrite>)
    requires forall i :: 0 <= i < |writes| ==> CoherentWrite(o, writes[i])
    requires forall i :: 0 <= i < |more| ==> CoherentWrite(o, more[i])
    ensures forall i :: 0 <= i < |writes + more| ==> CoherentWrite(o, (writes + more)[i])
  {
  }

  lemma NotModifiedKeeps(o: Origin, cfg: Config, w: World, id: nat, headers: Headers)
    requires Invariant(o, cfg, w) && Enabled(o, cfg, w, Connect(id, NotModified(headers)))
    ensures CoherentStore(o, Next(cfg, w, Connect(id, NotModified(headers))))
  {
    var c := w.cooks[id];
    if OwnHints(c.found).Some? {
      RenewalKeeps(o, cfg, w, id, c, headers);
    }
  }

  lemma RenewalKeeps(o: Origin, cfg: Config, w: World, id: nat, c: Cook, headers: Headers)
    requires Invariant(o, cfg, w) && Enabled(o, cfg, w, Connect(id, NotModified(headers)))
    requires c == w.cooks[id] && OwnHints(c.found).Some?
    ensures CoherentStore(o, Next(cfg, w, Connect(id, NotModified(headers))))
  {
    hide Coherent, FromToken, HonestNotModified;
    StoredValidation(o, cfg, w, id, headers);
    var merged := Freshness.Revalidated(OwnHints(c.found).value, headers, cfg.freshnessTtl, w.now);
    var entry, expected := Renewed(cfg, c.found.value, merged, w.now), c.found.value.media.cache;
    var more := seq(|w.tiers|, i requires 0 <= i => WriteRevalidate(i, c.key, entry, expected));
    forall i | 0 <= i < |more| ensures CoherentWrite(o, more[i]) {
      RenewalWriteCoherent(o, c.key, c.found.value, entry, w.Version(c.key), i);
    }
    WritesAppended(o, w.writes, more);
    var next := Next(cfg, w, Connect(id, NotModified(headers)));
    assert next.writes == w.writes + more && next.tiers == w.tiers && next.now == w.now;
    assert next.cooks == w.cooks[id := next.cooks[id]] && next.cooks[id].Done?;
  }

  /** A picture stored beside a token of its version. */
  lemma ProducedKeeps(o: Origin, cfg: Config, w: World, id: nat, key: string, hints: Option<CacheHints>, picture: Picture,
                      cost: nat, v: nat)
    requires Invariant(o, cfg, w) && (hints.Some? ==> hints.value.InRange())
    requires OfVersion(o, key, WithToken(picture, HintsToken(hints, cfg.freshnessTtl, w.now)), v)
    ensures CoherentStore(o, Produced(cfg, w, id, key, hints, picture, cost))
  {
    hide TokenNames, HintsToken, FromToken;
    var next := Produced(cfg, w, id, key, hints, picture, cost);
    assert Coherent(o, key, WithToken(picture, HintsToken(hints, cfg.freshnessTtl, w.now)));
    WritesAppended(o, w.writes, next.writes[|w.writes|..]);
    assert next.writes == w.writes + next.writes[|w.writes|..];
  }

  lemma RenderKeeps(o: Origin, cfg: Config, w: World, id: nat, picture: Picture, cost: nat)
    requires Invariant(o, cfg, w) && Enabled(o, cfg, w, Render(id, picture, cost))
    ensures CoherentStore(o, Next(cfg, w, Render(id, picture, cost)))
  {
    var c := w.cooks[id];
    assert CookInRange(c) && SoundCook(o, w.flights, c);
    hide Coherent, TokenNames, CoherentWrite;
    TokenOfHints(o, c.key, c.version, c.hints, cfg.freshnessTtl, w.now);
    ProducedKeeps(o, cfg, w, id, c.key, c.hints, picture, cost, c.version);
  }

  /** The picture of a handoff, when it is of the version the hints name or they name none. */
  lemma DeliverKeeps(o: Origin, cfg: Config, w: World, id: nat, cost: nat)
    requires Invariant(o, cfg, w) && Enabled(o, cfg, w, Deliver(id, cost)) && Aligned(w, Deliver(id, cost))
    ensures CoherentStore(o, Next(cfg, w, Deliver(id, cost)))
  {
    var c := w.cooks[id];
    assert CookInRange(c) && SoundCook(o, w.flights, c) && SoundFlight(o, w.flights[c.flight]);
    var got := w.flights[c.flight].fetched.value;
    hide Coherent, TokenNames, CoherentWrite, HintsOf;
    TokenOfHints(o, c.key, c.version, c.hints, cfg.freshnessTtl, w.now);
    ProducedKeeps(o, cfg, w, id, c.key, c.hints, got.picture, cost, got.version);
  }

  lemma OneWriteLess(o: Origin, writes: seq<DeferredWrite>, n: nat)
    requires n < |writes| && forall i :: 0 <= i < |writes| ==> CoherentWrite(o, writes[i])
    ensures forall i :: 0 <= i < |writes| - 1 ==> CoherentWrite(o, Without(writes, n)[i])
  {
    hide CoherentWrite;
    assert forall i :: 0 <= i < |writes| - 1 ==> Without(writes, n)[i] == writes[if i < n then i else i + 1];
  }

  lemma OtherStepKeeps(o: Origin, cfg: Config, w: World, step: Step)
    requires Invariant(o, cfg, w) && Enabled(o, cfg, w, step)
    requires !step.LookUp? && !step.Connect? && !step.Render? && !step.Deliver? && !step.RunWrite?
    ensures CoherentStore(o, Next(cfg, w, step))
  {
    assert WellFormed(cfg, w);
    hide Coherent, CoherentWrite, Sound, WellFormed, HonestReply, LookedUp, Connected, Produced, Written;
    match step
    case Evict(tier, key) =>
      assert CoherentTier(o, w.tiers[tier]);
    case LoseWrite(n) => OneWriteLess(o, w.writes, n);
    case _ =>
  }

  lemma RunWriteKeeps(o: Origin, cfg: Config, w: World, n: nat)
    requires Invariant(o, cfg, w) && Enabled(o, cfg, w, RunWrite(n))
    ensures CoherentStore(o, Next(cfg, w, RunWrite(n)))
  {
    hide Coherent, CoherentWrite, CoherentCook, Written;
    var wr := w.writes[n];
    WrittenCoherent(o, w.tiers[wr.tier], wr, w.now);
    OneWriteLess(o, w.writes, n);
  }

  /** Every step keeps the cache coherent, but for a delivery of another version. */
  lemma {:induction false} StepKeeps(o: Origin, cfg: Config, w: World, step: Step)
    requires Invariant(o, cfg, w) && Enabled(o, cfg, w, step) && Aligned(w, step)
    ensures Invariant(o, cfg, Next(cfg, w, step))
  {
    SoundKept(o, cfg, w, step);
    match step
    case LookUp(id) => LookUpKeeps(o, cfg, w, id);
    case Connect(id, reply) =>
      match reply {
        case NotModified(headers) => NotModifiedKeeps(o, cfg, w, id, headers);
        case Content(headers) => ContentKeeps(o, cfg, w, id, headers);
        case Refusal =>
      }
    case Render(id, picture, cost) => RenderKeeps(o, cfg, w, id, picture, cost);
    case Deliver(id, cost) => DeliverKeeps(o, cfg, w, id, cost);
    case RunWrite(n) => RunWriteKeeps(o, cfg, w, n);
    case _ => OtherStepKeeps(o, cfg, w, step);
  }

  //  Runs

  /** `worlds` is a run of the protocol in which the environment keeps its contract. */
  ghost predicate IsRun(o: Origin, cfg: Config, worlds: seq<World>, steps: seq<Step>) {
    && |worlds| == |steps| + 1
    && forall i :: 0 <= i < |steps| ==>
         && WellFormed(cfg, worlds[i])
         && Enabled(o, cfg, worlds[i], steps[i])
         && worlds[i + 1] == Next(cfg, worlds[i], steps[i])
  }

  /** Nothing stored, nothing in progress. */
  predicate Initial(cfg: Config, w: World) {
    && 0 < w.now && w.now + cfg.freshnessTtl < U64_MAX
    && w.writes == [] && w.cooks == map[] && w.flights == [] && w.leading == map[]
    && forall i :: 0 <= i < |w.tiers| ==> w.tiers[i] == map[]
  }

  /** Handoffs or not, requests remember rightly what they have read. */
  lemma {:induction false} RunSound(o: Origin, cfg: Config, worlds: seq<World>, steps: seq<Step>, i: nat)
    requires IsRun(o, cfg, worlds, steps) && i <= |steps|
    requires Initial(cfg, worlds[0])
    ensures Sound(o, cfg, worlds[i])
  {
    if i > 0 {
      hide Sound, Enabled, Next;
      RunSound(o, cfg, worlds, steps, i - 1);
      SoundKept(o, cfg, worlds[i - 1], steps[i - 1]);
    }
  }

  /** Every delivery of the run is of the version its request has read the headers of. */
  ghost predicate AllAligned(worlds: seq<World>, steps: seq<Step>)
    requires |worlds| == |steps| + 1
  {
    forall i :: 0 <= i < |steps| ==> Aligned(worlds[i], steps[i])
  }

  lemma {:induction false} RunKeeps(o: Origin, cfg: Config, worlds: seq<World>, steps: seq<Step>, i: nat)
    requires IsRun(o, cfg, worlds, steps) && i <= |steps|
    requires Initial(cfg, worlds[0]) && AllAligned(worlds, steps)
    ensures Invariant(o, cfg, worlds[i])
  {
    if i > 0 {
      hide Invariant, Enabled, Next, Aligned;
      RunKeeps(o, cfg, worlds, steps, i - 1);
      StepKeeps(o, cfg, worlds[i - 1], steps[i - 1]);
    }
  }

  /** In every such run, every stored entry pairs bytes and validators of one version. */
  lemma StoredEntriesCoherent(o: Origin, cfg: Config, worlds: seq<World>, steps: seq<Step>, i: nat, tier: nat, key: string)
    requires IsRun(o, cfg, worlds, steps) && Initial(cfg, worlds[0]) && AllAligned(worlds, steps)
    requires i <= |steps| && tier < |worlds[i].tiers| && key in worlds[i].tiers[tier]
    ensures Coherent(o, key, worlds[i].tiers[tier][key].media)
  {
    RunKeeps(o, cfg, worlds, steps, i);
    assert CoherentTier(o, worlds[i].tiers[tier]);
  }

  /**
   In every such run, stored bytes leave on a 304 only if the validator sent was
   that entry's own, and then they depict the version the origin serves.
   */
  lemma ReleasedBytesAreCurrent(o: Origin, cfg: Config, worlds: seq<World>, steps: seq<Step>, i: nat, id: nat,
                                reply: Reply, bytes: seq<byte>, sent: Conditional)
    requires IsRun(o, cfg, worlds, steps) && Initial(cfg, worlds[0]) && AllAligned(worlds, steps)
    requires i < |steps| && steps[i] == Connect(id, reply)
    requires worlds[i + 1].cooks[id] == Done(worlds[i].cooks[id].key, StoredValidated(bytes, sent))
    ensures var c := worlds[i].cooks[id];
      && o.depicts(c.key, worlds[i].Version(c.key), bytes)
      && OwnHints(c.found).Some? && OwnHints(c.found).value.ToConditional() == Some(sent)
      && bytes == c.found.value.media.thumbnail
  {
    RunKeeps(o, cfg, worlds, steps, i);
    StoredValidation(o, cfg, worlds[i], id, reply.headers);
  }

  /**
   A deferred revalidation never overwrites a newer render: the entry it
   replaces depicts the same version as the bytes it writes.
   */
  lemma RevalidationReplacesSameVersion(o: Origin, cfg: Config, worlds: seq<World>, steps: seq<Step>, i: nat, n: nat)
    requires IsRun(o, cfg, worlds, steps) && Initial(cfg, worlds[0]) && AllAligned(worlds, steps)
    requires i < |steps| && steps[i] == RunWrite(n) && worlds[i].writes[n].WriteRevalidate?
    ensures var w := worlds[i];
      var wr := w.writes[n];
      var before, after := w.tiers[wr.tier], worlds[i + 1].tiers[wr.tier];
      wr.key in before && wr.key in after && after[wr.key] != before[wr.key] ==>
        exists v: nat :: OfVersion(o, wr.key, before[wr.key].media, v) && OfVersion(o, wr.key, after[wr.key].media, v)
  {
    RunKeeps(o, cfg, worlds, steps, i);
    var w := worlds[i];
    var wr := w.writes[n];
    var before, after := w.tiers[wr.tier], worlds[i + 1].tiers[wr.tier];
    assert CoherentWrite(o, wr) && CoherentTier(o, before);
    if wr.key in before && wr.key in after && after[wr.key] != before[wr.key] {
      var v: nat :| OfVersion(o, wr.key, wr.entry.media, v) && TokenNames(o, wr.key, wr.expected, v);
      var u: nat :| OfVersion(o, wr.key, before[wr.key].media, u);
      assert before[wr.key].media.cache == wr.expected;
      assert u == v;
      assert OfVersion(o, wr.key, after[wr.key].media, v);
    }
  }
}
