/**
 The cache protocol as a transition system: requests that look up, revalidate
 and render while the origin changes, entries are evicted and deferred writes
 run late, in any order, or never.
 */
module Coherence {
  import opened Prelude
  import opened Text
  import Base64
  import opened CacheHints
  import opened TokenLaws
  import opened Freshness
  import opened CacheEntry
  import opened MemoryCache
  import opened ChainCache

  /**
   The origin's side of the contract.  `depicts(key, v, bytes)`: the bytes are
   a rendering of version `v`.  `names(key, c)`: the one version a validator
   stands for, if any.
   */
  datatype Origin = Origin(
    depicts: (string, nat, seq<byte>) -> bool,
    names: (string, Conditional) -> Option<nat>)

  datatype Config = Config(pinTtl: nat, freshnessTtl: nat, cacheTtl: nat, maxTtl: nat)

  /** A write handed to the background scheduler, for one tier. */
  datatype DeferredWrite =
    | WritePromote(tier: nat, key: string, entry: CacheEntry)
    | WriteRevalidate(tier: nat, key: string, entry: CacheEntry, expected: string)
    | WritePut(tier: nat, key: string, media: Media, cost: nat, cacheUntil: nat, pinTtl: nat)

  datatype Outcome =
    | ClientFresh
    | Served(bytes: seq<byte>)
    | ClientValidated(sent: Conditional)
    | StoredValidated(bytes: seq<byte>, sent: Conditional)
    | Rendered(bytes: seq<byte>)
    | Failed

  /**
   How far a request has come.  `version` is the one whose headers gave the
   hints.  A request that was handed over has closed its connection and waits
   for the remote fetch `flight`, its own or one it joined.
   */
  datatype Cook =
    | Asked(key: string, client: Option<CacheHints>)
    | Resolving(key: string, client: Option<CacheHints>, found: Option<CacheEntry>)
    | Rendering(key: string, version: nat, hints: Option<CacheHints>)
    | Awaiting(key: string, version: nat, hints: Option<CacheHints>, flight: nat)
    | Done(key: string, outcome: Outcome)

  /** A handoff: the higher tier connects to the source again and renders what it finds there. */
  datatype Flight = Flight(key: string, fetched: Option<Fetched>)

  datatype Fetched = Fetched(version: nat, picture: Picture)

  datatype Reply = NotModified(headers: Headers) | Content(headers: Headers) | Refusal

  datatype World = World(
    now: nat,
    current: map<string, nat>,
    tiers: seq<Entries>,
    writes: seq<DeferredWrite>,
    cooks: map<nat, Cook>,
    flights: seq<Flight>,
    leading: map<string, nat>)
  {
    /** The version the origin serves for `key`. */
    function Version(key: string): nat {
      if key in current then current[key] else 0
    }

    function Finish(id: nat, key: string, outcome: Outcome): World {
      this.(cooks := cooks[id := Done(key, outcome)])
    }
  }

  datatype Step =
    | Tick(to: nat)
    | Publish(key: string, version: nat)
    | Evict(tier: nat, key: string)
    | Request(id: nat, key: string, client: Option<CacheHints>)
    | LookUp(id: nat)
    | Connect(id: nat, reply: Reply)
    | Render(id: nat, picture: Picture, cost: nat)
    | HandOver(id: nat, alone: bool)
    | RemoteFetch(flight: nat, picture: Picture)
    | Land(flight: nat)
    | Deliver(id: nat, cost: nat)
    | GiveUp(id: nat)
    | RunWrite(n: nat)
    | LoseWrite(n: nat)

  //  One request

  /** The entry's token carries a validator of its own. */
  function OwnHints(found: Option<CacheEntry>): Option<CacheHints> {
    var hints := if found.Some? then FromToken(found.value.media.cache) else None;
    if hints.Some? && hints.value.ToConditional().Some? then hints else None
  }

  /** The hints whose validator is sent: the stored entry's when it has one, else the caller's. */
  function SentHints(client: Option<CacheHints>, found: Option<CacheEntry>): Option<CacheHints> {
    if OwnHints(found).Some? then OwnHints(found) else client
  }

  function Sent(client: Option<CacheHints>, found: Option<CacheEntry>): Option<Conditional> {
    var hints := SentHints(client, found);
    if hints.Some? then hints.value.ToConditional() else None
  }

  /** The token a response with these hints is given. */
  function HintsToken(hints: Option<CacheHints>, ttl: nat, now: nat): string
    requires hints.Some? ==> hints.value.InRange()
  {
    if hints.Some? then Token(hints.value, ttl, now) else ""
  }

  /** The stored entry as a 304 renews it. */
  function Renewed(cfg: Config, found: CacheEntry, merged: CacheHints, now: nat): CacheEntry
    requires merged.InRange()
  {
    found.SetCache(Token(merged, cfg.freshnessTtl, now))
         .(cacheUntil := RetentionDeadline(now, Some(merged), cfg.cacheTtl, cfg.freshnessTtl, cfg.maxTtl),
           lastAccessed := now)
  }

  function LookedUp(cfg: Config, w: World, id: nat, key: string, client: Option<CacheHints>): World {
    if client.Some? && client.value.IsFresh(w.now) then w.Finish(id, key, ClientFresh)
    else
      var found := Answer(w.tiers, key, false, cfg.pinTtl, w.now);
      var copies := Backfill(w.tiers, key, false, cfg.pinTtl, w.now);
      var w' := w.(tiers := AfterGet(w.tiers, key, false, cfg.pinTtl, w.now),
                   writes := w.writes + seq(|copies|, i requires 0 <= i < |copies| =>
                     WritePromote(copies[i].tier, copies[i].key, copies[i].entry)));
      if found.Some? && found.value.IsFresh(w.now) then w'.Finish(id, key, Served(found.value.media.thumbnail))
      else w'.(cooks := w'.cooks[id := Resolving(key, client, found)])
  }

  function Connected(cfg: Config, w: World, id: nat, c: Cook, reply: Reply): World
    requires c.Resolving?
    requires c.client.Some? ==> c.client.value.InRange()
    requires w.now <= U64_MAX
  {
    match reply
    case Refusal => w.Finish(id, c.key, Failed)
    case Content(headers) =>
      w.(cooks := w.cooks[id := Rendering(c.key, w.Version(c.key), FromHeaders(headers, w.now))])
    case NotModified(headers) =>
      var sent := Sent(c.client, c.found);
      if sent.None? then w.Finish(id, c.key, Failed)
      else if OwnHints(c.found).None? then w.Finish(id, c.key, ClientValidated(sent.value))
      else
        OwnHintsInRange(c.found);
        RevalidatedInRange(OwnHints(c.found).value, headers, cfg.freshnessTtl, w.now);
        var merged := Freshness.Revalidated(OwnHints(c.found).value, headers, cfg.freshnessTtl, w.now);
        var entry := Renewed(cfg, c.found.value, merged, w.now);
        var expected := c.found.value.media.cache;
        w.Finish(id, c.key, StoredValidated(c.found.value.media.thumbnail, sent.value))
         .(writes := w.writes + seq(|w.tiers|, i requires 0 <= i => WriteRevalidate(i, c.key, entry, expected)))
  }

  /** The picture is stored beside the hints of the request that asked for it. */
  function Produced(cfg: Config, w: World, id: nat, key: string, hints: Option<CacheHints>, picture: Picture, cost: nat)
    : World
    requires hints.Some? ==> hints.value.InRange()
  {
    var token := HintsToken(hints, cfg.freshnessTtl, w.now);
    var cacheUntil :=
      if token == "" then 0 else RetentionDeadline(w.now, hints, cfg.cacheTtl, cfg.freshnessTtl, cfg.maxTtl);
    w.Finish(id, key, Rendered(picture.thumbnail))
     .(writes := w.writes + seq(|w.tiers|, i requires 0 <= i =>
         WritePut(i, key, WithToken(picture, token), cost, cacheUntil, cfg.pinTtl)))
  }

  /** Join the flight that leads the key, or start one; a second attempt always flies alone. */
  function HandedOver(w: World, id: nat, c: Cook, alone: bool): World
    requires c.Rendering? || c.Awaiting?
  {
    if !alone && c.key in w.leading then
      w.(cooks := w.cooks[id := Awaiting(c.key, c.version, c.hints, w.leading[c.key])])
    else
      w.(cooks := w.cooks[id := Awaiting(c.key, c.version, c.hints, |w.flights|)],
         flights := w.flights + [Flight(c.key, None)],
         leading := if alone then w.leading else w.leading[c.key := |w.flights|])
  }

  /** The flight still holds its key, so that others may join it. */
  predicate Leads(w: World, flight: nat)
    requires flight < |w.flights|
  {
    w.flights[flight].key in w.leading && w.leading[w.flights[flight].key] == flight
  }

  /** The request has its answer. */
  predicate Landed(w: World, c: Cook) {
    c.Awaiting? && c.flight < |w.flights| && w.flights[c.flight].fetched.Some? && !Leads(w, c.flight)
  }

  function Written(c: Entries, wr: DeferredWrite, now: nat): Entries {
    match wr
    case WritePromote(_, key, entry) => Promoted(c, key, entry, now)
    case WriteRevalidate(_, key, entry, expected) => MemoryCache.Revalidated(c, key, entry, expected, now)
    case WritePut(_, key, media, cost, cacheUntil, pinTtl) => Put(c, key, media, cost, cacheUntil, pinTtl, now)
  }

  //  The contract of the environment

  predicate SafeValidator(v: Option<seq<byte>>) {
    NoTrailingNul(v) && Whole(v)
  }

  /** A 200 for version `v`: its validator names that version, and survives the token. */
  ghost predicate HonestContent(o: Origin, key: string, v: nat, headers: Headers, now: nat) {
    var hints := FromHeaders(headers, now);
    hints.Some? ==>
      && ValidatorsSafe(hints.value)
      && (hints.value.ToConditional().Some? ==> o.names(key, hints.value.ToConditional().value) == Some(v))
  }

  /** A 304 answers a validator that names the current version, and repeats no other. */
  ghost predicate HonestNotModified(o: Origin, key: string, v: nat, sent: Option<Conditional>, headers: Headers) {
    var etag, modified := Validator(headers, "etag"), Validator(headers, "last-modified");
    && (sent.Some? ==> o.names(key, sent.value) == Some(v))
    && SafeValidator(etag) && SafeValidator(modified)
    && (etag.Some? ==> o.names(key, IfNoneMatch(etag.value)) == Some(v))
    && (modified.Some? ==> o.names(key, IfModifiedSince(modified.value)) == Some(v))
  }

  ghost predicate HonestReply(o: Origin, key: string, v: nat, sent: Option<Conditional>, reply: Reply, now: nat) {
    match reply
    case NotModified(headers) => HonestNotModified(o, key, v, sent, headers)
    case Content(headers) => HonestContent(o, key, v, headers, now)
    case Refusal => true
  }

  ghost predicate Enabled(o: Origin, cfg: Config, w: World, step: Step) {
    match step
    case Tick(to) => w.now <= to && to + cfg.freshnessTtl < U64_MAX
    case Publish(_, _) => true
    case Evict(tier, _) => tier < |w.tiers|
    case Request(id, _, client) => id !in w.cooks && (client.Some? ==> client.value.InRange())
    case LookUp(id) => id in w.cooks && w.cooks[id].Asked?
    case Connect(id, reply) =>
      && id in w.cooks && w.cooks[id].Resolving?
      && var c := w.cooks[id];
         HonestReply(o, c.key, w.Version(c.key), Sent(c.client, c.found), reply, w.now)
    // one response: its body is a rendering of the version its headers describe
    case Render(id, picture, _) =>
      id in w.cooks && w.cooks[id].Rendering? && o.depicts(w.cooks[id].key, w.cooks[id].version, picture.thumbnail)
    case HandOver(id, alone) => id in w.cooks && (w.cooks[id].Rendering? || (alone && w.cooks[id].Awaiting?))
    // another response: whatever the origin serves by then
    case RemoteFetch(n, picture) =>
      && n < |w.flights| && w.flights[n].fetched.None?
      && o.depicts(w.flights[n].key, w.Version(w.flights[n].key), picture.thumbnail)
    case Land(n) => n < |w.flights| && Leads(w, n)
    case Deliver(id, _) => id in w.cooks && Landed(w, w.cooks[id])
    case GiveUp(id) => id in w.cooks && w.cooks[id].Awaiting?
    case RunWrite(n) => n < |w.writes| && w.writes[n].tier < |w.tiers|
    case LoseWrite(n) => n < |w.writes|
  }

  function Next(cfg: Config, w: World, step: Step): World
    requires WellFormed(cfg, w)
  {
    match step
    case Tick(to) => if w.now <= to then w.(now := to) else w
    case Publish(key, version) => w.(current := w.current[key := version])
    case Evict(tier, key) => if tier < |w.tiers| then w.(tiers := w.tiers[tier := w.tiers[tier] - {key}]) else w
    case Request(id, key, client) => w.(cooks := w.cooks[id := Asked(key, client)])
    case LookUp(id) =>
      if id in w.cooks && w.cooks[id].Asked? then LookedUp(cfg, w, id, w.cooks[id].key, w.cooks[id].client) else w
    case Connect(id, reply) =>
      if id in w.cooks && w.cooks[id].Resolving? then Connected(cfg, w, id, w.cooks[id], reply) else w
    case Render(id, picture, cost) =>
      if id in w.cooks && w.cooks[id].Rendering? then
        Produced(cfg, w, id, w.cooks[id].key, w.cooks[id].hints, picture, cost)
      else w
    case HandOver(id, alone) =>
      if id in w.cooks && (w.cooks[id].Rendering? || w.cooks[id].Awaiting?) then HandedOver(w, id, w.cooks[id], alone) else w
    case RemoteFetch(n, picture) =>
      if n < |w.flights| then
        var flight := w.flights[n].(fetched := Some(Fetched(w.Version(w.flights[n].key), picture)));
        w.(flights := w.flights[n := flight])
      else w
    case Land(n) => if n < |w.flights| then w.(leading := w.leading - {w.flights[n].key}) else w
    case Deliver(id, cost) =>
      if id in w.cooks && Landed(w, w.cooks[id]) then
        var c := w.cooks[id];
        Produced(cfg, w, id, c.key, c.hints, w.flights[c.flight].fetched.value.picture, cost)
      else w
    case GiveUp(id) => if id in w.cooks && w.cooks[id].Awaiting? then w.Finish(id, w.cooks[id].key, Failed) else w
    case RunWrite(n) =>
      if n < |w.writes| && w.writes[n].tier < |w.tiers| then
        var wr := w.writes[n];
        w.(tiers := w.tiers[wr.tier := Written(w.tiers[wr.tier], wr, w.now)], writes := Without(w.writes, n))
      else w
    case LoseWrite(n) => if n < |w.writes| then w.(writes := Without(w.writes, n)) else w
  }

  //  Number ranges

  predicate WellFormed(cfg: Config, w: World) {
    && 0 < w.now && w.now + cfg.freshnessTtl < U64_MAX
    && forall id :: id in w.cooks ==> CookInRange(w.cooks[id])
  }

  predicate CookInRange(c: Cook) {
    match c
    case Asked(_, client) => client.Some? ==> client.value.InRange()
    case Resolving(_, client, _) => client.Some? ==> client.value.InRange()
    case Rendering(_, _, hints) => hints.Some? ==> hints.value.InRange()
    case Awaiting(_, _, hints, _) => hints.Some? ==> hints.value.InRange()
    case Done(_, _) => true
  }

  lemma TakeNumberInRange(buf: seq<byte>, pos: nat)
    ensures TakeNumber(buf, pos).0.Some? ==> TakeNumber(buf, pos).0.value <= U32_MAX
  {
    if pos + 5 <= |buf| {
      BigEndianFits(buf, pos + 1);
    }
  }

  /** Whatever a token decodes to fits its machine words. */
  lemma TokenInRange(wire: string)
    ensures FromToken(wire).Some? ==> FromToken(wire).value.InRange()
  {
    var colon := IndexOf(wire, ':');
    if FromToken(wire).Some? {
      var buf := Base64.Decode(wire[colon + 1..]).value;
      var (_, p1) := TakeNumber(buf, 0);
      var (_, p2) := TakeFlag(buf, p1, false);
      var (_, p3) := TakeString(buf, p2);
      var (_, p4) := TakeString(buf, p3);
      var epoch := Parse(wire[..colon], 16, U64_MAX).value;
      var (_, p5) := TakeFlag(buf, p4, epoch == 0);
      var (_, p6) := TakeFlag(buf, p5, false);
      var (_, p7) := TakeFlag(buf, p6, false);
      TakeNumberInRange(buf, 0);
      TakeNumberInRange(buf, p7);
    }
  }

  lemma OwnHintsInRange(found: Option<CacheEntry>)
    ensures OwnHints(found).Some? ==> OwnHints(found).value.InRange()
  {
    if found.Some? {
      TokenInRange(found.value.media.cache);
    }
  }

  lemma {:induction false} LastNumberInRange(ds: seq<Directive>, key: string, max: nat)
    ensures LastNumber(ds, key, max).Some? ==> LastNumber(ds, key, max).value <= max
  {
    if ds != [] {
      LastNumberInRange(ds[..|ds| - 1], key, max);
    }
  }

  lemma HeadersInRange(headers: Headers, now: nat)
    requires now <= U64_MAX
    ensures FromHeaders(headers, now).Some? ==> FromHeaders(headers, now).value.InRange()
  {
    LastNumberInRange(Directives(headers), "stale-while-revalidate", U32_MAX);
    hide Directives, Window, LastNumber, Mentions, Age, Validator;
  }

  lemma RevalidatedInRange(prior: CacheHints, headers: Headers, ttl: nat, now: nat)
    requires prior.InRange() && now <= U64_MAX
    ensures Freshness.Revalidated(prior, headers, ttl, now).InRange()
  {
    hide FromHeaders;
    HeadersInRange(headers, now);
  }
}
