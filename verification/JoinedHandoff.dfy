/**
 A run in which a joined handoff mixes versions.  Request 0 reads version 0
 and its handoff fetches version 0; the origin publishes version 1; request 1
 reads the headers of version 1, joins the flight and stores the picture of
 version 0 beside the validator of version 1.  Every later 304 to that
 validator releases the old picture as current.
 */
module JoinedHandoff {
  import opened Prelude
  import opened Text
  import opened CacheHints
  import opened TokenLaws
  import opened Freshness
  import opened CacheEntry
  import opened MemoryCache
  import opened ChainCache
  import opened Coherence
  import opened CoherenceLaws

  const KEY: string := "k"

  /** Version 0 has ETag `0` and looks like `[0]`, version 1 has ETag `1` and looks like `[1]`. */
  function TwoVersions(): Origin {
    Origin((k, v, b) => |b| == 1 && b[0] == v,
           (k, c) => if c == IfNoneMatch([48]) then Some(0) else if c == IfNoneMatch([49]) then Some(1) else None)
  }

  function Settings(): Config {
    Config(0, 5, 100, 1000)
  }

  function TagOf(v: nat): string
    requires v < 2
  {
    if v == 0 then "0" else "1"
  }

  function ReplyOf(v: nat): Reply
    requires v < 2
  {
    Content(map["etag" := TagOf(v)])
  }

  /** The hints read from version `v`. */
  function HintsFor(v: nat): CacheHints
    requires v < 2
  {
    EMPTY.(etag := Some([48 + v]))
  }

  const OLD: Picture := Picture([0], Image, "")

  ghost predicate Takes(w: World, step: Step, next: World) {
    WellFormed(Settings(), w) && Enabled(TwoVersions(), Settings(), w, step) && next == Next(Settings(), w, step)
  }

  //  What single steps do

  lemma RequestIs(o: Origin, cfg: Config, w: World, id: nat, key: string)
    requires WellFormed(cfg, w) && id !in w.cooks
    ensures Enabled(o, cfg, w, Request(id, key, None))
    ensures Next(cfg, w, Request(id, key, None)) == w.(cooks := w.cooks[id := Asked(key, None)])
  {
  }

  lemma LookUpIs(o: Origin, cfg: Config, w: World, id: nat)
    requires WellFormed(cfg, w) && id in w.cooks && w.cooks[id].Asked?
    ensures Enabled(o, cfg, w, LookUp(id))
    ensures Next(cfg, w, LookUp(id)) == LookedUp(cfg, w, id, w.cooks[id].key, w.cooks[id].client)
  {
    hide LookedUp;
  }

  lemma ConnectIs(o: Origin, cfg: Config, w: World, id: nat, reply: Reply)
    requires WellFormed(cfg, w) && id in w.cooks && w.cooks[id].Resolving?
    requires var c := w.cooks[id]; HonestReply(o, c.key, w.Version(c.key), Sent(c.client, c.found), reply, w.now)
    ensures w.cooks[id].client.Some? ==> w.cooks[id].client.value.InRange()
    ensures Enabled(o, cfg, w, Connect(id, reply))
    ensures Next(cfg, w, Connect(id, reply)) == Connected(cfg, w, id, w.cooks[id], reply)
  {
    assert CookInRange(w.cooks[id]);
    hide Connected, HonestReply, Sent;
  }

  lemma HandOverIs(o: Origin, cfg: Config, w: World, id: nat)
    requires WellFormed(cfg, w) && id in w.cooks && w.cooks[id].Rendering?
    ensures Enabled(o, cfg, w, HandOver(id, false))
    ensures Next(cfg, w, HandOver(id, false)) == HandedOver(w, id, w.cooks[id], false)
  {
    hide HandedOver;
  }

  lemma FetchIs(o: Origin, cfg: Config, w: World, n: nat, picture: Picture)
    requires WellFormed(cfg, w) && n < |w.flights| && w.flights[n].fetched.None?
    requires o.depicts(w.flights[n].key, w.Version(w.flights[n].key), picture.thumbnail)
    ensures Enabled(o, cfg, w, RemoteFetch(n, picture))
    ensures Next(cfg, w, RemoteFetch(n, picture))
         == w.(flights := w.flights[n := w.flights[n].(fetched := Some(Fetched(w.Version(w.flights[n].key), picture)))])
  {
  }

  lemma LandIs(o: Origin, cfg: Config, w: World, n: nat)
    requires WellFormed(cfg, w) && n < |w.flights| && Leads(w, n)
    ensures Enabled(o, cfg, w, Land(n))
    ensures Next(cfg, w, Land(n)) == w.(leading := w.leading - {w.flights[n].key})
  {
  }

  lemma DeliverIs(o: Origin, cfg: Config, w: World, id: nat, cost: nat)
    requires WellFormed(cfg, w) && id in w.cooks && Landed(w, w.cooks[id])
    ensures w.cooks[id].hints.Some? ==> w.cooks[id].hints.value.InRange()
    ensures Enabled(o, cfg, w, Deliver(id, cost))
    ensures var c := w.cooks[id];
      var got := w.flights[c.flight].fetched.value;
      Next(cfg, w, Deliver(id, cost)) == Produced(cfg, w, id, c.key, c.hints, got.picture, cost)
  {
    assert CookInRange(w.cooks[id]);
    hide Produced;
  }

  lemma RunWriteIs(o: Origin, cfg: Config, w: World, n: nat)
    requires WellFormed(cfg, w) && n < |w.writes| && w.writes[n].tier < |w.tiers|
    ensures Enabled(o, cfg, w, RunWrite(n))
    ensures var wr := w.writes[n];
      Next(cfg, w, RunWrite(n))
      == w.(tiers := w.tiers[wr.tier := Written(w.tiers[wr.tier], wr, w.now)], writes := Without(w.writes, n))
  {
    hide Written, Without;
  }

  lemma TickIs(o: Origin, cfg: Config, w: World, to: nat)
    requires WellFormed(cfg, w) && w.now <= to && to + cfg.freshnessTtl < U64_MAX
    ensures Enabled(o, cfg, w, Tick(to)) && Next(cfg, w, Tick(to)) == w.(now := to)
  {
  }

  lemma PublishIs(o: Origin, cfg: Config, w: World, key: string, version: nat)
    requires WellFormed(cfg, w)
    ensures Enabled(o, cfg, w, Publish(key, version))
    ensures Next(cfg, w, Publish(key, version)) == w.(current := w.current[key := version])
  {
  }

  /** A world stays in range with one more request in range. */
  lemma FitsWith(cfg: Config, w: World, id: nat, c: Cook)
    requires WellFormed(cfg, w) && CookInRange(c)
    ensures WellFormed(cfg, w.(cooks := w.cooks[id := c]))
  {
    hide CookInRange;
  }

  lemma FitsLike(cfg: Config, w: World, other: World)
    requires WellFormed(cfg, w) && other.cooks == w.cooks && other.now == w.now
    ensures WellFormed(cfg, other)
  {
    hide CookInRange;
  }

  //  The two versions

  /** A reply that carries nothing but a tag has no policy. */
  lemma OnlyTag(tag: string)
    ensures "cache-control" !in map["etag" := tag] && "age" !in map["etag" := tag]
    ensures Directives(map["etag" := tag]) == []
  {
    assert |"cache-control"| != |"etag"| && |"age"| != |"etag"|;
  }

  /** A single digit is neither trimmed nor longer than an octet. */
  lemma DigitReads(c: char)
    requires '0' <= c <= '9'
    ensures Trim([c]) == [c] && Octets([c]) == [c as int]
  {
    var s := [c];
    assert s[0] == c && !IsSpace(c);
    assert TrimStart(s) == s && TrimEnd(s) == s;
    hide TrimStart, TrimEnd, IsSpace;
  }

  lemma TagReads(v: nat)
    requires v < 2
    ensures Trim(TagOf(v)) == TagOf(v) && Octets(TagOf(v)) == [48 + v]
  {
    hide Trim, Octets;
    if v == 0 {
      DigitReads('0');
      assert TagOf(0) == ['0'];
    } else {
      DigitReads('1');
      assert TagOf(1) == ['1'];
    }
  }

  lemma TagHints(tag: string, now: nat)
    requires Octets(Trim(tag)) != []
    ensures FromHeaders(map["etag" := tag], now) == Some(EMPTY.(etag := Some(Octets(Trim(tag)))))
  {
    OnlyTag(tag);
    hide Octets, Trim, Directives;
  }

  lemma HeadersRead(v: nat, now: nat)
    requires v < 2
    ensures FromHeaders(map["etag" := TagOf(v)], now) == Some(HintsFor(v))
  {
    hide TagOf, FromHeaders, Trim, Octets;
    TagReads(v);
    TagHints(TagOf(v), now);
  }

  /** The hints of a version name it, and survive the token. */
  lemma HintsFit(v: nat)
    requires v < 2
    ensures HintsFor(v).InRange() && ValidatorsSafe(HintsFor(v)) && !HintsFor(v).DisallowCaching()
    ensures HintsFor(v).ToConditional() == Some(IfNoneMatch([48 + v]))
    ensures TwoVersions().names(KEY, IfNoneMatch([48 + v])) == Some(v)
  {
    var zero: seq<byte>, one: seq<byte> := [48], [49];
    assert zero[0] != one[0];
    var tag := if v == 0 then zero else one;
    assert HintsFor(v).etag == Some(tag) && tag[..Min(|tag|, 255)] == tag;
  }

  /** Asking, looking into an empty cache, and reading the headers of the current version. */
  lemma Opens(w: World, id: nat, v: nat) returns (asked: World, looked: World, ready: World)
    requires WellFormed(Settings(), w) && w.tiers == [map[]] && id !in w.cooks
    requires w.Version(KEY) == v < 2
    ensures Takes(w, Request(id, KEY, None), asked)
    ensures Takes(asked, LookUp(id), looked)
    ensures Takes(looked, Connect(id, ReplyOf(v)), ready)
    ensures ready == w.(cooks := w.cooks[id := Rendering(KEY, v, Some(HintsFor(v)))])
  {
    asked := w.(cooks := w.cooks[id := Asked(KEY, None)]);
    looked := w.(cooks := w.cooks[id := Resolving(KEY, None, None)]);
    ready := w.(cooks := w.cooks[id := Rendering(KEY, v, Some(HintsFor(v)))]);
    hide HintsFor, TwoVersions, WellFormed, Enabled, Next;
    RequestIs(TwoVersions(), Settings(), w, id, KEY);
    FitsWith(Settings(), w, id, Asked(KEY, None));
    LooksInVain(asked, id, looked);
    FitsWith(Settings(), w, id, Resolving(KEY, None, None));
    ReadsHeaders(looked, id, v, ready);
  }

  lemma LooksInVain(w: World, id: nat, next: World)
    requires WellFormed(Settings(), w) && w.tiers == [map[]] && id in w.cooks && w.cooks[id] == Asked(KEY, None)
    requires next == w.(cooks := w.cooks[id := Resolving(KEY, None, None)])
    ensures Takes(w, LookUp(id), next)
  {
    LookUpIs(TwoVersions(), Settings(), w, id);
    assert Answer(w.tiers, KEY, false, 0, w.now) == None;
    assert AfterGet(w.tiers, KEY, false, 0, w.now) == w.tiers;
    assert Backfill(w.tiers, KEY, false, 0, w.now) == [];
    hide Answer, AfterGet, Backfill, TwoVersions, WellFormed, Enabled, Next;
    assert LookedUp(Settings(), w, id, KEY, None) == next;
  }

  lemma ReadsHeaders(w: World, id: nat, v: nat, next: World)
    requires WellFormed(Settings(), w) && w.Version(KEY) == v < 2
    requires id in w.cooks && w.cooks[id] == Resolving(KEY, None, None)
    requires next == w.(cooks := w.cooks[id := Rendering(KEY, v, Some(HintsFor(v)))])
    ensures Takes(w, Connect(id, ReplyOf(v)), next)
  {
    HeadersRead(v, w.now);
    HintsFit(v);
    hide ValidatorsSafe;
    assert HonestContent(TwoVersions(), KEY, v, map["etag" := TagOf(v)], w.now);
    hide HintsFor, TwoVersions, FromHeaders, HonestContent, WellFormed, Enabled, Next;
    ConnectIs(TwoVersions(), Settings(), w, id, ReplyOf(v));
  }

  //  The stored entry

  function StoredToken(): string {
    Token(HintsFor(1), 5, 1000)
  }

  function StoredEntry(): CacheEntry {
    NewEntry(WithToken(OLD, StoredToken()), 0, 1100, 0, 1000)
  }

  lemma StoredTokenReads()
    ensures FromToken(StoredToken()) == Some(HintsFor(1).(expiresAt := Some(1005)))
    ensures StoredToken() != ""
    ensures FreshnessDeadline(StoredToken()) == 1005
  {
    var h := HintsFor(1);
    HintsFit(1);
    assert FromToken("").None?;
    assert h.expiresAt.None? && h.staleWhileRevalidate.None? && h.maxAge.None? && !h.noCache;
    assert Epoch(h, 5, 1000) == 1005;
    hide FromToken, Token, Epoch;
    TokenRoundTrip(h, 5, 1000);
  }

  lemma StoredEntryFits()
    ensures StoredEntry() == CacheEntry(WithToken(OLD, StoredToken()), 1005, 1100, 0, 1000, 0)
    ensures OwnHints(Some(StoredEntry())) == Some(HintsFor(1).(expiresAt := Some(1005)))
  {
    StoredTokenReads();
    hide FromToken, Token, FreshnessDeadline;
  }

  //  The run, step by step.  Request 0 leads.

  function Start(): World {
    World(1000, map[], [map[]], [], map[], [], map[])
  }

  /** Request 0 has read version 0 and handed over; the higher tier has fetched version 0. */
  function Fetched0(): World {
    Start().(cooks := map[0 := Awaiting(KEY, 0, Some(HintsFor(0)), 0)],
             flights := [Flight(KEY, Some(Fetched(0, OLD)))], leading := map[KEY := 0])
  }

  lemma Leads0(w: World) returns (waiting: World)
    requires w == Start().(cooks := map[0 := Rendering(KEY, 0, Some(HintsFor(0)))])
    ensures Takes(w, HandOver(0, false), waiting)
    ensures Takes(waiting, RemoteFetch(0, OLD), Fetched0())
  {
    waiting := Start().(cooks := map[0 := Awaiting(KEY, 0, Some(HintsFor(0)), 0)],
                        flights := [Flight(KEY, None)], leading := map[KEY := 0]);
    HintsFit(0);
    assert WellFormed(Settings(), w) && WellFormed(Settings(), waiting);
    assert TwoVersions().depicts(KEY, 0, OLD.thumbnail);
    hide HintsFor, WellFormed, Enabled, Next, TwoVersions, Settings;
    HandOverIs(TwoVersions(), Settings(), w, 0);
    assert HandedOver(w, 0, w.cooks[0], false) == waiting;
    FetchIs(TwoVersions(), Settings(), waiting, 0, OLD);
  }

  //  Request 1 joins.

  function Published1(): World {
    Fetched0().(current := map[KEY := 1])
  }

  lemma Publishes1()
    ensures Takes(Fetched0(), Publish(KEY, 1), Published1())
  {
    HintsFit(0);
    assert WellFormed(Settings(), Fetched0());
    hide HintsFor, WellFormed, Enabled, Next, TwoVersions, Settings;
    PublishIs(TwoVersions(), Settings(), Fetched0(), KEY, 1);
  }

  /** Request 1 has read version 1, joined, and stored the picture of version 0. */
  function Stored1(): World {
    Published1().(cooks := Published1().cooks[1 := Done(KEY, Rendered(OLD.thumbnail))], leading := map[],
                  tiers := [map[KEY := StoredEntry()]])
  }

  lemma Joins1(w: World) returns (waiting: World, landed: World, written: World)
    requires w == Published1().(cooks := Published1().cooks[1 := Rendering(KEY, 1, Some(HintsFor(1)))])
    ensures Takes(w, HandOver(1, false), waiting)
    ensures Takes(waiting, Land(0), landed)
    ensures Takes(landed, Deliver(1, 0), written)
    ensures Takes(written, RunWrite(0), Stored1())
  {
    hide HintsFor, StoredEntry, WaitingWrite, Takes, WellFormed, Settings;
    waiting := w.(cooks := w.cooks[1 := Awaiting(KEY, 1, Some(HintsFor(1)), 0)]);
    landed := waiting.(leading := map[]);
    written := landed.(cooks := landed.cooks[1 := Done(KEY, Rendered(OLD.thumbnail))], writes := [WaitingWrite()]);
    JoinsAndLands(w, waiting, landed);
    JoinedFits(waiting, landed, written);
    assert landed.flights == [Flight(KEY, Some(Fetched(0, OLD)))] && landed.now == 1000 && landed.tiers == [map[]];
    assert Stored1() == written.(tiers := [map[KEY := StoredEntry()]], writes := []);
    hide Stored1, Published1;
    Delivers(landed, written);
    Writes(written);
  }

  lemma JoinedFits(waiting: World, landed: World, written: World)
    requires WellFormed(Settings(), waiting) && landed == waiting.(leading := map[])
    requires written == landed.(cooks := landed.cooks[1 := Done(KEY, Rendered(OLD.thumbnail))], writes := [WaitingWrite()])
    ensures WellFormed(Settings(), landed) && WellFormed(Settings(), written)
  {
    hide WellFormed, WaitingWrite, Settings;
    FitsLike(Settings(), waiting, landed);
    FitsWith(Settings(), landed, 1, Done(KEY, Rendered(OLD.thumbnail)));
    FitsLike(Settings(), landed.(cooks := landed.cooks[1 := Done(KEY, Rendered(OLD.thumbnail))]), written);
  }

  lemma JoinsAndLands(w: World, waiting: World, landed: World)
    requires w == Published1().(cooks := Published1().cooks[1 := Rendering(KEY, 1, Some(HintsFor(1)))])
    requires waiting == w.(cooks := w.cooks[1 := Awaiting(KEY, 1, Some(HintsFor(1)), 0)])
    requires landed == waiting.(leading := map[])
    ensures Takes(w, HandOver(1, false), waiting) && Takes(waiting, Land(0), landed)
    ensures WellFormed(Settings(), waiting)
  {
    HintsFit(0);
    HintsFit(1);
    assert WellFormed(Settings(), w) && WellFormed(Settings(), waiting);
    hide HintsFor, WellFormed, Enabled, Next, TwoVersions, Settings;
    HandOverIs(TwoVersions(), Settings(), w, 1);
    assert waiting.leading - {KEY} == map[];
    LandIs(TwoVersions(), Settings(), waiting, 0);
  }

  function WaitingWrite(): DeferredWrite {
    WritePut(0, KEY, WithToken(OLD, StoredToken()), 0, 1100, 0)
  }

  lemma ProducesOld(w: World)
    requires w.now == 1000 && |w.tiers| == 1 && w.writes == []
    ensures HintsFor(1).InRange()
    ensures Produced(Settings(), w, 1, KEY, Some(HintsFor(1)), OLD, 0)
         == w.(cooks := w.cooks[1 := Done(KEY, Rendered(OLD.thumbnail))], writes := [WaitingWrite()])
  {
    HintsFit(1);
    StoredTokenReads();
    assert HintsToken(Some(HintsFor(1)), 5, 1000) == StoredToken();
    assert RetentionDeadline(1000, Some(HintsFor(1)), 100, 5, 1000) == 1100;
    hide HintsFor, StoredToken, HintsToken, RetentionDeadline;
    assert Produced(Settings(), w, 1, KEY, Some(HintsFor(1)), OLD, 0).writes == [WaitingWrite()];
  }

  lemma Delivers(w: World, next: World)
    requires WellFormed(Settings(), w) && w.now == 1000 && |w.tiers| == 1 && w.writes == []
    requires 1 in w.cooks && w.cooks[1] == Awaiting(KEY, 1, Some(HintsFor(1)), 0)
    requires w.flights == [Flight(KEY, Some(Fetched(0, OLD)))] && w.leading == map[]
    requires next == w.(cooks := w.cooks[1 := Done(KEY, Rendered(OLD.thumbnail))], writes := [WaitingWrite()])
    ensures Takes(w, Deliver(1, 0), next)
  {
    ProducesOld(w);
    hide HintsFor, WaitingWrite, WellFormed, Enabled, Next, Produced, TwoVersions;
    DeliverIs(TwoVersions(), Settings(), w, 1, 0);
  }

  lemma PutsEntry()
    ensures Written(map[], WaitingWrite(), 1000) == map[KEY := StoredEntry()]
  {
    StoredEntryFits();
    hide FromToken, StoredToken, FreshnessDeadline;
  }

  lemma Writes(w: World)
    requires WellFormed(Settings(), w) && w.now == 1000 && w.tiers == [map[]] && w.writes == [WaitingWrite()]
    ensures Takes(w, RunWrite(0), w.(tiers := [map[KEY := StoredEntry()]], writes := []))
  {
    PutsEntry();
    assert WaitingWrite().tier == 0;
    hide WaitingWrite, StoredEntry, Written, WellFormed, Enabled, Next, TwoVersions, Settings;
    RunWriteIs(TwoVersions(), Settings(), w, 0);
    assert Without(w.writes, 0) == [];
    assert w.tiers[0 := map[KEY := StoredEntry()]] == [map[KEY := StoredEntry()]];
  }

  //  Request 2 is answered by a 304.

  function Touched(): CacheEntry {
    StoredEntry().(lastAccessed := 1010)
  }

  function Ticked(): World {
    Stored1().(now := 1010)
  }

  lemma TickedFits()
    ensures WellFormed(Settings(), Stored1()) && WellFormed(Settings(), Ticked())
  {
    HintsFit(0);
    hide HintsFor, StoredEntry;
  }

  lemma Asks2() returns (asked: World, looked: World)
    ensures Takes(Stored1(), Tick(1010), Ticked())
    ensures Takes(Ticked(), Request(2, KEY, None), asked)
    ensures Takes(asked, LookUp(2), looked)
    ensures looked == Ticked().(tiers := [map[KEY := Touched()]],
                                cooks := Ticked().cooks[2 := Resolving(KEY, None, Some(Touched()))])
    ensures WellFormed(Settings(), looked)
  {
    hide HintsFor, StoredEntry, Touched, WellFormed, Enabled, Next, TwoVersions;
    TickedFits();
    asked := Ticked().(cooks := Ticked().cooks[2 := Asked(KEY, None)]);
    looked := Ticked().(tiers := [map[KEY := Touched()]],
                        cooks := Ticked().cooks[2 := Resolving(KEY, None, Some(Touched()))]);
    assert Ticked().now == 1010 && Ticked().tiers == [map[KEY := StoredEntry()]] && 2 !in Ticked().cooks;
    assert Ticked() == Stored1().(now := 1010) && Stored1().now == 1000 && Settings().freshnessTtl == 5;
    hide Stored1, Ticked, Settings;
    TickIs(TwoVersions(), Settings(), Stored1(), 1010);
    RequestIs(TwoVersions(), Settings(), Ticked(), 2, KEY);
    FitsWith(Settings(), Ticked(), 2, Asked(KEY, None));
    FitsWith(Settings(), Ticked(), 2, Resolving(KEY, None, Some(Touched())));
    FitsLike(Settings(), Ticked().(cooks := Ticked().cooks[2 := Resolving(KEY, None, Some(Touched()))]), looked);
    FindsStored(asked, looked);
  }

  lemma FindsIn(tiers: seq<Entries>)
    requires tiers == [map[KEY := StoredEntry()]]
    ensures Answer(tiers, KEY, false, 0, 1010) == Some(Touched())
    ensures AfterGet(tiers, KEY, false, 0, 1010) == [map[KEY := Touched()]]
    ensures Backfill(tiers, KEY, false, 0, 1010) == []
    ensures !Touched().IsFresh(1010)
  {
    StoredEntryFits();
    hide StoredToken, StoredEntry;
    var c: Entries := map[KEY := StoredEntry()];
    assert c[KEY].Access(1010, false, 0) == (Touched(), true);
    assert c[KEY := Touched()] == map[KEY := Touched()];
    assert Looked(c, KEY, false, 0, 1010) == (map[KEY := Touched()], Some(Touched()));
    hide Looked;
    FirstHitIs(tiers, KEY, false, 1010, 0);
  }

  lemma FindsStored(w: World, next: World)
    requires WellFormed(Settings(), w) && w.now == 1010 && w.tiers == [map[KEY := StoredEntry()]]
    requires 2 in w.cooks && w.cooks[2] == Asked(KEY, None)
    requires next == w.(tiers := [map[KEY := Touched()]], cooks := w.cooks[2 := Resolving(KEY, None, Some(Touched()))])
    ensures Takes(w, LookUp(2), next)
  {
    FindsIn(w.tiers);
    hide StoredEntry, Touched, Answer, AfterGet, Backfill, WellFormed, Enabled, Next, TwoVersions;
    LookUpIs(TwoVersions(), Settings(), w, 2);
  }

  lemma SentIsStored()
    ensures OwnHints(Some(Touched())).Some? && Sent(None, Some(Touched())) == Some(IfNoneMatch([49]))
    ensures HonestNotModified(TwoVersions(), KEY, 1, Sent(None, Some(Touched())), map[])
  {
    StoredEntryFits();
    HintsFit(1);
    hide FromToken, StoredToken, StoredEntry;
    assert OwnHints(Some(Touched())) == OwnHints(Some(StoredEntry()));
  }

  lemma Validates2(w: World) returns (answered: World)
    requires WellFormed(Settings(), w) && w.Version(KEY) == 1
    requires 2 in w.cooks && w.cooks[2] == Resolving(KEY, None, Some(Touched()))
    ensures Takes(w, Connect(2, NotModified(map[])), answered)
    ensures 2 in answered.cooks && answered.cooks[2] == Done(KEY, StoredValidated(OLD.thumbnail, IfNoneMatch([49])))
    ensures answered.Version(KEY) == 1
  {
    SentIsStored();
    assert Touched().media.thumbnail == OLD.thumbnail;
    hide Settings, OwnHints, SentHints, Sent, HonestNotModified, Touched, TwoVersions, WellFormed, Enabled, Next,
         Freshness.Revalidated, Renewed;
    ConnectIs(TwoVersions(), Settings(), w, 2, NotModified(map[]));
    answered := Connected(Settings(), w, 2, w.cooks[2], NotModified(map[]));
  }

  //  The whole run

  lemma StoredIsIncoherent()
    ensures !Coherent(TwoVersions(), KEY, StoredEntry().media)
  {
    StoredEntryFits();
    StoredTokenReads();
    HintsFit(1);
    var m := StoredEntry().media;
    forall u: nat ensures !OfVersion(TwoVersions(), KEY, m, u) {
      assert TwoVersions().depicts(KEY, u, m.thumbnail) ==> u == 0;
      assert TokenNames(TwoVersions(), KEY, StoredToken(), u) ==> u == 1 by {
        hide FromToken, StoredToken;
        assert FromToken(StoredToken()).value.ToConditional() == Some(IfNoneMatch([49]));
      }
    }
  }

  ghost predicate Path(worlds: seq<World>, steps: seq<Step>) {
    |worlds| == |steps| + 1 && forall i :: 0 <= i < |steps| ==> Takes(worlds[i], steps[i], worlds[i + 1])
  }

  lemma Path3(a: World, s: Step, b: World, t: Step, c: World, u: Step, d: World)
    requires Takes(a, s, b) && Takes(b, t, c) && Takes(c, u, d)
    ensures Path([a, b, c, d], [s, t, u])
  {
    hide Takes;
  }

  lemma Path4(a: World, s: Step, b: World, t: Step, c: World, u: Step, d: World, v: Step, e: World)
    requires Takes(a, s, b) && Takes(b, t, c) && Takes(c, u, d) && Takes(d, v, e)
    ensures Path([a, b, c, d, e], [s, t, u, v])
  {
    hide Takes;
  }

  lemma Joined(worlds: seq<World>, steps: seq<Step>, more: seq<World>, moreSteps: seq<Step>)
    returns (all: seq<World>, allSteps: seq<Step>)
    requires Path(worlds, steps) && Path(more, moreSteps) && worlds[|steps|] == more[0]
    ensures Path(all, allSteps) && |all| == |allSteps| + 1 == |steps| + |moreSteps| + 1
    ensures all[..|steps| + 1] == worlds && all[|all| - 1] == more[|more| - 1]
  {
    hide Takes;
    all, allSteps := worlds + more[1..], steps + moreSteps;
  }

  lemma PathIsRun(worlds: seq<World>, steps: seq<Step>)
    requires Path(worlds, steps)
    ensures IsRun(TwoVersions(), Settings(), worlds, steps)
  {
    hide WellFormed, Enabled, Next;
    forall i | 0 <= i < |steps|
      ensures && WellFormed(Settings(), worlds[i]) && Enabled(TwoVersions(), Settings(), worlds[i], steps[i])
              && worlds[i + 1] == Next(Settings(), worlds[i], steps[i])
    {
      assert Takes(worlds[i], steps[i], worlds[i + 1]);
    }
  }

  /** From nothing to the publication of version 1. */
  lemma FirstHalf() returns (worlds: seq<World>, steps: seq<Step>)
    ensures Path(worlds, steps) && |steps| == 6 && worlds[0] == Start() && worlds[6] == Published1()
  {
    var w1, w2, w3 := Opens(Start(), 0, 0);
    assert w3 == Start().(cooks := map[0 := Rendering(KEY, 0, Some(HintsFor(0)))]);
    var w4 := Leads0(w3);
    Publishes1();
    hide Takes, Path, Start, Fetched0, Published1, HintsFor, ReplyOf;
    Path3(Start(), Request(0, KEY, None), w1, LookUp(0), w2, Connect(0, ReplyOf(0)), w3);
    Path3(w3, HandOver(0, false), w4, RemoteFetch(0, OLD), Fetched0(), Publish(KEY, 1), Published1());
    worlds, steps := Joined([Start(), w1, w2, w3], [Request(0, KEY, None), LookUp(0), Connect(0, ReplyOf(0))],
                            [w3, w4, Fetched0(), Published1()], [HandOver(0, false), RemoteFetch(0, OLD), Publish(KEY, 1)]);
    assert worlds[0] == worlds[..4][0];
  }

  /** On to the entry that mixes versions. */
  lemma SecondHalf() returns (worlds: seq<World>, steps: seq<Step>)
    ensures Path(worlds, steps) && |steps| == 7 && worlds[0] == Published1() && worlds[7] == Stored1()
  {
    hide HintsFor, StoredEntry, WellFormed, Takes, Path, Settings, TwoVersions, ReplyOf;
    PublishedFits();
    assert Published1().tiers == [map[]] && Published1().Version(KEY) == 1 && 1 !in Published1().cooks;
    var w1, w2, w3 := Opens(Published1(), 1, 1);
    var w4, w5, w6 := Joins1(w3);
    hide Stored1, Published1;
    Path3(Published1(), Request(1, KEY, None), w1, LookUp(1), w2, Connect(1, ReplyOf(1)), w3);
    Path4(w3, HandOver(1, false), w4, Land(0), w5, Deliver(1, 0), w6, RunWrite(0), Stored1());
    worlds, steps := Joined([Published1(), w1, w2, w3], [Request(1, KEY, None), LookUp(1), Connect(1, ReplyOf(1))],
                            [w3, w4, w5, w6, Stored1()], [HandOver(1, false), Land(0), Deliver(1, 0), RunWrite(0)]);
    assert worlds[0] == worlds[..4][0];
  }

  lemma PublishedFits()
    ensures WellFormed(Settings(), Published1())
  {
    HintsFit(0);
    hide HintsFor;
  }

  /** And to the 304 that releases it. */
  lemma LastPart() returns (worlds: seq<World>, steps: seq<Step>)
    ensures Path(worlds, steps) && |steps| == 4 && worlds[0] == Stored1()
    ensures worlds[4].Version(KEY) == 1 && 2 in worlds[4].cooks
    ensures worlds[4].cooks[2] == Done(KEY, StoredValidated(OLD.thumbnail, IfNoneMatch([49])))
  {
    hide StoredEntry, Touched, HintsFor, WellFormed, Takes, Path, Settings, TwoVersions;
    var w1, w2 := Asks2();
    assert w2.Version(KEY) == 1 && 2 in w2.cooks && w2.cooks[2] == Resolving(KEY, None, Some(Touched()));
    var w3 := Validates2(w2);
    hide Stored1, Ticked;
    Path4(Stored1(), Tick(1010), Ticked(), Request(2, KEY, None), w1, LookUp(2), w2, Connect(2, NotModified(map[])), w3);
    worlds, steps := [Stored1(), Ticked(), w1, w2, w3],
                     [Tick(1010), Request(2, KEY, None), LookUp(2), Connect(2, NotModified(map[]))];
  }

  /**
   In this run of an honest origin, what is stored pairs the picture of
   version 0 with the validator of version 1, and a 304 then releases that
   picture while the origin serves version 1.
   */
  lemma JoinerMixesVersions() returns (worlds: seq<World>, steps: seq<Step>)
    ensures IsRun(TwoVersions(), Settings(), worlds, steps) && Initial(Settings(), worlds[0])
    ensures |steps| == 17 && worlds[13].tiers == [map[KEY := StoredEntry()]]
    ensures !Coherent(TwoVersions(), KEY, StoredEntry().media)
    ensures worlds[17].Version(KEY) == 1 && 2 in worlds[17].cooks
    ensures worlds[17].cooks[2] == Done(KEY, StoredValidated(OLD.thumbnail, IfNoneMatch([49])))
    ensures !TwoVersions().depicts(KEY, 1, OLD.thumbnail)
  {
    StoredIsIncoherent();
    assert Initial(Settings(), Start()) && !TwoVersions().depicts(KEY, 1, OLD.thumbnail);
    hide Path, Coherent, StoredEntry, Published1, TwoVersions, Settings, IsRun, Initial;
    assert Stored1().tiers == [map[KEY := StoredEntry()]];
    hide Stored1;
    var first, firstSteps := FirstHalf();
    var second, secondSteps := SecondHalf();
    var last, lastSteps := LastPart();
    PathLengths(first, firstSteps);
    PathLengths(second, secondSteps);
    PathLengths(last, lastSteps);
    var front, frontSteps := Joined(first, firstSteps, second, secondSteps);
    PathLengths(front, frontSteps);
    worlds, steps := Joined(front, frontSteps, last, lastSteps);
    PathLengths(worlds, steps);
    assert worlds[0] == worlds[..14][0] == front[0] == front[..7][0] == first[0];
    assert worlds[13] == worlds[..14][13] == front[13];
    PathIsRun(worlds, steps);
  }

  lemma PathLengths(worlds: seq<World>, steps: seq<Step>)
    requires Path(worlds, steps)
    ensures |worlds| == |steps| + 1
  {
    hide Takes;
  }
}
