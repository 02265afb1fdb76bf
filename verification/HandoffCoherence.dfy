/**
 When a handoff keeps the cache coherent.  The higher tier connects to the
 source again, so its picture may be of another version than the hints it is
 stored with; a request that joins a flight may even get a picture older than
 its own headers.
 */
module HandoffCoherence {
  import opened Prelude
  import opened CacheHints
  import opened TokenLaws
  import opened Freshness
  import opened CacheEntry
  import opened MemoryCache
  import opened ChainCache
  import opened Coherence
  import opened CoherenceLaws

  /** What a delivery stores. */
  function Delivered(cfg: Config, w: World, c: Cook): Media
    requires Landed(w, c) && (c.hints.Some? ==> c.hints.value.InRange())
  {
    WithToken(w.flights[c.flight].fetched.value.picture, HintsToken(c.hints, cfg.freshnessTtl, w.now))
  }

  /** A picture shows one version only. */
  ghost predicate ShowsOneVersion(o: Origin, key: string, bytes: seq<byte>) {
    forall u: nat, v: nat :: o.depicts(key, u, bytes) && o.depicts(key, v, bytes) ==> u == v
  }

  /** The token's validator names the version its hints were read from, and no other. */
  lemma TokenNamesOnly(o: Origin, key: string, v: nat, u: nat, hints: Option<CacheHints>, ttl: nat, now: nat)
    requires HintsOf(o, key, v, hints) && Validated(hints) && hints.value.InRange()
    requires 0 < now && now + ttl < U64_MAX
    requires TokenNames(o, key, HintsToken(hints, ttl, now), u)
    ensures u == v
  {
    ConditionalSurvivesIff(hints.value, ttl, now);
  }

  /**
   A delivered picture is stored coherently exactly when it was fetched at the
   version the hints name, or the hints name none.
   */
  lemma DeliveryCoherentIff(o: Origin, cfg: Config, w: World, id: nat, cost: nat)
    requires Sound(o, cfg, w) && Enabled(o, cfg, w, Deliver(id, cost))
    requires ShowsOneVersion(o, w.cooks[id].key, w.flights[w.cooks[id].flight].fetched.value.picture.thumbnail)
    ensures w.cooks[id].hints.Some? ==> w.cooks[id].hints.value.InRange()
    ensures Coherent(o, w.cooks[id].key, Delivered(cfg, w, w.cooks[id])) <==> Aligned(w, Deliver(id, cost))
  {
    var c := w.cooks[id];
    assert CookInRange(c) && SoundCook(o, w.flights, c) && SoundFlight(o, w.flights[c.flight]);
    var got := w.flights[c.flight].fetched.value;
    var m := Delivered(cfg, w, c);
    hide HintsOf, HintsToken, TokenNames, Validated, Sound, Enabled;
    if Aligned(w, Deliver(id, cost)) {
      TokenOfHints(o, c.key, c.version, c.hints, cfg.freshnessTtl, w.now);
      assert OfVersion(o, c.key, m, got.version);
    } else if Coherent(o, c.key, m) {
      var u: nat :| OfVersion(o, c.key, m, u);
      assert u == got.version;
      TokenNamesOnly(o, c.key, c.version, u, c.hints, cfg.freshnessTtl, w.now);
    }
  }

  //  The guard over a run

  /** At step `c` request `id` read the headers of version `v`. */
  ghost predicate ConnectedAt(worlds: seq<World>, steps: seq<Step>, c: nat, id: nat, key: string, v: nat)
    requires |worlds| == |steps| + 1
  {
    && c < |steps| && steps[c].Connect? && steps[c].id == id && steps[c].reply.Content?
    && worlds[c].Version(key) == v
  }

  /** At step `f` the higher tier fetched version `v` for flight `n`. */
  ghost predicate FetchedAt(worlds: seq<World>, steps: seq<Step>, f: nat, n: nat, key: string, v: nat)
    requires |worlds| == |steps| + 1
  {
    f < |steps| && steps[f].RemoteFetch? && steps[f].flight == n && worlds[f].Version(key) == v
  }

  /** The origin publishes nothing for `key` from step `a` up to step `b`. */
  predicate Quiet(steps: seq<Step>, a: nat, b: nat, key: string) {
    forall j :: a <= j < b && j < |steps| ==> !(steps[j].Publish? && steps[j].key == key)
  }

  /**
   Between the headers a request has read and the remote fetch it is served
   from, whichever came first, the origin publishes nothing for its key.
   */
  ghost predicate Undisturbed(worlds: seq<World>, steps: seq<Step>)
    requires |worlds| == |steps| + 1
  {
    forall i, c: nat, f: nat ::
      && 0 <= i < |steps| && c < i && f < i && steps[i].Deliver? && steps[i].id in worlds[i].cooks
      && worlds[i].cooks[steps[i].id].Awaiting?
      && steps[c].Connect? && steps[c].id == steps[i].id && steps[c].reply.Content?
      && steps[f].RemoteFetch? && steps[f].flight == worlds[i].cooks[steps[i].id].flight ==>
        Quiet(steps, Min(c, f), Max(c, f), worlds[i].cooks[steps[i].id].key)
  }

  /** One step of a run. */
  lemma RunStep(o: Origin, cfg: Config, worlds: seq<World>, steps: seq<Step>, i: nat)
    requires IsRun(o, cfg, worlds, steps) && i < |steps|
    ensures WellFormed(cfg, worlds[i]) && Enabled(o, cfg, worlds[i], steps[i])
    ensures worlds[i + 1] == Next(cfg, worlds[i], steps[i])
  {
    hide WellFormed, Enabled, Next;
  }

  lemma StepVersion(o: Origin, cfg: Config, w: World, step: Step, key: string)
    requires WellFormed(cfg, w) && Enabled(o, cfg, w, step)
    requires !(step.Publish? && step.key == key)
    ensures Next(cfg, w, step).Version(key) == w.Version(key)
  {
    hide HonestReply, OwnHints, Answer, AfterGet, Backfill, HintsToken, RetentionDeadline, Written;
  }

  /** While nothing is published the version stays. */
  lemma {:induction false} VersionKept(o: Origin, cfg: Config, worlds: seq<World>, steps: seq<Step>, a: nat, b: nat,
                                       key: string)
    requires IsRun(o, cfg, worlds, steps) && a <= b <= |steps|
    requires Quiet(steps, a, b, key)
    ensures worlds[a].Version(key) == worlds[b].Version(key)
    decreases b
  {
    if a < b {
      RunStep(o, cfg, worlds, steps, b - 1);
      hide IsRun, Enabled, Next, WellFormed;
      VersionKept(o, cfg, worlds, steps, a, b - 1, key);
      StepVersion(o, cfg, worlds[b - 1], steps[b - 1], key);
    }
  }

  /** A lookup changes its own request only, and leaves it short of any headers. */
  lemma LookUpCook(cfg: Config, w: World, id: nat, key: string, client: Option<CacheHints>)
    ensures var next := LookedUp(cfg, w, id, key, client);
      && id in next.cooks && next.cooks == w.cooks[id := next.cooks[id]]
      && (next.cooks[id].Done? || next.cooks[id].Resolving?)
  {
    hide Answer, AfterGet, Backfill;
  }

  /** So does a response; headers with a body let the request go on with the version they describe. */
  lemma ConnectCook(cfg: Config, w: World, id: nat, c: Cook, reply: Reply)
    requires c.Resolving? && (c.client.Some? ==> c.client.value.InRange()) && w.now <= U64_MAX
    ensures var next := Connected(cfg, w, id, c, reply);
      && id in next.cooks && next.cooks == w.cooks[id := next.cooks[id]]
      && (next.cooks[id].Done?
          || (reply.Content? && next.cooks[id].Rendering? && next.cooks[id].version == w.Version(next.cooks[id].key)))
  {
    hide OwnHints, FromHeaders, Freshness.Revalidated, Renewed;
  }

  /** A request past its headers in `after`: it was so before, or this step read them. */
  lemma CookStep(o: Origin, cfg: Config, w: World, step: Step, id: nat)
    requires WellFormed(cfg, w) && Enabled(o, cfg, w, step)
    ensures var next := Next(cfg, w, step);
      id in next.cooks && (next.cooks[id].Rendering? || next.cooks[id].Awaiting?) ==>
        var d := next.cooks[id];
        || (id in w.cooks && (w.cooks[id].Rendering? || w.cooks[id].Awaiting?)
            && w.cooks[id].key == d.key && w.cooks[id].version == d.version)
        || (step.Connect? && step.id == id && step.reply.Content? && w.Version(d.key) == d.version)
  {
    hide HonestReply, LookedUp, Connected, HintsToken, RetentionDeadline, Written;
    match step
    case LookUp(k) => LookUpCook(cfg, w, k, w.cooks[k].key, w.cooks[k].client);
    case Connect(k, reply) =>
      assert CookInRange(w.cooks[k]);
      ConnectCook(cfg, w, k, w.cooks[k], reply);
    case _ =>
  }

  /** A fetched flight in `after`: it was so before, or this step fetched it. */
  lemma FlightStep(o: Origin, cfg: Config, w: World, step: Step, n: nat)
    requires WellFormed(cfg, w) && Enabled(o, cfg, w, step)
    ensures var next := Next(cfg, w, step);
      n < |next.flights| && next.flights[n].fetched.Some? ==>
        var d := next.flights[n];
        || (n < |w.flights| && w.flights[n] == d)
        || (step.RemoteFetch? && step.flight == n && w.Version(d.key) == d.fetched.value.version)
  {
    hide HonestReply, OwnHints, Answer, AfterGet, Backfill, HintsToken, RetentionDeadline, Written;
  }

  /** Where a request's version comes from. */
  lemma {:induction false} CookHistory(o: Origin, cfg: Config, worlds: seq<World>, steps: seq<Step>, i: nat, id: nat)
    requires IsRun(o, cfg, worlds, steps) && Initial(cfg, worlds[0])
    requires i <= |steps| && id in worlds[i].cooks && (worlds[i].cooks[id].Rendering? || worlds[i].cooks[id].Awaiting?)
    ensures exists c: nat :: c < i && ConnectedAt(worlds, steps, c, id, worlds[i].cooks[id].key, worlds[i].cooks[id].version)
  {
    if i > 0 {
      RunStep(o, cfg, worlds, steps, i - 1);
      hide IsRun, Initial, Enabled, Next, WellFormed;
      CookStep(o, cfg, worlds[i - 1], steps[i - 1], id);
      var d := worlds[i].cooks[id];
      if steps[i - 1].Connect? && steps[i - 1].id == id && steps[i - 1].reply.Content?
         && worlds[i - 1].Version(d.key) == d.version {
        assert ConnectedAt(worlds, steps, i - 1, id, d.key, d.version);
      } else {
        CookHistory(o, cfg, worlds, steps, i - 1, id);
        hide ConnectedAt;
        var before := worlds[i - 1].cooks[id];
        var c: nat :| c < i - 1 && ConnectedAt(worlds, steps, c, id, before.key, before.version);
        assert ConnectedAt(worlds, steps, c, id, d.key, d.version);
      }
    }
  }

  /** Where a picture comes from. */
  lemma {:induction false} FlightHistory(o: Origin, cfg: Config, worlds: seq<World>, steps: seq<Step>, i: nat, n: nat)
    requires IsRun(o, cfg, worlds, steps) && Initial(cfg, worlds[0])
    requires i <= |steps| && n < |worlds[i].flights| && worlds[i].flights[n].fetched.Some?
    ensures var d := worlds[i].flights[n];
      exists f: nat :: f < i && FetchedAt(worlds, steps, f, n, d.key, d.fetched.value.version)
  {
    if i > 0 {
      RunStep(o, cfg, worlds, steps, i - 1);
      hide IsRun, Initial, Enabled, Next, WellFormed;
      FlightStep(o, cfg, worlds[i - 1], steps[i - 1], n);
      var d := worlds[i].flights[n];
      if steps[i - 1].RemoteFetch? && steps[i - 1].flight == n && worlds[i - 1].Version(d.key) == d.fetched.value.version {
        assert FetchedAt(worlds, steps, i - 1, n, d.key, d.fetched.value.version);
      } else {
        FlightHistory(o, cfg, worlds, steps, i - 1, n);
        hide FetchedAt;
        var f: nat :| f < i - 1 && FetchedAt(worlds, steps, f, n, d.key, d.fetched.value.version);
      }
    }
  }

  /** One delivery of an undisturbed run. */
  lemma DeliveryAligned(o: Origin, cfg: Config, worlds: seq<World>, steps: seq<Step>, i: nat)
    requires IsRun(o, cfg, worlds, steps) && Initial(cfg, worlds[0]) && Undisturbed(worlds, steps)
    requires i < |steps| && steps[i].Deliver?
    ensures Aligned(worlds[i], steps[i])
  {
    var w, id := worlds[i], steps[i].id;
    if id in w.cooks && Landed(w, w.cooks[id]) {
      var cook := w.cooks[id];
      RunSound(o, cfg, worlds, steps, i);
      assert SoundCook(o, w.flights, cook);
      var n, got := cook.flight, w.flights[cook.flight].fetched.value;
      CookHistory(o, cfg, worlds, steps, i, id);
      var c: nat :| c < i && ConnectedAt(worlds, steps, c, id, cook.key, cook.version);
      FlightHistory(o, cfg, worlds, steps, i, n);
      var f: nat :| f < i && FetchedAt(worlds, steps, f, n, cook.key, got.version);
      VersionKept(o, cfg, worlds, steps, Min(c, f), Max(c, f), cook.key);
    }
  }

  /** A run in which no publication falls between headers and fetch stores coherent entries only. */
  lemma UndisturbedRunsCoherent(o: Origin, cfg: Config, worlds: seq<World>, steps: seq<Step>)
    requires IsRun(o, cfg, worlds, steps) && Initial(cfg, worlds[0]) && Undisturbed(worlds, steps)
    ensures AllAligned(worlds, steps)
    ensures forall i :: 0 <= i <= |steps| ==> Invariant(o, cfg, worlds[i])
  {
    forall i | 0 <= i < |steps| ensures Aligned(worlds[i], steps[i]) {
      if steps[i].Deliver? {
        DeliveryAligned(o, cfg, worlds, steps, i);
      }
    }
    forall i | 0 <= i <= |steps| ensures Invariant(o, cfg, worlds[i]) {
      RunKeeps(o, cfg, worlds, steps, i);
    }
  }

  /** Without a handoff tier nothing is ever delivered, and every picture comes from the response its hints came from. */
  lemma SingleConnectionRunsCoherent(o: Origin, cfg: Config, worlds: seq<World>, steps: seq<Step>)
    requires IsRun(o, cfg, worlds, steps) && Initial(cfg, worlds[0])
    requires forall i :: 0 <= i < |steps| ==> !steps[i].HandOver?
    ensures forall i :: 0 <= i <= |steps| ==> Invariant(o, cfg, worlds[i])
  {
    forall i | 0 <= i < |steps|
      ensures !(steps[i].Deliver? && steps[i].id in worlds[i].cooks && worlds[i].cooks[steps[i].id].Awaiting?)
    {
      if steps[i].Deliver? {
        NoneAwaits(o, cfg, worlds, steps, i, steps[i].id);
      }
    }
    hide IsRun, Initial, Invariant, Quiet;
    UndisturbedRunsCoherent(o, cfg, worlds, steps);
  }

  lemma AwaitingStep(o: Origin, cfg: Config, w: World, step: Step, id: nat)
    requires WellFormed(cfg, w) && Enabled(o, cfg, w, step) && !step.HandOver?
    ensures var next := Next(cfg, w, step);
      id in next.cooks && next.cooks[id].Awaiting? ==> id in w.cooks && w.cooks[id].Awaiting?
  {
    hide HonestReply, LookedUp, Connected, HintsToken, RetentionDeadline, Written;
    match step
    case LookUp(k) => LookUpCook(cfg, w, k, w.cooks[k].key, w.cooks[k].client);
    case Connect(k, reply) =>
      assert CookInRange(w.cooks[k]);
      ConnectCook(cfg, w, k, w.cooks[k], reply);
    case _ =>
  }

  lemma {:induction false} NoneAwaits(o: Origin, cfg: Config, worlds: seq<World>, steps: seq<Step>, i: nat, id: nat)
    requires IsRun(o, cfg, worlds, steps) && Initial(cfg, worlds[0]) && i <= |steps|
    requires forall i :: 0 <= i < |steps| ==> !steps[i].HandOver?
    ensures id in worlds[i].cooks ==> !worlds[i].cooks[id].Awaiting?
  {
    if i > 0 {
      RunStep(o, cfg, worlds, steps, i - 1);
      hide IsRun, Initial, Enabled, Next, WellFormed;
      NoneAwaits(o, cfg, worlds, steps, i - 1, id);
      AwaitingStep(o, cfg, worlds[i - 1], steps[i - 1], id);
    }
  }
}
