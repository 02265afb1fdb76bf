/**
 Backfill is invisible: running any of the scheduled copies, in any order and
 at any time, changes no later answer of an ordinary lookup.
 */
module BackfillLaws {
  import opened Prelude
  import opened CacheEntry
  import opened MemoryCache
  import opened ChainCache

  /** One event of a run: a lookup, or a waiting copy that runs or is dropped. */
  datatype Event = Lookup(key: string) | RunCopy(index: nat) | DropCopy(index: nat)

  datatype Timed = At(event: Event, now: nat)

  /** A chain with its waiting copies and the answers it has given so far. */
  datatype Chain = Chain(tiers: seq<Entries>, waiting: seq<Promotion>, answers: seq<Option<CacheEntry>>)

  /** The chain as it is. */
  function Step(c: Chain, t: Timed): Chain {
    match t.event
    case Lookup(key) =>
      Chain(AfterGet(c.tiers, key, false, 0, t.now),
            c.waiting + Backfill(c.tiers, key, false, 0, t.now),
            c.answers + [Answer(c.tiers, key, false, 0, t.now)])
    case RunCopy(n) =>
      if n < |c.waiting| && c.waiting[n].tier < |c.tiers| then
        var p := c.waiting[n];
        c.(tiers := c.tiers[p.tier := Promoted(c.tiers[p.tier], p.key, p.entry, t.now)],
           waiting := Without(c.waiting, n))
      else c
    case DropCopy(n) =>
      if n < |c.waiting| then c.(waiting := Without(c.waiting, n)) else c
  }

  /** The same chain if nothing were ever copied. */
  function PlainStep(c: Chain, t: Timed): Chain {
    match t.event
    case Lookup(key) =>
      Chain(AfterGet(c.tiers, key, false, 0, t.now), [], c.answers + [Answer(c.tiers, key, false, 0, t.now)])
    case _ => c
  }

  function Run(c: Chain, ts: seq<Timed>): Chain
    decreases |ts|
  {
    if ts == [] then c else Run(Step(c, ts[0]), ts[1..])
  }

  function PlainRun(c: Chain, ts: seq<Timed>): Chain
    decreases |ts|
  {
    if ts == [] then c else PlainRun(PlainStep(c, ts[0]), ts[1..])
  }

  /** The clock does not run backwards. */
  predicate Ordered(from: nat, ts: seq<Timed>) {
    && (ts != [] ==> from <= ts[0].now)
    && forall i :: 0 < i < |ts| ==> ts[i - 1].now <= ts[i].now
  }

  /** Equal but for the source URL and the time of the last access. */
  predicate Same(a: CacheEntry, b: CacheEntry) {
    a.ClearUrl().(lastAccessed := 0) == b.ClearUrl().(lastAccessed := 0)
  }

  predicate SameAnswer(a: Option<CacheEntry>, b: Option<CacheEntry>) {
    if a.Some? then b.Some? && Same(a.value, b.value) else b.None?
  }

  /**
   `e` is a copy, fit for a tier in front of `tier`, of what the plain tiers
   answer for `key`: some tier behind `tier` holds it, and no tier before that
   one hits any more.
   */
  ghost predicate CopyOf(plain: seq<Entries>, tier: nat, key: string, e: CacheEntry, now: nat) {
    exists h :: tier < h < |plain| && key in plain[h] && Same(e, plain[h][key])
             && forall j :: 0 <= j < h ==> !LiveIn(plain[j], key, now)
  }

  /** A live entry is the plain tier's own entry, or a copy from further back. */
  ghost predicate Explained(plain: seq<Entries>, tier: nat, key: string, e: CacheEntry, now: nat)
    requires tier < |plain|
  {
    (key in plain[tier] && Same(e, plain[tier][key])) || CopyOf(plain, tier, key, e, now)
  }

  /** How the chain with copies stands to the plain chain. */
  ghost predicate Mirrors(tiers: seq<Entries>, plain: seq<Entries>, waiting: seq<Promotion>, now: nat) {
    && |tiers| == |plain|
    && (forall i, k :: 0 <= i < |plain| && LiveIn(plain[i], k, now) ==> k in tiers[i] && Same(tiers[i][k], plain[i][k]))
    && (forall i, k :: 0 <= i < |tiers| && LiveIn(tiers[i], k, now) ==> Explained(plain, i, k, tiers[i][k], now))
    && (forall p :: p in waiting && p.entry.Live(now) ==>
          p.tier < |plain| && CopyOf(plain, p.tier, p.key, p.entry, now))
  }

  /** A copy stays a copy as time passes. */
  lemma CopyAges(plain: seq<Entries>, tier: nat, key: string, e: CacheEntry, now: nat, later: nat)
    requires CopyOf(plain, tier, key, e, now) && now <= later
    ensures CopyOf(plain, tier, key, e, later)
  {
    var h :| tier < h < |plain| && key in plain[h] && Same(e, plain[h][key])
             && forall j :: 0 <= j < h ==> !LiveIn(plain[j], key, now);
    assert forall j :: 0 <= j < h ==> !LiveIn(plain[j], key, later);
  }

  lemma MirrorsAges(tiers: seq<Entries>, plain: seq<Entries>, waiting: seq<Promotion>, now: nat, later: nat)
    requires Mirrors(tiers, plain, waiting, now) && now <= later
    ensures Mirrors(tiers, plain, waiting, later)
  {
    forall i, k | 0 <= i < |tiers| && LiveIn(tiers[i], k, later)
      ensures Explained(plain, i, k, tiers[i][k], later)
    {
      assert LiveIn(tiers[i], k, now);
      if CopyOf(plain, i, k, tiers[i][k], now) {
        CopyAges(plain, i, k, tiers[i][k], now, later);
      }
    }
    forall p | p in waiting && p.entry.Live(later)
      ensures p.tier < |plain| && CopyOf(plain, p.tier, p.key, p.entry, later)
    {
      CopyAges(plain, p.tier, p.key, p.entry, now, later);
    }
  }

  /** Mirroring chains give the same answers. */
  lemma {:induction false} SameAnswers(tiers: seq<Entries>, plain: seq<Entries>, waiting: seq<Promotion>,
                                       key: string, now: nat)
    requires Mirrors(tiers, plain, waiting, now)
    ensures SameAnswer(Answer(tiers, key, false, 0, now), Answer(plain, key, false, 0, now))
    ensures Answer(tiers, key, false, 0, now).Some? ==>
              FirstHit(tiers, key, false, now) <= FirstHit(plain, key, false, now) < |plain|
  {
    var h := FirstHit(tiers, key, false, now);
    forall j | 0 <= j < h ensures !LiveIn(plain[j], key, now) {
      assert !Hits(tiers[j], key, false, now);
    }
    if h < |tiers| {
      var e := tiers[h][key];
      assert LiveIn(tiers[h], key, now);
      if key in plain[h] && Same(e, plain[h][key]) {
        FirstHitIs(plain, key, false, now, h);
      } else {
        var g :| h < g < |plain| && key in plain[g] && Same(e, plain[g][key])
                 && forall j :: 0 <= j < g ==> !LiveIn(plain[j], key, now);
        FirstHitIs(plain, key, false, now, g);
      }
    } else {
      FirstHitIs(plain, key, false, now, |plain|);
    }
  }

  /** A lookup changes nothing about a tier but access times and dead entries. */
  lemma LookupKeeps(c: Entries, key: string, k: string, now: nat)
    ensures var after := Looked(c, key, false, 0, now).0;
      && (k in after ==> k in c && Same(after[k], c[k]))
      && (LiveIn(c, k, now) ==> k in after)
      && (LiveIn(after, k, now) <==> LiveIn(c, k, now))
  {
  }

  lemma GetKeeps(tiers: seq<Entries>, key: string, i: nat, k: string, now: nat)
    requires i < |tiers|
    ensures var after := AfterGet(tiers, key, false, 0, now);
      && (k in after[i] ==> k in tiers[i] && Same(after[i][k], tiers[i][k]))
      && (LiveIn(tiers[i], k, now) ==> k in after[i])
      && (LiveIn(after[i], k, now) <==> LiveIn(tiers[i], k, now))
  {
    LookupKeeps(tiers[i], key, k, now);
  }

  /** What was a copy of a live entry still is after the plain chain was read. */
  lemma CopySurvivesGet(plain: seq<Entries>, key: string, tier: nat, k: string, e: CacheEntry, now: nat)
    requires CopyOf(plain, tier, k, e, now) && e.Live(now)
    ensures CopyOf(AfterGet(plain, key, false, 0, now), tier, k, e, now)
  {
    var h :| tier < h < |plain| && k in plain[h] && Same(e, plain[h][k])
             && forall j :: 0 <= j < h ==> !LiveIn(plain[j], k, now);
    var after := AfterGet(plain, key, false, 0, now);
    GetKeeps(plain, key, h, k, now);
    forall j | 0 <= j < h ensures !LiveIn(after[j], k, now) {
      GetKeeps(plain, key, j, k, now);
    }
    assert k in after[h] && Same(e, after[h][k]);
  }

  /** A copy that the lookup schedules is a copy of the plain chain's answer. */
  lemma ScheduledIsCopy(tiers: seq<Entries>, plain: seq<Entries>, waiting: seq<Promotion>, key: string, p: Promotion,
                        now: nat)
    requires Mirrors(tiers, plain, waiting, now)
    requires p in Backfill(tiers, key, false, 0, now)
    ensures p.tier < |plain| && CopyOf(AfterGet(plain, key, false, 0, now), p.tier, p.key, p.entry, now)
  {
    SameAnswers(tiers, plain, waiting, key, now);
    var h, g := FirstHit(tiers, key, false, now), FirstHit(plain, key, false, now);
    var after := AfterGet(plain, key, false, 0, now);
    assert p.key == key && p.tier < h <= g;
    assert LiveIn(plain[g], key, now);
    GetKeeps(plain, key, g, key, now);
    assert Same(p.entry, Answer(plain, key, false, 0, now).value);
    forall j | 0 <= j < g ensures !LiveIn(after[j], key, now) {
      assert !Hits(plain[j], key, false, now);
      GetKeeps(plain, key, j, key, now);
    }
    assert key in after[g] && Same(p.entry, after[g][key]);
  }

  lemma MirrorsGet(tiers: seq<Entries>, plain: seq<Entries>, waiting: seq<Promotion>, key: string, now: nat)
    requires Mirrors(tiers, plain, waiting, now)
    ensures Mirrors(AfterGet(tiers, key, false, 0, now), AfterGet(plain, key, false, 0, now),
                    waiting + Backfill(tiers, key, false, 0, now), now)
  {
    var tiers', plain' := AfterGet(tiers, key, false, 0, now), AfterGet(plain, key, false, 0, now);
    forall i, k | 0 <= i < |plain'| && LiveIn(plain'[i], k, now)
      ensures k in tiers'[i] && Same(tiers'[i][k], plain'[i][k])
    {
      GetKeeps(plain, key, i, k, now);
      GetKeeps(tiers, key, i, k, now);
    }
    forall i, k | 0 <= i < |tiers'| && LiveIn(tiers'[i], k, now)
      ensures Explained(plain', i, k, tiers'[i][k], now)
    {
      GetKeeps(tiers, key, i, k, now);
      GetKeeps(plain, key, i, k, now);
      var e := tiers[i][k];
      if CopyOf(plain, i, k, e, now) {
        CopySurvivesGet(plain, key, i, k, e, now);
        var h :| i < h < |plain'| && k in plain'[h] && Same(e, plain'[h][k])
                 && forall j :: 0 <= j < h ==> !LiveIn(plain'[j], k, now);
        assert Same(tiers'[i][k], plain'[h][k]);
      }
    }
    forall p | p in waiting + Backfill(tiers, key, false, 0, now) && p.entry.Live(now)
      ensures p.tier < |plain'| && CopyOf(plain', p.tier, p.key, p.entry, now)
    {
      if p in waiting {
        CopySurvivesGet(plain, key, p.tier, p.key, p.entry, now);
      } else {
        ScheduledIsCopy(tiers, plain, waiting, key, p, now);
      }
    }
  }

  lemma MirrorsCopy(tiers: seq<Entries>, plain: seq<Entries>, waiting: seq<Promotion>, n: nat, now: nat)
    requires Mirrors(tiers, plain, waiting, now)
    requires n < |waiting| && waiting[n].tier < |tiers|
    ensures var p := waiting[n];
      Mirrors(tiers[p.tier := Promoted(tiers[p.tier], p.key, p.entry, now)], plain, Without(waiting, n), now)
  {
    var p := waiting[n];
    var tiers' := tiers[p.tier := Promoted(tiers[p.tier], p.key, p.entry, now)];
    assert p in waiting;
    forall i, k | 0 <= i < |tiers'| && LiveIn(tiers'[i], k, now)
      ensures Explained(plain, i, k, tiers'[i][k], now)
    {
      if i == p.tier && k == p.key && tiers'[i] != tiers[i] {
        var h :| i < h < |plain| && k in plain[h] && Same(p.entry, plain[h][k])
                 && forall j :: 0 <= j < h ==> !LiveIn(plain[j], k, now);
        assert Same(tiers'[i][k], plain[h][k]);
      } else {
        assert LiveIn(tiers[i], k, now);
      }
    }
  }

  lemma MirrorsFewer(tiers: seq<Entries>, plain: seq<Entries>, waiting: seq<Promotion>, fewer: seq<Promotion>, now: nat)
    requires Mirrors(tiers, plain, waiting, now)
    requires forall p :: p in fewer ==> p in waiting
    ensures Mirrors(tiers, plain, fewer, now)
  {
  }

  predicate SameHistory(a: Chain, b: Chain) {
    && |a.answers| == |b.answers|
    && forall i :: 0 <= i < |a.answers| ==> SameAnswer(a.answers[i], b.answers[i])
  }

  lemma StepKeepsMirror(a: Chain, b: Chain, t: Timed)
    requires Mirrors(a.tiers, b.tiers, a.waiting, t.now) && SameHistory(a, b)
    ensures Mirrors(Step(a, t).tiers, PlainStep(b, t).tiers, Step(a, t).waiting, t.now)
    ensures SameHistory(Step(a, t), PlainStep(b, t))
  {
    match t.event
    case Lookup(key) =>
      SameAnswers(a.tiers, b.tiers, a.waiting, key, t.now);
      MirrorsGet(a.tiers, b.tiers, a.waiting, key, t.now);
    case RunCopy(n) =>
      if n < |a.waiting| && a.waiting[n].tier < |a.tiers| {
        MirrorsCopy(a.tiers, b.tiers, a.waiting, n, t.now);
      }
    case DropCopy(n) =>
      if n < |a.waiting| {
        MirrorsFewer(a.tiers, b.tiers, a.waiting, Without(a.waiting, n), t.now);
      }
  }

  lemma {:induction false} RunsAgree(a: Chain, b: Chain, from: nat, ts: seq<Timed>)
    requires Mirrors(a.tiers, b.tiers, a.waiting, from) && SameHistory(a, b)
    requires Ordered(from, ts)
    ensures SameHistory(Run(a, ts), PlainRun(b, ts))
    decreases |ts|
  {
    if ts != [] {
      MirrorsAges(a.tiers, b.tiers, a.waiting, from, ts[0].now);
      StepKeepsMirror(a, b, ts[0]);
      RunsAgree(Step(a, ts[0]), PlainStep(b, ts[0]), ts[0].now, ts[1..]);
    }
  }

  /**
   From any tiers, any run of ordinary lookups with any of their copies run or
   dropped in any order gives the answers of the tiers without copies.
   */
  lemma BackfillInvisible(tiers: seq<Entries>, from: nat, ts: seq<Timed>)
    requires Ordered(from, ts)
    ensures SameHistory(Run(Chain(tiers, [], []), ts), PlainRun(Chain(tiers, [], []), ts))
  {
    assert Mirrors(tiers, tiers, [], from);
    RunsAgree(Chain(tiers, [], []), Chain(tiers, [], []), from, ts);
  }

  //  A late copy, when the tiers have been written in between

  /** From this time on none of `tiers` answers for `key`. */
  function Reach(tiers: seq<Entries>, key: string): nat {
    if tiers == [] then 0
    else Max(if key in tiers[0] then tiers[0][key].cacheUntil else 0, Reach(tiers[1..], key))
  }

  lemma {:induction false} ReachMeaning(tiers: seq<Entries>, key: string, now: nat)
    ensures Reach(tiers, key) <= now <==> forall i :: 0 <= i < |tiers| ==> !LiveIn(tiers[i], key, now)
  {
    if tiers != [] {
      ReachMeaning(tiers[1..], key, now);
      if forall i :: 0 <= i < |tiers| ==> !LiveIn(tiers[i], key, now) {
        assert forall i :: 0 <= i < |tiers[1..]| ==> tiers[1..][i] == tiers[i + 1];
      } else {
        var i :| 0 <= i < |tiers| && LiveIn(tiers[i], key, now);
        assert i > 0 ==> tiers[1..][i - 1] == tiers[i];
      }
    }
  }

  /** The copy would be written at all. */
  predicate Effective(tiers: seq<Entries>, p: Promotion, now: nat)
    requires p.tier < |tiers|
  {
    p.entry.Retained(now) && !RetainedIn(tiers[p.tier], p.key, now)
  }

  /** When the tiers in front have run out, the copy has too, or is what the chain answers anyway. */
  predicate Harmless(tiers: seq<Entries>, p: Promotion, now: nat)
    requires p.tier < |tiers|
  {
    var t := Max(now, Reach(tiers[..p.tier], p.key));
    || !Effective(tiers, p, now)
    || p.entry.cacheUntil <= t
    || (Answer(tiers, p.key, false, 0, t).Some? && Same(p.entry, Answer(tiers, p.key, false, 0, t).value))
  }

  function AfterCopy(tiers: seq<Entries>, p: Promotion, now: nat): seq<Entries>
    requires p.tier < |tiers|
  {
    tiers[p.tier := Promoted(tiers[p.tier], p.key, p.entry, now)]
  }

  /** Once the tiers in front have run out, an effective copy answers as long as it lives. */
  lemma CopyAnswers(tiers: seq<Entries>, p: Promotion, now: nat, later: nat)
    requires p.tier < |tiers| && Effective(tiers, p, now) && now <= later < p.entry.cacheUntil
    requires Reach(tiers[..p.tier], p.key) <= later
    ensures var answer := Answer(AfterCopy(tiers, p, now), p.key, false, 0, later);
      answer.Some? && Same(answer.value, p.entry)
  {
    var after := AfterCopy(tiers, p, now);
    ReachMeaning(tiers[..p.tier], p.key, later);
    forall i | 0 <= i < p.tier ensures !Hits(after[i], p.key, false, later) {
      assert tiers[..p.tier][i] == tiers[i];
    }
    FirstHitIs(after, p.key, false, later, p.tier);
  }

  /** Before that, and after the copy's own life, it changes nothing. */
  lemma CopySilent(tiers: seq<Entries>, p: Promotion, now: nat, later: nat)
    requires p.tier < |tiers| && now <= later
    requires !Effective(tiers, p, now) || p.entry.cacheUntil <= later || later < Reach(tiers[..p.tier], p.key)
    ensures Answer(AfterCopy(tiers, p, now), p.key, false, 0, later) == Answer(tiers, p.key, false, 0, later)
  {
    var after := AfterCopy(tiers, p, now);
    if !Effective(tiers, p, now) {
      assert after == tiers;
    } else {
      var h := FirstHit(tiers, p.key, false, later);
      assert !Hits(tiers[p.tier], p.key, false, later);
      ReachMeaning(tiers[..p.tier], p.key, later);
      if later < Reach(tiers[..p.tier], p.key) {
        var i :| 0 <= i < p.tier && LiveIn(tiers[..p.tier][i], p.key, later);
        assert Hits(tiers[i], p.key, false, later) && h <= i;
      }
      FirstHitIs(after, p.key, false, later, h);
    }
  }

  /** What answers at one time and is the copy's equal answers as long as the copy lives. */
  lemma EqualLives(tiers: seq<Entries>, key: string, e: CacheEntry, from: nat, later: nat)
    requires from <= later < e.cacheUntil
    requires Answer(tiers, key, false, 0, from).Some? && Same(e, Answer(tiers, key, false, 0, from).value)
    ensures Answer(tiers, key, false, 0, later).Some? && Same(e, Answer(tiers, key, false, 0, later).value)
  {
    var h := FirstHit(tiers, key, false, from);
    assert Hits(tiers[h], key, false, from) && tiers[h][key].cacheUntil == e.cacheUntil;
    forall i | 0 <= i < h ensures !Hits(tiers[i], key, false, later) {
      assert !Hits(tiers[i], key, false, from);
    }
    FirstHitIs(tiers, key, false, later, h);
  }

  /**
   Whatever was written since it was scheduled, a copy that runs now stays
   invisible for good exactly when it is harmless: it is not written, or it
   dies before the tiers in front of it, or the chain answers its equal then.
   */
  lemma LateCopyInvisibleIff(tiers: seq<Entries>, p: Promotion, now: nat)
    requires p.tier < |tiers|
    ensures Harmless(tiers, p, now)
       <==> forall later :: now <= later ==>
              SameAnswer(Answer(AfterCopy(tiers, p, now), p.key, false, 0, later), Answer(tiers, p.key, false, 0, later))
  {
    var t := Max(now, Reach(tiers[..p.tier], p.key));
    if Harmless(tiers, p, now) {
      forall later | now <= later
        ensures SameAnswer(Answer(AfterCopy(tiers, p, now), p.key, false, 0, later), Answer(tiers, p.key, false, 0, later))
      {
        if !Effective(tiers, p, now) || p.entry.cacheUntil <= later || later < Reach(tiers[..p.tier], p.key) {
          CopySilent(tiers, p, now, later);
        } else {
          CopyAnswers(tiers, p, now, later);
          EqualLives(tiers, p.key, p.entry, t, later);
        }
      }
    } else {
      CopyAnswers(tiers, p, now, t);
    }
  }

  /** The tiers after a write that is not to be cached. */
  function Uncached(tiers: seq<Entries>, key: string, media: Media, cost: nat, now: nat): (r: seq<Entries>)
    ensures |r| == |tiers|
  {
    seq(|tiers|, i requires 0 <= i < |tiers| => Put(tiers[i], key, media, cost, 0, 0, now))
  }

  /**
   A write that does not cache removes the key from both tiers; the copy that
   an earlier lookup has scheduled brings the old entry back.
   */
  lemma CopyRevives(key: string, e: CacheEntry, media: Media, cost: nat, now: nat)
    requires e.Live(now) && e.pinUntil == 0
    ensures var tiers: seq<Entries> := [map[], map[key := e]];
      var copies := Backfill(tiers, key, false, 0, now);
      var written := Uncached(AfterGet(tiers, key, false, 0, now), key, media, cost, now);
      && |copies| == 1 && Answer(written, key, false, 0, now) == None
      && Answer(AfterCopy(written, copies[0], now), key, false, 0, now).Some?
  {
    var tiers: seq<Entries> := [map[], map[key := e]];
    FirstHitIs(tiers, key, false, now, 1);
    var copies := Backfill(tiers, key, false, 0, now);
    var written := Uncached(AfterGet(tiers, key, false, 0, now), key, media, cost, now);
    assert key !in written[0] && key !in written[1];
    FirstHitIs(written, key, false, now, 2);
    assert Reach(written[..0], key) == 0;
    CopyAnswers(written, copies[0], now, now);
  }
}
