/**
 One request from cache resolution to its final result: every finished cook
 carries a thumbnail, or tells a caller who holds one to keep it.
 */
module CookPipeline {
  import opened Prelude
  import opened CacheHints
  import opened Freshness
  import opened CacheEntry
  import opened MemoryCache
  import opened Coherence
  import TokenLaws

  datatype Status = Processing | Complete | Fresh | Failed | Overloaded | Intermediate

  datatype ResultStatus = Success | ResultFailed | ResultOverloaded | ResultIntermediate | BatchLimit

  datatype Source = FromRender | FromShortcut | FromCache | NotModified | Fallback | Placeholder

  datatype CookResult = CookResult(status: ResultStatus, source: Option<Source>, thumbnail: seq<byte>,
                                   placeholder: string)

  /** The built-in placeholder images. */
  datatype Assets = Assets(byKind: map<Kind, seq<byte>>, failed: seq<byte>, unknown: seq<byte>) {
    predicate Valid() {
      && failed != [] && unknown != []
      && forall k: Kind :: k in byKind && byKind[k] != []
    }
  }

  function Slug(kind: Kind): string {
    match kind
    case Image => "image"
    case Video => "video"
    case Audio => "audio"
    case Vector => "vector"
    case Document => "document"
    case Geometry => "geometry"
    case Archive => "archive"
    case Plain => "text"
    case Binary => "binary"
    case Unknown => "unknown"
  }

  /** How opening the connection turned out. */
  datatype Opening =
    | Forbidden
    | BackedOff
    | RecentlyFailed
    | Unreachable
    | Response(code: nat, headers: Headers)

  /** How a response or a refusal classifies; only an asked-for 304 means the source is unchanged. */
  function Classify(o: Opening, conditional: bool): Status {
    match o
    case Forbidden => Status.Failed
    case BackedOff => Overloaded
    case RecentlyFailed => Status.Failed
    case Unreachable => Status.Failed
    case Response(code, _) =>
      if code == 429 || code == 503 then Overloaded
      else if code == 304 then if conditional then Fresh else Status.Failed
      else if 200 <= code < 300 then Processing
      else Status.Failed
  }

  /** Which openings go on, are overloaded, or fail. */
  lemma OpeningsMeaning(o: Opening, conditional: bool)
    ensures Classify(o, conditional) == Processing <==> o.Response? && 200 <= o.code <= 299
    ensures Classify(o, conditional) == Overloaded <==> o.BackedOff? || (o.Response? && (o.code == 429 || o.code == 503))
    ensures Classify(o, conditional) == Status.Failed <==>
              || o.Forbidden? || o.RecentlyFailed? || o.Unreachable?
              || (o.Response? && (o.code < 200 || o.code > 299) && o.code != 429 && o.code != 503
                  && !(o.code == 304 && conditional))
  {
  }

  /** Unchanged is the answer to a 304 that was asked for, and to nothing else. */
  lemma FreshIsAskedFor(o: Opening, conditional: bool)
    ensures Classify(o, conditional) == Fresh <==> conditional && o.Response? && o.code == 304
  {
  }

  /** What a later step of the pipeline, local or remote, leaves behind. */
  datatype Effect = Effect(status: Status, thumbnail: Option<seq<byte>>, placeholder: Option<string>,
                           source: Option<Source>, kind: Option<Kind>, shortcut: bool)

  /** What a cook shows. */
  datatype View = View(status: Status, thumbnail: seq<byte>, placeholder: Option<string>, source: Option<Source>,
                       kind: Option<Kind>, shortcut: bool)

  function AfterStep(v: View, e: Effect): View {
    View(e.status, e.thumbnail.GetOr(v.thumbnail), if e.placeholder.Some? then e.placeholder else v.placeholder,
         e.source, if e.kind.Some? then e.kind else v.kind, e.shortcut)
  }

  function AfterSteps(v: View, steps: seq<Effect>): View {
    if steps == [] then v else AfterStep(AfterSteps(v, steps[..|steps| - 1]), steps[|steps| - 1])
  }

  /** The picture a cook shows is the one of the last step that brought one; so are its kind and its label. */
  lemma {:induction false} LastPictureCounts(v: View, steps: seq<Effect>, n: nat)
    requires n < |steps|
    ensures steps[n].thumbnail.Some? && (forall j :: n < j < |steps| ==> steps[j].thumbnail.None?) ==>
              AfterSteps(v, steps).thumbnail == steps[n].thumbnail.value
    ensures steps[n].kind.Some? && (forall j :: n < j < |steps| ==> steps[j].kind.None?) ==>
              AfterSteps(v, steps).kind == steps[n].kind
    ensures steps[n].placeholder.Some? && (forall j :: n < j < |steps| ==> steps[j].placeholder.None?) ==>
              AfterSteps(v, steps).placeholder == steps[n].placeholder
  {
    if n < |steps| - 1 {
      LastPictureCounts(v, steps[..|steps| - 1], n);
    }
  }

  /** How it ended, and whether its picture is a stand-in or a shortcut, is what the last step says. */
  lemma LastStepCounts(v: View, steps: seq<Effect>)
    requires steps != []
    ensures var last, shown := steps[|steps| - 1], AfterSteps(v, steps);
      shown.status == last.status && shown.source == last.source && shown.shortcut == last.shortcut
  {
  }

  lemma {:induction false} NoPictureYet(v: View, steps: seq<Effect>)
    ensures (forall j :: 0 <= j < |steps| ==> steps[j].thumbnail.None?) ==> AfterSteps(v, steps).thumbnail == v.thumbnail
    ensures (forall j :: 0 <= j < |steps| ==> steps[j].kind.None?) ==> AfterSteps(v, steps).kind == v.kind
    ensures (forall j :: 0 <= j < |steps| ==> steps[j].placeholder.None?) ==>
              AfterSteps(v, steps).placeholder == v.placeholder
  {
    if steps != [] {
      NoPictureYet(v, steps[..|steps| - 1]);
    }
  }

  /** The step that ends the cook. */
  predicate Ends(steps: seq<Effect>, n: nat) {
    n < |steps| && steps[n].status != Processing && forall j :: 0 <= j < n ==> steps[j].status == Processing
  }

  lemma NoSteps(v: View)
    ensures AfterSteps(v, []) == v && StillOpen([])
  {
  }

  lemma OneMoreStep(v: View, steps: seq<Effect>, i: nat)
    requires i < |steps| && StillOpen(steps[..i])
    ensures AfterSteps(v, steps[..i + 1]) == AfterStep(AfterSteps(v, steps[..i]), steps[i])
    ensures AfterSteps(v, steps[..i + 1]).status == steps[i].status
    ensures if steps[i].status == Processing then StillOpen(steps[..i + 1]) else Ends(steps, i)
  {
    assert steps[..i + 1] == steps[..i] + [steps[i]];
    assert forall j :: 0 <= j < i ==> steps[j] == steps[..i][j];
  }

  /** A cook ends once, or not at all. */
  lemma EndsOnce(steps: seq<Effect>, i: nat)
    requires i <= |steps|
    ensures i == |steps| && StillOpen(steps[..i]) ==> StillOpen(steps)
    ensures StillOpen(steps) ==> forall n :: !Ends(steps, n)
    ensures 0 < i && Ends(steps, i - 1) ==> !StillOpen(steps) && forall n :: Ends(steps, n) ==> n == i - 1
  {
    assert steps[..|steps|] == steps;
  }

  /** Steps past cache resolution: none reports unchanged content, and a labelled picture is a placeholder. */
  predicate Local(steps: seq<Effect>) {
    forall e :: e in steps ==>
      e.status != Fresh && (e.source.None? || e.source == Some(Placeholder) || e.source == Some(Fallback))
  }

  /** None of the steps ends the cook. */
  predicate StillOpen(steps: seq<Effect>) {
    forall i :: 0 <= i < |steps| ==> steps[i].status == Processing
  }

  /** The answer of a higher tier. */
  datatype Remote = Unanswered | Answered(status: ResultStatus, source: Option<Source>, media: Option<Picture>)

  /** Tier `i + 2` is in the chain that starts at tier `start`. */
  predicate Configured(start: nat, answers: seq<Option<Remote>>, i: nat)
    requires |answers| == 2
  {
    i < 2 && start <= i + 2 && answers[i].Some?
  }

  predicate AnyConfigured(start: nat, answers: seq<Option<Remote>>)
    requires |answers| == 2
  {
    exists i :: 0 <= i < 2 && Configured(start, answers, i)
  }

  /** Tier `i + 2` gave a success that ends the chain. */
  predicate Taken(start: nat, answers: seq<Option<Remote>>, i: nat)
    requires |answers| == 2
  {
    && Configured(start, answers, i) && answers[i].value.Answered? && answers[i].value.status == Success
    && !(i == 0 && answers[1].Some? && answers[0].value.media.Some? && answers[0].value.media.value.placeholder != "")
  }

  function Chosen(start: nat, answers: seq<Option<Remote>>): (r: Option<Remote>)
    requires |answers| == 2
    ensures r.Some? ==> r.value.Answered?
  {
    if Taken(start, answers, 0) then answers[0]
    else if Taken(start, answers, 1) then answers[1]
    else None
  }

  function StatusOf(s: ResultStatus): Status {
    match s
    case Success => Complete
    case ResultOverloaded => Overloaded
    case ResultIntermediate => Intermediate
    case ResultFailed => Status.Failed
    case BatchLimit => Status.Failed
  }

  /** A recent answer given again: from the cache, unless it said that nothing changed. */
  function Replayed(r: Option<CookResult>): Option<CookResult> {
    if r.None? || r.value.source == Some(Source.NotModified) then r else Some(r.value.(source := Some(FromCache)))
  }

  /** A recent answer is repeated as it was; only where it comes from now is the cache, unless nothing was sent at all. */
  lemma ReplayMeaning(r: CookResult)
    ensures var again := Replayed(Some(r));
      && again.Some? && again.value.thumbnail == r.thumbnail && again.value.status == r.status
      && again.value.placeholder == r.placeholder
      && (r.source == Some(Source.NotModified) ==> again.value.source == Some(Source.NotModified))
      && (r.source != Some(Source.NotModified) ==> again.value.source == Some(FromCache))
    ensures Replayed(None).None?
  {
  }

  /** The durable cache takes everything but progress reports and missing-handler placeholders, bytes or no bytes. */
  predicate Storable(r: CookResult) {
    r.status != ResultIntermediate && r.source != Some(Placeholder)
  }

  /**
   The final answer of a cook that was not served from the cache: its own
   picture under its own label, or a stand-in where there is none.
   */
  predicate Reports(result: CookResult, assets: Assets, v: View)
    requires assets.Valid()
  {
    if v.thumbnail != [] then
      && result.thumbnail == v.thumbnail && result.placeholder == v.placeholder.GetOr("")
      && result.status == (match v.status
                           case Failed => ResultFailed
                           case Overloaded => ResultOverloaded
                           case Intermediate => ResultIntermediate
                           case _ => Success)
      && result.source ==
         (if v.source.Some? then v.source
          else if v.placeholder.Some? then Some(Fallback)
          else Some(if v.shortcut then FromShortcut else FromRender))
    else if v.kind.Some? then
      // the file is known, so the stand-in is no failure
      && result.thumbnail == assets.byKind[v.kind.value] && result.placeholder == Slug(v.kind.value)
      && result.source == Some(if v.status != Status.Failed && v.source == Some(Placeholder) then Placeholder else Fallback)
      && result.status == (if v.status == Overloaded then ResultOverloaded
                           else if v.status == Intermediate then ResultIntermediate else Success)
    else
      var broken := v.status == Status.Failed || v.placeholder == Some("error") || v.placeholder == Some("failed");
      && result.thumbnail == (if broken then assets.failed else assets.unknown)
      && result.placeholder == (if broken then "failed" else "unknown")
      && result.source == Some(if v.source == Some(Placeholder) then Placeholder else Fallback)
      && (result.status == ResultFailed <==> v.status == Status.Failed)
      && (result.status == ResultOverloaded <==> v.status == Overloaded)
      && (result.status == ResultIntermediate <==> v.status == Intermediate)
      && result.status != BatchLimit
  }

  /** What a cook shows that took the answer `r`; without media the picture stays what it was. */
  function Handed(v: View, r: Remote): View
    requires r.Answered?
  {
    View(Complete, if r.media.Some? then r.media.value.thumbnail else v.thumbnail,
         if r.media.Some? && r.media.value.placeholder != "" then Some(r.media.value.placeholder) else None,
         if r.source == Some(Placeholder) || r.source == Some(Fallback) then r.source else None,
         if r.media.Some? then Some(r.media.value.kind) else v.kind, v.shortcut)
  }

  /** A handoff shows the answer it took, or a failure, or, with no tier to ask, that there is none. */
  function HandedOn(v: View, start: nat, answers: seq<Option<Remote>>): View
    requires |answers| == 2
  {
    if Chosen(start, answers).Some? then Handed(v, Chosen(start, answers).value)
    else if AnyConfigured(start, answers) then v.(status := Status.Failed)
    else v.(status := Complete, source := Some(Placeholder))
  }

  /** A picture that a higher tier sent is what the caller gets, under its label; without its bytes, one for its kind. */
  lemma TakenPictureReturned(result: CookResult, assets: Assets, v: View, start: nat, answers: seq<Option<Remote>>)
    requires |answers| == 2 && assets.Valid() && Reports(result, assets, HandedOn(v, start, answers))
    requires Chosen(start, answers).Some? && Chosen(start, answers).value.media.Some?
    ensures var r := Chosen(start, answers).value;
      var media := r.media.value;
      && result.status == Success
      && (media.thumbnail != [] ==>
            && result.thumbnail == media.thumbnail && result.placeholder == media.placeholder
            && result.source == (if r.source == Some(Placeholder) || r.source == Some(Fallback) then r.source
                                 else if media.placeholder != "" then Some(Fallback)
                                 else Some(if v.shortcut then FromShortcut else FromRender)))
      && (media.thumbnail == [] ==>
            result.thumbnail == assets.byKind[media.kind] && result.placeholder == Slug(media.kind))
  {
  }

  /** Whose answer ends the chain when tier 2 is asked: its picture; its stand-in only if nobody else could do better. */
  lemma TierTwoFirst(start: nat, answers: seq<Option<Remote>>, source: Option<Source>, media: Option<Picture>)
    requires |answers| == 2 && start <= 2 && answers[0] == Some(Answered(Success, source, media))
    ensures var standsIn := media.Some? && media.value.placeholder != "";
      Chosen(start, answers) ==
      if standsIn && answers[1].Some? then
        if answers[1].value.Answered? && answers[1].value.status == Success then answers[1] else None
      else answers[0]
  {
  }

  /** When tier 2 is not asked, or asked in vain, tier 3 decides. */
  lemma TierThreeLast(start: nat, answers: seq<Option<Remote>>)
    requires |answers| == 2 && start <= 3
    requires start == 3 || answers[0].None? || answers[0].value.Unanswered? || answers[0].value.status != Success
    ensures Chosen(start, answers).Some? <==>
              answers[1].Some? && answers[1].value.Answered? && answers[1].value.status == Success
    ensures Chosen(start, answers).Some? ==> Chosen(start, answers) == answers[1]
  {
  }

  /** A handoff nobody answered is a failure if anyone was asked, and a missing handler if not. */
  lemma UnansweredMeaning(v: View, start: nat, answers: seq<Option<Remote>>)
    requires |answers| == 2 && Chosen(start, answers).None?
    ensures var asked := (start <= 2 && answers[0].Some?) || (start <= 3 && answers[1].Some?);
      HandedOn(v, start, answers)
      == if asked then v.(status := Status.Failed) else v.(status := Complete, source := Some(Placeholder))
  {
    assert Configured(start, answers, 0) <==> start <= 2 && answers[0].Some?;
    assert Configured(start, answers, 1) <==> start <= 3 && answers[1].Some?;
    assert AnyConfigured(start, answers) <==> Configured(start, answers, 0) || Configured(start, answers, 1);
  }

  /** What is stored of a handoff's answer: everything but a missing handler's placeholder, with the bytes it came with. */
  predicate Kept(r: Remote, stored: Option<CookResult>)
    requires r.Answered?
  {
    && (stored.None? <==> r.source == Some(Placeholder))
    && (stored.Some? ==> stored.value.status == Success)
    && (stored.Some? && r.media.Some? ==>
          && stored.value.thumbnail == r.media.value.thumbnail && stored.value.placeholder == r.media.value.placeholder)
    && (stored.Some? ==> (r.source == Some(Fallback) ==> stored.value.source == Some(Fallback)))
  }

  predicate CallerFresh(caller: Option<CacheHints>, now: nat) {
    caller.Some? && caller.value.IsFresh(now)
  }

  predicate EntryFresh(found: Option<CacheEntry>, now: nat) {
    found.Some? && found.value.IsFresh(now)
  }

  /** Nothing at hand is fresh, so the origin is asked. */
  predicate OriginAsked(caller: Option<CacheHints>, found: Option<CacheEntry>, now: nat) {
    !CallerFresh(caller, now) && !EntryFresh(found, now)
  }

  /** The origin was asked, and answered that nothing changed. */
  predicate Confirmed(caller: Option<CacheHints>, found: Option<CacheEntry>, o: Opening, now: nat) {
    OriginAsked(caller, found, now) && Classify(o, Sent(caller, found).Some?) == Fresh
  }

  /** The origin was asked, and sent content. */
  predicate Opened(caller: Option<CacheHints>, found: Option<CacheEntry>, o: Opening, now: nat) {
    OriginAsked(caller, found, now) && Classify(o, Sent(caller, found).Some?) == Processing
  }

  /** Nothing is sent along: the caller's copy is good, or the stored one is and has no bytes. */
  predicate NothingSent(caller: Option<CacheHints>, found: Option<CacheEntry>, o: Opening, now: nat) {
    || CallerFresh(caller, now)
    || (Confirmed(caller, found, o, now) && (OwnHints(found).None? || found.value.media.thumbnail == []))
  }

  class ThumbCook {
    /** What the caller sent with the request. */
    const caller: Option<CacheHints>

    /** The hints whose validator the request carries. */
    var input: Option<CacheHints>
    var status: Status
    var thumbnail: seq<byte>
    var placeholder: Option<string>
    var placeholderSource: Option<Source>
    var cacheHit: bool
    var replay: Option<CookResult>
    var kind: Option<Kind>
    var hints: Option<CacheHints>
    var shortcut: bool

    constructor (caller: Option<CacheHints>)
      ensures this.caller == caller && input == caller && status == Processing && replay.None?
      ensures thumbnail == [] && placeholder.None? && placeholderSource.None? && !cacheHit && kind.None? && !shortcut
    {
      this.caller, input, status := caller, caller, Processing;
      thumbnail, placeholder, placeholderSource := [], None, None;
      cacheHit, replay, kind, hints, shortcut := false, None, None, None, false;
    }

    ghost function Shown(): View
      reads this
    {
      View(status, thumbnail, placeholder, placeholderSource, kind, shortcut)
    }

    /** The label of a placeholder says that it is one. */
    predicate Labelled()
      reads this
    {
      placeholderSource.None? || placeholderSource == Some(Placeholder) || placeholderSource == Some(Fallback)
    }

    method Connect(o: Opening, now: nat)
      modifies this`status, this`hints
      ensures status == Classify(o, input.Some? && input.value.ToConditional().Some?)
      ensures hints == if o.Response? then FromHeaders(o.headers, now) else old(hints)
    {
      if o.Forbidden? {
        status := Status.Failed;
        return;
      }
      if o.BackedOff? {
        status := Overloaded;
        return;
      }
      if o.RecentlyFailed? || o.Unreachable? {
        status := Status.Failed;
        return;
      }
      hints := FromResponseHeaders(o.headers, now);
      if o.code == 429 || o.code == 503 {
        status := Overloaded;
        return;
      }
      if o.code == 304 {
        if input.None? || input.value.ToConditional().None? {
          status := Status.Failed;
        } else {
          status := Fresh;
        }
        return;
      }
      if o.code < 200 || o.code >= 300 {
        status := Status.Failed;
        return;
      }
      status := Processing;
    }

    /** Bytes, kind and label of the stored entry. */
    method RestoreCachedMedia(m: Media)
      modifies this`thumbnail, this`kind, this`placeholder, this`cacheHit
      ensures thumbnail == m.thumbnail && kind == Some(m.kind) && cacheHit
      ensures placeholder == if m.placeholder != "" then Some(m.placeholder) else None
    {
      thumbnail, kind := m.thumbnail, Some(m.kind);
      placeholder := if m.placeholder != "" then Some(m.placeholder) else None;
      cacheHit := true;
    }

    /**
     Debounce, caller freshness, stored freshness, then a conditional request.
     `found` is what the durable cache holds.  The result says whether the
     cook is finished, and which stored entry a 304 renewed.
     */
    method ResolveCache(cfg: Config, replayed: Option<CookResult>, found: Option<CacheEntry>, o: Opening, now: nat)
      returns (done: bool, renewal: Option<CacheEntry>)
      requires status == Processing && replay.None? && !cacheHit && thumbnail == [] && input == caller
      requires 0 < now && now + cfg.freshnessTtl < U64_MAX
      requires caller.Some? ==> caller.value.InRange()
      modifies this`input, this`status, this`thumbnail, this`kind, this`placeholder, this`cacheHit, this`replay, this`hints
      ensures done <==> status != Processing
      ensures replay == Replayed(replayed)
      ensures !done ==> replay.None? && !cacheHit
      ensures replay.None? && !cacheHit ==> Shown() == old(Shown()).(status := status)
      ensures replayed.None? && status == Fresh && !cacheHit ==> caller.Some?
      ensures replayed.None? && CallerFresh(caller, now) ==> status == Fresh && !cacheHit
      ensures cacheHit && replay.None? ==>
                && found.Some? && thumbnail == found.value.media.thumbnail && kind == Some(found.value.media.kind)
      ensures !cacheHit && replay.None? ==> thumbnail == []
      ensures replayed.None? && !CallerFresh(caller, now) && EntryFresh(found, now) ==>
                cacheHit && status == Complete
      // asked the origin: with the stored entry's own validator when it has one
      ensures replay.None? && !CallerFresh(caller, now) && !EntryFresh(found, now) ==>
                && input == SentHints(caller, found)
                && status == Classify(o, Sent(caller, found).Some?)
                && (cacheHit <==> status == Fresh && OwnHints(found).Some?)
                && (renewal.Some? <==> cacheHit)
      // the hints an answer is given: its own copy's, the stored entry's, those of the response, or the merged ones
      ensures replayed.None? && CallerFresh(caller, now) ==> hints == caller
      ensures replayed.None? && !CallerFresh(caller, now) && EntryFresh(found, now) ==>
                hints == FromToken(found.value.media.cache)
      ensures replay.None? && OriginAsked(caller, found, now) && o.Response? ==>
                hints == if status == Fresh
                         then Some(Freshness.Revalidated(SentHints(caller, found).value, o.headers, cfg.freshnessTtl, now))
                         else FromHeaders(o.headers, now)
      // and what a 304 renews is what the protocol writes back
      ensures renewal.Some? ==>
                && OwnHints(found).Some? && OwnHints(found).value.InRange() && o.Response?
                && var merged := Freshness.Revalidated(OwnHints(found).value, o.headers, cfg.freshnessTtl, now);
                   merged.InRange() && renewal.value == Renewed(cfg, found.value, merged, now)
    {
      hide Classify, FromToken, FreshnessDeadline, Freshness.Revalidated, Renewed;
      renewal := None;
      if replayed.Some? {
        status := match replayed.value.status
          case ResultFailed => Status.Failed
          case ResultOverloaded => Overloaded
          case _ => Complete;
        cacheHit := true;
        replay := Replayed(replayed);
        return true, None;
      }
      if caller.Some? && caller.value.IsFresh(now) {
        hints := caller;
        status := Fresh;
        return true, None;
      }
      var validatesStored := false;
      if found.Some? {
        if found.value.IsFresh(now) {
          RestoreCachedMedia(found.value.media);
          hints := FromToken(found.value.media.cache);
          status := Complete;
          return true, None;
        }
        var own := FromToken(found.value.media.cache);
        if own.Some? && own.value.ToConditional().Some? {
          input := own;
          validatesStored := true;
        }
      }
      FreshIsAskedFor(o, input.Some? && input.value.ToConditional().Some?);
      Connect(o, now);
      if status == Fresh {
        TokenOrCallerInRange(caller, found);
        RevalidatedInRange(input.value, o.headers, cfg.freshnessTtl, now);
        var merged := Freshness.Revalidated(input.value, o.headers, cfg.freshnessTtl, now);
        hints := Some(merged);
        if validatesStored {
          RestoreCachedMedia(found.value.media);
          renewal := Some(Renewed(cfg, found.value, merged, now));
        }
      }
      return status != Processing, renewal;
    }

    /** A step past cache resolution; no such step reports unchanged content. */
    method Apply(e: Effect)
      requires e.status != Fresh && replay.None? && status == Processing && !cacheHit
      requires e.source.None? || e.source == Some(Placeholder) || e.source == Some(Fallback)
      modifies this`status, this`thumbnail, this`placeholder, this`placeholderSource, this`kind, this`shortcut
      ensures Shown() == AfterStep(old(Shown()), e) && Labelled()
    {
      status := e.status;
      thumbnail := e.thumbnail.GetOr(thumbnail);
      placeholder := if e.placeholder.Some? then e.placeholder else placeholder;
      placeholderSource := e.source;
      kind := if e.kind.Some? then e.kind else kind;
      shortcut := e.shortcut;
    }

    /** The state shows the answer `r`; without media the picture stays what it was. */
    ghost predicate Took(r: Remote, before: seq<byte>, kindBefore: Option<Kind>)
      reads this
      requires r.Answered?
    {
      && thumbnail == (if r.media.Some? then r.media.value.thumbnail else before)
      && kind == (if r.media.Some? then Some(r.media.value.kind) else kindBefore)
      && placeholder == (if r.media.Some? && r.media.value.placeholder != "" then Some(r.media.value.placeholder) else None)
      && placeholderSource == (if r.source == Some(Placeholder) || r.source == Some(Fallback) then r.source else None)
    }

    method ApplyHandoff(r: Remote)
      requires r.Answered?
      modifies this`status, this`thumbnail, this`placeholder, this`placeholderSource, this`kind
      ensures status == StatusOf(r.status) && Labelled()
      ensures Took(r, old(thumbnail), old(kind))
    {
      status := StatusOf(r.status);
      placeholder := if r.media.Some? && r.media.value.placeholder != "" then Some(r.media.value.placeholder) else None;
      placeholderSource := if r.source == Some(Placeholder) || r.source == Some(Fallback) then r.source else None;
      if r.media.Some? {
        thumbnail := r.media.value.thumbnail;
        kind := Some(r.media.value.kind);
      }
    }

    /**
     Higher tiers in ascending order; `answers[i]` is tier `i + 2`, absent when
     it is not configured.  The first success is taken, except that a
     placeholder from tier 2 is passed over when there is a tier 3.  `stored`
     goes to the durable cache as it is, before anything is filled in.
     */
    method HandOff(start: nat, answers: seq<Option<Remote>>) returns (stored: Option<CookResult>)
      requires |answers| == 2 && status == Processing && replay.None? && !cacheHit && Labelled()
      modifies this`status, this`thumbnail, this`placeholder, this`placeholderSource, this`kind
      ensures status != Fresh && Labelled() && Shown() == HandedOn(old(Shown()), start, answers)
      ensures Chosen(start, answers).Some? ==> Kept(Chosen(start, answers).value, stored)
      ensures stored == if Chosen(start, answers).Some? && Storable(ToResult()) then Some(ToResult()) else None
    {
      stored := None;
      var triedAny := false;
      for i := 0 to 2
        invariant status == Processing && Labelled() && stored.None?
        invariant thumbnail == old(thumbnail) && kind == old(kind) && placeholder == old(placeholder)
        invariant placeholderSource == old(placeholderSource)
        invariant triedAny <==> exists j :: 0 <= j < i && Configured(start, answers, j)
        invariant i >= 1 ==> !Taken(start, answers, 0)
        invariant i >= 2 ==> !Taken(start, answers, 1)
      {
        if i + 2 < start || answers[i].None? {
          continue;
        }
        assert Configured(start, answers, i);
        triedAny := true;
        var answer := answers[i].value;
        if answer.Answered? && answer.status == Success {
          // tier 2 only stood in for the file, and tier 3 may still render it
          if i == 0 && answers[1].Some? && answer.media.Some? && answer.media.value.placeholder != "" {
            continue;
          }
          ApplyHandoff(answer);
          return if Storable(ToResult()) then Some(ToResult()) else None;
        }
      }
      if triedAny {
        status := Status.Failed;
      } else {
        status := Complete;
        placeholderSource := Some(Placeholder);
      }
    }

    /** The steps past cache resolution: the local ones until one of them ends the cook, else a handoff. */
    method Produce(local: seq<Effect>, start: nat, answers: seq<Option<Remote>>) returns (stored: Option<CookResult>)
      requires |answers| == 2 && status == Processing && replay.None? && !cacheHit && Labelled()
      requires Local(local)
      modifies this`status, this`thumbnail, this`placeholder, this`placeholderSource, this`kind, this`shortcut
      ensures status != Fresh && Labelled()
      ensures StillOpen(local) && Chosen(start, answers).Some? ==> Kept(Chosen(start, answers).value, stored)
      ensures !StillOpen(local) || Chosen(start, answers).None? ==> stored.None?
      ensures forall n :: Ends(local, n) ==> Shown() == AfterSteps(old(Shown()), local[..n + 1])
      ensures StillOpen(local) ==> Shown() == HandedOn(AfterSteps(old(Shown()), local), start, answers)
    {
      hide AfterSteps, AfterStep, HandedOn, StillOpen, Ends, Kept, Chosen;
      stored := None;
      var i := 0;
      NoSteps(Shown());
      while i < |local| && status == Processing
        invariant i <= |local| && status != Fresh && Labelled()
        invariant if status == Processing then StillOpen(local[..i]) else 0 < i && Ends(local, i - 1)
        invariant Shown() == AfterSteps(old(Shown()), local[..i])
      {
        OneMoreStep(old(Shown()), local, i);
        Apply(local[i]);
        i := i + 1;
      }
      EndsOnce(local, i);
      if status == Processing {
        assert local[..|local|] == local;
        stored := HandOff(start, answers);
      }
    }

    /** The client-facing view of the state. */
    function ToResult(): CookResult
      reads this
    {
      if replay.Some? then replay.value
      else
        CookResult(
          match status
          case Processing => Success
          case Complete => Success
          case Fresh => Success
          case Failed => ResultFailed
          case Overloaded => ResultOverloaded
          case Intermediate => ResultIntermediate,
          if cacheHit then Some(FromCache)
          else if status == Fresh then Some(Source.NotModified)
          else if placeholderSource.Some? then placeholderSource
          else if placeholder.Some? then Some(Fallback)
          else if shortcut then Some(FromShortcut)
          else Some(FromRender),
          thumbnail, placeholder.GetOr(""))
    }

    /** Fill in a placeholder where nothing was produced, then report. */
    method Finish(assets: Assets) returns (result: CookResult)
      requires assets.Valid()
      requires Labelled()
      modifies this`status, this`thumbnail, this`placeholder, this`placeholderSource
      ensures result == ToResult() && Labelled()
      ensures replay.Some? || old(thumbnail) != [] || old(status) == Fresh ==>
                && thumbnail == old(thumbnail) && status == old(status)
                && placeholder == old(placeholder) && placeholderSource == old(placeholderSource)
      ensures replay.None? && old(thumbnail) == [] && old(status) != Fresh ==>
                if kind.Some? then
                  && thumbnail == assets.byKind[kind.value] && placeholder == Some(Slug(kind.value))
                  && status != Status.Failed && (old(status) != Status.Failed ==> status == old(status))
                  && (old(status) == Status.Failed ==> status == Complete && placeholderSource == Some(Fallback))
                else
                  && status == old(status) && placeholderSource == old(placeholderSource)
                  && var broken := old(status) == Status.Failed || old(placeholder) in [Some("error"), Some("failed")];
                     (thumbnail, placeholder) ==
                     if broken then (assets.failed, Some("failed")) else (assets.unknown, Some("unknown"))
      ensures replay.None? && !cacheHit && old(status) != Fresh ==> Reports(result, assets, old(Shown()))
      ensures replay.None? ==> (result.thumbnail == [] <==> status == Fresh && thumbnail == [])
      ensures replay.None? && result.thumbnail == [] ==>
                && result.status == Success
                && result.source == Some(if cacheHit then FromCache else Source.NotModified)
    {
      if replay.None? && thumbnail == [] && status != Fresh {
        if kind.Some? {
          if status == Status.Failed {
            status := Complete;
            placeholderSource := Some(Fallback);
          }
          thumbnail := assets.byKind[kind.value];
          placeholder := Some(Slug(kind.value));
        } else if status == Status.Failed || placeholder == Some("error") || placeholder == Some("failed") {
          thumbnail := assets.failed;
          placeholder := Some("failed");
        } else {
          thumbnail := assets.unknown;
          placeholder := Some("unknown");
        }
      }
      result := ToResult();
    }
  }

  lemma TokenOrCallerInRange(caller: Option<CacheHints>, found: Option<CacheEntry>)
    requires caller.Some? ==> caller.value.InRange()
    ensures SentHints(caller, found).Some? ==> SentHints(caller, found).value.InRange()
  {
    OwnHintsInRange(found);
  }

  /**
   A whole cook.  Unless it replays a recent answer it ends with a thumbnail,
   but for three cases: the caller's copy was fresh, a 304 answered the
   caller's own validator, or a 304 renewed a stored entry without bytes.
   `stored` is what a handoff leaves in the durable cache.
   */
  method Run(cook: ThumbCook, cfg: Config, assets: Assets, replayed: Option<CookResult>, found: Option<CacheEntry>,
             o: Opening, local: seq<Effect>, start: nat, answers: seq<Option<Remote>>, now: nat)
    returns (result: CookResult, stored: Option<CookResult>)
    requires cook.status == Processing && cook.replay.None? && !cook.cacheHit && cook.thumbnail == []
    requires cook.input == cook.caller && cook.Labelled()
    requires cook.caller.Some? ==> cook.caller.value.InRange()
    requires 0 < now && now + cfg.freshnessTtl < U64_MAX
    requires Local(local)
    requires |answers| == 2 && assets.Valid()
    modifies cook
    ensures replayed.None? ==> (result.thumbnail == [] <==> NothingSent(cook.caller, found, o, now))
    ensures replayed.None? && result.thumbnail == [] ==>
              && result.status == Success
              && (result.source == Some(FromCache) || (result.source == Some(Source.NotModified) && cook.caller.Some?))
              && (result.source == Some(FromCache) <==> Confirmed(cook.caller, found, o, now) && OwnHints(found).Some?)
    ensures replayed.None? && result.source == Some(FromCache) ==>
              found.Some? && (found.value.media.thumbnail != [] ==> result.thumbnail == found.value.media.thumbnail)
    ensures replayed.Some? ==> Some(result) == Replayed(replayed)
    // a stored entry that is fresh, for a caller who holds nothing fresh, is the answer
    ensures replayed.None? && !CallerFresh(cook.caller, now) ==>
              (EntryFresh(found, now) ==> result.source == Some(FromCache))
    // a refusal is reported as what it is
    ensures replayed.None? && OriginAsked(cook.caller, found, now) ==>
              var refused := Classify(o, Sent(cook.caller, found).Some?);
              refused != Processing && refused != Fresh ==> Reports(result, assets, old(cook.Shown()).(status := refused))
    // and of content the caller gets what the steps made of it
    ensures replayed.None? && Opened(cook.caller, found, o, now) ==>
              && (forall n :: Ends(local, n) ==> Reports(result, assets, AfterSteps(old(cook.Shown()), local[..n + 1])))
              && (StillOpen(local) ==>
                    Reports(result, assets, HandedOn(AfterSteps(old(cook.Shown()), local), start, answers)))
    ensures var asked := replayed.None? && Opened(cook.caller, found, o, now) && StillOpen(local);
              if asked && Chosen(start, answers).Some? then Kept(Chosen(start, answers).value, stored) else stored.None?
  {
    hide Freshness.Revalidated, Renewed, FromToken, OwnHints, SentHints, Sent, Classify;
    hide AfterSteps, HandedOn, Reports, Ends, StillOpen, Kept, Chosen, CallerFresh, EntryFresh, Local;
    stored := None;
    var done, renewal := cook.ResolveCache(cfg, replayed, found, o, now);
    assert replayed.None? ==> (!done <==> Opened(cook.caller, found, o, now));
    if done {
      result := cook.Finish(assets);
    } else {
      hide Confirmed, Opened;
      result, stored := Serve(cook, assets, local, start, answers);
    }
  }

  /** The rest of a cook whose source was opened. */
  method Serve(cook: ThumbCook, assets: Assets, local: seq<Effect>, start: nat, answers: seq<Option<Remote>>)
    returns (result: CookResult, stored: Option<CookResult>)
    requires cook.status == Processing && cook.replay.None? && !cook.cacheHit && cook.Labelled()
    requires Local(local) && |answers| == 2 && assets.Valid()
    modifies cook
    ensures result.thumbnail != [] && result.source != Some(FromCache) && result.source != Some(Source.NotModified)
    ensures forall n :: Ends(local, n) ==> Reports(result, assets, AfterSteps(old(cook.Shown()), local[..n + 1]))
    ensures StillOpen(local) ==>
              Reports(result, assets, HandedOn(AfterSteps(old(cook.Shown()), local), start, answers))
    ensures if StillOpen(local) && Chosen(start, answers).Some? then Kept(Chosen(start, answers).value, stored)
            else stored.None?
  {
    hide AfterSteps, HandedOn, Reports, Ends, StillOpen, Kept, Chosen, Local;
    stored := cook.Produce(local, start, answers);
    result := cook.Finish(assets);
  }

  /** An entry stored with the token of hints that have a validator: stale from their expiry on, and confirmable. */
  lemma StoredGoesStale(h: CacheHints, picture: Picture, ttl: nat, now: nat, until: nat, later: nat)
    requires h.InRange() && TokenLaws.ValidatorsSafe(h) && !h.DisallowCaching() && h.ToConditional().Some?
    requires 0 < Epoch(h, ttl, now) <= later && Epoch(h, ttl, now) <= U64_MAX
    ensures var entry := NewEntry(WithToken(picture, Token(h, ttl, now)), 0, until, 0, now);
      OwnHints(Some(entry)).Some? && !entry.IsFresh(later)
  {
    TokenLaws.ConditionalSurvivesIff(h, ttl, now);
    TokenLaws.TokenOpens(h, ttl, now);
    hide FromToken, Token, Epoch, TokenLaws.ValidatorsSafe;
  }

  lemma StoredBytes(m: Media, until: nat, now: nat)
    ensures NewEntry(m, 0, until, 0, now).media.thumbnail == m.thumbnail
  {
  }

  /** Tier 2, the last one, stands in for the file; its picture is stored without the bytes that were dropped on the way. */
  method StandInStored(cfg: Config, assets: Assets, local: seq<Effect>, kind: Kind, headers: Headers, now: nat)
    returns (answer: CookResult, stored: CookResult)
    requires Local(local) && StillOpen(local)
    requires assets.Valid() && 0 < now && now + cfg.freshnessTtl < U64_MAX
    ensures answer.thumbnail != [] && stored.thumbnail == [] && stored.placeholder == Slug(kind)
  {
    var standIn := Answered(Success, Some(Fallback), Some(Picture([], kind, Slug(kind))));
    var answers := [Some(standIn), None];
    assert Taken(2, answers, 0);
    assert Opened(None, None, Response(200, headers), now);
    assert !NothingSent(None, None, Response(200, headers), now);
    hide Taken, Opened, NothingSent, Confirmed, Classify, OwnHints, Local, StillOpen;
    var cook := new ThumbCook(None);
    var kept: Option<CookResult>;
    answer, kept := Run(cook, cfg, assets, None, None, Response(200, headers), local, 2, answers, now);
    stored := kept.value;
  }

  /** A picture made on the spot is the answer, as a render or a shortcut. */
  method RenderedAnswer(cfg: Config, assets: Assets, kind: Kind, picture: seq<byte>, shortcut: bool, headers: Headers,
                        now: nat)
    returns (answer: CookResult)
    requires assets.Valid() && 0 < now && now + cfg.freshnessTtl < U64_MAX && picture != []
    ensures answer == CookResult(Success, Some(if shortcut then FromShortcut else FromRender), picture, "")
  {
    var inspected := Effect(Processing, None, None, None, Some(kind), false);
    var rendered := Effect(Complete, Some(picture), None, None, None, shortcut);
    var local := [inspected, rendered];
    assert Ends(local, 1) && local[..2] == local;
    assert local[..1] == [inspected];
    assert OwnHints(None).None?;
    var cook := new ThumbCook(None);
    var start := View(Processing, [], None, None, None, false);
    assert AfterSteps(start, [inspected]) == AfterStep(AfterSteps(start, []), inspected);
    assert AfterSteps(start, local) == View(Complete, picture, None, None, Some(kind), shortcut);
    assert Opened(None, None, Response(200, headers), now);
    hide AfterSteps, Ends, Opened, NothingSent, Confirmed, Classify, OwnHints, StillOpen, HandedOn;
    var stored;
    answer, stored := Run(cook, cfg, assets, None, None, Response(200, headers), local, 2, [None, None], now);
    assert Reports(answer, assets, AfterSteps(start, local[..2]));
  }

  /** A 304 that renews an entry without bytes is answered from the cache, with none. */
  method RenewedEmpty(cfg: Config, assets: Assets, entry: CacheEntry, now: nat) returns (answer: CookResult)
    requires assets.Valid() && 0 < now && now + cfg.freshnessTtl < U64_MAX
    requires entry.media.thumbnail == [] && OwnHints(Some(entry)).Some? && !entry.IsFresh(now)
    ensures answer.thumbnail == [] && answer.source == Some(FromCache) && answer.status == Success
  {
    assert Confirmed(None, Some(entry), Response(304, map[]), now);
    assert NothingSent(None, Some(entry), Response(304, map[]), now);
    hide Opened, NothingSent, Confirmed, Classify, OwnHints;
    var cook := new ThumbCook(None);
    var stored: Option<CookResult>;
    answer, stored := Run(cook, cfg, assets, None, Some(entry), Response(304, map[]), [], 2, [None, None], now);
  }

  /**
   How an empty answer comes about: a stand-in is stored without bytes under
   the validator of the file; once it is stale, a caller whose request
   confirms that validator gets those bytes.
   */
  method EmptyAnswer(cfg: Config, assets: Assets, local: seq<Effect>, kind: Kind, headers: Headers, now: nat,
                     later: nat)
    returns (first: CookResult, second: CookResult)
    requires Local(local) && StillOpen(local)
    requires assets.Valid() && 0 < now <= later && later + cfg.freshnessTtl < U64_MAX
    requires FromHeaders(headers, now).Some?
    requires var h := FromHeaders(headers, now).value;
      && h.InRange() && TokenLaws.ValidatorsSafe(h) && !h.DisallowCaching() && h.ToConditional().Some?
      && 0 < Epoch(h, cfg.freshnessTtl, now) <= later
    ensures first.thumbnail != []
    ensures second.thumbnail == [] && second.source == Some(FromCache)
  {
    var h := FromHeaders(headers, now).value;
    hide FromHeaders, Token, Epoch, FromToken, TokenLaws.ValidatorsSafe, OwnHints, NewEntry;
    var stored;
    first, stored := StandInStored(cfg, assets, local, kind, headers, now);
    var m := WithToken(Picture(stored.thumbnail, kind, stored.placeholder), Token(h, cfg.freshnessTtl, now));
    var entry := NewEntry(m, 0, later + 1, 0, now);
    StoredGoesStale(h, Picture(stored.thumbnail, kind, stored.placeholder), cfg.freshnessTtl, now, later + 1, later);
    StoredBytes(m, later + 1, now);
    second := RenewedEmpty(cfg, assets, entry, later);
  }
}
