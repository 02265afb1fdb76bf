/**
 Freshness read from response headers, and its renewal by a 304.
 */
module Freshness {
  import opened Prelude
  import opened Text
  import opened CacheHints

  /** Response headers by lower-case name. */
  type Headers = map<string, string>

  datatype Directive = Directive(key: string, value: Option<string>)

  /** Header text is visible ASCII, so its characters are its octets. */
  function Octets(s: string): (b: seq<byte>)
    ensures |b| == |s|
  {
    seq(|s|, i requires 0 <= i < |s| => s[i] as int % 256)
  }

  /** One comma-separated part of Cache-Control. */
  function ParseDirective(part: string): Directive {
    var text := Trim(part);
    var eq := IndexOf(text, '=');
    if eq == |text| then Directive(Lower(text), None)
    else Directive(Lower(Trim(text[..eq])), Some(Trim(text[eq + 1..])))
  }

  function ParseDirectives(parts: seq<string>): (ds: seq<Directive>)
    ensures |ds| == |parts|
  {
    seq(|parts|, i requires 0 <= i < |parts| => ParseDirective(parts[i]))
  }

  function Directives(headers: Headers): seq<Directive> {
    if "cache-control" in headers then ParseDirectives(Split(headers["cache-control"], ',')) else []
  }

  function Number(d: Directive, key: string, max: nat): Option<nat> {
    if d.key == key && d.value.Some? then Parse(d.value.value, 10, max) else None
  }

  predicate Mentions(ds: seq<Directive>, key: string) {
    exists i :: 0 <= i < |ds| && ds[i].key == key
  }

  /** The value of the last directive `key` whose number parses. */
  function LastNumber(ds: seq<Directive>, key: string, max: nat): Option<nat> {
    if ds == [] then None
    else
      var last := Number(ds[|ds| - 1], key, max);
      if last.Some? then last else LastNumber(ds[..|ds| - 1], key, max)
  }

  /** The value of the first directive `key` whose number parses. */
  function FirstNumber(ds: seq<Directive>, key: string, max: nat): Option<nat> {
    if ds == [] then None
    else
      var n := Number(ds[0], key, max);
      if n.Some? then n else FirstNumber(ds[1..], key, max)
  }

  /** The freshness window: `s-maxage` beats `max-age` wherever it stands. */
  function Window(ds: seq<Directive>): Option<nat> {
    var shared := LastNumber(ds, "s-maxage", U64_MAX);
    if shared.Some? then shared else FirstNumber(ds, "max-age", U64_MAX)
  }

  function Age(headers: Headers): nat {
    if "age" in headers then Parse(Trim(headers["age"]), 10, U64_MAX).GetOr(0) else 0
  }

  /** A header that is present and not blank. */
  function Validator(headers: Headers, name: string): Option<seq<byte>> {
    if name in headers && Trim(headers[name]) != "" then Some(Octets(Trim(headers[name]))) else None
  }

  /** What a response says about its freshness; `None` when it says nothing. */
  function FromHeaders(headers: Headers, now: nat): Option<CacheHints> {
    var ds := Directives(headers);
    var window := Window(ds);
    var hints := CacheHints(
      if window.Some? then Some(SaturatingAdd(now, SaturatingSub(window.value, Age(headers)))) else None,
      LastNumber(ds, "stale-while-revalidate", U32_MAX),
      if window.Some? && window.value <= U32_MAX then window else None,
      Mentions(ds, "immutable"),
      Validator(headers, "etag"),
      if "etag" in headers then None else Validator(headers, "last-modified"),
      Mentions(ds, "no-store"), Mentions(ds, "private"), Mentions(ds, "no-cache"));
    var any :=
      || window.Some? || hints.staleWhileRevalidate.Some? || hints.immutable
      || hints.etag.Some? || hints.lastModified.Some? || hints.noStore || hints.isPrivate || hints.noCache;
    if any then Some(hints) else None
  }

  lemma {:induction false} FirstNumberAppend(ds: seq<Directive>, d: Directive, key: string, max: nat)
    ensures FirstNumber(ds + [d], key, max)
         == if FirstNumber(ds, key, max).Some? then FirstNumber(ds, key, max) else Number(d, key, max)
  {
    if ds == [] {
      assert FirstNumber([d][1..], key, max).None?;
    } else {
      FirstNumberAppend(ds[1..], d, key, max);
      assert (ds + [d])[1..] == ds[1..] + [d];
    }
  }

  lemma MentionsAppend(ds: seq<Directive>, d: Directive, key: string)
    ensures Mentions(ds + [d], key) <==> Mentions(ds, key) || d.key == key
  {
    if d.key == key {
      assert (ds + [d])[|ds|].key == key;
    }
    if Mentions(ds, key) {
      var i :| 0 <= i < |ds| && ds[i].key == key;
      assert (ds + [d])[i].key == key;
    }
  }

  /** How the window changes with one more directive. */
  lemma WindowAppend(ds: seq<Directive>, d: Directive)
    ensures LastNumber(ds + [d], "s-maxage", U64_MAX)
         == if Number(d, "s-maxage", U64_MAX).Some? then Number(d, "s-maxage", U64_MAX)
            else LastNumber(ds, "s-maxage", U64_MAX)
    ensures FirstNumber(ds + [d], "max-age", U64_MAX)
         == if FirstNumber(ds, "max-age", U64_MAX).Some? then FirstNumber(ds, "max-age", U64_MAX)
            else Number(d, "max-age", U64_MAX)
  {
    assert (ds + [d])[..|ds|] == ds;
    FirstNumberAppend(ds, d, "max-age", U64_MAX);
  }

  /** What the directive loop has seen so far. */
  ghost predicate Seen(ds: seq<Directive>, window: Option<nat>, hints: CacheHints, any: bool) {
    && window == Window(ds)
    && hints == EMPTY.(staleWhileRevalidate := LastNumber(ds, "stale-while-revalidate", U32_MAX),
                       immutable := Mentions(ds, "immutable"), noStore := Mentions(ds, "no-store"),
                       isPrivate := Mentions(ds, "private"), noCache := Mentions(ds, "no-cache"))
    && (any <==> hints.staleWhileRevalidate.Some? || hints.immutable || hints.noStore || hints.isPrivate
                 || hints.noCache)
  }

  /** One turn of the directive loop. */
  method ReadDirective(d: Directive, window: Option<nat>, hints: CacheHints, any: bool, ghost before: seq<Directive>)
    returns (window': Option<nat>, hints': CacheHints, any': bool)
    requires Seen(before, window, hints, any)
    ensures Seen(before + [d], window', hints', any')
  {
    window', hints', any' := window, hints, any;
    if d.key == "s-maxage" {
      var v := Number(d, "s-maxage", U64_MAX);
      if v.Some? {
        window' := v;
      }
    } else if d.key == "max-age" && window.None? {
      var v := Number(d, "max-age", U64_MAX);
      if v.Some? {
        window' := v;
      }
    } else if d.key == "immutable" {
      hints', any' := hints.(immutable := true), true;
    } else if d.key == "stale-while-revalidate" {
      var v := Number(d, "stale-while-revalidate", U32_MAX);
      if v.Some? {
        hints', any' := hints.(staleWhileRevalidate := v), true;
      }
    } else if d.key == "no-store" {
      hints', any' := hints.(noStore := true), true;
    } else if d.key == "no-cache" {
      hints', any' := hints.(noCache := true), true;
    } else if d.key == "private" {
      hints', any' := hints.(isPrivate := true), true;
    }
    hide Parse, FirstNumber, Mentions;
    WindowAppend(before, d);
    assert (before + [d])[..|before|] == before;
    MentionsAppend(before, d, "immutable");
    MentionsAppend(before, d, "no-store");
    MentionsAppend(before, d, "no-cache");
    MentionsAppend(before, d, "private");
  }

  /** The directive loop. */
  method ReadDirectives(ds: seq<Directive>) returns (window: Option<nat>, hints: CacheHints, any: bool)
    ensures Seen(ds, window, hints, any)
  {
    window, hints, any := None, EMPTY, false;
    for i := 0 to |ds|
      invariant Seen(ds[..i], window, hints, any)
    {
      assert ds[..i + 1] == ds[..i] + [ds[i]];
      window, hints, any := ReadDirective(ds[i], window, hints, any, ds[..i]);
    }
    assert ds[..|ds|] == ds;
  }

  /** The header parser as it runs: Cache-Control, then Age, then the validators. */
  method FromResponseHeaders(headers: Headers, now: nat) returns (r: Option<CacheHints>)
    ensures r == FromHeaders(headers, now)
  {
    hide Trim, Directives, Window, Age, LastNumber, Mentions;
    var window, hints, any := ReadDirectives(Directives(headers));
    if window.Some? {
      var remaining := SaturatingSub(window.value, Age(headers));
      hints := hints.(expiresAt := Some(SaturatingAdd(now, remaining)),
                      maxAge := if window.value <= U32_MAX then window else None);
      any := true;
    }
    if "etag" in headers {
      var v := Octets(Trim(headers["etag"]));
      if v != [] {
        hints, any := hints.(etag := Some(v)), true;
      }
    } else if "last-modified" in headers {
      var v := Octets(Trim(headers["last-modified"]));
      if v != [] {
        hints, any := hints.(lastModified := Some(v)), true;
      }
    }
    return if any then Some(hints) else None;
  }

  /** The merge of stored hints with the headers of a 304. */
  function Revalidated(prior: CacheHints, headers: Headers, ttl: nat, now: nat): CacheHints {
    var updated := FromHeaders(headers, now);
    var merged := if updated.Some? then MergeUpdate(prior, updated.value, "cache-control" in headers) else prior;
    var explicit := updated.Some? && "cache-control" in headers && updated.value.expiresAt.Some?;
    if !explicit && !merged.noCache && !merged.DisallowCaching() then
      merged.(expiresAt := Some(SaturatingAdd(now, merged.maxAge.GetOr(ttl))))
    else merged
  }

  function MergeUpdate(prior: CacheHints, updated: CacheHints, hasPolicy: bool): CacheHints {
    var m := if hasPolicy then
               prior.(noCache := updated.noCache, noStore := updated.noStore, isPrivate := updated.isPrivate,
                      immutable := updated.immutable, staleWhileRevalidate := updated.staleWhileRevalidate,
                      maxAge := if updated.maxAge.Some? then updated.maxAge else prior.maxAge)
             else prior;
    m.(expiresAt := if updated.expiresAt.Some? then updated.expiresAt else m.expiresAt,
       etag := if updated.etag.Some? then updated.etag else m.etag,
       lastModified := if updated.lastModified.Some? then updated.lastModified else m.lastModified)
  }

  /** The policy in force after a 304: its own when its Cache-Control says anything usable, else the stored one. */
  predicate ForbidsReuse(prior: CacheHints, headers: Headers, now: nat) {
    if FromHeaders(headers, now).Some? && "cache-control" in headers then
      var ds := Directives(headers);
      Mentions(ds, "no-cache") || Mentions(ds, "no-store") || Mentions(ds, "private")
    else prior.noCache || prior.noStore || prior.isPrivate
  }

  /** After a 304, when are the merged hints fresh? */
  lemma RevalidationLaw(prior: CacheHints, headers: Headers, ttl: nat, now: nat)
    requires now < U64_MAX
    ensures Revalidated(prior, headers, ttl, now).IsFresh(now)
       <==> && !ForbidsReuse(prior, headers, now)
            && match Window(Directives(headers))
               case Some(window) => Age(headers) < window
               case None => 0 < prior.maxAge.GetOr(ttl)
  {
  }

  /** At every later moment: the time since the response and the Age it came with use up its window. */
  lemma FreshFor(headers: Headers, now: nat, later: nat)
    requires now <= later < U64_MAX
    ensures var hints := FromHeaders(headers, now);
      var ds := Directives(headers);
      hints.Some? && hints.value.IsFresh(later)
      <==> && !Mentions(ds, "no-cache") && !Mentions(ds, "no-store") && !Mentions(ds, "private")
           && Window(ds).Some? && later - now + Age(headers) < Window(ds).value
  {
  }

  /** And of a 304: its window less its Age, or, without one, the recorded or default lifetime from its arrival on. */
  lemma RenewedFor(prior: CacheHints, headers: Headers, ttl: nat, now: nat, later: nat)
    requires now <= later < U64_MAX
    ensures Revalidated(prior, headers, ttl, now).IsFresh(later)
       <==> && !ForbidsReuse(prior, headers, now)
            && match Window(Directives(headers))
               case Some(window) => later - now + Age(headers) < window
               case None => later - now < prior.maxAge.GetOr(ttl)
  {
  }

  /** A response says nothing exactly when it has no number that counts, no flag, and no validator. */
  lemma SaysNothingIff(headers: Headers, now: nat)
    ensures var ds := Directives(headers);
      FromHeaders(headers, now).None?
      <==> && Window(ds).None? && LastNumber(ds, "stale-while-revalidate", U32_MAX).None?
           && !Mentions(ds, "immutable") && !Mentions(ds, "no-store") && !Mentions(ds, "private")
           && !Mentions(ds, "no-cache")
           && Validator(headers, "etag").None? && ("etag" in headers || Validator(headers, "last-modified").None?)
  {
  }

  /** A window is recorded as the lifetime if it fits 32 bits, whatever the Age; Age counts only when it is a number. */
  lemma RecordedLifetime(headers: Headers, now: nat)
    ensures var window := Window(Directives(headers));
      window.Some? ==>
        && FromHeaders(headers, now).Some?
        && FromHeaders(headers, now).value.maxAge == if window.value < 0x1_0000_0000 then window else None
    ensures "age" !in headers || Parse(Trim(headers["age"]), 10, U64_MAX).None? ==> Age(headers) == 0
  {
  }

  /** The policy after a 304 is its own in every part when its Cache-Control says anything, and the stored one otherwise. */
  lemma RevalidatedPolicy(prior: CacheHints, headers: Headers, ttl: nat, now: nat)
    ensures var m, ds := Revalidated(prior, headers, ttl, now), Directives(headers);
      if FromHeaders(headers, now).Some? && "cache-control" in headers then
        && m.immutable == Mentions(ds, "immutable") && m.noStore == Mentions(ds, "no-store")
        && m.isPrivate == Mentions(ds, "private") && m.noCache == Mentions(ds, "no-cache")
        && m.staleWhileRevalidate == LastNumber(ds, "stale-while-revalidate", U32_MAX)
        && (Window(ds).Some? && Window(ds).value < 0x1_0000_0000 ==> m.maxAge == Window(ds))
        && (Window(ds).None? ==> m.maxAge == prior.maxAge)
      else
        && m.immutable == prior.immutable && m.noStore == prior.noStore && m.isPrivate == prior.isPrivate
        && m.noCache == prior.noCache && m.staleWhileRevalidate == prior.staleWhileRevalidate
        && m.maxAge == prior.maxAge
  {
  }

  /** Sixty seconds of which fifty are over when the response comes: ten are left. */
  lemma AgedResponse(headers: Headers, now: nat, later: nat)
    requires now <= later < U64_MAX && Window(Directives(headers)) == Some(60) && Age(headers) == 50
    requires var ds := Directives(headers);
      !Mentions(ds, "no-cache") && !Mentions(ds, "no-store") && !Mentions(ds, "private")
    ensures var hints := FromHeaders(headers, now); hints.Some? && (hints.value.IsFresh(later) <==> later < now + 10)
  {
  }

  /** Validators a 304 omits are kept, and those it sends replace the stored ones. */
  lemma RevalidationValidators(prior: CacheHints, headers: Headers, ttl: nat, now: nat)
    ensures var m := Revalidated(prior, headers, ttl, now);
      && m.etag == (if Validator(headers, "etag").Some? then Validator(headers, "etag") else prior.etag)
      && m.lastModified ==
         (if "etag" !in headers && Validator(headers, "last-modified").Some? then Validator(headers, "last-modified")
          else prior.lastModified)
  {
  }

  /** A 304 without a window of its own never shortens the recorded lifetime. */
  lemma RecordedLifetimeRestarts(prior: CacheHints, headers: Headers, ttl: nat, now: nat)
    requires Window(Directives(headers)).None? && !ForbidsReuse(prior, headers, now)
    ensures var m := Revalidated(prior, headers, ttl, now);
      m.maxAge == prior.maxAge && m.expiresAt == Some(SaturatingAdd(now, prior.maxAge.GetOr(ttl)))
  {
  }

  //  The window, whatever the order of the directives

  /** The value of `d`, somewhere in the list, is the first or last that parses. */
  lemma {:induction false} LastNumberMeaning(ds: seq<Directive>, key: string, max: nat)
    ensures match LastNumber(ds, key, max)
      case Some(v) => exists i :: 0 <= i < |ds| && Number(ds[i], key, max) == Some(v)
                        && forall j :: i < j < |ds| ==> Number(ds[j], key, max).None?
      case None => forall i :: 0 <= i < |ds| ==> Number(ds[i], key, max).None?
  {
    if ds != [] {
      var front := ds[..|ds| - 1];
      LastNumberMeaning(front, key, max);
      var last := Number(ds[|ds| - 1], key, max);
      if last.None? && LastNumber(front, key, max).Some? {
        var i :| 0 <= i < |front| && Number(front[i], key, max) == LastNumber(front, key, max)
                 && forall j :: i < j < |front| ==> Number(front[j], key, max).None?;
        assert Number(ds[i], key, max) == LastNumber(ds, key, max);
        forall j | i < j < |ds| ensures Number(ds[j], key, max).None? {
          if j < |front| {
            assert Number(front[j], key, max).None?;
          }
        }
      } else if last.None? {
        forall i | 0 <= i < |ds| ensures Number(ds[i], key, max).None? {
          if i < |front| {
            assert Number(front[i], key, max).None?;
          }
        }
      }
    }
  }

  lemma {:induction false} FirstNumberMeaning(ds: seq<Directive>, key: string, max: nat)
    ensures match FirstNumber(ds, key, max)
      case Some(v) => exists i :: 0 <= i < |ds| && Number(ds[i], key, max) == Some(v)
                        && forall j :: 0 <= j < i ==> Number(ds[j], key, max).None?
      case None => forall i :: 0 <= i < |ds| ==> Number(ds[i], key, max).None?
  {
    if ds != [] {
      FirstNumberMeaning(ds[1..], key, max);
      if Number(ds[0], key, max).None? && FirstNumber(ds[1..], key, max).Some? {
        var i :| 0 <= i < |ds[1..]| && Number(ds[1..][i], key, max) == FirstNumber(ds[1..], key, max)
                 && forall j :: 0 <= j < i ==> Number(ds[1..][j], key, max).None?;
        assert Number(ds[i + 1], key, max) == FirstNumber(ds, key, max);
        forall j | 0 <= j < i + 1 ensures Number(ds[j], key, max).None? {
          if 0 < j {
            assert Number(ds[1..][j - 1], key, max).None?;
          }
        }
      } else if Number(ds[0], key, max).None? {
        forall i | 0 <= i < |ds| ensures Number(ds[i], key, max).None? {
          if 0 < i {
            assert Number(ds[1..][i - 1], key, max).None?;
          }
        }
      }
    }
  }
}
