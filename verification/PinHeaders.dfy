/**
 The HTTP presentation of a pinned thumbnail: its validators, whether the
 caller's copy is still current, and a Cache-Control that never outlives the pin.
 */
module PinHeaders {
  import opened Prelude
  import opened Text
  import opened CacheHints
  import opened Freshness
  import opened MemoryCache
  import IfNoneMatch

  datatype PinHeaders = PinHeaders(
    etag: string, lastModified: Option<string>, cacheControl: string, notModified: bool)

  function Characters(b: seq<byte>): (s: string)
    ensures |s| == |b|
  {
    seq(|b|, i requires 0 <= i < |b| => b[i] as char)
  }

  /** The hints behind a pin; an empty token is uncacheable. */
  function Hints(cache: string): Option<CacheHints> {
    if cache == "" then Some(EMPTY.(noStore := true)) else FromToken(cache)
  }

  /** Printable, and quoted once a weak prefix is set aside. */
  predicate SendableTag(tag: string) {
    && (forall i :: 0 <= i < |tag| ==> ' ' <= tag[i] && tag[i] != 0x7F as char)
    && "\"" <= IfNoneMatch.WithoutWeak(tag)
    && tag != "" && tag[|tag| - 1] == '"'
  }

  //  Cache-Control

  /** Seconds for which the thumbnail is fresh: neither its expiry nor the pin is overrun. */
  function MaxAge(h: CacheHints, until: nat, now: nat): nat {
    SaturatingSub(Min(h.expiresAt.GetOr(0), until), now)
  }

  /** Seconds after that in which it may be used stale. */
  function StaleWindow(h: CacheHints, until: nat, now: nat): nat {
    Min(h.staleWhileRevalidate.GetOr(0), SaturatingSub(until, SaturatingAdd(now, MaxAge(h, until, now))))
  }

  function Flag(key: string): Directive {
    Directive(key, None)
  }

  function Seconds(key: string, n: nat): Directive {
    Directive(key, Some(Print(n, 10)))
  }

  /** The directives of a reusable thumbnail. */
  function Policy(h: CacheHints, until: nat, now: nat): (ds: seq<Directive>)
    ensures 2 <= |ds|
  {
    var maxAge, stale := MaxAge(h, until, now), StaleWindow(h, until, now);
    [Flag(if h.isPrivate then "private" else "public"), Seconds("max-age", maxAge)]
    + (if maxAge > 0 && h.immutable then [Flag("immutable")] else [])
    + (if stale > 0 then [Seconds("stale-while-revalidate", stale)] else [])
  }

  function Written(d: Directive): string {
    if d.value.Some? then d.key + "=" + d.value.value else d.key
  }

  function WrittenAll(ds: seq<Directive>): (parts: seq<string>)
    ensures |parts| == |ds|
  {
    seq(|ds|, i requires 0 <= i < |ds| => Written(ds[i]))
  }

  function CacheControl(h: CacheHints, until: nat, now: nat): string {
    if h.noStore then "no-store"
    else if h.noCache then "no-cache"
    else Join(WrittenAll(Policy(h, until, now)))
  }

  /** The policy text, pushed piece by piece. */
  method WritePolicy(h: CacheHints, until: nat, now: nat) returns (policy: string)
    ensures policy == CacheControl(h, until, now)
  {
    hide Written;
    var maxAge := SaturatingSub(Min(h.expiresAt.GetOr(0), until), now);
    if h.noStore {
      return "no-store";
    }
    if h.noCache {
      return "no-cache";
    }
    var scope, age := Flag(if h.isPrivate then "private" else "public"), Seconds("max-age", maxAge);
    policy := Written(scope) + (", " + Written(age));
    JoinOfTwo(scope, age);
    ghost var parts := [scope, age];
    if maxAge > 0 && h.immutable {
      policy := policy + (", " + Written(Flag("immutable")));
      JoinPush(parts, Flag("immutable"));
      parts := parts + [Flag("immutable")];
    }
    if h.staleWhileRevalidate.Some? && !h.noCache {
      var stale := Min(h.staleWhileRevalidate.value, SaturatingSub(until, SaturatingAdd(now, maxAge)));
      if stale > 0 {
        policy := policy + (", " + Written(Seconds("stale-while-revalidate", stale)));
        JoinPush(parts, Seconds("stale-while-revalidate", stale));
        parts := parts + [Seconds("stale-while-revalidate", stale)];
      }
    }
    assert parts == Policy(h, until, now);
  }

  lemma JoinOfTwo(d: Directive, e: Directive)
    ensures Join(WrittenAll([d, e])) == Written(d) + (", " + Written(e))
  {
    hide Written;
    assert WrittenAll([d, e])[1..] == [Written(e)];
  }

  lemma {:induction false} JoinPush(ds: seq<Directive>, last: Directive)
    requires ds != []
    ensures Join(WrittenAll(ds + [last])) == Join(WrittenAll(ds)) + (", " + Written(last))
    decreases |ds|
  {
    hide Written;
    if |ds| == 1 {
      JoinOfTwo(ds[0], last);
      assert ds + [last] == [ds[0], last];
    } else {
      var rest := ds[1..];
      JoinPush(rest, last);
      assert WrittenAll(ds)[1..] == WrittenAll(rest);
      assert WrittenAll(ds + [last])[1..] == WrittenAll(rest + [last]);
      Regroup(Written(ds[0]), Join(WrittenAll(rest)), Written(last));
    }
  }

  lemma Regroup(a: string, b: string, c: string)
    ensures a + (", " + (b + (", " + c))) == (a + (", " + b)) + (", " + c)
  {
  }

  //  The response

  /** `dateOf` reads an HTTP date; `digest` is the hash of the bytes. */
  method Headers(pinned: PinnedThumbnail, digest: string, dateOf: string -> Option<nat>, now: nat,
                 ifNoneMatch: Option<string>, ifModifiedSince: Option<string>)
    returns (r: Result<PinHeaders, string>)
    ensures r.Ok? ==>
      && Hints(pinned.cache).Some?
      && var h := Hints(pinned.cache).value;
         && SendableTag(r.value.etag)
         && r.value.etag == (if h.etag.Some? then Characters(h.etag.value) else "\"" + digest + "\"")
         && r.value.cacheControl == CacheControl(h, pinned.until, now)
         && (ifNoneMatch.Some? ==> r.value.notModified == IfNoneMatch.ValueMatches(r.value.etag, ifNoneMatch.value))
         && (ifNoneMatch.None? ==>
               (r.value.notModified <==>
                  && r.value.lastModified.Some? && ifModifiedSince.Some?
                  && dateOf(r.value.lastModified.value).Some? && dateOf(ifModifiedSince.value).Some?
                  && dateOf(r.value.lastModified.value).value <= dateOf(ifModifiedSince.value).value))
         && r.value.lastModified == (if h.lastModified.Some? then Some(Characters(h.lastModified.value)) else None)
    ensures r.Err? <==>
      || Hints(pinned.cache).None?
      || var h := Hints(pinned.cache).value;
         || !SendableTag(if h.etag.Some? then Characters(h.etag.value) else "\"" + digest + "\"")
         || (h.lastModified.Some? && dateOf(Characters(h.lastModified.value)).None?)
  {
    var hints := Hints(pinned.cache);
    if hints.None? {
      return Err("invalid cached thumbnail cache hints");
    }
    var h := hints.value;
    var etag := if h.etag.Some? then Characters(h.etag.value) else "\"" + digest + "\"";
    if !SendableTag(etag) {
      return Err("invalid cached thumbnail ETag");
    }
    var lastModified := if h.lastModified.Some? then Some(Characters(h.lastModified.value)) else None;
    var modified := None;
    if lastModified.Some? {
      modified := dateOf(lastModified.value);
      if modified.None? {
        return Err("invalid cached thumbnail Last-Modified");
      }
    }
    var notModified := false;
    if ifNoneMatch.Some? {
      notModified := IfNoneMatch.EtagMatches(etag, [ifNoneMatch.value]);
      assert [ifNoneMatch.value][0] == ifNoneMatch.value;
    } else if modified.Some? && ifModifiedSince.Some? {
      var since := dateOf(ifModifiedSince.value);
      notModified := since.Some? && modified.value <= since.value;
    }
    var policy := WritePolicy(h, pinned.until, now);
    return Ok(PinHeaders(etag, lastModified, policy, notModified));
  }

  /** A tag may be sent exactly when it has no control characters: nothing below a space, and no DEL. */
  lemma QuotedSendableIff(m: IfNoneMatch.Member)
    ensures SendableTag(IfNoneMatch.Tag(m))
       <==> forall i :: 0 <= i < |m.text| ==> 32 <= m.text[i] as int && m.text[i] as int != 127
  {
    var tag := IfNoneMatch.Tag(m);
    assert tag + "" == tag && IfNoneMatch.Quoted(m.text) + "" == IfNoneMatch.Quoted(m.text);
    IfNoneMatch.WeakStripped(m, "");
    IfNoneMatch.TagEnds(m);
    var shift := if m.weak then 3 else 1;
    assert forall i :: 0 <= i < |m.text| ==> tag[shift + i] == m.text[i];
    assert |tag| == shift + |m.text| + 1;
    assert forall i :: shift <= i < |tag| - 1 ==> tag[i] == m.text[i - shift];
  }

  /** What is sent begins with a quote behind a weak prefix, ends with one, and breaks no header line. */
  lemma SendableIsQuoted(tag: string)
    requires SendableTag(tag)
    ensures tag[|tag| - 1] == '"' && (tag[0] == '"' || "W/\"" <= tag)
    ensures '\r' !in tag && '\n' !in tag && '\0' !in tag
  {
  }

  /** A client that sends the tag back is told that nothing changed. */
  lemma OwnTagMatches(m: IfNoneMatch.Member)
    requires '"' !in m.text
    ensures IfNoneMatch.ValueMatches(IfNoneMatch.Tag(m), IfNoneMatch.Tag(m))
  {
    var v := IfNoneMatch.Value("", IfNoneMatch.One(m), "");
    assert IfNoneMatch.Render(v) == IfNoneMatch.Tag(m);
    IfNoneMatch.ListMatches(m, v);
  }

  /** A pin without a token may not be kept by anyone. */
  lemma NoTokenNoStore(until: nat, now: nat)
    ensures Hints("").Some? && CacheControl(Hints("").value, until, now) == "no-store"
    ensures Hints("").value.etag.None? && Hints("").value.lastModified.None?
  {
  }

  /** A pin with a token has the policy its token has. */
  lemma TokenHints(cache: string)
    requires cache != ""
    ensures Hints(cache) == FromToken(cache)
  {
  }

  //  What a cache makes of the policy

  /** A word a directive can be named by. */
  predicate Word(key: string) {
    key != "" && forall i :: 0 <= i < |key| ==> 'a' <= key[i] <= 'z' || key[i] == '-'
  }

  /** A directive of ours: a word, alone or with a number. */
  ghost predicate Plain(d: Directive) {
    Word(d.key) && (d.value.Some? ==> exists n: nat :: d.value.value == Print(n, 10))
  }

  lemma WordPlain(key: string)
    requires Word(key)
    ensures Lower(key) == key && Trim(key) == key
    ensures ',' !in key && '=' !in key
    ensures !IsSpace(key[0]) && !IsSpace(key[|key| - 1])
  {
    IfNoneMatch.TrimSolid(key);
    IfNoneMatch.TrimEndSolid(key);
  }

  lemma DigitsPlain(n: nat)
    ensures Trim(Print(n, 10)) == Print(n, 10)
    ensures ',' !in Print(n, 10) && !IsSpace(Print(n, 10)[|Print(n, 10)| - 1])
  {
    var s := Print(n, 10);
    assert s[0] in s && s[|s| - 1] in s;
    IfNoneMatch.TrimSolid(s);
    IfNoneMatch.TrimEndSolid(s);
  }

  lemma EqualsEnds(key: string, digits: string)
    requires key != "" && digits != ""
    ensures var s := key + "=" + digits;
      && s[0] == key[0] && s[|s| - 1] == digits[|digits| - 1]
      && (',' in s ==> ',' in key || ',' in digits)
  {
  }

  lemma TextEnds(d: Directive)
    requires Plain(d)
    ensures var s := Written(d);
      s != "" && !IsSpace(s[0]) && !IsSpace(s[|s| - 1]) && ',' !in s
  {
    hide IsSpace, Print, Trim, Lower;
    WordPlain(d.key);
    if d.value.Some? {
      var n: nat :| d.value.value == Print(n, 10);
      DigitsPlain(n);
      EqualsEnds(d.key, d.value.value);
    }
  }

  /** A directive written down is read back, with or without a space before it. */
  lemma DirectiveReadsBack(d: Directive, space: string)
    requires Plain(d) && (space == "" || space == " ")
    ensures ParseDirective(space + Written(d)) == d
  {
    hide Lower, IsSpace, Trim;
    var s := Written(d);
    TextEnds(d);
    IfNoneMatch.TrimAround(space, s, "");
    assert s + "" == s;
    WordPlain(d.key);
    if d.value.Some? {
      var n: nat :| d.value.value == Print(n, 10);
      DigitsPlain(n);
      assert s == d.key + ['='] + Print(n, 10);
      IndexOfJoin(d.key, '=', Print(n, 10));
      assert s[..|d.key|] == d.key && s[|d.key| + 1..] == Print(n, 10);
    }
  }

  function Response(policy: string): Freshness.Headers {
    map["cache-control" := policy]
  }

  /** A list of directives written down is read back. */
  lemma ListReadsBack(ds: seq<Directive>)
    requires ds != [] && forall i :: 0 <= i < |ds| ==> Plain(ds[i])
    ensures Directives(Response(Join(WrittenAll(ds)))) == ds
  {
    hide ParseDirective, Written, Plain, Split, Join;
    var parts := WrittenAll(ds);
    forall i | 0 <= i < |parts| ensures ',' !in parts[i] {
      TextEnds(ds[i]);
    }
    SplitJoin(parts);
    var pieces := Split(Join(parts), ',');
    forall i | 0 <= i < |ds|
      ensures ParseDirective(pieces[i]) == ds[i]
    {
      if i == 0 {
        assert "" + Written(ds[0]) == Written(ds[0]);
        DirectiveReadsBack(ds[0], "");
      } else {
        DirectiveReadsBack(ds[i], " ");
      }
    }
  }

  lemma WordsInUse()
    ensures Word("public") && Word("private") && Word("max-age") && Word("immutable")
    ensures Word("stale-while-revalidate") && Word("no-store") && Word("no-cache")
  {
  }

  /** Reading the policy gives back the directives it was written from. */
  lemma PolicyReadsBack(h: CacheHints, until: nat, now: nat)
    requires !h.noStore && !h.noCache
    ensures Directives(Response(CacheControl(h, until, now))) == Policy(h, until, now)
  {
    hide Word, Print, MaxAge, StaleWindow, Join, WrittenAll;
    WordsInUse();
    ListReadsBack(Policy(h, until, now));
  }

  lemma WindowRead(h: CacheHints, until: nat, now: nat)
    requires until <= U64_MAX && h.InRange()
    ensures var ds := Policy(h, until, now);
      && Window(ds) == Some(MaxAge(h, until, now))
      && LastNumber(ds, "stale-while-revalidate", U32_MAX)
         == if StaleWindow(h, until, now) > 0 then Some(StaleWindow(h, until, now)) else None
  {
    hide FirstNumber, LastNumber, Print, Parse;
    var ds := Policy(h, until, now);
    var maxAge, stale := MaxAge(h, until, now), StaleWindow(h, until, now);
    assert maxAge <= U64_MAX && stale <= U32_MAX;
    hide MaxAge, StaleWindow;
    ParsePrint(maxAge, 10, U64_MAX);
    ParsePrint(stale, 10, U32_MAX);
    LastNumberMeaning(ds, "s-maxage", U64_MAX);
    FirstNumberMeaning(ds, "max-age", U64_MAX);
    LastNumberMeaning(ds, "stale-while-revalidate", U32_MAX);
    assert Number(ds[1], "max-age", U64_MAX) == Some(maxAge);
    if stale > 0 {
      assert Number(ds[|ds| - 1], "stale-while-revalidate", U32_MAX) == Some(stale);
    }
  }

  lemma FlagsRead(h: CacheHints, until: nat, now: nat)
    ensures var ds := Policy(h, until, now);
      && (Mentions(ds, "private") <==> h.isPrivate) && !Mentions(ds, "no-store") && !Mentions(ds, "no-cache")
      && (Mentions(ds, "immutable") <==> h.immutable && MaxAge(h, until, now) > 0)
  {
    hide MaxAge, StaleWindow, Print;
    var ds := Policy(h, until, now);
    assert ds[0].key == if h.isPrivate then "private" else "public";
    if h.immutable && MaxAge(h, until, now) > 0 {
      assert ds[2].key == "immutable";
    }
  }

  /**
   A cache that receives a reusable pin at `now` may call it fresh until its
   expiry or the end of the pin, whichever comes first, and use it stale for
   its window, but not past the end of the pin.
   */
  lemma PinNeverOutlived(h: CacheHints, until: nat, now: nat)
    requires h.InRange() && until <= U64_MAX && now <= U64_MAX
    requires !h.noStore && !h.noCache
    ensures var seen := FromHeaders(Response(CacheControl(h, until, now)), now);
      && seen.Some? && seen.value.expiresAt.Some?
      && var end, stale := seen.value.expiresAt.value, seen.value.staleWhileRevalidate.GetOr(0);
         && end == Max(now, Min(h.expiresAt.GetOr(0), until))
         && end + stale == Max(end, Min(end + h.staleWhileRevalidate.GetOr(0), until))
         && end + stale <= Max(now, until)
         && seen.value.isPrivate == h.isPrivate && !seen.value.noStore && !seen.value.noCache
  {
    hide Directives, Window, LastNumber, CacheControl, Policy, Mentions;
    PolicyReadsBack(h, until, now);
    WindowRead(h, until, now);
    FlagsRead(h, until, now);
  }

  /** A pin that may not be reused says so. */
  lemma UncacheablePinSaysSo(h: CacheHints, until: nat, now: nat, later: nat)
    requires h.noStore || h.noCache
    ensures var seen := FromHeaders(Response(CacheControl(h, until, now)), now);
      && seen.Some? && !seen.value.IsFresh(later)
      && (h.noStore ==> seen.value.noStore) && (!h.noStore ==> seen.value.noCache)
  {
    hide Directives, Window, LastNumber, Word;
    var d := Flag(if h.noStore then "no-store" else "no-cache");
    WordsInUse();
    ListReadsBack([d]);
    assert Join(WrittenAll([d])) == d.key == CacheControl(h, until, now);
    assert [d][0].key == d.key;
  }
}
