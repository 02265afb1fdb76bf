/**
 The If-None-Match matcher, against the grammar of entity-tag lists: optional
 whitespace, weak prefixes and weak comparison (sections 8.8.3 and 13.1.2 of
 RFC 9110).
 */
module IfNoneMatch {
  import opened Prelude
  import opened Text

  //  The matcher

  function WithoutWeak(s: string): (t: string)
    ensures |t| <= |s|
  {
    StripPrefix(s, "W/").GetOr(s)
  }

  /** The first quoted tag of `remaining` and the text after its comma; `None` when the text is malformed. */
  function NextTag(remaining: string): (r: Option<(string, string)>)
    ensures r.Some? ==> |r.value.1| < |remaining|
  {
    var tag := WithoutWeak(remaining);
    if tag == "" || tag[0] != '"' then None
    else
      var end := IndexOf(tag[1..], '"');
      if end == |tag| - 1 then None
      else
        var rest := TrimStart(tag[end + 2..]);
        if rest == "" then Some((tag[..end + 2], ""))
        else if rest[0] == ',' then Some((tag[..end + 2], TrimStart(rest[1..])))
        else None
  }

  /** The member loop, from `remaining` on. */
  function AnyTag(etag: string, remaining: string): bool
    decreases |remaining|
  {
    if remaining == "" then false
    else
      var next := NextTag(remaining);
      next.Some? && (next.value.0 == etag || AnyTag(etag, next.value.1))
  }

  function ValueMatches(etag: string, value: string): bool {
    Trim(value) == "*" || AnyTag(WithoutWeak(etag), Trim(value))
  }

  predicate Matches(etag: string, values: seq<string>) {
    exists i :: 0 <= i < |values| && ValueMatches(etag, values[i])
  }

  /** The matcher as it runs: values in turn, members in turn. */
  method EtagMatches(etag: string, values: seq<string>) returns (found: bool)
    ensures found == Matches(etag, values)
  {
    hide AnyTag, Trim, WithoutWeak;
    for i := 0 to |values|
      invariant forall j :: 0 <= j < i ==> !ValueMatches(etag, values[j])
    {
      var hit := MatchValue(WithoutWeak(etag), Trim(values[i]));
      if hit {
        assert ValueMatches(etag, values[i]);
        return true;
      }
    }
    return false;
  }

  method MatchValue(etag: string, value: string) returns (found: bool)
    ensures found == (value == "*" || AnyTag(etag, value))
  {
    var remaining := value;
    if remaining == "*" {
      return true;
    }
    while remaining != ""
      invariant AnyTag(etag, remaining) == AnyTag(etag, value)
      decreases |remaining|
    {
      var next := TakeTag(remaining);
      if next.None? {
        return false;
      }
      remaining := next.value.1;
      if next.value.0 == etag {
        return true;
      }
    }
    return false;
  }

  method TakeTag(remaining: string) returns (r: Option<(string, string)>)
    ensures r == NextTag(remaining)
  {
    hide TrimStart, IndexOf, WithoutWeak;
    var tag := WithoutWeak(remaining);
    if tag == "" || tag[0] != '"' {
      return None;
    }
    var end := IndexOf(tag[1..], '"');
    if end == |tag| - 1 {
      return None;
    }
    var rest := TrimStart(tag[end + 2..]);
    if rest == "" {
      return Some((tag[..end + 2], ""));
    }
    if rest[0] != ',' {
      return None;
    }
    return Some((tag[..end + 2], TrimStart(rest[1..])));
  }

  //  The grammar

  /** One list member: `W/` or not, and the opaque text. */
  datatype Member = Member(weak: bool, text: string)

  /** Members with the whitespace before and after each comma. */
  datatype Tags = One(m: Member) | More(m: Member, before: string, after: string, rest: Tags)

  /** A header value: the members, and the whitespace around them. */
  datatype Value = Value(lead: string, tags: Tags, trail: string)

  /** Optional whitespace is spaces and tabs. */
  predicate Ows(s: string) {
    forall i :: 0 <= i < |s| ==> s[i] == ' ' || s[i] == '\t'
  }

  predicate WellFormed(t: Tags) {
    match t
    case One(m) => '"' !in m.text
    case More(m, before, after, rest) => '"' !in m.text && Ows(before) && Ows(after) && WellFormed(rest)
  }

  predicate WellFormedValue(v: Value) {
    Ows(v.lead) && WellFormed(v.tags) && Ows(v.trail)
  }

  function Quoted(text: string): string {
    "\"" + (text + "\"")
  }

  function Tag(m: Member): string {
    if m.weak then "W/" + Quoted(m.text) else Quoted(m.text)
  }

  function Core(t: Tags): string {
    match t
    case One(m) => Tag(m)
    case More(m, before, after, rest) => Tag(m) + (before + ("," + (after + Core(rest))))
  }

  function Render(v: Value): string {
    v.lead + (Core(v.tags) + v.trail)
  }

  /** Some member has the same opaque text: weak comparison looks at nothing else. */
  predicate Listed(text: string, t: Tags) {
    match t
    case One(m) => m.text == text
    case More(m, _, _, rest) => m.text == text || Listed(text, rest)
  }

  //  Trimming

  lemma {:induction false} TrimStartSpaces(ows: string, s: string)
    requires Ows(ows)
    ensures TrimStart(ows + s) == TrimStart(s)
  {
    if ows == "" {
      assert ows + s == s;
    } else {
      assert (ows + s)[1..] == ows[1..] + s;
      assert ows[0] == ' ' || ows[0] == '\t';
      TrimStartSpaces(ows[1..], s);
    }
  }

  lemma {:induction false} TrimEndSpaces(s: string, ows: string)
    requires Ows(ows)
    ensures TrimEnd(s + ows) == TrimEnd(s)
  {
    if ows == "" {
      assert s + ows == s;
    } else {
      var front := ows[..|ows| - 1];
      assert (s + ows)[..|s + ows| - 1] == s + front;
      assert ows[|ows| - 1] == ' ' || ows[|ows| - 1] == '\t';
      TrimEndSpaces(s, front);
    }
  }

  lemma TagEnds(m: Member)
    ensures Tag(m) != "" && !IsSpace(Tag(m)[0]) && Tag(m)[|Tag(m)| - 1] == '"'
  {
  }

  /** A list starts and ends with something that is not whitespace. */
  lemma {:induction false} CoreEnds(t: Tags)
    ensures Core(t) != "" && !IsSpace(Core(t)[0]) && Core(t)[|Core(t)| - 1] == '"'
  {
    TagEnds(t.m);
    match t
    case One(m) =>
    case More(m, before, after, rest) =>
      CoreEnds(rest);
      var tail := before + ("," + (after + Core(rest)));
      assert tail[|tail| - 1] == '"';
  }

  lemma TrimSolid(s: string)
    requires s != "" && !IsSpace(s[0])
    ensures TrimStart(s) == s
  {
  }

  lemma TrimEndSolid(s: string)
    requires s != "" && !IsSpace(s[|s| - 1])
    ensures TrimEnd(s) == s
  {
  }

  lemma TrimAround(lead: string, core: string, trail: string)
    requires Ows(lead) && Ows(trail)
    requires core != "" && !IsSpace(core[0]) && !IsSpace(core[|core| - 1])
    ensures Trim(lead + (core + trail)) == core
  {
    TrimStartSpaces(lead, core + trail);
    TrimSolid(core + trail);
    TrimEndSpaces(core, trail);
    TrimEndSolid(core);
  }

  lemma TrimRender(v: Value)
    requires WellFormedValue(v)
    ensures Trim(Render(v)) == Core(v.tags)
  {
    CoreEnds(v.tags);
    TrimAround(v.lead, Core(v.tags), v.trail);
  }

  //  The meaning of the matcher

  lemma WeakStripped(m: Member, rest: string)
    ensures WithoutWeak(Tag(m) + rest) == Quoted(m.text) + rest
  {
    var s := Tag(m) + rest;
    if m.weak {
      assert s == "W/" + (Quoted(m.text) + rest);
      assert s[2..] == Quoted(m.text) + rest;
    } else {
      assert s[0] == '"';
    }
  }

  /** Reading one tag: its quoted text, then whatever follows it. */
  lemma QuotedTaken(text: string, rest: string)
    requires '"' !in text
    ensures var s := Quoted(text) + rest;
      && s != "" && s[0] == '"' && IndexOf(s[1..], '"') == |text|
      && |text| < |s| - 1 && s[..|text| + 2] == Quoted(text) && s[|text| + 2..] == rest
  {
    var s := Quoted(text) + rest;
    assert s[1..] == text + ['"'] + rest;
    IndexOfJoin(text, '"', rest);
  }

  lemma LastTagTaken(m: Member)
    requires '"' !in m.text
    ensures NextTag(Tag(m)) == Some((Quoted(m.text), ""))
  {
    assert Tag(m) + "" == Tag(m);
    WeakStripped(m, "");
    QuotedTaken(m.text, "");
  }

  /** A tag is taken off the front whatever follows it; the rest must be empty or go on with a comma. */
  lemma TagRead(m: Member, rest: string)
    requires '"' !in m.text
    ensures var behind := TrimStart(rest);
      NextTag(Tag(m) + rest)
      == if behind == "" then Some((Quoted(m.text), ""))
         else if behind[0] == ',' then Some((Quoted(m.text), TrimStart(behind[1..])))
         else None
  {
    WeakStripped(m, rest);
    QuotedTaken(m.text, rest);
    hide TrimStart, WithoutWeak, Tag, Quoted;
  }

  lemma SpacedComma(before: string, after: string, more: string)
    requires Ows(before) && Ows(after)
    requires more == "" || !IsSpace(more[0])
    ensures TrimStart(before + ("," + (after + more))) == "," + (after + more)
    ensures TrimStart(after + more) == more
  {
    var behind := "," + (after + more);
    TrimStartSpaces(before, behind);
    TrimSolid(behind);
    TrimStartSpaces(after, more);
  }

  lemma TagTaken(m: Member, before: string, after: string, more: string)
    requires '"' !in m.text && Ows(before) && Ows(after)
    requires more == "" || !IsSpace(more[0])
    ensures NextTag(Tag(m) + (before + ("," + (after + more)))) == Some((Quoted(m.text), more))
  {
    SpacedComma(before, after, more);
    TagRead(m, before + ("," + (after + more)));
    assert ("," + (after + more))[1..] == after + more;
    hide TrimStart, NextTag, Tag, Quoted, Ows;
  }

  lemma QuotedInjective(a: string, b: string)
    ensures Quoted(a) == Quoted(b) <==> a == b
  {
    assert Quoted(a)[1..|a| + 1] == a && Quoted(b)[1..|b| + 1] == b;
  }

  /** The member loop finds a tag exactly when some member weakly equals it. */
  lemma {:induction false} AnyTagMeaning(text: string, t: Tags)
    requires WellFormed(t)
    ensures AnyTag(Quoted(text), Core(t)) <==> Listed(text, t)
  {
    QuotedInjective(t.m.text, text);
    CoreEnds(t);
    match t
    case One(m) =>
      LastTagTaken(m);
      assert !AnyTag(Quoted(text), "");
    case More(m, before, after, rest) =>
      CoreEnds(rest);
      TagTaken(m, before, after, Core(rest));
      AnyTagMeaning(text, rest);
  }

  /** For a well-formed list, the matcher decides weak equality with some member. */
  lemma ListMatches(self: Member, v: Value)
    requires '"' !in self.text && WellFormedValue(v)
    ensures ValueMatches(Tag(self), Render(v)) <==> Listed(self.text, v.tags)
  {
    assert Tag(self) + "" == Tag(self);
    WeakStripped(self, "");
    assert Quoted(self.text) + "" == Quoted(self.text);
    TrimRender(v);
    CoreEnds(v.tags);
    AnyTagMeaning(self.text, v.tags);
  }

  /** A value that is nothing but a star, and whitespace, matches every tag. */
  lemma StarMatches(etag: string, lead: string, trail: string)
    requires Ows(lead) && Ows(trail)
    ensures ValueMatches(etag, lead + ("*" + trail))
  {
    TrimAround(lead, "*", trail);
  }

  //  Empty list elements

  /** An empty element comes next: the text ends after a comma, or goes on with another one. */
  predicate EmptyNext(rest: string) {
    rest == "" || rest[0] == ','
  }

  /** A list, the whitespace around a comma, and an empty element behind that comma. */
  function Gapped(t: Tags, before: string, after: string, rest: string): string {
    match t
    case One(m) => Tag(m) + (before + ("," + (after + rest)))
    case More(m, b, a, more) => Tag(m) + (b + ("," + (a + Gapped(more, before, after, rest))))
  }

  lemma {:induction false} GappedCore(t: Tags, before: string, after: string, rest: string)
    ensures Gapped(t, before, after, rest) == Core(t) + (before + "," + (after + rest))
    ensures Gapped(t, before, after, rest) != "" && !IsSpace(Gapped(t, before, after, rest)[0])
  {
    TagEnds(t.m);
    if t.More? {
      GappedCore(t.rest, before, after, rest);
      var tail := before + "," + (after + rest);
      assert Tag(t.m) + (t.before + ("," + (t.after + (Core(t.rest) + tail))))
          == Tag(t.m) + (t.before + ("," + (t.after + Core(t.rest)))) + tail;
    }
  }

  lemma NoTag(s: string)
    requires s != "" && s[0] == ','
    ensures NextTag(s).None?
  {
    assert "W/"[0] != ',';
  }

  lemma LoopTurn(etag: string, s: string)
    requires s != ""
    ensures var next := NextTag(s);
      AnyTag(etag, s) <==> next.Some? && (next.value.0 == etag || AnyTag(etag, next.value.1))
  {
  }

  /** The member loop stops at the first empty element. */
  lemma {:induction false} LoopStopsAtGap(text: string, t: Tags, before: string, after: string, rest: string)
    requires WellFormed(t) && Ows(before) && Ows(after) && EmptyNext(rest)
    ensures AnyTag(Quoted(text), Gapped(t, before, after, rest)) <==> Listed(text, t)
  {
    QuotedInjective(t.m.text, text);
    GappedCore(t, before, after, rest);
    var s := Gapped(t, before, after, rest);
    LoopTurn(Quoted(text), s);
    match t
    case One(m) =>
      TagTaken(m, before, after, rest);
      if rest == "" {
        assert !AnyTag(Quoted(text), rest);
      } else {
        NoTag(rest);
        LoopTurn(Quoted(text), rest);
      }
      hide AnyTag, NextTag, Quoted, Tag;
    case More(m, b, a, more) =>
      GappedCore(more, before, after, rest);
      TagTaken(m, b, a, Gapped(more, before, after, rest));
      LoopStopsAtGap(text, more, before, after, rest);
      hide AnyTag, NextTag, Quoted, Tag;
  }

  /** Trimming at the end does not reach past something that is not whitespace. */
  lemma {:induction false} TrimEndBehind(s: string, more: string)
    requires s != "" && !IsSpace(s[|s| - 1])
    ensures TrimEnd(s + more) == s + TrimEnd(more)
  {
    if more == "" {
      assert s + more == s;
    } else {
      var front := more[..|more| - 1];
      assert (s + more)[..|s + more| - 1] == s + front;
      if IsSpace(more[|more| - 1]) {
        TrimEndBehind(s, front);
      }
    }
  }

  /** What trimming leaves behind the comma is whitespace and an empty element, too. */
  lemma TrimBehindComma(after: string, rest: string) returns (a: string, r: string)
    requires Ows(after) && EmptyNext(rest)
    ensures Ows(a) && EmptyNext(r) && TrimEnd(after + rest) == a + r
  {
    if rest == "" {
      assert after + rest == "" + after;
      TrimEndSpaces("", after);
      a, r := "", "";
    } else {
      var front := after + ",";
      assert after + rest == front + rest[1..];
      TrimEndBehind(front, rest[1..]);
      a, r := after, "," + TrimEnd(rest[1..]);
    }
  }

  lemma LeadTrimmed(lead: string, s: string)
    requires Ows(lead) && s != "" && !IsSpace(s[0])
    ensures Trim(lead + s) == TrimEnd(s)
  {
    TrimStartSpaces(lead, s);
    TrimSolid(s);
  }

  lemma Regroup(core: string, before: string, tail: string)
    ensures core + (before + "," + tail) == (core + (before + ",")) + tail
  {
  }

  lemma TrimGapped(lead: string, t: Tags, before: string, after: string, rest: string) returns (a: string, r: string)
    requires Ows(lead) && Ows(after) && EmptyNext(rest)
    ensures Ows(a) && EmptyNext(r) && Trim(lead + Gapped(t, before, after, rest)) == Gapped(t, before, a, r)
  {
    hide Gapped, Core, TrimEnd, TrimStart, Ows;
    GappedCore(t, before, after, rest);
    var s, front := Gapped(t, before, after, rest), Core(t) + (before + ",");
    LeadTrimmed(lead, s);
    Regroup(Core(t), before, after + rest);
    TrimEndBehind(front, after + rest);
    a, r := TrimBehindComma(after, rest);
    GappedCore(t, before, a, r);
    Regroup(Core(t), before, a + r);
  }

  /** A list with an empty element: the matcher knows the members in front of the first one, and no others. */
  lemma GapHides(self: Member, lead: string, t: Tags, before: string, after: string, rest: string)
    requires '"' !in self.text && WellFormed(t) && Ows(lead) && Ows(before) && Ows(after) && EmptyNext(rest)
    ensures ValueMatches(Tag(self), lead + Gapped(t, before, after, rest)) <==> Listed(self.text, t)
  {
    assert Tag(self) + "" == Tag(self);
    WeakStripped(self, "");
    assert Quoted(self.text) + "" == Quoted(self.text);
    var a, r := TrimGapped(lead, t, before, after, rest);
    GappedCore(t, before, a, r);
    CoreEnds(t);
    LoopStopsAtGap(self.text, t, before, a, r);
  }

  /** So does a list that starts with one: nothing in it is known. */
  lemma LeadingGapHides(etag: string, lead: string, more: string)
    requires Ows(lead)
    ensures !ValueMatches(etag, lead + ("," + more))
  {
    TrimStartSpaces(lead, "," + more);
    TrimSolid("," + more);
    TrimEndBehind(",", more);
    var rest := "," + TrimEnd(more);
    hide TrimEnd, TrimStart;
    NoTag(rest);
    hide NextTag;
    LoopTurn(WithoutWeak(etag), rest);
    assert rest[0] != '*';
  }

  /**
   One empty element between two lists.  The members are those of both, and
   the matcher decides them exactly when the second list adds nothing new.
   */
  lemma GapHarmlessIff(self: Member, t: Tags, before: string, after: string, between: string, u: Tags)
    requires '"' !in self.text && WellFormed(t) && WellFormed(u) && Ows(before) && Ows(after) && Ows(between)
    ensures var value := Gapped(t, before, after, "," + (between + Core(u)));
      (ValueMatches(Tag(self), value) <==> Listed(self.text, t) || Listed(self.text, u))
      <==> (Listed(self.text, u) ==> Listed(self.text, t))
  {
    var value := Gapped(t, before, after, "," + (between + Core(u)));
    hide Gapped, ValueMatches, Tag, Core, Listed;
    assert "" + value == value;
    GapHides(self, "", t, before, after, "," + (between + Core(u)));
  }

  /** The tag `"b"` is in this list, and the matcher does not find it. */
  lemma TwoCommas()
    ensures !Matches("\"b\"", ["\"a\",,\"b\""])
  {
    var a, b := Member(false, "a"), Member(false, "b");
    assert Tag(b) == "\"b\"" && Core(One(b)) == "\"b\"";
    var value := Gapped(One(a), "", "", "," + ("" + Core(One(b))));
    assert value == "\"a\",,\"b\"";
    GapHarmlessIff(b, One(a), "", "", "", One(b));
  }

  //  Several header values

  function RenderAll(vs: seq<Value>): seq<string> {
    seq(|vs|, i requires 0 <= i < |vs| => Render(vs[i]))
  }

  function Append(t: Tags, before: string, after: string, u: Tags): Tags {
    match t
    case One(m) => More(m, before, after, u)
    case More(m, b, a, rest) => More(m, b, a, Append(rest, before, after, u))
  }

  /** All members in one list. */
  function Merge(vs: seq<Value>): Value
    requires vs != []
  {
    if |vs| == 1 then vs[0]
    else
      var rest := Merge(vs[1..]);
      Value(vs[0].lead, Append(vs[0].tags, vs[0].trail, " " + rest.lead, rest.tags), rest.trail)
  }

  lemma {:induction false} AppendMeaning(t: Tags, before: string, after: string, u: Tags, text: string)
    requires WellFormed(t) && WellFormed(u) && Ows(before) && Ows(after)
    ensures var joined := Append(t, before, after, u);
      && WellFormed(joined)
      && Core(joined) == Core(t) + (before + ("," + (after + Core(u))))
      && (Listed(text, joined) <==> Listed(text, t) || Listed(text, u))
  {
    match t
    case One(m) =>
    case More(m, b, a, rest) =>
      AppendMeaning(rest, before, after, u, text);
      AppendCore(Tag(m), b, a, Core(rest), before + ("," + (after + Core(u))));
  }

  lemma AppendCore(tag: string, b: string, a: string, core: string, tail: string)
    ensures tag + (b + ("," + (a + (core + tail)))) == tag + (b + ("," + (a + core))) + tail
  {
  }

  lemma JoinTwo(lead: string, core: string, trail: string, lead': string, core': string, trail': string)
    ensures lead + ((core + (trail + ("," + ((" " + lead') + core')))) + trail')
         == (lead + (core + trail)) + (", " + (lead' + (core' + trail')))
  {
    var left := lead + ((core + (trail + ("," + ((" " + lead') + core')))) + trail');
    var right := (lead + (core + trail)) + (", " + (lead' + (core' + trail')));
    assert ", " == "," + " ";
    assert |left| == |right|;
  }

  predicate ListedIn(text: string, vs: seq<Value>) {
    exists i :: 0 <= i < |vs| && Listed(text, vs[i].tags)
  }

  lemma ListedInSplit(text: string, vs: seq<Value>)
    requires vs != []
    ensures ListedIn(text, vs) <==> Listed(text, vs[0].tags) || ListedIn(text, vs[1..])
  {
    if ListedIn(text, vs) && !Listed(text, vs[0].tags) {
      var i :| 0 <= i < |vs| && Listed(text, vs[i].tags);
      assert Listed(text, vs[1..][i - 1].tags);
    }
    if ListedIn(text, vs[1..]) {
      var i :| 0 <= i < |vs[1..]| && Listed(text, vs[1..][i].tags);
      assert Listed(text, vs[i + 1].tags);
    }
  }

  lemma {:induction false} JoinIsMerge(vs: seq<Value>, text: string)
    requires vs != []
    requires forall i :: 0 <= i < |vs| ==> WellFormedValue(vs[i])
    ensures WellFormedValue(Merge(vs))
    ensures Render(Merge(vs)) == Join(RenderAll(vs))
    ensures Listed(text, Merge(vs).tags) <==> ListedIn(text, vs)
    decreases |vs|
  {
    ListedInSplit(text, vs);
    if |vs| == 1 {
      assert RenderAll(vs) == [Render(vs[0])];
    } else {
      var more := vs[1..];
      JoinIsMerge(more, text);
      assert RenderAll(vs)[1..] == RenderAll(more);
      var rest := Merge(more);
      AppendMeaning(vs[0].tags, vs[0].trail, " " + rest.lead, rest.tags, text);
      JoinTwo(vs[0].lead, Core(vs[0].tags), vs[0].trail, rest.lead, Core(rest.tags), rest.trail);
    }
  }

  /** Several header values give the same answer one by one and joined into one. */
  lemma JoinedValuesAgree(self: Member, vs: seq<Value>)
    requires vs != [] && '"' !in self.text
    requires forall i :: 0 <= i < |vs| ==> WellFormedValue(vs[i])
    ensures Matches(Tag(self), RenderAll(vs)) <==> Matches(Tag(self), [Join(RenderAll(vs))])
  {
    JoinIsMerge(vs, self.text);
    ListMatches(self, Merge(vs));
    forall i | 0 <= i < |vs|
      ensures ValueMatches(Tag(self), RenderAll(vs)[i]) <==> Listed(self.text, vs[i].tags)
    {
      ListMatches(self, vs[i]);
    }
    var joined := [Join(RenderAll(vs))];
    assert Matches(Tag(self), joined) <==> ValueMatches(Tag(self), joined[0]);
    if ListedIn(self.text, vs) {
      var i :| 0 <= i < |vs| && Listed(self.text, vs[i].tags);
      assert ValueMatches(Tag(self), RenderAll(vs)[i]);
    }
  }
}
