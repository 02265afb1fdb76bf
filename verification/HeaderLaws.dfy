/**
 Header text as it comes over the wire: optional whitespace, capital letters
 and blank values.
 */
module HeaderLaws {
  import opened Prelude
  import opened Text
  import opened Freshness
  import opened IfNoneMatch

  /** Something that neither starts nor ends with whitespace. */
  predicate Solid(s: string) {
    s != "" && !IsSpace(s[0]) && !IsSpace(s[|s| - 1])
  }

  lemma PartsRead(part: string, front: string, back: string)
    requires Trim(part) == front + ['='] + back && '=' !in front
    ensures ParseDirective(part) == Directive(Lower(Trim(front)), Some(Trim(back)))
  {
    hide Trim, Lower;
    IndexOfJoin(front, '=', back);
    var text := front + ['='] + back;
    assert text[..|front|] == front && text[|front| + 1..] == back;
  }

  lemma Regrouped(key: string, b: string, c: string, value: string)
    ensures key + (b + ("=" + (c + value))) == (key + b) + ['='] + (c + value)
  {
  }

  /** A directive with a value: its name in any case, and whitespace wherever it is allowed, make no difference. */
  lemma ValueDirective(key: string, value: string, a: string, b: string, c: string, d: string)
    requires Solid(key) && Solid(value) && '=' !in key && Ows(a) && Ows(b) && Ows(c) && Ows(d)
    ensures ParseDirective(a + ((key + (b + ("=" + (c + value)))) + d)) == Directive(Lower(key), Some(value))
  {
    CoreSolid(key, b, c, value);
    assert '=' !in b;
    hide Solid, Ows, Trim, Lower, IsSpace;
    TrimSides(key + (b + ("=" + (c + value))), a, d);
    Regrouped(key, b, c, value);
    TrimSides(key, "", b);
    TrimSides(value, c, "");
    assert "" + (key + b) == key + b && value + "" == value;
    PartsRead(a + ((key + (b + ("=" + (c + value)))) + d), key + b, c + value);
  }

  lemma CoreSolid(key: string, b: string, c: string, value: string)
    requires Solid(key) && Solid(value)
    ensures Solid(key + (b + ("=" + (c + value))))
  {
    var core := key + (b + ("=" + (c + value)));
    assert core[|core| - 1] == value[|value| - 1];
  }

  lemma TrimSides(s: string, lead: string, trail: string)
    requires Solid(s) && Ows(lead) && Ows(trail)
    ensures Trim(lead + (s + trail)) == s
  {
    TrimAround(lead, s, trail);
  }

  /** The same for a directive without a value. */
  lemma FlagDirective(key: string, a: string, d: string)
    requires Solid(key) && '=' !in key && Ows(a) && Ows(d)
    ensures ParseDirective(a + (key + d)) == Directive(Lower(key), None)
  {
    TrimSides(key, a, d);
    hide Trim, Solid, Ows, Lower;
    NoEquals(key);
  }

  lemma NoEquals(s: string)
    requires '=' !in s
    ensures IndexOf(s, '=') == |s|
  {
  }

  lemma BlankTrimmed(a: string)
    requires Ows(a)
    ensures Trim(a) == ""
  {
    TrimStartSpaces(a, "");
    assert a + "" == a;
    assert TrimStart("") == "" && TrimEnd("") == "";
    hide TrimStart, TrimEnd;
  }

  /** A validator is what stands between the whitespace, octet by octet; a blank one is none. */
  lemma ValidatorRead(name: string, v: string, a: string, d: string)
    requires Ows(a) && Ows(d)
    ensures Solid(v) ==> Validator(map[name := a + (v + d)], name) == Some(Octets(v))
    ensures Validator(map[name := a], name).None? && Validator(map[], name).None?
  {
    hide Trim, Ows, Octets;
    if Solid(v) {
      TrimSides(v, a, d);
    }
    BlankTrimmed(a);
  }

  lemma DigitsSolid(n: nat)
    ensures Solid(Print(n, 10))
  {
    var digits := Print(n, 10);
    hide Print;
    assert digits[0] in digits && digits[|digits| - 1] in digits;
  }

  /** The Age is the number between the whitespace. */
  lemma AgeRead(n: nat, a: string, d: string)
    requires n <= U64_MAX && Ows(a) && Ows(d)
    ensures Age(map["age" := a + (Print(n, 10) + d)]) == n
  {
    hide Trim, Parse, Print, Ows, Solid;
    DigitsSolid(n);
    ParsePrint(n, 10, U64_MAX);
    TrimSides(Print(n, 10), a, d);
  }
}
