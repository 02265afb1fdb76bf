/**
 Expansion of operator-configured paths: a leading home directory, `$VAR`,
 `${VAR}` and, on Windows, `%VAR%`, in a single pass.
 */
module PathExpansion {
  import opened Prelude
  import opened Text

  datatype PathError =
    | NoHome(message: string) | EmptyHome | Unterminated | EmptyName | Unset(name: string) | EmptyOrNul

  type Environment = map<string, string>

  function Variable(env: Environment, name: string): Result<string, PathError> {
    if name in env then Ok(env[name]) else Err(Unset(name))
  }

  //  The grammar

  /** A character that stands for itself, a variable, or text that is no token. */
  datatype Token = Literal(c: char) | Reference(name: string) | Bad(error: PathError)

  predicate NameStart(c: char) {
    'a' <= c <= 'z' || 'A' <= c <= 'Z' || c == '_'
  }

  predicate NameChar(c: char) {
    NameStart(c) || '0' <= c <= '9'
  }

  /** How many name characters `s` starts with. */
  function NameLength(s: string): (n: nat)
    ensures n <= |s|
    ensures forall i :: 0 <= i < n ==> NameChar(s[i])
    ensures n < |s| ==> !NameChar(s[n])
  {
    if s == "" || !NameChar(s[0]) then 0 else 1 + NameLength(s[1..])
  }

  predicate StartsReference(s: string) {
    |s| > 1 && NameStart(s[1])
  }

  /** The first token of `s` and the number of characters it takes. */
  function NextToken(s: string, windows: bool): (r: (Token, nat))
    requires s != ""
    ensures 0 < r.1 <= |s|
  {
    if "$$" <= s then (Literal('$'), 2)
    else if "${" <= s then
      var end := IndexOf(s[2..], '}');
      if end == |s| - 2 then (Bad(Unterminated), |s|)
      else if end == 0 then (Bad(EmptyName), |s|)
      else (Reference(s[2..2 + end]), end + 3)
    else if s[0] == '$' && StartsReference(s) then
      (Reference(s[1..1 + NameLength(s[1..])]), 1 + NameLength(s[1..]))
    else if windows && "%%" <= s then (Literal('%'), 2)
    else if windows && s[0] == '%' && IndexOf(s[1..], '%') < |s| - 1 then
      (Reference(s[1..1 + IndexOf(s[1..], '%')]), IndexOf(s[1..], '%') + 2)
    else (Literal(s[0]), 1)
  }

  /** The tokens of a path, up to the first text that is none; no variable is looked at. */
  function Tokens(s: string, windows: bool): seq<Token>
    decreases |s|
  {
    if s == "" then []
    else
      var (token, n) := NextToken(s, windows);
      if token.Bad? then [token] else [token] + Tokens(s[n..], windows)
  }

  /** What one token stands for. */
  function Meaning(t: Token, env: Environment): Result<string, PathError> {
    match t
    case Literal(c) => Ok([c])
    case Reference(name) => Variable(env, name)
    case Bad(error) => Err(error)
  }

  /** The meanings in order, or the first failure. */
  function Substitute(ts: seq<Token>, env: Environment): Result<string, PathError> {
    if ts == [] then Ok("")
    else
      var first := Meaning(ts[0], env);
      if first.Err? then first
      else
        var rest := Substitute(ts[1..], env);
        if rest.Err? then rest else Ok(first.value + rest.value)
  }

  predicate HomePrefix(path: string, windows: bool) {
    path == "~" || "~/" <= path || (windows && "~\\" <= path)
  }

  function Finish(out: string): Result<string, PathError> {
    if out == "" || '\0' in out then Err(EmptyOrNul) else Ok(out)
  }

  /** A path is a home directory, perhaps, and then its tokens, each substituted once. */
  function Expanded(path: string, windows: bool, home: Result<string, PathError>, env: Environment)
    : Result<string, PathError>
  {
    if HomePrefix(path, windows) then
      if home.Err? then home
      else if home.value == "" then Err(EmptyHome)
      else
        var body := Substitute(Tokens(path[1..], windows), env);
        if body.Err? then body else Finish(home.value + body.value)
    else
      var body := Substitute(Tokens(path, windows), env);
      if body.Err? then body else Finish(body.value)
  }

  //  The scanner

  method Expand(path: string, windows: bool, home: Result<string, PathError>, env: Environment)
    returns (r: Result<string, PathError>)
    ensures r == Expanded(path, windows, home, env)
  {
    var prefix := "";
    var rest := path;
    if HomePrefix(path, windows) {
      if home.Err? {
        return home;
      }
      if home.value == "" {
        return Err(EmptyHome);
      }
      prefix := home.value;
      rest := path[1..];
    }
    var body := ExpandBody(rest, windows, env);
    if body.Err? {
      return body;
    }
    var out := prefix + body.value;
    assert prefix == "" ==> out == body.value;
    if out == "" || '\0' in out {
      return Err(EmptyOrNul);
    }
    return Ok(out);
  }

  /** Prefixing text that is already expanded. */
  function Prefixed(out: string, r: Result<string, PathError>): Result<string, PathError> {
    if r.Err? then r else Ok(out + r.value)
  }

  method ExpandBody(rest: string, windows: bool, env: Environment) returns (r: Result<string, PathError>)
    ensures r == Substitute(Tokens(rest, windows), env)
  {
    var out := "";
    var index := 0;
    ghost var whole, left := Substitute(Tokens(rest, windows), env), rest;
    PrefixedEmpty(whole);
    while index < |rest|
      invariant index <= |rest| && left == rest[index..]
      invariant whole == Prefixed(out, Substitute(Tokens(left, windows), env))
    {
      var token, n := ReadToken(rest, index, windows);
      OneTokenOn(out, left, token, n, windows, env, whole);
      var text := Meaning(token, env);
      if text.Err? {
        return text;
      }
      out := out + text.value;
      index := index + n;
      left := left[n..];
    }
    assert out + "" == out;
    return Ok(out);
  }

  /** With `out` written and `s` to go, one token either fails the whole or moves from `s` to `out`. */
  lemma OneTokenOn(out: string, s: string, token: Token, n: nat, windows: bool, env: Environment,
                   whole: Result<string, PathError>)
    requires s != "" && (token, n) == NextToken(s, windows)
    requires whole == Prefixed(out, Substitute(Tokens(s, windows), env))
    ensures Meaning(token, env).Err? ==> whole == Meaning(token, env)
    ensures Meaning(token, env).Ok? ==>
              whole == Prefixed(out + Meaning(token, env).value, Substitute(Tokens(s[n..], windows), env))
  {
    TokensStep(s, windows, env);
    if Meaning(token, env).Ok? {
      PrefixedTwice(out, Meaning(token, env).value, Substitute(Tokens(s[n..], windows), env));
    }
  }

  lemma PrefixedEmpty(r: Result<string, PathError>)
    ensures Prefixed("", r) == r
  {
    if r.Ok? {
      assert "" + r.value == r.value;
    }
  }

  lemma PrefixedTwice(a: string, b: string, r: Result<string, PathError>)
    ensures Prefixed(a + b, r) == Prefixed(a, Prefixed(b, r))
  {
    if r.Ok? {
      assert a + b + r.value == a + (b + r.value);
    }
  }

  lemma TokensStep(s: string, windows: bool, env: Environment)
    requires s != ""
    ensures var (token, n) := NextToken(s, windows);
      Substitute(Tokens(s, windows), env)
      == if Meaning(token, env).Err? then Meaning(token, env)
         else Prefixed(Meaning(token, env).value, Substitute(Tokens(s[n..], windows), env))
  {
    var (token, n) := NextToken(s, windows);
    if !token.Bad? {
      assert Tokens(s, windows)[1..] == Tokens(s[n..], windows);
    }
  }

  /** Read the token at `index`, looking ahead by characters. */
  method ReadToken(rest: string, index: nat, windows: bool) returns (token: Token, length: nat)
    requires index < |rest|
    ensures (token, length) == NextToken(rest[index..], windows)
  {
    hide IndexOf, NameLength;
    ghost var s := rest[index..];
    var c := rest[index];
    var next := if index + 1 < |rest| then Some(rest[index + 1]) else None;
    if c == '$' && next == Some('$') {
      return Literal('$'), 2;
    }
    if c == '$' && next == Some('{') {
      var start := index + 2;
      var end := IndexOf(rest[start..], '}');
      assert rest[start..] == s[2..];
      if end == |rest[start..]| {
        return Bad(Unterminated), |rest| - index;
      }
      if end == 0 {
        return Bad(EmptyName), |rest| - index;
      }
      assert rest[start..start + end] == s[2..2 + end];
      return Reference(rest[start..start + end]), end + 3;
    }
    if c == '$' && next.Some? && NameStart(next.value) {
      var end := NameEnd(rest, index + 1);
      assert rest[index + 1..] == s[1..];
      assert rest[index + 1..end] == rest[index + 1..][..end - index - 1] == s[1..end - index];
      return Reference(rest[index + 1..end]), end - index;
    }
    if windows && c == '%' && next == Some('%') {
      return Literal('%'), 2;
    }
    if windows && c == '%' {
      var end := IndexOf(rest[index + 1..], '%');
      assert rest[index + 1..] == s[1..];
      if end < |rest[index + 1..]| {
        assert rest[index + 1..index + 1 + end] == s[1..1 + end];
        return Reference(rest[index + 1..index + 1 + end]), end + 2;
      }
    }
    return Literal(c), 1;
  }

  /** Where the name that starts at `start` ends. */
  method NameEnd(rest: string, start: nat) returns (end: nat)
    requires start < |rest| && NameStart(rest[start])
    ensures start < end <= |rest| && end == start + NameLength(rest[start..])
  {
    end := start + 1;
    assert rest[start..][1..] == rest[start + 1..];
    while end < |rest| && NameChar(rest[end])
      invariant start < end <= |rest|
      invariant NameLength(rest[start..]) == end - start + NameLength(rest[end..])
    {
      assert rest[end..][1..] == rest[end + 1..];
      end := end + 1;
    }
  }

  //  Quoting

  /** Double the characters that introduce a reference. */
  function Escape(s: string, windows: bool): string {
    if s == "" then ""
    else (if s[0] == '$' || (windows && s[0] == '%') then [s[0], s[0]] else [s[0]]) + Escape(s[1..], windows)
  }

  lemma DoubledToken(c: char, rest: string, windows: bool)
    requires c == '$' || (windows && c == '%')
    ensures NextToken([c, c] + rest, windows) == (Literal(c), 2)
  {
    var s := [c, c] + rest;
    assert s[0] == c && s[1] == c;
    assert c == '$' ==> "$$" <= s;
    assert c == '%' ==> "%%" <= s && s[0] != '$';
  }

  lemma PlainToken(c: char, rest: string, windows: bool)
    requires c != '$' && !(windows && c == '%')
    ensures NextToken([c] + rest, windows) == (Literal(c), 1)
  {
    assert ([c] + rest)[0] == c;
  }

  /** Escaped text is read back character by character, whatever the variables are. */
  lemma {:induction false} EscapedBody(s: string, windows: bool, env: Environment)
    ensures Substitute(Tokens(Escape(s, windows), windows), env) == Ok(s)
  {
    if s != "" {
      var e := Escape(s, windows);
      var rest := Escape(s[1..], windows);
      EscapedBody(s[1..], windows, env);
      TokensStep(e, windows, env);
      if s[0] == '$' || (windows && s[0] == '%') {
        assert e == [s[0], s[0]] + rest;
        DoubledToken(s[0], rest, windows);
        assert e[2..] == rest;
      } else {
        assert e == [s[0]] + rest;
        PlainToken(s[0], rest, windows);
        assert e[1..] == rest;
      }
      assert [s[0]] + s[1..] == s;
    }
  }

  lemma EscapedHead(s: string, windows: bool)
    ensures HomePrefix(Escape(s, windows), windows) == HomePrefix(s, windows)
    ensures HomePrefix(s, windows) ==> Escape(s, windows)[1..] == Escape(s[1..], windows)
  {
    var e := Escape(s, windows);
    if s != "" && s[0] == '~' {
      assert e == ['~'] + Escape(s[1..], windows);
      if |s| > 1 {
        var tail := Escape(s[1..], windows);
        assert tail != "" && tail[0] == s[1];
        assert e[1] == s[1];
      }
    } else if s != "" {
      assert e[0] == s[0];
    }
  }

  /** An escaped path expands to the path itself, but for its home prefix and the check for NUL and emptiness. */
  lemma EscapedPath(path: string, windows: bool, home: Result<string, PathError>, env: Environment)
    ensures Expanded(Escape(path, windows), windows, home, env)
         == if !HomePrefix(path, windows) then Finish(path)
            else if home.Err? then home
            else if home.value == "" then Err(EmptyHome)
            else Finish(home.value + path[1..])
  {
    EscapedHead(path, windows);
    EscapedBody(path, windows, env);
    if HomePrefix(path, windows) {
      EscapedBody(path[1..], windows, env);
    }
  }

  /** A value is put in as it is, whatever reference characters it holds. */
  lemma ValuesAreLiteral(name: string, tail: string, windows: bool, env: Environment)
    requires name != "" && '}' !in name && name in env
    ensures Substitute(Tokens("${" + (name + ("}" + tail)), windows), env)
         == Prefixed(env[name], Substitute(Tokens(tail, windows), env))
  {
    var rest := name + ("}" + tail);
    var s := "${" + rest;
    assert s[2..] == rest;
    assert rest == name + ['}'] + tail;
    IndexOfJoin(name, '}', tail);
    assert s[2..2 + |name|] == rest[..|name|] == name;
    assert s[|name| + 3..] == rest[|name| + 1..] == tail;
    assert s[0] == '$' && s[1] == '{';
    assert "${" <= s && !("$$" <= s);
    assert NextToken(s, windows) == (Reference(name), |name| + 3);
    TokensStep(s, windows, env);
  }

  //  The other references, the home directory, and what comes out

  lemma NameLengthIs(name: string, tail: string)
    requires forall i :: 0 <= i < |name| ==> NameChar(name[i])
    requires tail == "" || !NameChar(tail[0])
    ensures NameLength(name + tail) == |name|
  {
    if name == "" {
      assert name + tail == tail;
    } else {
      assert (name + tail)[1..] == name[1..] + tail;
      NameLengthIs(name[1..], tail);
    }
  }

  /** A bare name reaches as far as it can: letters, digits and underscores, with no digit in front. */
  lemma BareReference(name: string, tail: string, windows: bool, env: Environment)
    requires name != "" && NameStart(name[0]) && (forall i :: 0 <= i < |name| ==> NameChar(name[i]))
    requires tail == "" || !NameChar(tail[0])
    ensures Substitute(Tokens("$" + (name + tail), windows), env)
         == if name in env then Prefixed(env[name], Substitute(Tokens(tail, windows), env)) else Err(Unset(name))
  {
    var s := "$" + (name + tail);
    assert s[1..] == name + tail && s[0] == '$' && s[1] == name[0];
    NameLengthIs(name, tail);
    assert s[1..1 + |name|] == name && s[1 + |name|..] == tail;
    assert NextToken(s, windows) == (Reference(name), 1 + |name|);
    TokensStep(s, windows, env);
  }

  lemma NameAlphabet(c: char)
    ensures NameStart(c) <==> c in "_" || (c <= 'z' && 'a' <= c) || (c <= 'Z' && 'A' <= c)
    ensures NameChar(c) <==> NameStart(c) || c in "0123456789"
  {
  }

  /** A name between percent signs is a reference on Windows, and plain text elsewhere. */
  lemma PercentReference(name: string, tail: string, env: Environment)
    requires name != "" && '%' !in name
    ensures Substitute(Tokens("%" + (name + ("%" + tail)), true), env)
         == if name in env then Prefixed(env[name], Substitute(Tokens(tail, true), env)) else Err(Unset(name))
  {
    var rest := name + ("%" + tail);
    var s := "%" + rest;
    assert s[1..] == rest && s[0] == '%' && s[1] == name[0];
    assert rest == name + ['%'] + tail;
    IndexOfJoin(name, '%', tail);
    assert s[1..1 + |name|] == rest[..|name|] == name;
    assert s[|name| + 2..] == rest[|name| + 1..] == tail;
    assert NextToken(s, true) == (Reference(name), |name| + 2);
    TokensStep(s, true, env);
  }

  /** Braces that do not close, or hold nothing, fail the whole path, whatever follows. */
  lemma BadBraces(rest: string, windows: bool, env: Environment)
    ensures '}' !in rest ==> Substitute(Tokens("${" + rest, windows), env) == Err(Unterminated)
    ensures rest != "" && rest[0] == '}' ==> Substitute(Tokens("${" + rest, windows), env) == Err(EmptyName)
  {
    var s := "${" + rest;
    assert s[2..] == rest && s[0] == '$' && s[1] == '{';
    assert "${" <= s && !("$$" <= s);
    TokensStep(s, windows, env);
  }

  /** A dollar sign in front of anything else stands for itself. */
  lemma LoneDollar(tail: string, windows: bool, env: Environment)
    requires tail == "" || (tail[0] != '$' && tail[0] != '{' && !NameStart(tail[0]))
    ensures Substitute(Tokens("$" + tail, windows), env) == Prefixed("$", Substitute(Tokens(tail, windows), env))
  {
    var s := "$" + tail;
    assert s[0] == '$' && s[1..] == tail;
    assert NextToken(s, windows) == (Literal('$'), 1);
    TokensStep(s, windows, env);
  }

  /** `~/x` is a path in the home directory, and on Windows so is `~\\x`. */
  lemma InHome(slash: char, tail: string, home: string, windows: bool, env: Environment)
    requires home != "" && (slash == '/' || (windows && slash == '\\'))
    ensures Expanded(['~', slash] + Escape(tail, windows), windows, Ok(home), env) == Finish(home + ([slash] + tail))
  {
    var path := ['~', slash] + tail;
    HomeEscapes(['~', slash], tail, windows);
    assert path[0] == '~' && path[1] == slash && path[1..] == [slash] + tail;
    assert HomePrefix(path, windows);
    hide HomePrefix, Escape, Expanded;
    EscapedPath(path, windows, Ok(home), env);
  }

  /** `~` alone is the home directory. */
  lemma HomeAlone(home: string, windows: bool, env: Environment)
    requires home != ""
    ensures Expanded("~", windows, Ok(home), env) == Finish(home)
  {
    assert Tokens("~"[1..], windows) == [];
    assert home + "" == home;
  }

  /** `~x` is no path in any home directory. */
  lemma NotHome(tail: string, home: Result<string, PathError>, windows: bool, env: Environment)
    requires tail != "" && tail[0] != '/' && !(windows && tail[0] == '\\')
    ensures Expanded("~" + Escape(tail, windows), windows, home, env) == Finish("~" + tail)
  {
    var path := "~" + tail;
    HomeEscapes("~", tail, windows);
    assert path[0] == '~' && path[1] == tail[0] && |path| > 1;
    assert !HomePrefix(path, windows);
    hide HomePrefix, Escape, Expanded;
    EscapedPath(path, windows, home, env);
  }

  lemma {:induction false} HomeEscapes(front: string, tail: string, windows: bool)
    requires forall i :: 0 <= i < |front| ==> front[i] != '$' && front[i] != '%'
    ensures Escape(front + tail, windows) == front + Escape(tail, windows)
  {
    if front == "" {
      assert front + tail == tail;
    } else {
      assert (front + tail)[1..] == front[1..] + tail;
      HomeEscapes(front[1..], tail, windows);
    }
  }

  /** Whatever a path expands to can be opened: it is not empty and has no NUL. */
  lemma ExpansionUsable(path: string, windows: bool, home: Result<string, PathError>, env: Environment)
    ensures var r := Expanded(path, windows, home, env);
      r.Ok? ==> r.value != "" && '\0' !in r.value
    ensures HomePrefix(path, windows) && home.Err? ==> Expanded(path, windows, home, env) == home
    ensures HomePrefix(path, windows) && home == Ok("") ==> Expanded(path, windows, home, env) == Err(EmptyHome)
    ensures Finish(path).Ok? <==> path != "" && '\0' !in path
    ensures Finish(path).Ok? ==> Finish(path).value == path
  {
  }
}
