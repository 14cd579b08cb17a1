/**
  The WWW-Authenticate challenge of the token validator: a printer over arbitrary strings, a parser
  written from the grammar, and the round trip between them. The parser reads a Bearer challenge (section 3
  of RFC 6750) with a list of auth-params (section 11.2 of RFC 9110): optional white space around the equals
  sign and the comma, and values that are tokens or quoted-strings (section 5.6.4 of RFC 9110). It does not
  read token68, empty list elements or other spellings of the scheme.
*/
module Challenge {
  import opened Options

  // ----- Printing -----

  /** `strings.ReplaceAll` for a non-empty pattern: leftmost occurrences, without overlap. */
  function ReplaceAll(s: string, pattern: string, sub: string): string
    requires pattern != ""
  {
    if |s| < |pattern| then s
    else if s[..|pattern|] == pattern then sub + ReplaceAll(s[|pattern|..], pattern, sub)
    else [s[0]] + ReplaceAll(s[1..], pattern, sub)
  }

  /** Two passes: backslashes first, then quotes. */
  function EscapeQuotes(s: string): string
  {
    ReplaceAll(ReplaceAll(s, "\\", "\\\\"), "\"", "\\\"")
  }

  function Join(parts: seq<string>, sep: string): string
  {
    if parts == [] then ""
    else if |parts| == 1 then parts[0]
    else parts[0] + sep + Join(parts[1..], sep)
  }

  /** What `url.Parse` gives for the resource URL. */
  datatype ParsedUrl = ParsedUrl(scheme: string, host: string, path: string)

  datatype Validator = Validator(issuer: string, resourceURL: string, parsed: Option<ParsedUrl>, scopes: seq<string>)

  datatype Param = Param(name: string, value: string)

  const WELL_KNOWN := "/.well-known/oauth-protected-resource"

  /** The protected-resource metadata URL: the well-known path between host and path. */
  function MetadataUrl(u: ParsedUrl): string
  {
    u.scheme + "://" + u.host + WELL_KNOWN + (if u.path == "/" then "" else u.path)
  }

  function RealmParam(v: Validator): seq<Param>
  {
    if v.issuer == "" then [] else [Param("realm", v.issuer)]
  }

  function MetadataParam(v: Validator): seq<Param>
  {
    if v.resourceURL == "" || v.parsed.None? then []
    else [Param("resource_metadata", MetadataUrl(v.parsed.value))]
  }

  function ScopeParam(v: Validator): seq<Param>
  {
    if v.scopes == [] then [] else [Param("scope", Join(v.scopes, " "))]
  }

  function ErrorParams(code: string, description: string): seq<Param>
  {
    if code == "" then []
    else if description == "" then [Param("error", code)]
    else [Param("error", code), Param("error_description", description)]
  }

  /** The parameters a challenge carries, in order, with their values as they are meant. */
  function Params(v: Validator, code: string, description: string): seq<Param>
  {
    RealmParam(v) + MetadataParam(v) + ScopeParam(v) + ErrorParams(code, description)
  }

  function PrintParam(p: Param): string
  {
    p.name + "=\"" + EscapeQuotes(p.value) + "\""
  }

  function PrintAll(ps: seq<Param>): seq<string>
  {
    if ps == [] then [] else [PrintParam(ps[0])] + PrintAll(ps[1..])
  }

  function Print(ps: seq<Param>): string
  {
    "Bearer " + Join(PrintAll(ps), ", ")
  }

  lemma {:induction false} PrintAllAppend(ps: seq<Param>, qs: seq<Param>)
    ensures PrintAll(ps + qs) == PrintAll(ps) + PrintAll(qs)
  {
    if ps == [] {
      assert ps + qs == qs;
    } else {
      assert (ps + qs)[1..] == ps[1..] + qs;
      PrintAllAppend(ps[1..], qs);
    }
  }

  /** The slice of printed parts grows in step with the parameters it stands for. */
  method AppendPart(parts: seq<string>, ghost ps: seq<Param>, name: string, value: string)
      returns (longer: seq<string>, ghost qs: seq<Param>)
    requires parts == PrintAll(ps)
    ensures qs == ps + [Param(name, value)] && longer == PrintAll(qs)
  {
    longer := parts + [name + "=\"" + EscapeQuotes(value) + "\""];
    qs := ps + [Param(name, value)];
    PrintAllAppend(ps, [Param(name, value)]);
  }

  method AppendMetadata(v: Validator, parts: seq<string>, ghost ps: seq<Param>)
      returns (longer: seq<string>, ghost qs: seq<Param>)
    requires parts == PrintAll(ps)
    ensures qs == ps + MetadataParam(v) && longer == PrintAll(qs)
  {
    longer, qs := parts, ps;
    if v.resourceURL != "" {
      if v.parsed.Some? {
        var path := v.parsed.value.path;
        if path == "/" {
          path := "";
        }
        var metadataURL := v.parsed.value.scheme + "://" + v.parsed.value.host + WELL_KNOWN + path;
        longer, qs := AppendPart(parts, ps, "resource_metadata", metadataURL);
      }
    }
  }

  method AppendError(code: string, description: string, parts: seq<string>, ghost ps: seq<Param>)
      returns (longer: seq<string>, ghost qs: seq<Param>)
    requires parts == PrintAll(ps)
    ensures qs == ps + ErrorParams(code, description) && longer == PrintAll(qs)
  {
    longer, qs := parts, ps;
    if code != "" {
      longer, qs := AppendPart(longer, qs, "error", code);
      if description != "" {
        longer, qs := AppendPart(longer, qs, "error_description", description);
      }
    }
  }

  /** `buildWWWAuthenticate`, which collects the parts in a slice. */
  method BuildWWWAuthenticate(v: Validator, code: string, description: string) returns (header: string)
    ensures header == Print(Params(v, code, description))
    // Read back, the header says what the validator and the arguments say.
    ensures ParseChallenge(header, false).Some?
    ensures var ps := ParseChallenge(header, false).value;
            && Value(ps, "error") == (if code != "" then Some(code) else None)
            && Value(ps, "error_description") == (if code != "" && description != "" then Some(description) else None)
            && Value(ps, "realm") == (if v.issuer != "" then Some(v.issuer) else None)
            && Value(ps, "scope") == (if v.scopes != [] then Some(Join(v.scopes, " ")) else None)
            && Value(ps, "resource_metadata") ==
                 if v.resourceURL != "" && v.parsed.Some? then
                   var u := v.parsed.value;
                   Some(u.scheme + "://" + u.host + "/.well-known/oauth-protected-resource" +
                        (if u.path == "/" then "" else u.path))
                 else None
  {
    ChallengeRoundTrip(v, code, description);
    ErrorValues(v, code, description);
    ValidatorValues(v, code, description);
    var parts: seq<string> := [];
    ghost var ps: seq<Param> := [];
    if v.issuer != "" {
      parts, ps := AppendPart(parts, ps, "realm", v.issuer);
    }
    assert ps == RealmParam(v);
    parts, ps := AppendMetadata(v, parts, ps);
    if |v.scopes| > 0 {
      parts, ps := AppendPart(parts, ps, "scope", Join(v.scopes, " "));
    }
    assert ps == RealmParam(v) + MetadataParam(v) + ScopeParam(v);
    parts, ps := AppendError(code, description, parts, ps);
    header := "Bearer " + Join(parts, ", ");
  }

  // ----- Parsing -----

  predicate TokenChar(ch: char)
  {
    'a' <= ch <= 'z' || 'A' <= ch <= 'Z' || '0' <= ch <= '9' || ch in "!#$%&'*+-.^_`|~"
  }

  /** Horizontal tab, space, visible characters and obs-text: what a quoted string may hold. */
  predicate FieldChar(ch: char)
  {
    ch == '\t' || (' ' <= ch && ch as int != 0x7F)
  }

  datatype Quoted = NoQuoted | Quoted(value: string, rest: string)

  /** The characters up to the closing quote, unescaped; `strict` also demands that they are field characters. */
  function ParseQuoted(s: string, strict: bool): (q: Quoted)
    ensures q.Quoted? ==> |q.rest| < |s|
  {
    if s == "" then NoQuoted
    else if s[0] == '"' then Quoted("", s[1..])
    else if s[0] == '\\' && |s| == 1 then NoQuoted
    else
      var width := if s[0] == '\\' then 2 else 1;
      var tail := ParseQuoted(s[width..], strict);
      if tail.NoQuoted? || (strict && !FieldChar(s[width - 1])) then NoQuoted
      else Quoted([s[width - 1]] + tail.value, tail.rest)
  }

  /** The length of the token at the front. */
  function TokenLength(s: string): (n: nat)
    ensures n <= |s|
  {
    if s == "" || !TokenChar(s[0]) then 0 else 1 + TokenLength(s[1..])
  }

  predicate IsSpace(ch: char)
  {
    ch == ' ' || ch == '\t'
  }

  /** Optional white space. */
  function SkipSpace(s: string): (rest: string)
    ensures |rest| <= |s|
    ensures s != "" && !IsSpace(s[0]) ==> rest == s
  {
    if s != "" && IsSpace(s[0]) then SkipSpace(s[1..]) else s
  }

  /** A quoted string, or a token. */
  function ParseValue(s: string, strict: bool): (q: Quoted)
    ensures q.Quoted? ==> |q.rest| < |s|
  {
    if s != "" && s[0] == '"' then ParseQuoted(s[1..], strict)
    else
      var n := TokenLength(s);
      if n == 0 then NoQuoted else Quoted(s[..n], s[n..])
  }

  function ParseParams(s: string, strict: bool): Option<seq<Param>>
    decreases |s|
  {
    var n := TokenLength(s);
    var equals := SkipSpace(s[n..]);
    if n == 0 || equals == "" || equals[0] != '=' then None
    else
      var q := ParseValue(SkipSpace(equals[1..]), strict);
      if q.NoQuoted? then None else ParseMore(Param(s[..n], q.value), q.rest, strict)
  }

  /** The end of the list, or a comma and the next parameter. */
  function ParseMore(p: Param, s: string, strict: bool): Option<seq<Param>>
    decreases |s|
  {
    var comma := SkipSpace(s);
    if comma == "" then Some([p])
    else if comma[0] != ',' then None
    else
      var tail := ParseParams(SkipSpace(comma[1..]), strict);
      if tail.None? then None else Some([p] + tail.value)
  }

  function ParseChallenge(s: string, strict: bool): Option<seq<Param>>
  {
    if |s| < 7 || s[..7] != "Bearer " then None
    else
      var params := SkipSpace(s[7..]);
      if params == "" then Some([]) else ParseParams(params, strict)
  }

  // ----- Two passes are one -----

  function EscapeChar(ch: char): string
  {
    if ch == '\\' then "\\\\" else if ch == '"' then "\\\"" else [ch]
  }

  function EscapeEach(s: string): string
  {
    if s == "" then "" else EscapeChar(s[0]) + EscapeEach(s[1..])
  }

  lemma {:induction false} ReplaceAppend(a: string, b: string, ch: char, sub: string)
    ensures ReplaceAll(a + b, [ch], sub) == ReplaceAll(a, [ch], sub) + ReplaceAll(b, [ch], sub)
  {
    if a == "" {
      assert a + b == b;
    } else {
      assert (a + b)[..1] == [a[0]] && a[..1] == [a[0]];
      assert (a + b)[1..] == a[1..] + b;
      ReplaceAppend(a[1..], b, ch, sub);
    }
  }

  lemma ReplaceOne(x: char, ch: char, sub: string)
    ensures ReplaceAll([x], [ch], sub) == if x == ch then sub else [x]
  {
    assert [x][1..] == "" && ReplaceAll("", [ch], sub) == "";
    assert [x][..1] == [x];
  }

  /** Escaping backslashes and then quotes is escaping character by character: no pass touches the other's output. */
  lemma {:induction false} EscapeIsPerChar(s: string)
    ensures EscapeQuotes(s) == EscapeEach(s)
  {
    if s != "" {
      var x, rest := s[0], s[1..];
      assert s == [x] + rest;
      ReplaceAppend([x], rest, '\\', "\\\\");
      ReplaceOne(x, '\\', "\\\\");
      var first := if x == '\\' then "\\\\" else [x];
      ReplaceAppend(first, ReplaceAll(rest, "\\", "\\\\"), '"', "\\\"");
      ReplaceOne(x, '"', "\\\"");
      if x == '\\' {
        assert first == "\\" + "\\";
        ReplaceAppend("\\", "\\", '"', "\\\"");
      }
      EscapeIsPerChar(rest);
    }
  }

  // ----- The round trip -----

  predicate Clean(value: string)
  {
    forall i :: 0 <= i < |value| ==> FieldChar(value[i])
  }

  predicate AllClean(ps: seq<Param>)
  {
    forall i :: 0 <= i < |ps| ==> Clean(ps[i].value)
  }

  predicate IsToken(name: string)
  {
    name != "" && forall i :: 0 <= i < |name| ==> TokenChar(name[i])
  }

  /** One escaped character at the front is read back as that character. */
  lemma QuotedFront(ch: char, tail: string, strict: bool)
    ensures var q := ParseQuoted(tail, strict);
            ParseQuoted(EscapeChar(ch) + tail, strict)
            == if q.NoQuoted? || (strict && !FieldChar(ch)) then NoQuoted else Quoted([ch] + q.value, q.rest)
  {
    var s, width := EscapeChar(ch) + tail, |EscapeChar(ch)|;
    assert s[width..] == tail && s[width - 1] == ch;
  }

  /** The unescaper inverts the escaping, and stops exactly at the closing quote. */
  lemma {:induction false} QuotedRoundTrip(value: string, rest: string, strict: bool)
    ensures ParseQuoted(EscapeEach(value) + "\"" + rest, strict)
            == if strict && !Clean(value) then NoQuoted else Quoted(value, rest)
  {
    var s := EscapeEach(value) + "\"" + rest;
    if value == "" {
      assert s[0] == '"' && s[1..] == rest;
    } else {
      var tail := EscapeEach(value[1..]) + "\"" + rest;
      assert s == EscapeChar(value[0]) + tail;
      QuotedRoundTrip(value[1..], rest, strict);
      QuotedFront(value[0], tail, strict);
      assert value == [value[0]] + value[1..];
      assert Clean(value) <==> FieldChar(value[0]) && Clean(value[1..]);
    }
  }

  lemma {:induction false} TokenLengthOf(name: string, rest: string)
    requires forall i :: 0 <= i < |name| ==> TokenChar(name[i])
    requires rest != "" && !TokenChar(rest[0])
    ensures TokenLength(name + rest) == |name|
  {
    if name == "" {
      assert name + rest == rest;
    } else {
      assert (name + rest)[1..] == name[1..] + rest;
      TokenLengthOf(name[1..], rest);
    }
  }

  /** A parameter's name, the opening of its value and what follows. */
  lemma FrontParts(name: string, body: string)
    requires IsToken(name)
    ensures var s := name + ("=\"" + body);
            && TokenLength(s) == |name| && s[..|name|] == name
            && s[|name|..] == "=\"" + body && SkipSpace("=\"" + body) == "=\"" + body
  {
    var rest := "=\"" + body;
    assert rest[0] == '=' && rest[..2] == "=\"" && rest[2..] == body;
    TokenLengthOf(name, rest);
    var s := name + rest;
    assert s[|name|..] == rest;
    assert s[|name|..|name| + 2] == rest[..2];
    assert s[|name| + 2..] == rest[2..];
  }

  lemma ValueAfterEquals(body: string, strict: bool)
    ensures var s := "=\"" + body;
            s[0] == '=' && ParseValue(SkipSpace(s[1..]), strict) == ParseQuoted(body, strict)
  {
    var quoted := "\"" + body;
    assert ("=\"" + body)[1..] == quoted && quoted[0] == '"' && quoted[1..] == body;
  }

  lemma Regroup(a: string, b: string, c: string, d: string, e: string)
    ensures a + b + c + d + e == a + (b + (c + d + e))
  {
  }

  /** One printed parameter at the front is read back. */
  lemma ParamAtFront(p: Param, rest: string, strict: bool)
    requires IsToken(p.name)
    ensures ParseParams(PrintParam(p) + rest, strict)
            == if strict && !Clean(p.value) then None else ParseMore(p, rest, strict)
  {
    var body := EscapeEach(p.value) + "\"" + rest;
    EscapeIsPerChar(p.value);
    Regroup(p.name, "=\"", EscapeEach(p.value), "\"", rest);
    FrontParts(p.name, body);
    ValueAfterEquals(body, strict);
    QuotedRoundTrip(p.value, rest, strict);
  }

  lemma JoinFront(p: Param, tail: seq<Param>)
    ensures Join(PrintAll([p] + tail), ", ")
            == PrintParam(p) + if tail == [] then "" else ", " + Join(PrintAll(tail), ", ")
  {
    assert ([p] + tail)[1..] == tail;
    var parts := PrintAll([p] + tail);
    assert parts[0] == PrintParam(p) && parts[1..] == PrintAll(tail);
    if tail == [] {
      assert Join(parts, ", ") == PrintParam(p);
    } else {
      assert |PrintAll(tail)| > 0;
    }
  }

  predicate AllTokens(ps: seq<Param>)
  {
    forall i :: 0 <= i < |ps| ==> IsToken(ps[i].name)
  }

  /** A printed list starts with a name, not with white space. */
  lemma ListStart(ps: seq<Param>)
    requires ps != [] && AllTokens(ps)
    ensures var s := Join(PrintAll(ps), ", "); s != "" && !IsSpace(s[0]) && SkipSpace(s) == s
  {
    var s, name := Join(PrintAll(ps), ", "), ps[0].name;
    assert PrintAll(ps)[0] == PrintParam(ps[0]);
    assert PrintParam(ps[0])[0] == name[0] && s[0] == name[0] && TokenChar(name[0]);
  }

  lemma OneSpace(more: string)
    requires more != "" && !IsSpace(more[0])
    ensures SkipSpace(" " + more) == more
  {
    var blank := " " + more;
    assert blank[0] == ' ' && blank[1..] == more;
  }

  lemma AfterComma(p: Param, more: string, strict: bool)
    requires more != "" && !IsSpace(more[0])
    ensures ParseMore(p, ", " + more, strict)
            == var tail := ParseParams(more, strict);
               if tail.None? then None else Some([p] + tail.value)
  {
    OneSpace(more);
    var rest := ", " + more;
    assert rest[0] == ',' && rest[1..] == " " + more;
    assert SkipSpace(rest) == rest;
  }

  lemma {:induction false} ParamsRoundTrip(ps: seq<Param>, strict: bool)
    requires ps != [] && AllTokens(ps)
    ensures ParseParams(Join(PrintAll(ps), ", "), strict) == if strict && !AllClean(ps) then None else Some(ps)
    decreases |ps|
  {
    var p, tail := ps[0], ps[1..];
    assert ps == [p] + tail;
    assert AllClean(ps) <==> Clean(p.value) && AllClean(tail);
    JoinFront(p, tail);
    if tail == [] {
      assert ps == [p];
      ParamAtFront(p, "", strict);
    } else {
      var more := Join(PrintAll(tail), ", ");
      ListStart(tail);
      ParamAtFront(p, ", " + more, strict);
      AfterComma(p, more, strict);
      ParamsRoundTrip(tail, strict);
    }
  }

  lemma NameTokens()
    ensures IsToken("realm") && IsToken("resource_metadata") && IsToken("scope")
    ensures IsToken("error") && IsToken("error_description")
  {
  }

  lemma TokensAppend(ps: seq<Param>, qs: seq<Param>)
    requires AllTokens(ps) && AllTokens(qs)
    ensures AllTokens(ps + qs)
  {
  }

  lemma NamesAreTokens(v: Validator, code: string, description: string)
    ensures AllTokens(Params(v, code, description))
  {
    NameTokens();
    var r, m, s, e := RealmParam(v), MetadataParam(v), ScopeParam(v), ErrorParams(code, description);
    TokensAppend(r, m);
    TokensAppend(r + m, s);
    TokensAppend(r + m + s, e);
  }

  /**
    Whatever strings the validator and the error carry, parsing the printed challenge gives back
    exactly the parameters, in order and with their original values. The challenge is also within the
    strict grammar if and only if no value holds a control character, which the printer lets through.
  */
  lemma ChallengeRoundTrip(v: Validator, code: string, description: string)
    ensures var ps := Params(v, code, description);
            && ParseChallenge(Print(ps), false) == Some(ps)
            && ParseChallenge(Print(ps), true) == if AllClean(ps) then Some(ps) else None
  {
    var ps := Params(v, code, description);
    var header, body := Print(ps), Join(PrintAll(ps), ", ");
    assert header[..7] == "Bearer " && header[7..] == body;
    NamesAreTokens(v, code, description);
    if ps != [] {
      ListStart(ps);
      ParamsRoundTrip(ps, false);
      ParamsRoundTrip(ps, true);
    }
  }

  // ----- What the parsed header says -----

  /** The value of the first parameter with this name. */
  function Value(ps: seq<Param>, name: string): Option<string>
  {
    if ps == [] then None else if ps[0].name == name then Some(ps[0].value) else Value(ps[1..], name)
  }

  lemma {:induction false} ValueConcat(ps: seq<Param>, qs: seq<Param>, name: string)
    ensures Value(ps + qs, name) == OrElse(Value(ps, name), Value(qs, name))
  {
    if ps == [] {
      assert ps + qs == qs;
    } else {
      assert (ps + qs)[1..] == ps[1..] + qs;
      ValueConcat(ps[1..], qs, name);
    }
  }

  lemma ParamValue(v: Validator, code: string, description: string, name: string)
    ensures Value(Params(v, code, description), name)
            == OrElse(Value(RealmParam(v), name), OrElse(Value(MetadataParam(v), name),
               OrElse(Value(ScopeParam(v), name), Value(ErrorParams(code, description), name))))
  {
    var r, m, s, e := RealmParam(v), MetadataParam(v), ScopeParam(v), ErrorParams(code, description);
    ValueConcat(r, m, name);
    ValueConcat(r + m, s, name);
    ValueConcat(r + m + s, e, name);
  }

  /** The error and its description, from the arguments alone. */
  lemma ErrorValues(v: Validator, code: string, description: string)
    ensures var ps := Params(v, code, description);
            && Value(ps, "error") == (if code != "" then Some(code) else None)
            && Value(ps, "error_description") == (if code != "" && description != "" then Some(description) else None)
  {
    ParamValue(v, code, description, "error");
    ParamValue(v, code, description, "error_description");
    var es := ErrorParams(code, description);
    assert |es| > 0 ==> es[0].name == "error";
    assert |es| > 1 ==> es[1..][0].name == "error_description" && es[1..][1..] == [];
  }

  /** The issuer, first of all, the scopes with spaces between them, and where the metadata is. */
  lemma ValidatorValues(v: Validator, code: string, description: string)
    ensures var ps := Params(v, code, description);
            && Value(ps, "realm") == (if v.issuer != "" then Some(v.issuer) else None)
            && (v.issuer != "" ==> ps[0] == Param("realm", v.issuer))
            && Value(ps, "scope") == (if v.scopes != [] then Some(Join(v.scopes, " ")) else None)
            && Value(ps, "resource_metadata") ==
                 if v.resourceURL != "" && v.parsed.Some? then
                   var u := v.parsed.value;
                   Some(u.scheme + "://" + u.host + "/.well-known/oauth-protected-resource" +
                        (if u.path == "/" then "" else u.path))
                 else None
  {
    ParamValue(v, code, description, "realm");
    ParamValue(v, code, description, "scope");
    ParamValue(v, code, description, "resource_metadata");
    OtherNames(code, description);
  }

  lemma {:induction false} NotNamed(ps: seq<Param>, name: string)
    requires name != "" && forall i :: 0 <= i < |ps| ==> ps[i].name != "" && ps[i].name[0] != name[0]
    ensures Value(ps, name).None?
  {
    if ps != [] { NotNamed(ps[1..], name); }
  }

  lemma OtherNames(code: string, description: string)
    ensures var es := ErrorParams(code, description);
            Value(es, "realm").None? && Value(es, "scope").None? && Value(es, "resource_metadata").None?
  {
    var es := ErrorParams(code, description);
    assert forall i :: 0 <= i < |es| ==> es[i].name[0] == 'e';
    NotNamed(es, "realm");
    NotNamed(es, "scope");
    NotNamed(es, "resource_metadata");
  }

  /** The place of a name in the order of the header. */
  function Rank(name: string): nat
  {
    if name == "realm" then 0
    else if name == "resource_metadata" then 1
    else if name == "scope" then 2
    else if name == "error" then 3
    else if name == "error_description" then 4
    else 5
  }

  predicate Ordered(ps: seq<Param>)
  {
    forall i, j :: 0 <= i < j < |ps| ==> Rank(ps[i].name) < Rank(ps[j].name)
  }

  predicate RanksWithin(ps: seq<Param>, low: nat, high: nat)
  {
    forall i :: 0 <= i < |ps| ==> low <= Rank(ps[i].name) <= high
  }

  lemma OrderedConcat(ps: seq<Param>, qs: seq<Param>, low: nat, mid: nat, high: nat)
    requires Ordered(ps) && Ordered(qs) && RanksWithin(ps, low, mid) && RanksWithin(qs, mid + 1, high)
    requires low <= mid < high
    ensures Ordered(ps + qs) && RanksWithin(ps + qs, low, high)
  {
  }

  /** The parameters come in that order, so no name comes twice. */
  lemma ParamsOrdered(v: Validator, code: string, description: string)
    ensures Ordered(Params(v, code, description)) && RanksWithin(Params(v, code, description), 0, 4)
  {
    var r, m, s, e := RealmParam(v), MetadataParam(v), ScopeParam(v), ErrorParams(code, description);
    RankValues();
    OrderedConcat(r, m, 0, 0, 1);
    OrderedConcat(r + m, s, 0, 1, 2);
    OrderedConcat(r + m + s, e, 0, 2, 4);
  }

  lemma RankValues()
    ensures Rank("realm") == 0 && Rank("resource_metadata") == 1 && Rank("scope") == 2
    ensures Rank("error") == 3 && Rank("error_description") == 4
  {
    assert "error"[0] != "realm"[0] && "error"[0] != "scope"[0] && "scope"[0] != "realm"[0];
  }

  /** The metadata URL ends in the slash its path ends in, unless that slash is the whole path. */
  lemma SlashStaysExactly(u: ParsedUrl)
    ensures var s := MetadataUrl(u);
            s[|s| - 1] == '/' <==> |u.path| > 1 && u.path[|u.path| - 1] == '/'
  {
    var base := u.scheme + "://" + u.host + WELL_KNOWN;
    assert base[|base| - 1] == 'e';
    if u.path != "/" && u.path != "" {
      assert MetadataUrl(u) == base + u.path;
    } else {
      assert MetadataUrl(u) == base;
    }
  }

  /** So two challenges print alike only if they say the same. */
  lemma ChallengeIsInjective(v: Validator, code: string, description: string,
                             w: Validator, code': string, description': string)
    requires Print(Params(v, code, description)) == Print(Params(w, code', description'))
    ensures Params(v, code, description) == Params(w, code', description')
  {
    ChallengeRoundTrip(v, code, description);
    ChallengeRoundTrip(w, code', description');
  }
}
