/** The parameters of an invoke body (`parse_parameters_from_xml`,
`params_to_json_sorted`). */
module DsmlParams {
  import opened Text
  import opened Json
  import opened DsmlSyntax

  const PARAMETER: string := "<" + BAR + "DSML" + BAR + "parameter"
  const PARAMETER_END: string := "</" + BAR + "DSML" + BAR + "parameter>"
  const STRING: string := "string=\""

  /** What is stripped, in this order, from the end of an unfinished body. */
  const END_TOKENS: seq<string> := ["parameter", BAR + "DSML" + BAR, "</"]

  datatype ParamHead = ParamHead(name: string, typ: string, valueFrom: nat)

  /** `[^"]+"` at `p`: the position of the closing quote. */
  function ClosingQuote(s: string, p: nat): (r: Option<nat>)
    ensures r.Some? ==> p < r.value < |s|
  {
    match Find(s, QUOTE, p)
    case None => None
    case Some(q) => if q == p then None else Some(q)
  }

  /** `\s+` followed by the attribute `key` and its value: where the value
  starts and ends. */
  function AttributeSpan(s: string, p: nat, key: string): (r: Option<(nat, nat)>)
    requires p <= |s|
    ensures r.Some? ==> p < r.value.0 < r.value.1 < |s|
  {
    var attr := SkipSpace(s, p);
    if attr == p || !OccursAt(s, key, attr) then None
    else
      match ClosingQuote(s, attr + |key|)
      case None => None
      case Some(q) => Some((attr + |key|, q))
  }

  function ParamHeadAt(s: string, p: nat): (r: Option<ParamHead>)
    requires p <= |s|
    ensures r.Some? ==> p < r.value.valueFrom <= |s|
  {
    if !OccursAt(s, PARAMETER, p) then None
    else
      match AttributeSpan(s, p + |PARAMETER|, NAME)
      case None => None
      case Some((nameFrom, nameTo)) =>
        match AttributeSpan(s, nameTo + 1, STRING)
        case None => None
        case Some((typFrom, typTo)) =>
          var close := SkipSpace(s, typTo + 1);
          if close < |s| && s[close] == '>' then
            Some(ParamHead(TrimWhitespace(s[nameFrom..nameTo]), TrimWhitespace(s[typFrom..typTo]), close + 1))
          else None
  }

  datatype Param = Param(name: string, typ: string, value: string, end: nat)

  /** The next parameter with its closing tag (`std::sregex_iterator`). */
  function NextParam(s: string, from: nat): (r: Option<Param>)
    requires from <= |s|
    ensures r.Some? ==> from < r.value.end <= |s|
    decreases |s| - from
  {
    match ParamAt(s, from)
    case Some(p) => Some(p)
    case None => if from == |s| then None else NextParam(s, from + 1)
  }

  function ParamAt(s: string, p: nat): (r: Option<Param>)
    requires p <= |s|
    ensures r.Some? ==> p < r.value.end <= |s|
  {
    match ParamHeadAt(s, p)
    case None => None
    case Some(h) =>
      match Find(s, PARAMETER_END, h.valueFrom)
      case None => None
      case Some(e) => Some(Param(h.name, h.typ, s[h.valueFrom..e], e + |PARAMETER_END|))
  }

  /** The first opening parameter tag, whose value is still being written. */
  function OpenParam(s: string, from: nat): (r: Option<ParamHead>)
    requires from <= |s|
    ensures r.Some? ==> r.value.valueFrom <= |s|
    decreases |s| - from
  {
    match ParamHeadAt(s, from)
    case Some(h) => Some(h)
    case None => if from == |s| then None else OpenParam(s, from + 1)
  }

  /** A parameter marked as string keeps its bytes; any other is parsed as JSON
  and kept as trimmed text when it is not JSON. `None` when the parser throws
  something else. */
  function ParamValue(lib: Library, typ: string, value: string): Option<Json> {
    if typ == "true" then Some(Str(value))
    else
      var trimmed := TrimWhitespace(value);
      match lib.parse(trimmed)
      case Value(v) => Some(v)
      case ParseError => Some(Str(trimmed))
      case OtherError => None
  }

  function StripSuffix(s: string, token: string): (r: string)
    ensures |r| <= |s|
    decreases |s|
  {
    if token != "" && EndsWith(s, token) then StripSuffix(s[..|s| - |token|], token) else s
  }

  function StripEndTokens(s: string, tokens: seq<string>): string
    decreases |tokens|
  {
    if tokens == [] then s else StripEndTokens(StripSuffix(s, tokens[0]), tokens[1..])
  }

  type Params = map<string, Json>

  /** The closed parameters from `from` on, added to `acc`, and the end of the
  last one. `None` when the JSON parser throws. */
  function Closed(lib: Library, s: string, from: nat, acc: Params): (r: Option<(Params, nat)>)
    requires from <= |s|
    ensures r.Some? ==> r.value.1 <= |s|
    decreases |s| - from
  {
    match NextParam(s, from)
    case None => Some((acc, from))
    case Some(p) =>
      match ParamValue(lib, p.typ, p.value)
      case None => None
      case Some(v) => Closed(lib, s, p.end, acc[p.name := v])
  }

  /** A parameter that is still being written, added to the closed ones. */
  function WithOpen(lib: Library, remaining: string, acc: Params): Option<Params> {
    var cut := StripEndTokens(remaining, END_TOKENS);
    match OpenParam(cut, 0)
    case None => Some(acc)
    case Some(h) =>
      var value := TrimWhitespace(cut[h.valueFrom..]);
      if h.typ == "true" then Some(acc[h.name := Str(value)])
      else if value == "" then Some(acc)
      else
        match lib.loads(value)
        case None => None
        case Some(v) => Some(acc[h.name := v])
  }

  /** A body that is one JSON object gives its members. */
  function Direct(lib: Library, body: string): Option<Parsed> {
    var stripped := TrimWhitespace(body);
    if |stripped| >= 2 && stripped[0] == '{' && stripped[|stripped| - 1] == '}'
    then Some(lib.parse(stripped)) else None
  }

  /** The parameters of a body; `None` when parsing throws. */
  function Parameters(lib: Library, body: string, allowPartial: bool): Option<Params> {
    var direct := Direct(lib, body);
    if direct.Some? && direct.value.OtherError? then None
    else if direct.Some? && direct.value.Value? && direct.value.json.Obj? then Some(direct.value.json.fields)
    else
      match Closed(lib, body, 0, map[])
      case None => None
      case Some((params, end)) => if allowPartial then WithOpen(lib, body[end..], params) else Some(params)
  }

  /** The argument string of a body. */
  function Arguments(lib: Library, body: string, allowPartial: bool): Option<string> {
    match Parameters(lib, body, allowPartial)
    case None => None
    case Some(params) => Some(lib.dump(Obj(params)))
  }

  method ParseParameters(lib: Library, body: string, allowPartial: bool) returns (r: Option<Params>)
    ensures r == Parameters(lib, body, allowPartial)
  {
    hide Closed, WithOpen, TrimWhitespace;
    var direct := Direct(lib, body);
    if direct.Some? {
      match direct.value {
        case OtherError => return None;
        case ParseError =>
        case Value(v) =>
          if v.Obj? {
            return Some(v.fields);
          }
      }
    }
    var closed := ParseClosed(lib, body);
    if closed.None? {
      return None;
    }
    var (parameters, lastMatchEnd) := closed.value;
    if allowPartial {
      r := ParseOpen(lib, body[lastMatchEnd..], parameters);
    } else {
      r := Some(parameters);
    }
  }

  method ParseClosed(lib: Library, body: string) returns (r: Option<(Params, nat)>)
    ensures r == Closed(lib, body, 0, map[])
  {
    var parameters: Params := map[];
    var lastMatchEnd := 0;
    var next := NextParam(body, 0);
    while next.Some?
      invariant lastMatchEnd <= |body| && next == NextParam(body, lastMatchEnd)
      invariant Closed(lib, body, lastMatchEnd, parameters) == Closed(lib, body, 0, map[])
      decreases |body| - lastMatchEnd
    {
      var value := ParamValue(lib, next.value.typ, next.value.value);
      if value.None? {
        return None;
      }
      parameters := parameters[next.value.name := value.value];
      lastMatchEnd := next.value.end;
      next := NextParam(body, lastMatchEnd);
    }
    return Some((parameters, lastMatchEnd));
  }

  method CutEndTokens(s: string, tokens: seq<string>) returns (r: string)
    requires forall t | t in tokens :: t != ""
    ensures r == StripEndTokens(s, tokens)
  {
    r := s;
    for k := 0 to |tokens|
      invariant StripEndTokens(r, tokens[k..]) == StripEndTokens(s, tokens)
    {
      var token := tokens[k];
      assert token in tokens;
      ghost var before := r;
      while EndsWith(r, token)
        invariant StripSuffix(r, token) == StripSuffix(before, token)
        decreases |r|
      {
        r := r[..|r| - |token|];
      }
      assert tokens[k..][1..] == tokens[k + 1..];
    }
  }

  method ParseOpen(lib: Library, remaining: string, parameters: Params) returns (r: Option<Params>)
    ensures r == WithOpen(lib, remaining, parameters)
  {
    var cut := CutEndTokens(remaining, END_TOKENS);
    var open := OpenParam(cut, 0);
    if open.None? {
      return Some(parameters);
    }
    var value := TrimWhitespace(cut[open.value.valueFrom..]);
    if open.value.typ == "true" {
      return Some(parameters[open.value.name := Str(value)]);
    }
    if value == "" {
      return Some(parameters);
    }
    var parsed := lib.loads(value);
    if parsed.None? {
      return None;
    }
    return Some(parameters[open.value.name := parsed.value]);
  }

  /** Filling a JSON object key by key gives the same object in every order of
  the keys, so sorting them first changes nothing. */
  method FillObject(params: Params) returns (j: Json)
    ensures j == Obj(params)
  {
    var fields: Params := map[];
    var keys := params.Keys;
    while keys != {}
      invariant keys <= params.Keys && fields.Keys == params.Keys - keys
      invariant forall k | k in fields :: fields[k] == params[k]
      decreases keys
    {
      var k :| k in keys;
      fields := fields[k := params[k]];
      keys := keys - {k};
    }
    assert fields == params;
    j := Obj(fields);
  }
}
