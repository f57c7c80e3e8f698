/** The parser for complete responses (`detect_and_parse`), and its agreement
with the stream. */
module DsmlOneShot {
  import opened Text
  import opened ToolCalls
  import opened Utf8
  import opened DsmlSyntax
  import opened DsmlParams
  import opened DsmlDetector
  import opened DsmlStreaming
  import opened DsmlTheorems
  import DsmlJson

  /** The first invoke with a closing tag (`invoke_regex_`). */
  function FirstClosed(s: string, from: nat): (r: Option<Invoke>)
    requires from <= |s|
    ensures r.Some? ==> from < r.value.end <= |s|
    decreases |s| - from
  {
    if HeadAt(s, from).Match? && InvokeAt(s, from).closed then Some(InvokeAt(s, from))
    else if from == |s| then None
    else FirstClosed(s, from + 1)
  }

  /** The calls of the closed invokes that name a declared tool, in order;
  `None` when parsing throws. */
  function ClosedCalls(env: Env, tools: set<string>, s: string): Option<seq<Item>>
    decreases |s|
  {
    match FirstClosed(s, 0)
    case None => Some([])
    case Some(v) =>
      match Arguments(env.lib, v.body, false)
      case None => None
      case Some(args) =>
        match ClosedCalls(env, tools, s[v.end..])
        case None => None
        case Some(rest) => Some((if v.name in tools then [Item(-1, Some(v.name), args)] else []) + rest)
  }

  /** The text that is searched for invokes; `None` when `substr` throws. */
  function SearchContent(fmt: Format, text: string, normal: string): Option<string> {
    match Find(text, fmt.bot, 0)
    case None => if |normal| <= |text| then Some(text[|normal|..]) else None
    case Some(idx) =>
      var start := idx + |fmt.bot|;
      match Find(text, fmt.eot, start)
      case Some(end) => Some(text[start..end])
      case None => Some(text[start..])
  }

  function NormalText(env: Env, text: string): string {
    match Find(text, env.fmt.bot, 0)
    case Some(idx) => TrimWhitespace(env.sanitize(text[..idx]))
    case None =>
      match Find(text, INVOKE, 0)
      case Some(idx) => TrimWhitespace(env.sanitize(text[..idx]))
      case None => TrimWhitespace(text)
  }

  function FromJson(env: Env, text: string, normal: string): Result {
    var calls := JsonCalls(env, text);
    if calls == [] then Result(normal, [])
    else
      var items := seq(|calls|, i requires 0 <= i < |calls| => Item(-1, Some(calls[i].name), calls[i].args));
      var open := Find(text, DsmlJson.BRACE, 0);
      if open.Some? && open.value < |normal| then
        Result(TrimWhitespace(env.sanitize(text[..open.value])), items)
      else Result(normal, items)
  }

  function Detect(env: Env, tools: set<string>, text: string): Result {
    var hasTags := Has(text, env.fmt.bot) || Has(text, INVOKE);
    var normal := NormalText(env, text);
    if !hasTags then
      if Has(text, TOOL_CALLS) then FromJson(env, text, normal) else Result(normal, [])
    else
      match SearchContent(env.fmt, text, normal)
      case None => Result(text, [])
      case Some(content) =>
        match ClosedCalls(env, tools, content)
        case None => Result(text, [])
        case Some(calls) =>
          if calls == [] && Has(text, TOOL_CALLS) then FromJson(env, text, normal) else Result(normal, calls)
  }

  method DetectAndParse(env: Env, tools: set<string>, text: string) returns (r: Result)
    ensures r == Detect(env, tools, text)
  {
    hide ClosedCalls, SearchContent, NormalText, FromJson;
    var hasTags := Has(text, env.fmt.bot) || Has(text, INVOKE);
    var normal := NormalText(env, text);
    var hasJson := Has(text, TOOL_CALLS);
    if !hasTags && !hasJson {
      return Result(normal, []);
    }
    var calls := Some([]);
    if hasTags {
      var content := SearchContent(env.fmt, text, normal);
      if content.None? {
        return Result(text, []);
      }
      calls := FindCalls(env, tools, content.value);
      if calls.None? {
        return Result(text, []);
      }
    }
    if calls.value == [] && hasJson {
      r := FromJson(env, text, normal);
    } else {
      r := Result(normal, calls.value);
    }
  }

  method FindCalls(env: Env, tools: set<string>, content: string) returns (r: Option<seq<Item>>)
    ensures r == ClosedCalls(env, tools, content)
  {
    hide FirstClosed, Parameters;
    var calls: seq<Item> := [];
    ghost var all := ClosedCalls(env, tools, content);
    assert all.Some? ==> calls + all.value == all.value;
    var rest := content;
    var invoke := FirstClosed(rest, 0);
    while invoke.Some?
      invariant invoke == FirstClosed(rest, 0)
      invariant all == (match ClosedCalls(env, tools, rest) case None => None case Some(more) => Some(calls + more))
      decreases |rest|
    {
      var v := invoke.value;
      var params := ParseParameters(env.lib, v.body, false);
      if params.None? {
        return None;
      }
      var json := FillObject(params.value);
      ghost var more := ClosedCalls(env, tools, rest[v.end..]);
      if v.name in tools {
        var item := Item(-1, Some(v.name), env.lib.dump(json));
        assert more.Some? ==> calls + ([item] + more.value) == calls + [item] + more.value;
        calls := calls + [item];
      } else {
        assert more.Some? ==> [] + more.value == more.value;
      }
      rest := rest[v.end..];
      invoke := FirstClosed(rest, 0);
    }
    assert calls + [] == calls;
    return Some(calls);
  }

  // ---------------------------------------------------------------------
  // Requiring the closing tag finds the closed invokes of the stream.

  /** Once an invoke is open, no later one is closed. */
  lemma {:induction false} NoneAfterOpen(s: string, p: nat, q: nat)
    requires p < q <= |s| && HeadAt(s, p).Match? && HeadAt(s, q).Match? && !InvokeAt(s, p).closed
    ensures !InvokeAt(s, q).closed
  {
    BodiesInOrder(s, p, q);
  }

  lemma {:induction false} FirstClosedFrom(s: string, from: nat)
    requires from <= |s|
    ensures FirstClosed(s, from)
         == (match FirstHead(s, from)
             case None => None
             case Some(p) => if InvokeAt(s, p).closed then Some(InvokeAt(s, p)) else None)
    decreases |s| - from
  {
    hide InvokeOf;
    if HeadAt(s, from).Match? {
      if !InvokeAt(s, from).closed {
        AllOpen(s, from, from);
      }
    } else if from < |s| {
      FirstClosedFrom(s, from + 1);
    }
  }

  lemma {:induction false} AllOpen(s: string, p: nat, from: nat)
    requires p <= from <= |s| && HeadAt(s, p).Match? && !InvokeAt(s, p).closed
    ensures FirstClosed(s, from).None?
    decreases |s| - from
  {
    hide InvokeOf, HeadAt;
    if HeadAt(s, from).Match? && p < from {
      NoneAfterOpen(s, p, from);
    }
    if from < |s| {
      AllOpen(s, p, from + 1);
    }
  }

  /** All calls declared: the one-shot calls are the closed invokes. */
  lemma {:induction false} ClosedCallsAre(env: Env, tools: set<string>, s: string)
    requires AllParse(env, ClosedOf(s)) && forall c | c in ClosedOf(s) :: c.name in tools
    ensures ClosedCalls(env, tools, s).Some? && |ClosedCalls(env, tools, s).value| == |ClosedOf(s)|
    ensures forall i | 0 <= i < |ClosedOf(s)| ::
      ClosedCalls(env, tools, s).value[i] == Item(-1, Some(ClosedOf(s)[i].name), ArgumentsOf(env, ClosedOf(s)[i]))
    decreases |s|
  {
    hide InvokeOf, HeadAt, Arguments, FirstClosed;
    FirstClosedFrom(s, 0);
    assert FirstClosed(s, 0) == (if FirstInvoke(s).Some? && FirstInvoke(s).value.closed then FirstInvoke(s) else None);
    if FirstInvoke(s).Some? && FirstInvoke(s).value.closed {
      var v := FirstInvoke(s).value;
      var c := Call(v.name, v.body, true);
      assert ClosedOf(s) == [c] + ClosedOf(s[v.end..]);
      assert c in ClosedOf(s);
      forall d | d in ClosedOf(s[v.end..]) ensures d in ClosedOf(s) {}
      ClosedCallsAre(env, tools, s[v.end..]);
    }
  }

  // ---------------------------------------------------------------------
  // Agreement.

  /** `<` begins the token and occurs nowhere else in it, and no invoke tag
  begins in it. */
  predicate IsBracket(token: string) {
    token != "" && token[0] == '<' && NoAngle(token, 1, |token|) && Settled(token)
  }

  predicate FormatOk(fmt: Format) { IsBracket(fmt.bot) && IsBracket(fmt.eot) }

  /** The tokens of both detectors qualify. */
  lemma {:induction false} FormatsOk()
    ensures FormatOk(V32) && FormatOk(V4)
  {
    BracketLetters("function_calls>");
    BracketLetters("tool_calls>");
  }

  lemma {:induction false} DiffersFrom(s: string, p: nat, k: nat)
    requires p + k < |s| && k < |INVOKE| && s[p + k] != INVOKE[k]
    ensures HeadAt(s, p).Fail?
  {
    if !Literal(s, p, INVOKE).No? {
      LiteralLetters(s, p, INVOKE);
    }
  }

  lemma {:induction false} BracketLetters(word: string)
    requires |word| > 0 && word[0] != 'i' && NoAngle(word, 0, |word|)
    ensures IsBracket("<" + BAR + "DSML" + BAR + word) && IsBracket("</" + BAR + "DSML" + BAR + word)
  {
    var open, close := "<" + BAR + "DSML" + BAR + word, "</" + BAR + "DSML" + BAR + word;
    assert INVOKE[0] == '<' && INVOKE[1] == '\U{EF}' && INVOKE[11] == 'i';
    OnlyFirstAngle(open);
    OnlyFirstAngle(close);
    DiffersFrom(open, 0, 11);
    DiffersFrom(close, 0, 1);
  }

  lemma {:induction false} OnlyFirstAngle(s: string)
    requires s != "" && NoAngle(s, 1, |s|)
    ensures forall p | 1 <= p < |s| :: HeadAt(s, p).Fail?
  {
    hide HeadAt;
    assert INVOKE[0] == '<';
    forall p | 1 <= p < |s| ensures HeadAt(s, p).Fail? { DiffersFrom(s, p, 0); }
  }

  lemma {:induction false} SkipInvokes(a: string, b: string)
    requires forall p | 0 <= p < |a| :: !HeadAt(a + b, p).Match?
    ensures Invokes(a + b) == Invokes(b)
  {
    hide HeadAt, FirstInvoke;
    SettledPrefix(a, b);
    if FirstInvoke(b).Some? {
      assert (a + b)[|a| + FirstInvoke(b).value.end..] == b[FirstInvoke(b).value.end..];
    }
  }

  lemma {:induction false} SkipProse(a: string, b: string)
    requires !Has(a, INVOKE) && b != "" && b[0] == '<'
    ensures Invokes(a + b) == Invokes(b)
  {
    hide HeadAt;
    forall p | 0 <= p < |a| ensures !HeadAt(a + b, p).Match? { NoTagBefore(a, b, p); }
    SkipInvokes(a, b);
  }

  lemma {:induction false} NoInvokes(s: string)
    requires !Has(s, INVOKE)
    ensures Invokes(s) == []
  {
    hide HeadAt;
    if FirstInvoke(s).Some? { NoTagNoMatch(s, FirstHead(s, 0).value); }
  }

  /** The invokes of a framed block are the closed invokes of its content. */
  lemma {:induction false} FramedInvokes(fmt: Format, prose: string, content: string, tail: string)
    requires FormatOk(fmt)
    requires !Has(prose, INVOKE) && !Has(Rest(content), INVOKE) && !Has(tail, INVOKE)
    ensures Invokes(prose + fmt.bot + content + fmt.eot + tail) == ClosedOf(content)
  {
    hide HeadAt, Invokes, Has;
    var after := fmt.eot + tail;
    var inner := content + after;
    assert prose + fmt.bot + content + fmt.eot + tail == prose + (fmt.bot + inner);
    SkipProse(prose, fmt.bot + inner);
    SettledInvokes(fmt.bot, inner);
    InvokesGrow(content, after);
    SkipProse(Rest(content), after);
    SettledInvokes(fmt.eot, tail);
    NoInvokes(tail);
  }

  /** Streaming and one-shot parsing agree on a framed block of closed invokes of
  declared tools, under every chunking: the same tools, in the same order, with
  the same arguments, and nothing else. */
  lemma {:induction false} StreamAgreesWithOneShot(env: Env, tools: set<string>, prose: string, content: string,
                                                   tail: string, chunks: seq<string>, i: nat)
    requires FormatOk(env.fmt)
    requires Flatten(chunks) == prose + env.fmt.bot + content + env.fmt.eot + tail
    requires NonEmpty(chunks) && Complete(Flatten(chunks))
    requires !QuotedKey(Flatten(chunks)) && NoneThrow(env, INITIAL, chunks)
    requires !Has(prose, INVOKE) && !Has(Rest(content), INVOKE) && !Has(tail, INVOKE)
    requires !Has(prose, env.fmt.bot) && !Has(content, env.fmt.eot)
    requires ClosedOf(content) != [] && forall c | c in ClosedOf(content) :: c.name in tools
    ensures var streamed, oneShot := Run(env, INITIAL, chunks).calls, Detect(env, tools, Flatten(chunks)).calls;
      if i < |oneShot| then
        && oneShot[i].name.Some?
        && NamesFor(streamed, i) == [oneShot[i].name.value]
        && ArgsFor(streamed, i) == oneShot[i].args
      else NamesFor(streamed, i) == [] && ArgsFor(streamed, i) == ""
  {
    hide NoneThrow, AllParse, QuotedKey, Run, Complete, Detect, FormatOk, Has, ItemsOf, Invokes, NamesFor, ArgsFor,
         ArgumentsOf, Rest, ReleasedLength, Flatten, CachedCalls, ClosedOf;
    EveryMoment(env, chunks, Flatten(chunks));
    AllReleased(Flatten(chunks));
    FramedInvokes(env.fmt, prose, content, tail);
    OneShotContent(env, tools, prose, content, tail);
    SameCalls(env, ClosedOf(content), Detect(env, tools, Flatten(chunks)).calls, i);
  }

  lemma {:induction false} AllReleased(text: string)
    requires Complete(text)
    ensures Released(text) == text
  {
    hide ReleasedLength;
    SplitsAtCharacter(text, "");
    assert text + "" == text;
  }

  lemma {:induction false} SameCalls(env: Env, calls: seq<Call>, oneShot: seq<Item>, i: nat)
    requires AllClosed(calls) && |oneShot| == |calls|
    requires forall k | 0 <= k < |calls| :: oneShot[k] == Item(-1, Some(calls[k].name), ArgumentsOf(env, calls[k]))
    ensures var streamed := ItemsOf(env, calls, 0);
      if i < |oneShot| then
        && oneShot[i].name.Some?
        && NamesFor(streamed, i) == [oneShot[i].name.value]
        && ArgsFor(streamed, i) == oneShot[i].args
      else NamesFor(streamed, i) == [] && ArgsFor(streamed, i) == ""
  {
    hide ArgumentsOf, ItemsOf, NamesFor, ArgsFor;
    ItemsPerIndex(env, calls, 0, i);
  }

  /** One-shot parsing of the framed block. */
  lemma {:induction false} OneShotContent(env: Env, tools: set<string>, prose: string, content: string, tail: string)
    requires FormatOk(env.fmt)
    requires AllParse(env, ClosedOf(content))
    requires !Has(prose, env.fmt.bot) && !Has(content, env.fmt.eot)
    requires ClosedOf(content) != [] && forall c | c in ClosedOf(content) :: c.name in tools
    ensures var calls := Detect(env, tools, prose + env.fmt.bot + content + env.fmt.eot + tail).calls;
      && |calls| == |ClosedOf(content)|
      && forall i | 0 <= i < |calls| ::
           calls[i] == Item(-1, Some(ClosedOf(content)[i].name), ArgumentsOf(env, ClosedOf(content)[i]))
  {
    hide AllParse, SearchContent, Has, ClosedOf, ClosedCalls, FromJson, NormalText, ArgumentsOf, FormatOk;
    var text := prose + env.fmt.bot + content + env.fmt.eot + tail;
    ContentFound(env.fmt, prose, content, tail, NormalText(env, text));
    ClosedCallsAre(env, tools, content);
  }

  lemma {:induction false} ContentFound(fmt: Format, prose: string, content: string, tail: string, normal: string)
    requires FormatOk(fmt) && !Has(prose, fmt.bot) && !Has(content, fmt.eot)
    ensures var text := prose + fmt.bot + content + fmt.eot + tail;
      Has(text, fmt.bot) && SearchContent(fmt, text, normal) == Some(content)
  {
    hide Find, Settled;
    var start, rest := prose + fmt.bot, content + fmt.eot + tail;
    var text := prose + fmt.bot + content + fmt.eot + tail;
    assert text == prose + fmt.bot + rest && text == start + rest;
    MarkerFound(prose, fmt.bot, rest);
    MarkerFound(content, fmt.eot, tail);
    FindShift(start, rest, fmt.eot, 0);
    assert text[|start|..|start| + |content|] == content;
  }
}
