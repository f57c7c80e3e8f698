/** The streaming tool-call detector of DeepSeek-V3.2 and V4
(`DeepSeekV32Detector::parse_streaming_increment`).

`Step` is the effect of one call on the fields; the class `Detector` computes it
in place.
*/
module DsmlDetector {
  import opened Text
  import opened Utf8
  import opened Json
  import opened ToolCalls
  import opened DsmlSyntax
  import opened DsmlParams
  import DsmlJson

  /** The tags around a block of invokes. */
  datatype Format = Format(bot: string, eot: string)

  const V32: Format := Format("<" + BAR + "DSML" + BAR + "function_calls>",
                           "</" + BAR + "DSML" + BAR + "function_calls>")
  const V4: Format := Format("<" + BAR + "DSML" + BAR + "tool_calls>", "</" + BAR + "DSML" + BAR + "tool_calls>")

  /** A call found by the JSON fallback. */
  datatype JsonCall = JsonCall(name: string, args: string)

  /** What the detector relies on and this model does not look into: the JSON
  library, the two extractions of calls from JSON text (from a whole block, and
  from the text when the block is incomplete), and the two text sanitisers. */
  datatype Env = Env(
    fmt: Format,
    lib: Library,
    blockCalls: string -> seq<JsonCall>,
    arrayCalls: string -> seq<JsonCall>,
    sanitize: string -> string,
    stripFence: string -> string)

  datatype Snapshot = Snapshot(name: string, args: string)

  /** The fields. An entry of `prev` is `None` until its arguments are cached. */
  datatype State = State(
    buffer: string,
    held: string,
    toolId: int,
    nameSent: bool,
    prev: seq<Option<Snapshot>>,
    streamed: seq<string>)
  {
    predicate Valid() { toolId >= -1 && |prev| == |streamed| }
  }

  const INITIAL: State := State("", "", -1, false, [], [])

  // ---------------------------------------------------------------------
  // Tests on the buffered text.

  const TOOL_CALLS: string := "tool_calls"
  const DOUBLE_QUOTED: string := "\"tool_calls\""
  const SINGLE_QUOTED: string := "'tool_calls'"
  const OPEN_MARK: string := "<" + BAR
  const CLOSE_MARK: string := "</" + BAR
  const WORD_MARK: string := BAR + "DSML" + BAR

  predicate PotentiallyDsml(s: string) {
    Has(s, WORD_MARK) || Has(s, OPEN_MARK) || Has(s, CLOSE_MARK)
  }

  predicate EndsWithPrefix(s: string) {
    var t := TrimWhitespace(s);
    EndsWith(t, "<") || EndsWith(t, OPEN_MARK) || EndsWith(t, "</") || EndsWith(t, CLOSE_MARK)
  }

  predicate EndsWithOpenBrace(s: string) {
    var t := TrimWhitespace(s);
    t != "" && t[|t| - 1] == '{'
  }

  predicate QuotedKey(s: string) {
    Has(s, DOUBLE_QUOTED) || Has(s, SINGLE_QUOTED)
  }

  /** Where the key `tool_calls` is first found, quoted forms first. */
  function KeyPosition(s: string): Option<nat> {
    if Has(s, DOUBLE_QUOTED) then Find(s, DOUBLE_QUOTED, 0)
    else if Has(s, SINGLE_QUOTED) then Find(s, SINGLE_QUOTED, 0)
    else Find(s, TOOL_CALLS, 0)
  }

  predicate HasToolCall(fmt: Format, s: string) {
    || Has(s, fmt.bot)
    || Has(s, INVOKE)
    || (KeyPosition(s).Some? && Find(s, "[", KeyPosition(s).value).Some?)
  }

  /** The buffer may hold the beginning of a tool block and is not flushed. */
  predicate Suspicious(fmt: Format, s: string) {
    || HasToolCall(fmt, s)
    || PotentiallyDsml(s)
    || EndsWithPrefix(s)
    || QuotedKey(s)
    || EndsWithOpenBrace(s)
    || DsmlJson.BlockOpen(s)
  }

  // ---------------------------------------------------------------------
  // One step.

  function JsonCalls(env: Env, text: string): seq<JsonCall> {
    match Find(text, DsmlJson.BRACE, 0)
    case None => []
    case Some(open) =>
      match DsmlJson.CloseFrom(text, open, DsmlJson.START)
      case None => env.arrayCalls(text)
      case Some(close) => env.blockCalls(text[open..close + 1])
  }

  function Numbered(calls: seq<JsonCall>): seq<Item> {
    seq(|calls|, i requires 0 <= i < |calls| => Item(i, Some(calls[i].name), calls[i].args))
  }

  /** The text around the JSON block. */
  function AroundBlock(env: Env, text: string): string {
    match DsmlJson.Block(text)
    case None => text
    case Some((open, close)) => env.sanitize(text[..open]) + env.stripFence(text[close + 1..])
  }

  function JsonStep(env: Env, st: State): (State, Result) {
    var text := st.buffer;
    if DsmlJson.BlockOpen(text) then
      var open := Find(text, DsmlJson.BRACE, 0).value;
      if open > 0 then
        (st.(buffer := text[open..]), Result(TrimWhitespace(env.sanitize(text[..open])), []))
      else (st, Result("", []))
    else
      var calls := JsonCalls(env, text);
      if calls != [] then (st.(buffer := ""), Result(AroundBlock(env, text), Numbered(calls)))
      else (st, Result("", []))
  }

  /** The slots of the current tool exist. */
  function Prepared(st: State): (r: State)
    requires st.Valid()
    ensures r.Valid() && 0 <= r.toolId < |r.prev|
  {
    var st1 := if st.toolId == -1 then st.(toolId := 0, prev := [], streamed := [], nameSent := false) else st;
    Grown(st1)
  }

  function Grown(st: State): (r: State)
    requires st.Valid() && st.toolId >= 0
    ensures r.Valid() && r.toolId == st.toolId < |r.prev|
    ensures r == st.(prev := r.prev, streamed := r.streamed)
    decreases st.toolId + 1 - |st.prev|
  {
    if |st.prev| <= st.toolId then Grown(st.(prev := st.prev + [None], streamed := st.streamed + [""])) else st
  }

  /** The tool name is announced once, as soon as the tag is there. */
  function Announced(st: State, name: string): (State, seq<Item>) {
    if st.nameSent then (st, []) else (st.(nameSent := true), [Item(st.toolId, Some(name), "")])
  }

  /** The snapshot of the current call. */
  function Cached(st: State, name: string, args: string): State
    requires 0 <= st.toolId < |st.prev|
  {
    st.(prev := st.prev[st.toolId := Some(Snapshot(name, args))])
  }

  /** The state after a closed invoke. */
  function Closing(st: State, name: string, args: string, rest: string): State
    requires st.Valid() && 0 <= st.toolId < |st.prev|
  {
    Cached(st, name, args).(
      streamed := st.streamed[st.toolId := args], buffer := rest, toolId := st.toolId + 1, nameSent := false)
  }

  datatype LoopResult = LoopResult(state: State, text: string, calls: seq<Item>, threw: bool)

  /** The loop over the invokes of the buffered text. */
  function InvokeLoop(env: Env, st: State, text: string, calls: seq<Item>): (r: LoopResult)
    requires st.Valid()
    ensures r.state.Valid()
    decreases |text|
  {
    match FirstInvoke(text)
    case None => LoopResult(st, text, calls, false)
    case Some(v) =>
      var (named, announcement) := Announced(Prepared(st), v.name);
      var id := named.toolId;
      match Arguments(env.lib, v.body, !v.closed)
      case None => LoopResult(named, text, calls + announcement, true)
      case Some(args) =>
        if !v.closed then LoopResult(Cached(named, v.name, args), text, calls + announcement, false)
        else
          InvokeLoop(env, Closing(named, v.name, args, text[v.end..]), text[v.end..],
                     calls + announcement + [Item(id, None, args)])
  }

  function DsmlStep(env: Env, st: State): (r: (State, Result))
    requires st.Valid()
    ensures r.0.Valid()
  {
    var r := InvokeLoop(env, st, st.buffer, []);
    if r.threw then (r.state, Result(r.text, [])) else (r.state, Result("", r.calls))
  }

  /** Arriving bytes: whole characters join the buffer, a cut one is held. */
  function Received(st: State, newText: string): State {
    if newText == "" then st.(held := "")
    else
      var merged := st.held + newText;
      var n := ReleasedLength(merged);
      st.(held := merged[n..], buffer := st.buffer + merged[..n])
  }

  /** An empty chunk marks the end of the stream. */
  function EndOfStream(env: Env, st: State): (State, Result) {
    var text := st.buffer;
    if text == "" then (st, Result("", []))
    else if HasToolCall(env.fmt, text) || PotentiallyDsml(text) || QuotedKey(text) then
      (st.(buffer := ""), Result("", []))
    else (st.(buffer := ""), Result(text, []))
  }

  function Step(env: Env, st: State, newText: string): (r: (State, Result))
    requires st.Valid()
    ensures r.0.Valid()
  {
    var st1 := Received(st, newText);
    if newText == "" then EndOfStream(env, st1)
    else if !Suspicious(env.fmt, st1.buffer) then (st1.(buffer := ""), Result(st1.buffer, []))
    else if QuotedKey(st1.buffer) && !PotentiallyDsml(st1.buffer) then JsonStep(env, st1)
    else DsmlStep(env, st1)
  }

  // ---------------------------------------------------------------------
  // The detector object.

  class Detector {
    const env: Env
    var buffer: string
    var utf8Buffer: string
    var currentToolId: int
    var currentToolNameSent: bool
    var prevToolCallArr: seq<Option<Snapshot>>
    var streamedArgsForTool: seq<string>

    function Fields(): State
      reads this
    {
      State(buffer, utf8Buffer, currentToolId, currentToolNameSent, prevToolCallArr, streamedArgsForTool)
    }

    constructor (env: Env)
      ensures this.env == env && Fields() == INITIAL
    {
      this.env := env;
      buffer, utf8Buffer := "", "";
      currentToolId, currentToolNameSent := -1, false;
      prevToolCallArr, streamedArgsForTool := [], [];
    }

    method ParseStreamingIncrement(newText: string) returns (r: Result)
      requires Fields().Valid()
      modifies this
      ensures (Fields(), r) == Step(env, old(Fields()), newText)
    {
      if newText != "" {
        var complete, tail := SplitIncompleteUtf8(utf8Buffer + newText);
        assert complete == (utf8Buffer + newText)[..|complete|];
        utf8Buffer := tail;
        buffer := buffer + complete;
      } else {
        utf8Buffer := "";
      }
      assert Fields() == Received(old(Fields()), newText);
      var currentText := buffer;
      var potentiallyDsml := PotentiallyDsml(currentText);
      var hasJsonToolCalls := QuotedKey(currentText);
      var potentiallyJsonBlock := DsmlJson.CountBraces(currentText);

      if newText == "" {
        if currentText == "" {
          return Result("", []);
        }
        buffer := "";
        if HasToolCall(env.fmt, currentText) || potentiallyDsml || hasJsonToolCalls {
          return Result("", []);
        }
        return Result(currentText, []);
      }

      if !HasToolCall(env.fmt, currentText) && !potentiallyDsml && !EndsWithPrefix(currentText) &&
         !hasJsonToolCalls && !EndsWithOpenBrace(currentText) && !potentiallyJsonBlock {
        buffer := "";
        return Result(currentText, []);
      }

      if hasJsonToolCalls && !potentiallyDsml {
        r := ParseJson(potentiallyJsonBlock);
      } else {
        r := ParseInvokes();
      }
    }

    /** The JSON branch. */
    method ParseJson(potentiallyJsonBlock: bool) returns (r: Result)
      requires potentiallyJsonBlock == DsmlJson.BlockOpen(buffer)
      modifies this
      ensures (Fields(), r) == JsonStep(env, old(Fields()))
    {
      var currentText := buffer;
      var first := Find(currentText, DsmlJson.BRACE, 0);
      if potentiallyJsonBlock {
        if first.value > 0 {
          buffer := currentText[first.value..];
          return Result(TrimWhitespace(env.sanitize(currentText[..first.value])), []);
        }
        return Result("", []);
      }
      var jsonCalls := [];
      var normal := currentText;
      if first.Some? {
        assert currentText[first.value] == currentText[first.value..first.value + 1][0];
        var depth, close := DsmlJson.MatchBrace(currentText, first.value);
        if depth == 0 {
          jsonCalls := env.blockCalls(currentText[first.value..close + 1]);
          normal := env.sanitize(currentText[..first.value]) + env.stripFence(currentText[close + 1..]);
        } else {
          jsonCalls := env.arrayCalls(currentText);
        }
      }
      if jsonCalls == [] {
        return Result("", []);
      }
      buffer := "";
      return Result(normal, Numbered(jsonCalls));
    }

    /** The loop over consecutive invokes. */
    method ParseInvokes() returns (r: Result)
      requires Fields().Valid()
      modifies this
      ensures (Fields(), r) == DsmlStep(env, old(Fields()))
    {
      hide FirstInvoke, Parameters, Prepared, Suspicious, HasToolCall, PotentiallyDsml, QuotedKey;
      var currentText := buffer;
      var allCalls: seq<Item> := [];
      var invoke := FirstInvoke(currentText);
      ghost var goal := InvokeLoop(env, Fields(), currentText, []);
      while invoke.Some?
        invariant Fields().Valid() && invoke == FirstInvoke(currentText)
        invariant InvokeLoop(env, Fields(), currentText, allCalls) == goal
        decreases |currentText|
      {
        var v := invoke.value;
        EnsureSlots();
        if !currentToolNameSent {
          allCalls := allCalls + [Item(currentToolId, Some(v.name), "")];
          currentToolNameSent := true;
        } else {
          assert allCalls + [] == allCalls;
        }
        var params := ParseParameters(env.lib, v.body, !v.closed);
        if params.None? {
          return Result(currentText, []);
        }
        var json := FillObject(params.value);
        var arguments := env.lib.dump(json);
        if !v.closed {
          prevToolCallArr := prevToolCallArr[currentToolId := Some(Snapshot(v.name, arguments))];
          return Result("", allCalls);
        }
        allCalls := allCalls + [Item(currentToolId, None, arguments)];
        CloseCall(v.name, arguments, currentText[v.end..]);
        currentText := buffer;
        invoke := FirstInvoke(currentText);
      }
      return Result("", allCalls);
    }

    /** A closed invoke is cached and counts as streamed; what follows it stays. */
    method CloseCall(name: string, arguments: string, rest: string)
      requires Fields().Valid() && 0 <= currentToolId < |prevToolCallArr|
      modifies this
      ensures Fields() == Closing(old(Fields()), name, arguments, rest)
    {
      prevToolCallArr := prevToolCallArr[currentToolId := Some(Snapshot(name, arguments))];
      streamedArgsForTool := streamedArgsForTool[currentToolId := arguments];
      buffer := rest;
      currentToolId := currentToolId + 1;
      currentToolNameSent := false;
    }

    /** Initializes the state on the first tool call and grows both arrays up to
    the current tool. */
    method EnsureSlots()
      requires Fields().Valid()
      modifies this
      ensures Fields() == Prepared(old(Fields()))
    {
      if currentToolId == -1 {
        currentToolId := 0;
        prevToolCallArr, streamedArgsForTool := [], [];
        currentToolNameSent := false;
      }
      ghost var before := Fields();
      while |prevToolCallArr| <= currentToolId
        invariant Fields().Valid() && currentToolId >= 0
        invariant Grown(Fields()) == Grown(before)
        decreases currentToolId + 1 - |prevToolCallArr|
      {
        prevToolCallArr := prevToolCallArr + [None];
        streamedArgsForTool := streamedArgsForTool + [""];
      }
    }
  }
}
