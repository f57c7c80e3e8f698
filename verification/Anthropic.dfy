/** The Anthropic event stream: model outputs become message_start, content blocks
with their deltas, message_delta, message_stop and the closing frame. */
module Anthropic {
  import opened Text
  import opened StreamCall

  datatype Kind = TextBlock | ToolUse

  datatype Usage = Usage(input: int, output: int, cacheRead: int)

  datatype Event =
    | MessageStart
    | BlockStart(index: int, kind: Kind, id: string, name: string)
    | TextDelta(index: int, text: string)
    | InputJsonDelta(index: int, json: string)
    | BlockStop(index: int)
    | MessageDelta(reason: string, usage: Usage)
    | MessageStop

  // ---------------------------------------------------------------------
  // Inputs: what the engine and the parsers deliver.

  /** One tool-call item; the id is generated only for an item with a name. */
  datatype Item = Item(name: Option<string>, id: string, arguments: string)

  datatype Reasoned = Reasoned(normal: Option<string>, reasoning: Option<string>)

  datatype Parsed = Parsed(normal: string, items: seq<Item>)

  datatype Sequence = Sequence(
    index: nat,
    text: string,
    reasoned: Reasoned,          // what the reasoning parser makes of the text
    parsed: Option<Parsed>,      // what the tool parser makes of the remaining text; none without a parser
    finishReason: Option<string>,
    unstreamed: Option<string>)  // what the finish-time check finds still to send

  datatype Output = Output(
    error: Option<string>,
    sequences: seq<Sequence>,
    finished: bool,
    cancelled: bool,
    tokens: Option<(int, int, int)>)  // prompt, generated, cached

  datatype Config = Config(reasoning: bool, toolCalls: bool)

  /** The environment: what the k-th write to the attachment returns, and whether the
  event written there serialises. */
  datatype Env = Env(net: nat -> Word, refusal: (nat, Event) -> Option<string>) {
    function Message(k: nat, e: Event): Message<Event> {
      match refusal(k, e)
      case None => Serialized(e)
      case Some(reason) => Unserializable(reason)
    }
  }

  // ---------------------------------------------------------------------
  // Stop reasons and usage.

  function ConvertFinishReason(reason: string): string {
    if reason == "stop" then "end_turn"
    else if reason == "length" then "max_tokens"
    else if reason == "function_call" || reason == "tool_calls" then "tool_use"
    else "end_turn"
  }

  function StopReason(finished: bool, hasToolCall: bool, reason: string): string {
    if !finished then "stop" else if hasToolCall then "tool_use" else ConvertFinishReason(reason)
  }

  function Clamp(x: int, low: int, high: int): int { if x < low then low else if high < x then high else x }

  function MakeUsage(tokens: Option<(int, int, int)>): (u: Usage)
    ensures u.input >= 0 && u.output >= 0 && u.cacheRead >= 0
    ensures tokens.Some? && tokens.value.0 >= 0 ==> u.input + u.cacheRead == tokens.value.0
  {
    match tokens
    case None => Usage(0, 0, 0)
    case Some((prompt, generated, cached)) =>
      var p := if prompt < 0 then 0 else prompt;
      var c := Clamp(cached, 0, p);
      Usage(p - c, if generated < 0 then 0 else generated, c)
  }

  // ---------------------------------------------------------------------
  // What one output asks for.

  datatype Piece = Words(text: string) | Tool(id: string, name: string, arguments: string) {
    function Kind(): Kind { if Words? then TextBlock else ToolUse }
    predicate Named() { Tool? && name != "" }
  }

  datatype Action = Put(piece: Piece) | Flag(index: nat) | End(reason: string, usage: Usage)

  function ItemPiece(item: Item): Piece {
    match item.name
    case None => Tool("", "", item.arguments)
    case Some(name) => Tool(item.id, name, item.arguments)
  }

  function ItemActions(index: nat, items: seq<Item>): seq<Action> {
    if items == [] then [] else [Flag(index), Put(ItemPiece(items[0]))] + ItemActions(index, items[1..])
  }

  function Remaining(cfg: Config, s: Sequence): string {
    if s.text != "" && cfg.reasoning then
      (match s.reasoned.normal case None => "" case Some(t) => t)
    else s.text
  }

  function ReasoningActions(cfg: Config, s: Sequence): seq<Action> {
    if s.text != "" && cfg.reasoning && s.reasoned.reasoning.Some? then [Put(Words(s.reasoned.reasoning.value))] else []
  }

  function ParsedActions(s: Sequence): seq<Action> {
    match s.parsed
    case None => []
    case Some(p) => (if p.normal != "" then [Put(Words(p.normal))] else []) + ItemActions(s.index, p.items)
  }

  function TextActions(cfg: Config, s: Sequence): seq<Action> {
    var text := Remaining(cfg, s);
    if text == "" then [] else if cfg.toolCalls then ParsedActions(s) else [Put(Words(text))]
  }

  function FlagsAfter(flags: set<nat>, actions: seq<Action>): set<nat>
    decreases |actions|
  {
    if actions == [] then flags
    else FlagsAfter(if actions[0].Flag? then flags + {actions[0].index} else flags, actions[1..])
  }

  function UnstreamedActions(s: Sequence, flagged: bool): seq<Action> {
    if s.finishReason.Some? && flagged && s.unstreamed.Some? then [Put(Tool("", "", s.unstreamed.value))] else []
  }

  function SequenceActions(cfg: Config, s: Sequence, flags: set<nat>): seq<Action> {
    var heads := ReasoningActions(cfg, s) + TextActions(cfg, s);
    heads + UnstreamedActions(s, s.index in FlagsAfter(flags, heads))
  }

  function EndActions(out: Output, hasToolCall: bool, reason: string): seq<Action> {
    if out.finished || out.cancelled then [End(StopReason(out.finished, hasToolCall, reason), MakeUsage(out.tokens))]
    else []
  }

  /** The actions of the sequences from the first on, then the end of the message. */
  function ActionsFrom(cfg: Config, out: Output, ss: seq<Sequence>, flags: set<nat>, hasToolCall: bool,
                       reason: string): seq<Action>
  {
    if ss == [] then EndActions(out, hasToolCall, reason)
    else
      var acts := SequenceActions(cfg, ss[0], flags);
      var after := FlagsAfter(flags, acts);
      acts + ActionsFrom(cfg, out, ss[1..], after, hasToolCall || ss[0].index in after,
                         match ss[0].finishReason case None => reason case Some(r) => r)
  }

  function Actions(cfg: Config, out: Output, flags: set<nat>): seq<Action> {
    ActionsFrom(cfg, out, out.sequences, flags, false, "")
  }

  // ---------------------------------------------------------------------
  // The handler, on values.

  datatype Handler = Handler(
    call: Call<Event>,
    messageStarted: bool,
    index: int,            // of the last content block; -1 before the first
    last: Option<Kind>,    // its kind
    flags: set<nat>)       // sequences that produced a tool call

  datatype Outcome = Outcome(handler: Handler, ok: bool)

  const NEW_HANDLER: Handler := Handler(NewCall(true), false, -1, None, {})

  function Send(h: Handler, env: Env, e: Event): Outcome {
    var k := |h.call.sent|;
    var message := env.Message(k, e);
    var c := h.call.WriteEvent(message, env.net(k));
    Outcome(h.(call := c), !h.call.finished && message.Serialized? && c.Connected())
  }

  function StartBlock(h: Handler, env: Env, piece: Piece): Outcome {
    var stopped := if h.last.Some? then Send(h, env, BlockStop(h.index)) else Outcome(h, true);
    if !stopped.ok then stopped
    else
      var next := stopped.handler.(last := Some(piece.Kind()), index := h.index + 1);
      Send(next, env, StartEvent(h.index + 1, piece))
  }

  function StartEvent(index: int, piece: Piece): Event {
    if piece.Words? then BlockStart(index, TextBlock, "", "") else BlockStart(index, ToolUse, piece.id, piece.name)
  }

  function SendPiece(h: Handler, env: Env, piece: Piece): Outcome {
    var ready := if h.last != Some(piece.Kind()) || piece.Named() then StartBlock(h, env, piece) else Outcome(h, true);
    if !ready.ok then ready
    else
      match piece
      case Words(text) => Send(ready.handler, env, TextDelta(ready.handler.index, text))
      case Tool(_, _, arguments) =>
        if arguments == "" then ready else Send(ready.handler, env, InputJsonDelta(ready.handler.index, arguments))
  }

  function EndMessage(h: Handler, env: Env, reason: string, usage: Usage): Outcome {
    var stopped := if h.index >= 0 then Send(h, env, BlockStop(h.index)) else Outcome(h, true);
    if !stopped.ok then stopped
    else
      var told := Send(stopped.handler, env, MessageDelta(reason, usage));
      if !told.ok then told
      else
        var ended := Send(told.handler, env, MessageStop);
        if !ended.ok then ended
        else
          var c := ended.handler.call.FinishStream(env.net(|ended.handler.call.sent|));
          Outcome(ended.handler.(call := c), c.Connected())
  }

  function Do(h: Handler, env: Env, action: Action): Outcome {
    match action
    case Put(piece) => SendPiece(h, env, piece)
    case Flag(index) => Outcome(h.(flags := h.flags + {index}), true)
    case End(reason, usage) => EndMessage(h, env, reason, usage)
  }

  /** The first failure ends the output. */
  function DoAll(h: Handler, env: Env, actions: seq<Action>): Outcome
    decreases |actions|
  {
    if actions == [] then Outcome(h, true)
    else
      var first := Do(h, env, actions[0]);
      if !first.ok then first else DoAll(first.handler, env, actions[1..])
  }

  function Begin(h: Handler, env: Env): Outcome {
    if h.messageStarted then Outcome(h, true) else Send(h.(messageStarted := true), env, MessageStart)
  }

  /** The callback. */
  function Handle(h: Handler, env: Env, cfg: Config, out: Output): Outcome {
    match out.error
    case Some(reason) =>
      var c := h.call.FinishWithError(reason, env.net(|h.call.sent|));
      Outcome(h.(call := c), !(h.call.stream && h.call.finished) && c.Connected())
    case None =>
      var begun := Begin(h, env);
      if !begun.ok then begun else DoAll(begun.handler, env, Actions(cfg, out, begun.handler.flags))
  }

  function Run(h: Handler, env: Env, cfg: Config, outs: seq<Output>): Handler
    decreases |outs|
  {
    if outs == [] then h else Run(Handle(h, env, cfg, outs[0]).handler, env, cfg, outs[1..])
  }

  lemma {:induction false} DoAllAppend(h: Handler, env: Env, a: seq<Action>, b: seq<Action>)
    ensures var first := DoAll(h, env, a);
      DoAll(h, env, a + b) == if first.ok then DoAll(first.handler, env, b) else first
    decreases |a|
  {
    hide Do;
    if a == [] {
      assert a + b == b;
    } else {
      assert (a + b)[0] == a[0] && (a + b)[1..] == a[1..] + b;
      var first := Do(h, env, a[0]);
      if first.ok {
        DoAllAppend(first.handler, env, a[1..], b);
      }
    }
  }

  // ---------------------------------------------------------------------
  // The handler as the source has it: fields updated while events are written.

  class AnthropicHandler {
    const call: StreamCall<Event>
    const env: Env
    const cfg: Config
    var messageStarted: bool
    var contentBlockIndex: int
    var lastContentBlock: Option<Kind>
    var hasToolCall: set<nat>

    ghost function State(): Handler
      reads this, call
    {
      Handler(call.State(), messageStarted, contentBlockIndex, lastContentBlock, hasToolCall)
    }

    constructor (c: StreamCall<Event>, environment: Env, config: Config)
      ensures State() == NEW_HANDLER.(call := c.State())
      ensures call == c && env == environment && cfg == config
    {
      call, env, cfg := c, environment, config;
      messageStarted, contentBlockIndex, lastContentBlock, hasToolCall := false, -1, None, {};
    }

    method Write(e: Event) returns (ok: bool)
      modifies this, call
      ensures Outcome(State(), ok) == Send(old(State()), env, e)
    {
      var k := |call.attachment|;
      ok := call.Write(env.Message(k, e), env.net(k));
    }

    method StartNewContentBlock(piece: Piece) returns (ok: bool)
      modifies this, call
      ensures Outcome(State(), ok) == StartBlock(old(State()), env, piece)
    {
      if lastContentBlock.Some? {
        ok := Write(BlockStop(contentBlockIndex));
        if !ok {
          return;
        }
      }
      lastContentBlock := Some(piece.Kind());
      contentBlockIndex := contentBlockIndex + 1;
      ok := Write(StartEvent(contentBlockIndex, piece));
    }

    method SendContentBlockDelta(piece: Piece) returns (ok: bool)
      modifies this, call
      ensures Outcome(State(), ok) == SendPiece(old(State()), env, piece)
    {
      hide Send, StartBlock;
      if lastContentBlock != Some(piece.Kind()) || piece.Named() {
        ok := StartNewContentBlock(piece);
        if !ok {
          return;
        }
      }
      match piece {
        case Words(text) =>
          ok := Write(TextDelta(contentBlockIndex, text));
        case Tool(_, _, arguments) =>
          if arguments == "" {
            return true;
          }
          ok := Write(InputJsonDelta(contentBlockIndex, arguments));
      }
    }

    method ProcessToolCallStream(s: Sequence) returns (ok: bool)
      modifies this, call
      ensures Outcome(State(), ok) == DoAll(old(State()), env, ParsedActions(s))
    {
      hide SendPiece;
      match s.parsed {
        case None => return true;
        case Some(parsed) =>
          ghost var h := State();
          if parsed.normal != "" {
            ok := SendContentBlockDelta(Words(parsed.normal));
            DoAllAppend(h, env, [Put(Words(parsed.normal))], ItemActions(s.index, parsed.items));
            OnePiece(h, env, Words(parsed.normal));
            if !ok {
              return;
            }
          }
          ok := ProcessItems(s.index, parsed.items);
          assert [] + ItemActions(s.index, parsed.items) == ItemActions(s.index, parsed.items);
      }
    }

    method ProcessItems(index: nat, items: seq<Item>) returns (ok: bool)
      modifies this, call
      ensures Outcome(State(), ok) == DoAll(old(State()), env, ItemActions(index, items))
    {
      hide SendPiece;
      var i := 0;
      while i < |items|
        invariant 0 <= i <= |items|
        invariant DoAll(old(State()), env, ItemActions(index, items))
               == DoAll(State(), env, ItemActions(index, items[i..]))
      {
        ghost var h := State();
        ghost var rest := ItemActions(index, items[i + 1..]);
        assert items[i..][0] == items[i] && items[i..][1..] == items[i + 1..];
        var piece := ItemPiece(items[i]);
        assert ItemActions(index, items[i..]) == [Flag(index), Put(piece)] + rest;
        TwoActions(h, env, Flag(index), Put(piece), rest);
        hasToolCall := hasToolCall + {index};
        ok := SendContentBlockDelta(piece);
        if !ok {
          return;
        }
        i := i + 1;
      }
      return true;
    }

    method SendSequence(s: Sequence) returns (ok: bool)
      modifies this, call
      ensures Outcome(State(), ok) == DoAll(old(State()), env, SequenceActions(cfg, s, old(hasToolCall)))
    {
      hide SendPiece, DoAll, Do;
      ghost var h, flags := State(), hasToolCall;
      ghost var heads := ReasoningActions(cfg, s) + TextActions(cfg, s);
      var text := s.text;
      ok := true;
      if s.text != "" && cfg.reasoning {
        text := match s.reasoned.normal case None => "" case Some(t) => t;
        if s.reasoned.reasoning.Some? {
          ok := SendContentBlockDelta(Words(s.reasoned.reasoning.value));
          OnePiece(h, env, Words(s.reasoned.reasoning.value));
        }
      }
      NoAction(h, env);
      assert Outcome(State(), ok) == DoAll(h, env, ReasoningActions(cfg, s));
      DoAllAppend(h, env, ReasoningActions(cfg, s), TextActions(cfg, s));
      DoAllAppend(h, env, heads, UnstreamedActions(s, s.index in FlagsAfter(flags, heads)));
      if !ok {
        return;
      }
      ghost var middle := State();
      NoAction(middle, env);
      if text != "" {
        if cfg.toolCalls {
          ok := ProcessToolCallStream(s);
        } else {
          ok := SendContentBlockDelta(Words(text));
          OnePiece(middle, env, Words(text));
        }
        if !ok {
          return;
        }
      }
      assert Outcome(State(), true) == DoAll(h, env, heads);
      FlagsFollow(h, env, heads);
      ghost var last := State();
      NoAction(last, env);
      if s.finishReason.Some? && s.index in hasToolCall && s.unstreamed.Some? {
        ok := SendContentBlockDelta(Tool("", "", s.unstreamed.value));
        OnePiece(last, env, Tool("", "", s.unstreamed.value));
      }
    }

    method SendDeltaToClient(out: Output) returns (ok: bool)
      modifies this, call
      ensures Outcome(State(), ok) == DoAll(old(State()), env, Actions(cfg, out, old(hasToolCall)))
    {
      hide SendPiece, DoAll, Do, SequenceActions, EndMessage;
      var anyToolCall, reason := false, "";
      var i := 0;
      while i < |out.sequences|
        invariant 0 <= i <= |out.sequences|
        invariant DoAll(old(State()), env, Actions(cfg, out, old(hasToolCall)))
               == DoAll(State(), env, ActionsFrom(cfg, out, out.sequences[i..], hasToolCall, anyToolCall, reason))
      {
        ghost var h, ss, flags := State(), out.sequences[i..], hasToolCall;
        var s := out.sequences[i];
        ghost var acts := SequenceActions(cfg, s, flags);
        assert ss[0] == s && ss[1..] == out.sequences[i + 1..];
        ok := SendSequence(s);
        FlagsFollow(h, env, acts);
        ghost var after := FlagsAfter(flags, acts);
        ghost var nextReason := match s.finishReason case None => reason case Some(r) => r;
        DoAllAppend(h, env, acts, ActionsFrom(cfg, out, ss[1..], after, anyToolCall || s.index in after, nextReason));
        if !ok {
          return;
        }
        if s.index in hasToolCall {
          anyToolCall := true;
        }
        if s.finishReason.Some? {
          reason := s.finishReason.value;
        }
        i := i + 1;
      }
      ghost var h := State();
      NoAction(h, env);
      if out.finished || out.cancelled {
        var stopReason := StopReason(out.finished, anyToolCall, reason);
        OneEnd(h, env, stopReason, MakeUsage(out.tokens));
        ok := FinishMessage(stopReason, MakeUsage(out.tokens));
        return;
      }
      return true;
    }

    method FinishMessage(reason: string, usage: Usage) returns (ok: bool)
      modifies this, call
      ensures Outcome(State(), ok) == EndMessage(old(State()), env, reason, usage)
    {
      hide Send;
      if contentBlockIndex >= 0 {
        ok := Write(BlockStop(contentBlockIndex));
        if !ok {
          return;
        }
      }
      ok := Write(MessageDelta(reason, usage));
      if !ok {
        return;
      }
      ok := Write(MessageStop);
      if !ok {
        return;
      }
      ok := call.Finish(env.net(|call.attachment|));
    }

    /** The callback. */
    method OnOutput(out: Output) returns (ok: bool)
      modifies this, call
      ensures Outcome(State(), ok) == Handle(old(State()), env, cfg, out)
    {
      hide DoAll, Actions, Send;
      match out.error {
        case Some(reason) =>
          ok := call.FinishWithError(reason, env.net(|call.attachment|));
        case None =>
          if !messageStarted {
            messageStarted := true;
            ok := Write(MessageStart);
            if !ok {
              return;
            }
          }
          ok := SendDeltaToClient(out);
      }
    }
  }

  lemma {:induction false} NoAction(h: Handler, env: Env)
    ensures DoAll(h, env, []) == Outcome(h, true)
  {
  }

  lemma {:induction false} OnePiece(h: Handler, env: Env, piece: Piece)
    ensures DoAll(h, env, [Put(piece)]) == SendPiece(h, env, piece)
  {
    hide SendPiece;
    assert [Put(piece)][1..] == [];
  }

  lemma {:induction false} OneEnd(h: Handler, env: Env, reason: string, usage: Usage)
    ensures DoAll(h, env, [End(reason, usage)]) == EndMessage(h, env, reason, usage)
  {
    hide EndMessage;
    assert [End(reason, usage)][1..] == [];
  }

  lemma {:induction false} TwoActions(h: Handler, env: Env, a: Action, b: Action, rest: seq<Action>)
    requires a.Flag?
    ensures var second := Do(Do(h, env, a).handler, env, b);
      DoAll(h, env, [a, b] + rest) == if second.ok then DoAll(second.handler, env, rest) else second
  {
    hide SendPiece, EndMessage;
    var all := [a, b] + rest;
    assert all[1..] == [b] + rest && ([b] + rest)[1..] == rest;
  }

  /** While nothing fails, the flags are those that the actions set. */
  lemma {:induction false} FlagsFollow(h: Handler, env: Env, actions: seq<Action>)
    ensures DoAll(h, env, actions).ok ==> DoAll(h, env, actions).handler.flags == FlagsAfter(h.flags, actions)
    decreases |actions|
  {
    if actions != [] {
      var first := Do(h, env, actions[0]);
      DoFlags(h, env, actions[0]);
      hide Do;
      if first.ok {
        FlagsFollow(first.handler, env, actions[1..]);
      }
    }
  }

  lemma {:induction false} DoFlags(h: Handler, env: Env, action: Action)
    ensures Do(h, env, action).handler.flags == if action.Flag? then h.flags + {action.index} else h.flags
  {
  }
}
