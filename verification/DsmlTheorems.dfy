/** The results about whole streams. */
module DsmlTheorems {
  import opened Text
  import opened ToolCalls
  import opened Utf8
  import opened DsmlSyntax
  import opened DsmlParams
  import opened DsmlDetector
  import opened DsmlStreaming
  import DsmlJson

  datatype Outcome = Outcome(state: State, calls: seq<Item>, normal: string)

  /** Feeding chunks one after the other, everything emitted put together. */
  function Run(env: Env, st: State, chunks: seq<string>): (r: Outcome)
    requires st.Valid()
    ensures r.state.Valid()
    decreases |chunks|
  {
    if chunks == [] then Outcome(st, [], "")
    else
      var (st1, r) := Step(env, st, chunks[0]);
      var rest := Run(env, st1, chunks[1..]);
      Outcome(rest.state, r.calls + rest.calls, r.normal + rest.normal)
  }

  /** Parsing throws in no step. */
  predicate NoneThrow(env: Env, st: State, chunks: seq<string>)
    requires st.Valid()
    decreases |chunks|
  {
    chunks == [] || (!StepThrows(env, st, chunks[0]) && NoneThrow(env, Step(env, st, chunks[0]).0, chunks[1..]))
  }

  predicate NonEmpty(chunks: seq<string>) { forall c | c in chunks :: c != "" }

  /** The whole characters of what has arrived. */
  function Released(received: string): string { received[..ReleasedLength(received)] }

  lemma {:induction false} RunTracks(env: Env, received: string, total: string, st: State, sent: seq<Item>,
                                     done: seq<Call>, chunks: seq<string>, full: string)
    returns (total': string, done': seq<Call>)
    requires st.Valid() && Tracks(env, received, total, st, sent, done)
    requires NonEmpty(chunks) && received + Flatten(chunks) <= full && Complete(full)
    requires !QuotedKey(full) && NoneThrow(env, st, chunks)
    ensures var r := Run(env, st, chunks);
      Tracks(env, received + Flatten(chunks), total', r.state, sent + r.calls, done')
    decreases |chunks|
  {
    hide Tracks, Complete, QuotedKey, StepThrows, Step;
    if chunks == [] {
      assert received + Flatten(chunks) == received && sent + [] == sent;
      return total, done;
    }
    var c, rest := chunks[0], Flatten(chunks[1..]);
    assert received + Flatten(chunks) == received + c + rest;
    assert c in chunks && forall d | d in chunks[1..] :: d in chunks;
    assert received + c <= full by {
      assert full[..|received + c|] == (received + c + rest)[..|received + c|] == received + c;
    }
    var total1, done1 := StepTracks(env, received, total, st, sent, done, c, full);
    var (st1, r) := Step(env, st, c);
    total', done' := RunTracks(env, received + c, total1, st1, sent + r.calls, done1, chunks[1..], full);
    var more := Run(env, st1, chunks[1..]).calls;
    assert sent + r.calls + more == sent + (r.calls + more);
  }

  /** At every moment of a stream, unless parsing threw: what has been emitted and
  cached is what the text received so far prescribes, and only the bytes of a cut
  character are held back. */
  lemma {:induction false} EveryMoment(env: Env, chunks: seq<string>, full: string)
    requires NonEmpty(chunks) && Flatten(chunks) <= full && Complete(full)
    requires !QuotedKey(full) && NoneThrow(env, INITIAL, chunks)
    ensures var r, received := Run(env, INITIAL, chunks), Flatten(chunks);
      && r.calls == ItemsOf(env, Invokes(Released(received)), 0)
      && CachedCalls(env, r.state.prev, r.state.streamed, Invokes(Released(received)))
      && received == Released(received) + r.state.held
      && AllParse(env, Invokes(Released(received)))
  {
    hide NoneThrow, AllParse, QuotedKey, Step, Invokes, FirstInvoke, CachedCalls, Complete, PartialChar, ReleasedLength;
    var received := Flatten(chunks);
    assert "" + received == received;
    TracksInitial(env);
    var total, done := RunTracks(env, "", "", INITIAL, [], [], chunks, full);
    var st := Run(env, INITIAL, chunks).state;
    SplitsAtCharacter(total, st.held);
    assert Released(received) == total;
    InvokesOf(total, st.buffer, done);
    assert [] + Run(env, INITIAL, chunks).calls == Run(env, INITIAL, chunks).calls;
  }

  /** Chunk boundaries leave no trace in the calls, nor in the cached snapshots. */
  lemma {:induction false} ChunkingInvisible(env: Env, a: seq<string>, b: seq<string>)
    requires NonEmpty(a) && NonEmpty(b) && Flatten(a) == Flatten(b) && Complete(Flatten(a))
    requires !QuotedKey(Flatten(a)) && NoneThrow(env, INITIAL, a) && NoneThrow(env, INITIAL, b)
    ensures var ra, rb := Run(env, INITIAL, a), Run(env, INITIAL, b);
      ra.calls == rb.calls && ra.state.prev == rb.state.prev && ra.state.streamed == rb.state.streamed
  {
    hide NoneThrow, QuotedKey, Run, Invokes, Complete, ItemsOf;
    var text := Flatten(a);
    EveryMoment(env, a, text);
    EveryMoment(env, b, text);
  }

  // ---------------------------------------------------------------------
  // The items of one tool index, and the flush at the end of a request.

  /** The items of the first call. */
  function FirstItems(env: Env, c: Call, id: int): seq<Item> {
    [Item(id, Some(c.name), "")] + if c.closed then [Item(id, None, ArgumentsOf(env, c))] else []
  }

  lemma {:induction false} FirstItemsPerIndex(env: Env, c: Call, id: int, i: int)
    ensures NamesFor(FirstItems(env, c, id), i) == (if i == id then [c.name] else [])
    ensures ArgsFor(FirstItems(env, c, id), i) == (if i == id && c.closed then ArgumentsOf(env, c) else "")
  {
    hide ArgumentsOf;
    var items := FirstItems(env, c, id);
    var more := items[1..];
    if c.closed {
      assert more == [Item(id, None, ArgumentsOf(env, c))] && more[1..] == [];
      assert NamesFor(more, i) == [] && ArgsFor(more, i) == (if i == id then ArgumentsOf(env, c) else "");
    } else {
      assert more == [];
    }
  }

  function NameAt(calls: seq<Call>, k: int): seq<string> {
    if 0 <= k < |calls| then [calls[k].name] else []
  }

  function ArgsAt(env: Env, calls: seq<Call>, k: int): string {
    if 0 <= k < |calls| && calls[k].closed then ArgumentsOf(env, calls[k]) else ""
  }

  lemma {:induction false} AtStep(env: Env, calls: seq<Call>, k: int)
    requires calls != []
    ensures NameAt(calls, k) == (if k == 0 then [calls[0].name] else []) + NameAt(calls[1..], k - 1)
    ensures ArgsAt(env, calls, k)
         == (if k == 0 && calls[0].closed then ArgumentsOf(env, calls[0]) else "") + ArgsAt(env, calls[1..], k - 1)
  {
    hide ArgumentsOf;
  }

  lemma {:induction false} SplitFirst(env: Env, calls: seq<Call>, id: int)
    requires calls != []
    ensures ItemsOf(env, calls, id) == FirstItems(env, calls[0], id) + ItemsOf(env, calls[1..], id + 1)
  {
    hide ArgumentsOf;
  }

  lemma {:induction false} NoItemsPerIndex(env: Env, id: int, i: int)
    ensures NamesFor(ItemsOf(env, [], id), i) == [] && ArgsFor(ItemsOf(env, [], id), i) == ""
  {
  }

  /** Index `id + k` gets the name of call `k`, and its arguments if it is closed. */
  lemma {:induction false} ItemsPerIndex(env: Env, calls: seq<Call>, id: int, i: int)
    ensures NamesFor(ItemsOf(env, calls, id), i) == NameAt(calls, i - id)
    ensures ArgsFor(ItemsOf(env, calls, id), i) == ArgsAt(env, calls, i - id)
  {
    hide ArgumentsOf, NamesFor, ArgsFor, FirstItems, ItemsOf;
    if calls == [] {
      NoItemsPerIndex(env, id, i);
    } else {
      hide NameAt, ArgsAt;
      ItemsPerIndex(env, calls[1..], id + 1, i);
      assert i - (id + 1) == i - id - 1;
      SplitFirst(env, calls, id);
      NamesAppend(FirstItems(env, calls[0], id), ItemsOf(env, calls[1..], id + 1), i);
      ArgsAppend(FirstItems(env, calls[0], id), ItemsOf(env, calls[1..], id + 1), i);
      FirstItemsPerIndex(env, calls[0], id, i);
      AtStep(env, calls, i - id);
    }
  }

  /** `check_for_unstreamed_tool_args`: the arguments of the last tool that have
  been cached but not streamed, and its index. */
  function Unstreamed(st: State): Option<(string, int)> {
    var n := |st.prev|;
    Unsent(n, if n > 0 && st.prev[n - 1].Some? then Some(st.prev[n - 1].value.args) else None, st.streamed)
  }

  function FlushedFor(st: State, i: int): string {
    match Unstreamed(st)
    case None => ""
    case Some((args, index)) => if index == i then args else ""
  }

  // ---------------------------------------------------------------------
  // Any input at all: malformed bytes, throwing parsers, JSON blocks, ends of
  // stream in the middle.

  /** Closed slots hold what was streamed for them; the open one, if any, is the
  last and nothing has been streamed for it. */
  predicate Consistent(st: State) {
    && st.Valid()
    && (if st.toolId == -1 then st.prev == [] else st.toolId <= |st.prev| <= st.toolId + 1)
    && (forall i | 0 <= i < |st.prev| && i < st.toolId ::
          st.prev[i].Some? && st.prev[i].value.args == st.streamed[i])
    && (|st.prev| == st.toolId + 1 > 0 ==> st.streamed[st.toolId] == "")
    && (st.nameSent ==> |st.prev| == st.toolId + 1)
  }

  lemma {:induction false} LoopConsistent(env: Env, st: State, text: string, calls: seq<Item>)
    requires Consistent(st)
    ensures Consistent(InvokeLoop(env, st, text, calls).state)
    decreases |text|
  {
    hide FirstInvoke, Arguments;
    if FirstInvoke(text).Some? {
      var v := FirstInvoke(text).value;
      PreparedConsistent(st);
      var (named, announcement) := Announced(Prepared(st), v.name);
      var id := named.toolId;
      if Arguments(env.lib, v.body, !v.closed).Some? && v.closed {
        var args := Arguments(env.lib, v.body, false).value;
        LoopConsistent(env,
                       named.(prev := named.prev[id := Some(Snapshot(v.name, args))],
                              streamed := named.streamed[id := args], buffer := text[v.end..],
                              toolId := id + 1, nameSent := false),
                       text[v.end..], calls + announcement + [Item(id, None, args)]);
      }
    }
  }

  lemma {:induction false} PreparedConsistent(st: State)
    requires Consistent(st)
    ensures Consistent(Prepared(st)) && |Prepared(st).prev| == Prepared(st).toolId + 1
  {
    var st1 := if st.toolId == -1 then st.(toolId := 0, prev := [], streamed := [], nameSent := false) else st;
    if |st1.prev| == st1.toolId {
      var grown := st1.(prev := st1.prev + [None], streamed := st1.streamed + [""]);
      assert Grown(st1) == Grown(grown) == grown;
    }
  }

  lemma {:induction false} RunConsistent(env: Env, st: State, chunks: seq<string>)
    requires Consistent(st)
    ensures Consistent(Run(env, st, chunks).state)
    decreases |chunks|
  {
    if chunks != [] {
      hide InvokeLoop, Suspicious, PotentiallyDsml, QuotedKey, JsonStep, HasToolCall;
      StepConsistent(env, st, chunks[0]);
      RunConsistent(env, Step(env, st, chunks[0]).0, chunks[1..]);
    }
  }

  lemma {:induction false} StepConsistent(env: Env, st: State, chunk: string)
    requires Consistent(st)
    ensures Consistent(Step(env, st, chunk).0)
  {
    hide InvokeLoop, Suspicious, PotentiallyDsml, QuotedKey, HasToolCall, ReleasedLength, JsonCalls,
         AroundBlock, Numbered;
    var st1 := Received(st, chunk);
    LoopConsistent(env, st1, st1.buffer, []);
  }

  /** Whatever was fed, the flush concerns the open tool only and sends the whole
  of its cached arguments, none of which has been streamed. */
  lemma {:induction false} FlushSound(env: Env, chunks: seq<string>)
    ensures var st := Run(env, INITIAL, chunks).state;
      match Unstreamed(st)
      case None => true
      case Some((args, i)) =>
        i == st.toolId == |st.prev| - 1 && st.streamed[i] == "" && st.prev[i].Some? && args == st.prev[i].value.args
  {
    hide Run;
    RunConsistent(env, INITIAL, chunks);
  }

  // ---------------------------------------------------------------------
  // Ordinary text.

  /** Text in which nothing looks like a tool call. */
  predicate Plain(fmt: Format, s: string) {
    !PotentiallyDsml(s) && !QuotedKey(s) && !HasToolCall(fmt, s)
  }

  lemma {:induction false} PlainPart(fmt: Format, a: string, b: string, c: string)
    requires Plain(fmt, a + b + c)
    ensures Plain(fmt, b)
  {
    hide Find;
    var s := a + b + c;
    forall pat: string | Has(b, pat) ensures Has(s, pat) { OccursInWhole(a, b, c, pat); }
    if KeyPosition(b).Some? && Find(b, "[", KeyPosition(b).value).Some? {
      KeyBefore(a, b, c);
    }
  }

  lemma {:induction false} KeyBefore(a: string, b: string, c: string)
    requires !QuotedKey(a + b + c) && !QuotedKey(b)
    requires KeyPosition(b).Some? && Find(b, "[", KeyPosition(b).value).Some?
    ensures KeyPosition(a + b + c).Some? && Find(a + b + c, "[", KeyPosition(a + b + c).value).Some?
  {
    hide Find;
    var s, key := a + b + c, KeyPosition(b).value;
    var bracket := Find(b, "[", key).value;
    assert OccursAt(s, TOOL_CALLS, |a| + key) by { OccursAtShift(a, b, c, TOOL_CALLS, key); }
    assert OccursAt(s, "[", |a| + bracket) by { OccursAtShift(a, b, c, "[", bracket); }
    assert KeyPosition(s) == Find(s, TOOL_CALLS, 0);
  }

  /** No invoke: the step emits no call, and what it does not emit as text stays
  in the buffer. */
  lemma {:induction false} PlainStep(env: Env, st: State, chunk: string, arrived: string)
    requires st.Valid() && chunk != ""
    requires Received(st, chunk).buffer == st.buffer + arrived && Plain(env.fmt, st.buffer + arrived)
    ensures var (st', r) := Step(env, st, chunk);
      && r.calls == [] && r.normal + st'.buffer == st.buffer + arrived && st'.held == Received(st, chunk).held
  {
    hide PotentiallyDsml, QuotedKey, EndsWithPrefix, EndsWithOpenBrace, KeyPosition, HeadAt, Received;
    var s := st.buffer + arrived;
    assert !Has(s, INVOKE);
    assert FirstInvoke(s).None? by {
      if FirstInvoke(s).Some? { NoTagNoMatch(s, FirstHead(s, 0).value); }
    }
    assert "" + s == s && s + "" == s;
  }

  /** All the text comes out again, byte for byte, once the stream has ended. */
  lemma {:induction false} PlainTextPreserved(env: Env, chunks: seq<string>)
    requires NonEmpty(chunks) && Complete(Flatten(chunks)) && Plain(env.fmt, Flatten(chunks))
    ensures var r := Run(env, INITIAL, chunks);
      var (_, last) := Step(env, r.state, "");
      r.calls == [] && last.calls == [] && r.normal + last.normal == Flatten(chunks)
  {
    hide Plain, Complete, Step, PartialChar, Run, Flatten;
    var text := Flatten(chunks);
    EmptyIsComplete();
    NoPadding(text, "");
    PlainRun(env, "", INITIAL, chunks, text);
    var r := Run(env, INITIAL, chunks);
    NoPadding(r.normal, r.state.buffer);
    PlainPart(env.fmt, r.normal, r.state.buffer, "");
    PlainEnd(env, r.state);
  }

  lemma {:induction false} NoPadding(a: string, b: string)
    ensures "" + "" + "" + a == a && "" + a + b == a + b && a + b + "" == a + b
  {
  }

  lemma {:induction false} EmptyIsComplete()
    ensures Complete("" + "")
  {
  }

  lemma {:induction false} PlainEnd(env: Env, st: State)
    requires st.Valid() && Plain(env.fmt, st.buffer)
    ensures Step(env, st, "").1 == Result(st.buffer, [])
  {
    hide PotentiallyDsml, QuotedKey, HasToolCall;
  }

  lemma {:induction false} PlainRun(env: Env, out: string, st: State, chunks: seq<string>, full: string)
    requires st.Valid() && NonEmpty(chunks) && Complete(full) && Plain(env.fmt, full)
    requires full == out + st.buffer + st.held + Flatten(chunks)
    requires Complete(out + st.buffer) && (st.held == "" || PartialChar(st.held))
    ensures var r := Run(env, st, chunks);
      r.calls == [] && out + r.normal + r.state.buffer == full
    decreases |chunks|
  {
    hide Plain, Complete, Step, PartialChar, ReleasedLength, Received;
    if chunks == [] {
      assert full == out + st.buffer + st.held;
      CompleteAppend(out + st.buffer, st.held);
      CutIsNotComplete(st.held);
      assert out + "" == out;
    } else {
      var c, rest := chunks[0], Flatten(chunks[1..]);
      assert c in chunks && forall d | d in chunks[1..] :: d in chunks;
      Regrouped(out, st.buffer, st.held, c, rest);
      var st1, r := PlainChunk(env, out, st, c, rest);
      PlainRun(env, out + r.normal, st1, chunks[1..], full);
      var more := Run(env, st1, chunks[1..]);
      assert out + r.normal + more.normal == out + (r.normal + more.normal);
    }
  }

  lemma {:induction false} Regrouped(out: string, buffer: string, held: string, c: string, rest: string)
    ensures out + buffer + held + (c + rest) == out + buffer + (held + c + rest)
  {
  }

  lemma {:induction false} PlainChunk(env: Env, out: string, st: State, c: string, rest: string)
    returns (st1: State, r: Result)
    requires st.Valid() && c != "" && Complete(out + st.buffer)
    requires var full := out + st.buffer + (st.held + c + rest);
      Complete(full) && Plain(env.fmt, full)
    ensures (st1, r) == Step(env, st, c) && r.calls == []
    ensures out + st.buffer + (st.held + c + rest) == out + r.normal + st1.buffer + st1.held + rest
    ensures Complete(out + r.normal + st1.buffer) && (st1.held == "" || PartialChar(st1.held))
  {
    hide Plain, Complete, Step, PartialChar, ReleasedLength;
    var merged := st.held + c;
    var n := Receive(out + st.buffer, merged, rest);
    var arrived, held := merged[..n], merged[n..];
    assert out + st.buffer + (merged + rest) == out + (st.buffer + arrived) + (held + rest);
    PlainPart(env.fmt, out, st.buffer + arrived, held + rest);
    PlainStep(env, st, c, arrived);
    var (st2, r2) := Step(env, st, c);
    st1, r := st2, r2;
    assert out + st.buffer + arrived == out + (r.normal + st1.buffer) == out + r.normal + st1.buffer;
  }

  lemma {:induction false} CutIsNotComplete(s: string)
    requires Complete(s) && (s == "" || PartialChar(s))
    ensures s == ""
  {
  }

  /** Ordinary text is chunk-independent only as long as nothing looks like a
  tag: after any prose, a mark that arrives with it swallows the prose, a mark
  that arrives later does not. */
  lemma {:induction false} ProseIsSwallowed(env: Env, prose: string)
    requires prose != "" && Complete(prose) && !Suspicious(env.fmt, prose)
    requires !Has(prose + OPEN_MARK, INVOKE) && !QuotedKey(prose + OPEN_MARK)
    ensures Run(env, INITIAL, [prose + OPEN_MARK, ""]).normal == ""
    ensures Run(env, INITIAL, [prose, OPEN_MARK, ""]).normal == prose
  {
    SwallowedTogether(env, prose);
    KeptApart(env, prose);
  }

  lemma {:induction false} MarkIsComplete(prose: string)
    requires Complete(prose)
    ensures Complete(prose + OPEN_MARK) && Complete("" + OPEN_MARK)
  {
    assert Complete(OPEN_MARK);
    assert "" + OPEN_MARK == OPEN_MARK;
    CompleteAppend(prose, OPEN_MARK);
  }

  lemma {:induction false} SwallowedTogether(env: Env, prose: string)
    requires Complete(prose) && !Has(prose + OPEN_MARK, INVOKE) && !QuotedKey(prose + OPEN_MARK)
    ensures Run(env, INITIAL, [prose + OPEN_MARK, ""]).normal == ""
  {
    hide Complete, QuotedKey, Step, Has;
    MarkIsComplete(prose);
    var st1 := MarkIsHeld(env, INITIAL, prose);
    assert [prose + OPEN_MARK, ""][1..] == [""] && [""][1..] == [];
  }

  lemma {:induction false} KeptApart(env: Env, prose: string)
    requires prose != "" && Complete(prose) && !Suspicious(env.fmt, prose)
    requires !Has(prose + OPEN_MARK, INVOKE) && !QuotedKey(prose + OPEN_MARK)
    ensures Run(env, INITIAL, [prose, OPEN_MARK, ""]).normal == prose
  {
    hide Complete, QuotedKey, Step, Has;
    MarkIsComplete(prose);
    NoKeyInPart(prose);
    assert "" + OPEN_MARK == OPEN_MARK;
    var st1 := MarkIsHeld(env, INITIAL, "");
    ProseIsFlushed(env, prose);
    assert prose + "" == prose && prose + ("" + ("" + "")) == prose;
    assert [prose, OPEN_MARK, ""][1..] == [OPEN_MARK, ""] && [OPEN_MARK, ""][1..] == [""] && [""][1..] == [];
    assert Run(env, st1, [""]).normal == "";
    assert Run(env, INITIAL, [OPEN_MARK, ""]).normal == "";
  }

  lemma {:induction false} ProseIsFlushed(env: Env, prose: string)
    requires prose != "" && Complete(prose) && !Suspicious(env.fmt, prose)
    ensures Step(env, INITIAL, prose) == (INITIAL, Result(prose, []))
  {
    hide Complete, Suspicious, ReleasedLength;
    SplitsAtCharacter(prose, "");
    assert prose + "" == prose && "" + prose == prose;
    assert prose[..|prose|] == prose && prose[|prose|..] == "";
  }

  lemma {:induction false} NoKeyInPart(prose: string)
    requires !QuotedKey(prose + OPEN_MARK)
    requires !Has(prose + OPEN_MARK, INVOKE)
    ensures !QuotedKey(OPEN_MARK) && !Has(OPEN_MARK, INVOKE)
  {
    assert prose + OPEN_MARK + "" == prose + OPEN_MARK;
    if Has(OPEN_MARK, INVOKE) { OccursInWhole(prose, OPEN_MARK, "", INVOKE); }
    if Has(OPEN_MARK, DOUBLE_QUOTED) { OccursInWhole(prose, OPEN_MARK, "", DOUBLE_QUOTED); }
    if Has(OPEN_MARK, SINGLE_QUOTED) { OccursInWhole(prose, OPEN_MARK, "", SINGLE_QUOTED); }
  }

  lemma {:induction false} MarkIsHeld(env: Env, st: State, prose: string) returns (st1: State)
    requires st == INITIAL && Complete(prose + OPEN_MARK)
    requires !Has(prose + OPEN_MARK, INVOKE) && !QuotedKey(prose + OPEN_MARK)
    ensures Step(env, st, prose + OPEN_MARK) == (st1, Result("", []))
    ensures Step(env, st1, "") == (INITIAL, Result("", []))
  {
    hide Complete, HeadAt, QuotedKey, HasToolCall, ReleasedLength;
    var s := prose + OPEN_MARK;
    SplitsAtCharacter(s, "");
    assert s + "" == s && "" + s == s && s[..|s|] == s && s[|s|..] == "";
    assert OccursAt(s, OPEN_MARK, |prose|);
    assert FirstInvoke(s).None? by {
      if FirstInvoke(s).Some? { NoTagNoMatch(s, FirstHead(s, 0).value); }
    }
    st1 := st.(buffer := s);
  }

  // ---------------------------------------------------------------------
  // The JSON fallback.

  /** Once the braces of the buffer balance, the branch for incomplete JSON is
  out of reach: the block that is cut out of the text is byte for byte the block
  whose calls are emitted, and it starts at the first brace. */
  lemma {:induction false} JsonBlockIsCut(env: Env, st: State) returns (prefix: string, block: string, suffix: string)
    requires Has(st.buffer, DsmlJson.BRACE) && !DsmlJson.BlockOpen(st.buffer)
    ensures st.buffer == prefix + block + suffix
    ensures |block| >= 2 && block[0] == '{' && block[|block| - 1] == '}' && !Has(prefix, DsmlJson.BRACE)
    ensures var calls := env.blockCalls(block);
      JsonStep(env, st) ==
        if calls == [] then (st, Result("", []))
        else (st.(buffer := ""), Result(env.sanitize(prefix) + env.stripFence(suffix), Numbered(calls)))
  {
    hide Numbered, Find, DsmlJson.CloseFrom, DsmlJson.BlockOpen;
    prefix, block, suffix := DsmlJson.BlockCut(st.buffer);
  }
}
