/** Transports that accept frames again after a failed write: exactly when every stream
that they accept is well bracketed. */
module AnthropicTransport {
  import opened Text
  import opened StreamCall
  import opened Anthropic
  import opened AnthropicTheorems
  import opened AnthropicResults

  /** Every event serialises. */
  ghost predicate NoRefusal(env: Env) { forall k: nat, e: Event :: env.refusal(k, e).None? }

  // ---------------------------------------------------------------------
  // Every frame has the result of the write at its position.

  predicate OnNet(env: Env, sent: seq<Sent<Event>>) { forall k | 0 <= k < |sent| :: sent[k].result == env.net(k) }

  lemma {:induction false} SendOnNet(h: Handler, env: Env, e: Event)
    requires OnNet(env, h.call.sent)
    ensures OnNet(env, Send(h, env, e).handler.call.sent)
  {
  }

  lemma {:induction false} PieceOnNet(h: Handler, env: Env, piece: Piece)
    requires OnNet(env, h.call.sent)
    ensures OnNet(env, SendPiece(h, env, piece).handler.call.sent)
  {
    hide Send, OnNet;
    StartOnNet(h, env, piece);
    var ready := if h.last != Some(piece.Kind()) || piece.Named() then StartBlock(h, env, piece) else Outcome(h, true);
    if ready.ok {
      match piece {
        case Words(text) => SendOnNet(ready.handler, env, TextDelta(ready.handler.index, text));
        case Tool(_, _, arguments) => SendOnNet(ready.handler, env, InputJsonDelta(ready.handler.index, arguments));
      }
    }
  }

  lemma {:induction false} StartOnNet(h: Handler, env: Env, piece: Piece)
    requires OnNet(env, h.call.sent)
    ensures OnNet(env, StartBlock(h, env, piece).handler.call.sent)
  {
    hide Send, OnNet;
    SendOnNet(h, env, BlockStop(h.index));
    var stopped := if h.last.Some? then Send(h, env, BlockStop(h.index)) else Outcome(h, true);
    if stopped.ok {
      SendOnNet(stopped.handler.(last := Some(piece.Kind()), index := h.index + 1), env,
                StartEvent(h.index + 1, piece));
    }
  }

  lemma {:induction false} EndOnNet(h: Handler, env: Env, reason: string, usage: Usage)
    requires OnNet(env, h.call.sent)
    ensures OnNet(env, EndMessage(h, env, reason, usage).handler.call.sent)
  {
    hide Send;
    SendOnNet(h, env, BlockStop(h.index));
    var stopped := if h.index >= 0 then Send(h, env, BlockStop(h.index)) else Outcome(h, true);
    if stopped.ok {
      SendOnNet(stopped.handler, env, MessageDelta(reason, usage));
      var told := Send(stopped.handler, env, MessageDelta(reason, usage));
      SendOnNet(told.handler, env, MessageStop);
    }
  }

  lemma {:induction false} DoAllOnNet(h: Handler, env: Env, actions: seq<Action>)
    requires OnNet(env, h.call.sent)
    ensures OnNet(env, DoAll(h, env, actions).handler.call.sent)
    decreases |actions|
  {
    hide SendPiece, EndMessage, OnNet;
    if actions != [] {
      match actions[0] {
        case Put(piece) => PieceOnNet(h, env, piece);
        case Flag(_) =>
        case End(reason, usage) => EndOnNet(h, env, reason, usage);
      }
      var first := Do(h, env, actions[0]);
      if first.ok {
        DoAllOnNet(first.handler, env, actions[1..]);
      }
    }
  }

  lemma {:induction false} HandleOnNet(h: Handler, env: Env, cfg: Config, out: Output)
    requires OnNet(env, h.call.sent)
    ensures OnNet(env, Handle(h, env, cfg, out).handler.call.sent)
  {
    hide Send, DoAll, Actions;
    if out.error.None? {
      SendOnNet(h.(messageStarted := true), env, MessageStart);
      var begun := Begin(h, env);
      if begun.ok {
        DoAllOnNet(begun.handler, env, Actions(cfg, out, begun.handler.flags));
      }
    }
  }

  lemma {:induction false} RunOnNet(h: Handler, env: Env, cfg: Config, outs: seq<Output>)
    requires OnNet(env, h.call.sent)
    ensures OnNet(env, Anthropic.Run(h, env, cfg, outs).call.sent)
    decreases |outs|
  {
    hide Handle, OnNet;
    if outs != [] {
      HandleOnNet(h, env, cfg, outs[0]);
      RunOnNet(Handle(h, env, cfg, outs[0]).handler, env, cfg, outs[1..]);
    }
  }

  // ---------------------------------------------------------------------
  // What cannot follow what in a message.

  predicate IsDelta(f: Frame<Event>) { f.Chunk? && (f.event.TextDelta? || f.event.InputJsonDelta?) }

  predicate InBlock(f: Frame<Event>) { IsDelta(f) || (f.Chunk? && f.event.BlockStart?) }

  /** Deltas follow deltas or the start of their block; message_delta does not follow
  itself. */
  predicate Fits(a: Frame<Event>, b: Frame<Event>) {
    && (IsDelta(b) ==> InBlock(a))
    && (b.Chunk? && b.event.MessageDelta? ==> a.Chunk? && !a.event.MessageDelta?)
  }

  predicate Joints(frames: seq<Frame<Event>>) { forall p | 0 <= p < |frames| - 1 :: Fits(frames[p], frames[p + 1]) }

  lemma {:induction false} JointsAppend(a: seq<Frame<Event>>, b: seq<Frame<Event>>)
    requires Joints(a) && Joints(b) && (a != [] && b != [] ==> Fits(a[|a| - 1], b[0]))
    ensures Joints(a + b)
  {
    hide Fits;
    forall p | 0 <= p < |a + b| - 1 ensures Fits((a + b)[p], (a + b)[p + 1]) {
      if p >= |a| {
        assert Fits(b[p - |a|], b[p - |a| + 1]);
      } else if p < |a| - 1 {
        assert Fits(a[p], a[p + 1]);
      }
    }
  }

  lemma {:induction false} DeltasFit(i: int, kind: Kind, ds: seq<string>)
    ensures var frames := Deltas(i, kind, ds);
      Joints(frames) && forall p | 0 <= p < |frames| :: IsDelta(frames[p])
    decreases |ds|
  {
    if ds != [] {
      DeltasFit(i, kind, ds[..|ds| - 1]);
      JointsAppend(Deltas(i, kind, ds[..|ds| - 1]), [Chunk(DeltaEvent(i, kind, ds[|ds| - 1]))]);
    }
  }

  lemma {:induction false} BlockFits(i: int, b: Block)
    ensures var frames := OpenBlock(i, b);
      Joints(frames) && frames != [] && !IsDelta(frames[0]) && frames[0].Chunk? && frames[0].event.BlockStart?
      && InBlock(frames[|frames| - 1])
  {
    hide Joints;
    DeltasFit(i, b.kind, b.deltas);
    var start := Chunk(BlockStart(i, b.kind, b.id, b.name));
    OneFits(start);
    JointsAppend([start], Deltas(i, b.kind, b.deltas));
  }

  lemma {:induction false} OneFits(f: Frame<Event>)
    ensures Joints([f])
  {
  }

  lemma {:induction false} BlocksFit(bs: seq<Block>)
    ensures var frames := Blocks(bs);
      && Joints(frames)
      && (frames != [] ==> frames[0].Chunk? && frames[0].event.BlockStart?
                           && frames[|frames| - 1].Chunk? && frames[|frames| - 1].event.BlockStop?)
    decreases |bs|
  {
    if bs != [] {
      hide Joints, OpenBlock;
      var before, last := Blocks(bs[..|bs| - 1]), OpenBlock(|bs| - 1, bs[|bs| - 1]);
      var stop := Chunk(BlockStop(|bs| - 1));
      BlocksFit(bs[..|bs| - 1]);
      BlockFits(|bs| - 1, bs[|bs| - 1]);
      OneFits(stop);
      JointsAppend(before, last);
      JointsAppend(before + last, [stop]);
    }
  }

  lemma {:induction false} MessageFits(bs: seq<Block>, reason: string, usage: Usage)
    ensures var m := FullMessage(bs, reason, usage); Joints(m) && m[0] == Chunk(MessageStart)
  {
    var start, mid := [Chunk(MessageStart)], Blocks(bs);
    var end := [Chunk(MessageDelta(reason, usage)), Chunk(MessageStop), Done];
    BlocksFit(bs);
    assert Joints(start) && Joints(end);
    hide Joints, Blocks;
    JointsAppend(start, mid);
    JointsAppend(start + mid, end);
  }

  lemma {:induction false} JointsPrefix(frames: seq<Frame<Event>>, m: seq<Frame<Event>>)
    requires Joints(m)
    ensures frames <= m ==> Joints(frames)
  {
    if frames <= m {
      forall p | 0 <= p < |frames| - 1 ensures Fits(frames[p], frames[p + 1]) {
        assert Fits(m[p], m[p + 1]);
      }
    }
  }

  /** Two frames that do not fit, one behind the other. */
  lemma {:induction false} NotBracketed(frames: seq<Frame<Event>>, a: Frame<Event>, b: Frame<Event>)
    requires !Fits(a, b) && b.Chunk?
    ensures !WellBracketed(frames + [a] + [b])
  {
    var all := frames + [a] + [b];
    assert all[|frames|] == a && all[|frames| + 1] == b;
    assert !Joints(all) && all[|all| - 1] == b;
    hide Joints, Fits, FullMessage;
    forall bs, reason, usage ensures !Cut(all, FullMessage(bs, reason, usage)) {
      MessageFits(bs, reason, usage);
      JointsPrefix(all, FullMessage(bs, reason, usage));
    }
  }

  // ---------------------------------------------------------------------
  // Streams that show a transport's first loss.

  const TOOLS: Config := Config(false, true)

  /** The text of a sequence is read as one tool-call item. */
  function ItemOut(item: Item): Output {
    Output(None, [Sequence(0, "x", Reasoned(None, None), Some(Parsed("", [item])), None, None)], false, false, None)
  }

  /** A named call without arguments, a piece of arguments, and the end. */
  const CALL: Output := ItemOut(Item(Some("f"), "", ""))
  const PIECE: Output := ItemOut(Item(None, "", "x"))
  const END: Output := Output(None, [], true, false, None)

  lemma {:induction false} ItemOutActions(item: Item, flags: set<nat>)
    ensures Actions(TOOLS, ItemOut(item), flags) == [Flag(0), Put(ItemPiece(item))]
  {
    var out, acts := ItemOut(item), [Flag(0), Put(ItemPiece(item))];
    var s := out.sequences[0];
    assert [item][1..] == [] && ItemActions(0, []) == [];
    assert ItemActions(0, [item]) == acts + [] == acts == [] + acts;
    assert ReasoningActions(TOOLS, s) == [] && TextActions(TOOLS, s) == acts;
    SequenceIs(s, acts, flags);
    OneSequence(out, s, acts, flags);
  }

  lemma {:induction false} OneSequence(out: Output, s: Sequence, acts: seq<Action>, flags: set<nat>)
    requires SequenceActions(TOOLS, s, flags) == acts && !out.finished && !out.cancelled
    ensures ActionsFrom(TOOLS, out, [s], flags, false, "") == acts
  {
    hide SequenceActions, FlagsAfter;
    var after := FlagsAfter(flags, acts);
    var has, reason := s.index in after, match s.finishReason case None => "" case Some(r) => r;
    assert [s][1..] == [] && [s][0] == s;
    assert ActionsFrom(TOOLS, out, [], after, has, reason) == [];
    assert ActionsFrom(TOOLS, out, [s], flags, false, "") == acts + ActionsFrom(TOOLS, out, [], after, has, reason);
    assert acts + [] == acts;
  }

  lemma {:induction false} SequenceIs(s: Sequence, acts: seq<Action>, flags: set<nat>)
    requires ReasoningActions(TOOLS, s) == [] && TextActions(TOOLS, s) == acts && s.finishReason.None?
    ensures SequenceActions(TOOLS, s, flags) == acts
  {
    assert [] + acts == acts && acts + [] == acts;
  }

  lemma {:induction false} EndActs(flags: set<nat>)
    ensures Actions(TOOLS, END, flags) == [End("end_turn", MakeUsage(None))]
  {
  }

  const TOLD: Event := MessageDelta("end_turn", MakeUsage(None))

  /** The stream is open. */
  predicate Streaming(h: Handler) { h.messageStarted && !h.call.finished }

  /** `h` after more frames, the blocks as they were. */
  predicate Later(h: Handler, h': Handler, more: seq<Sent<Event>>) {
    && Streaming(h') && h'.index == h.index && h'.last == h.last && h'.call.sent == h.call.sent + more
    && h'.call.status >= h.call.status && (AllWritten(more) ==> h'.call.status == h.call.status)
  }

  lemma {:induction false} PieceSends(h: Handler, env: Env)
    requires NoRefusal(env) && Streaming(h) && h.last == Some(ToolUse)
    ensures Later(h, Handle(h, env, TOOLS, PIECE).handler,
                  [Sent(Chunk(InputJsonDelta(h.index, "x")), env.net(|h.call.sent|))])
  {
    ItemOutActions(Item(None, "", "x"), h.flags);
    hide Actions;
    var acts := [Flag(0), Put(Tool("", "", "x"))];
    assert acts[1..] == [Put(Tool("", "", "x"))] && [Put(Tool("", "", "x"))][1..] == [];
    OneLater(h, env.net(|h.call.sent|), Chunk(InputJsonDelta(h.index, "x")));
  }

  lemma {:induction false} OneLater(h: Handler, result: Word, frame: Frame<Event>)
    ensures AllWritten([Sent(frame, result)]) ==> h.call.status + result == h.call.status
  {
    var one := [Sent(frame, result)];
    if AllWritten(one) {
      assert one[0].result == {};
    }
  }

  lemma {:induction false} EndSends(h: Handler, env: Env)
    requires NoRefusal(env) && Streaming(h) && h.index == -1 && h.call.status != {}
    ensures Later(h, Handle(h, env, TOOLS, END).handler, [Sent(Chunk(TOLD), env.net(|h.call.sent|))])
  {
    EndActs(h.flags);
    hide Actions;
    var acts := [End("end_turn", MakeUsage(None))];
    assert acts[1..] == [];
    OneLater(h, env.net(|h.call.sent|), Chunk(TOLD));
  }

  /** The same frame, `n` times from position `from` on. */
  function Tail(env: Env, frame: Frame<Event>, from: nat, n: nat): seq<Sent<Event>> {
    seq(n, i requires 0 <= i < n => Sent(frame, env.net(from + i)))
  }

  function Times(out: Output, n: nat): seq<Output> { seq(n, i requires 0 <= i < n => out) }

  lemma {:induction false} RunAppend(h: Handler, env: Env, cfg: Config, a: seq<Output>, b: seq<Output>)
    ensures Anthropic.Run(h, env, cfg, a + b) == Anthropic.Run(Anthropic.Run(h, env, cfg, a), env, cfg, b)
    decreases |a|
  {
    hide Handle;
    if a == [] {
      assert a + b == b;
    } else {
      assert (a + b)[0] == a[0] && (a + b)[1..] == a[1..] + b;
      RunAppend(Handle(h, env, cfg, a[0]).handler, env, cfg, a[1..], b);
    }
  }

  lemma {:induction false} LaterStill(env: Env, h: Handler, h1: Handler, h2: Handler, frame: Frame<Event>, from: nat,
                                      n: nat)
    requires n > 0 && from == |h.call.sent|
    requires Later(h, h1, [Sent(frame, env.net(from))]) && Later(h1, h2, Tail(env, frame, from + 1, n - 1))
    ensures Later(h, h2, Tail(env, frame, from, n))
  {
    var one, rest := [Sent(frame, env.net(from))], Tail(env, frame, from + 1, n - 1);
    assert Tail(env, frame, from, n) == one + rest;
    if AllWritten(one + rest) {
      assert AllWritten(one) by { assert (one + rest)[0] == one[0]; }
      assert AllWritten(rest) by { assert rest == (one + rest)[1..]; }
    }
  }

  lemma {:induction false} Pieces(h: Handler, env: Env, n: nat)
    requires NoRefusal(env) && Streaming(h) && h.last == Some(ToolUse)
    ensures Later(h, Anthropic.Run(h, env, TOOLS, Times(PIECE, n)),
                  Tail(env, Chunk(InputJsonDelta(h.index, "x")), |h.call.sent|, n))
    decreases n
  {
    hide Handle;
    var frame := Chunk(InputJsonDelta(h.index, "x"));
    if n == 0 {
      assert h.call.sent + Tail(env, frame, |h.call.sent|, 0) == h.call.sent;
    } else {
      PieceSends(h, env);
      var h1 := Handle(h, env, TOOLS, PIECE).handler;
      Pieces(h1, env, n - 1);
      assert Times(PIECE, n)[1..] == Times(PIECE, n - 1) && Times(PIECE, n)[0] == PIECE;
      LaterStill(env, h, h1, Anthropic.Run(h1, env, TOOLS, Times(PIECE, n - 1)), frame, |h.call.sent|, n);
    }
  }

  lemma {:induction false} Ends(h: Handler, env: Env, n: nat)
    requires NoRefusal(env) && Streaming(h) && h.index == -1 && h.call.status != {}
    ensures Later(h, Anthropic.Run(h, env, TOOLS, Times(END, n)), Tail(env, Chunk(TOLD), |h.call.sent|, n))
    decreases n
  {
    hide Handle;
    if n == 0 {
      assert h.call.sent + Tail(env, Chunk(TOLD), |h.call.sent|, 0) == h.call.sent;
    } else {
      EndSends(h, env);
      var h1 := Handle(h, env, TOOLS, END).handler;
      Ends(h1, env, n - 1);
      assert Times(END, n)[1..] == Times(END, n - 1) && Times(END, n)[0] == END;
      LaterStill(env, h, h1, Anthropic.Run(h1, env, TOOLS, Times(END, n - 1)), Chunk(TOLD), |h.call.sent|, n);
    }
  }

  // ---------------------------------------------------------------------
  // What is accepted.

  lemma {:induction false} AcceptedAppend(a: seq<Sent<Event>>, b: seq<Sent<Event>>)
    ensures Accepted(a + b) == Accepted(a) + Accepted(b)
  {
    if a == [] {
      assert a + b == b;
    } else {
      assert (a + b)[0] == a[0] && (a + b)[1..] == a[1..] + b;
      AcceptedAppend(a[1..], b);
    }
  }

  /** Only the last of these frames is accepted. */
  lemma {:induction false} AcceptedTail(env: Env, frame: Frame<Event>, from: nat, n: nat)
    requires n > 0 && env.net(from + n - 1) == {} && forall m | from <= m < from + n - 1 :: env.net(m) != {}
    ensures Accepted(Tail(env, frame, from, n)) == [frame]
    decreases n
  {
    var t := Tail(env, frame, from, n);
    if n == 1 {
      assert t[1..] == [];
    } else {
      assert t[1..] == Tail(env, frame, from + 1, n - 1) && t[0].result == env.net(from);
      AcceptedTail(env, frame, from + 1, n - 1);
      assert [] + [frame] == [frame];
    }
  }

  /** A frame that was accepted, one that was lost, and again and again one that does not fit
  the first, until it is accepted. */
  lemma {:induction false} LossShows(env: Env, pre: seq<Sent<Event>>, a: Frame<Event>, lost: Sent<Event>,
                                     b: Frame<Event>, from: nat, n: nat)
    requires !Fits(a, b) && b.Chunk? && lost.result != {}
    requires n > 0 && env.net(from + n - 1) == {} && forall m | from <= m < from + n - 1 :: env.net(m) != {}
    ensures !WellBracketed(Accepted(pre + [Sent(a, {})] + [lost] + Tail(env, b, from, n)))
  {
    hide Fits, WellBracketed;
    AcceptedAppend(pre + [Sent(a, {})] + [lost], Tail(env, b, from, n));
    AcceptedAppend(pre + [Sent(a, {})], [lost]);
    AcceptedAppend(pre, [Sent(a, {})]);
    OneAccepted(a, lost);
    AcceptedTail(env, b, from, n);
    assert Accepted(pre) + [a] + [] == Accepted(pre) + [a];
    NotBracketed(Accepted(pre), a, b);
  }

  lemma {:induction false} OneAccepted(a: Frame<Event>, lost: Sent<Event>)
    requires lost.result != {}
    ensures Accepted([Sent(a, {})]) == [a] && Accepted([lost]) == []
  {
    assert [Sent(a, {})][1..] == [] && [lost][1..] == [] && Accepted<Event>([]) == [];
  }

  // ---------------------------------------------------------------------
  // One stream for each position of the first loss.

  /** The transport loses frame `i` first, and accepts frame `j` next. */
  predicate Recovers(env: Env, i: nat, j: nat) {
    && i < j && env.net(i) != {} && env.net(j) == {}
    && (forall m | 0 <= m < i :: env.net(m) == {}) && (forall m | i < m < j :: env.net(m) != {})
  }

  ghost function View(env: Env, outs: seq<Output>): seq<Frame<Event>> {
    Accepted(Anthropic.Run(NEW_HANDLER, env, TOOLS, outs).call.sent)
  }

  lemma {:induction false} FirstOf(h: Handler, env: Env, out: Output, rest: seq<Output>)
    ensures Anthropic.Run(h, env, TOOLS, [out] + rest)
         == Anthropic.Run(Handle(h, env, TOOLS, out).handler, env, TOOLS, rest)
  {
    hide Handle;
    assert ([out] + rest)[1..] == rest;
  }

  lemma {:induction false} StartLost(env: Env, j: nat)
    requires NoRefusal(env) && Recovers(env, 0, j)
    ensures !WellBracketed(View(env, [END] + Times(END, j)))
  {
    var h := Handle(NEW_HANDLER, env, TOOLS, END).handler;
    assert h.call.sent == [Sent(Chunk(MessageStart), env.net(0))] && Streaming(h) && h.index == -1;
    hide Handle, WellBracketed;
    FirstOf(NEW_HANDLER, env, END, Times(END, j));
    Ends(h, env, j);
    AcceptedAppend(h.call.sent, Tail(env, Chunk(TOLD), 1, j));
    AcceptedTail(env, Chunk(TOLD), 1, j);
    OneAccepted(Done, h.call.sent[0]);
    assert [] + [Chunk(TOLD)] == [Chunk(TOLD)];
    NotBegun([Chunk(TOLD)]);
  }

  lemma {:induction false} CallFromNew(env: Env)
    requires NoRefusal(env) && env.net(0) == {}
    ensures var h := Handle(NEW_HANDLER, env, TOOLS, CALL).handler;
      && h.call.sent == [Sent(Chunk(MessageStart), {}), Sent(Chunk(BlockStart(0, ToolUse, "", "f")), env.net(1))]
      && Streaming(h) && h.index == 0 && h.last == Some(ToolUse) && h.call.status == env.net(1)
  {
    ItemOutActions(Item(Some("f"), "", ""), {});
    hide Actions;
    var acts := [Flag(0), Put(Tool("", "f", ""))];
    assert acts[1..] == [Put(Tool("", "f", ""))] && [Put(Tool("", "f", ""))][1..] == [];
  }

  lemma {:induction false} FirstBlockLost(env: Env, j: nat)
    requires NoRefusal(env) && Recovers(env, 1, j)
    ensures !WellBracketed(View(env, [CALL] + Times(PIECE, j - 1)))
  {
    CallFromNew(env);
    hide Handle, WellBracketed;
    var h := Handle(NEW_HANDLER, env, TOOLS, CALL).handler;
    FirstOf(NEW_HANDLER, env, CALL, Times(PIECE, j - 1));
    Pieces(h, env, j - 1);
    var start := Chunk(MessageStart);
    assert h.call.sent == [] + [Sent(start, {})] + [h.call.sent[1]];
    LossShows(env, [], start, h.call.sent[1], Chunk(InputJsonDelta(0, "x")), 2, j - 1);
  }

  lemma {:induction false} EndFromNew(env: Env)
    requires NoRefusal(env) && env.net(0) == {} && env.net(1) == {} && env.net(2) != {}
    ensures var h := Handle(NEW_HANDLER, env, TOOLS, END).handler;
      && h.call.sent == [Sent(Chunk(MessageStart), {}), Sent(Chunk(TOLD), {}), Sent(Chunk(MessageStop), env.net(2))]
      && Streaming(h) && h.index == -1 && h.call.status == env.net(2)
  {
    EndActs({});
    hide Actions;
  }

  lemma {:induction false} StopLost(env: Env, j: nat)
    requires NoRefusal(env) && Recovers(env, 2, j)
    ensures !WellBracketed(View(env, [END] + Times(END, j - 2)))
  {
    EndFromNew(env);
    hide Handle, WellBracketed;
    var h := Handle(NEW_HANDLER, env, TOOLS, END).handler;
    FirstOf(NEW_HANDLER, env, END, Times(END, j - 2));
    Ends(h, env, j - 2);
    assert h.call.sent == [Sent(Chunk(MessageStart), {})] + [Sent(Chunk(TOLD), {})] + [h.call.sent[2]];
    LossShows(env, [Sent(Chunk(MessageStart), {})], Chunk(TOLD), h.call.sent[2], Chunk(TOLD), 3, j - 2);
  }

  lemma {:induction false} CallAgain(h: Handler, env: Env)
    requires NoRefusal(env) && Streaming(h) && h.last == Some(ToolUse) && h.call.status == {}
    requires env.net(|h.call.sent|) == {}
    ensures var h', n := Handle(h, env, TOOLS, CALL).handler, |h.call.sent|;
      && h'.call.sent == h.call.sent + [Sent(Chunk(BlockStop(h.index)), {})]
                         + [Sent(Chunk(BlockStart(h.index + 1, ToolUse, "", "f")), env.net(n + 1))]
      && Streaming(h') && h'.index == h.index + 1 && h'.last == Some(ToolUse)
  {
    ItemOutActions(Item(Some("f"), "", ""), h.flags);
    hide Actions;
    var acts := [Flag(0), Put(Tool("", "f", ""))];
    assert acts[1..] == [Put(Tool("", "f", ""))] && [Put(Tool("", "f", ""))][1..] == [];
  }

  /** A call and `i - 3` pieces are accepted: `i - 1` frames. */
  lemma {:induction false} Filled(env: Env, i: nat) returns (h: Handler)
    requires i >= 3 && NoRefusal(env) && forall m | 0 <= m < i :: env.net(m) == {}
    ensures h == Anthropic.Run(NEW_HANDLER, env, TOOLS, [CALL] + Times(PIECE, i - 3))
    ensures Streaming(h) && h.last == Some(ToolUse) && h.index == 0 && h.call.status == {} && |h.call.sent| == i - 1
  {
    CallFromNew(env);
    hide Handle;
    var h1 := Handle(NEW_HANDLER, env, TOOLS, CALL).handler;
    FirstOf(NEW_HANDLER, env, CALL, Times(PIECE, i - 3));
    Pieces(h1, env, i - 3);
    h := Anthropic.Run(h1, env, TOOLS, Times(PIECE, i - 3));
  }

  lemma {:induction false} LaterBlockLost(env: Env, i: nat, j: nat)
    requires i >= 3 && NoRefusal(env) && Recovers(env, i, j)
    ensures !WellBracketed(View(env, [CALL] + Times(PIECE, i - 3) + ([CALL] + Times(PIECE, j - i))))
  {
    hide Handle, WellBracketed, Anthropic.Run, Later;
    var h2 := Filled(env, i);
    CallAgain(h2, env);
    RunAppend(NEW_HANDLER, env, TOOLS, [CALL] + Times(PIECE, i - 3), [CALL] + Times(PIECE, j - i));
    var h3 := Handle(h2, env, TOOLS, CALL).handler;
    FirstOf(h2, env, CALL, Times(PIECE, j - i));
    Pieces(h3, env, j - i);
    ThenLost(env, h2.call.sent, h3, Anthropic.Run(h3, env, TOOLS, Times(PIECE, j - i)), i, j);
  }

  lemma {:induction false} ThenLost(env: Env, pre: seq<Sent<Event>>, h: Handler, end: Handler, i: nat, j: nat)
    requires Recovers(env, i, j) && |pre| == i - 1 && h.index == 1
    requires h.call.sent == pre + [Sent(Chunk(BlockStop(0)), {})]
                            + [Sent(Chunk(BlockStart(1, ToolUse, "", "f")), env.net(i))]
    requires Later(h, end, Tail(env, Chunk(InputJsonDelta(1, "x")), i + 1, j - i))
    ensures !WellBracketed(Accepted(end.call.sent))
  {
    hide WellBracketed;
    LossShows(env, pre, Chunk(BlockStop(0)), Sent(Chunk(BlockStart(1, ToolUse, "", "f")), env.net(i)),
              Chunk(InputJsonDelta(1, "x")), i + 1, j - i);
  }

  lemma {:induction false} LossBreaks(env: Env, i: nat, j: nat) returns (outs: seq<Output>)
    requires NoRefusal(env) && Recovers(env, i, j)
    ensures !WellBracketed(View(env, outs))
  {
    hide WellBracketed, View;
    if i == 0 {
      outs := [END] + Times(END, j);
      StartLost(env, j);
    } else if i == 1 {
      outs := [CALL] + Times(PIECE, j - 1);
      FirstBlockLost(env, j);
    } else if i == 2 {
      outs := [END] + Times(END, j - 2);
      StopLost(env, j);
    } else {
      outs := [CALL] + Times(PIECE, i - 3) + ([CALL] + Times(PIECE, j - i));
      LaterBlockLost(env, i, j);
    }
  }

  /** The first loss, and the first frame accepted after it. */
  lemma {:induction false} FirstRecovery(env: Env, i: nat, j: nat) returns (i0: nat, j0: nat)
    requires i < j && env.net(i) != {} && env.net(j) == {}
    ensures Recovers(env, i0, j0)
  {
    i0 := 0;
    while env.net(i0) == {}
      invariant i0 <= i && forall m | 0 <= m < i0 :: env.net(m) == {}
      decreases i - i0
    {
      i0 := i0 + 1;
    }
    j0 := i0 + 1;
    while env.net(j0) != {}
      invariant i0 < j0 <= j && forall m | i0 < m < j0 :: env.net(m) != {}
      decreases j - j0
    {
      j0 := j0 + 1;
    }
  }

  // ---------------------------------------------------------------------
  // The exact condition.

  /** Whatever is sent, what the transport accepts is well bracketed. */
  ghost predicate AlwaysBracketed(env: Env) {
    forall cfg, outs :: WellBracketed(Accepted(Anthropic.Run(NEW_HANDLER, env, cfg, outs).call.sent))
  }

  /** Once the transport has lost a frame, it loses all that follow. */
  ghost predicate LosesForGood(env: Env) { forall i: nat, j: nat | i < j && env.net(i) != {} :: env.net(j) != {} }

  /** Main result: where every event serialises, the transport shows the client a well-bracketed
  stream, for all configurations and outputs, if and only if it accepts
  nothing after a frame that it lost. */
  lemma {:induction false} BracketedExactly(env: Env)
    requires NoRefusal(env)
    ensures AlwaysBracketed(env) <==> LosesForGood(env)
  {
    hide WellBracketed;
    if LosesForGood(env) {
      forall cfg, outs ensures WellBracketed(Accepted(Anthropic.Run(NEW_HANDLER, env, cfg, outs).call.sent)) {
        RunOnNet(NEW_HANDLER, env, cfg, outs);
        AcceptedView(env, cfg, outs);
      }
    } else {
      var i: nat, j: nat :| i < j && env.net(i) != {} && env.net(j) == {};
      var i0, j0 := FirstRecovery(env, i, j);
      var outs := LossBreaks(env, i0, j0);
      assert !WellBracketed(View(env, outs));
    }
  }
}
