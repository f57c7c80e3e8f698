/** The main results about the Anthropic stream. */
module AnthropicResults {
  import opened Text
  import opened StreamCall
  import opened Anthropic
  import opened AnthropicTheorems

  /** For every sequence of outputs and every pattern of failures, the client gets a
  well-bracketed stream: message_start, blocks numbered 0, 1, 2, ... with text deltas
  only in text blocks and JSON deltas only in tool_use blocks, message_delta,
  message_stop and the closing frame; or a prefix of one, or a prefix cut by one
  error event. It is the message that the outputs describe, and the whole of what
  they describe so far unless a write failed or an error was reported. */
  lemma {:induction false} ClientView(env: Env, cfg: Config, outs: seq<Output>)
    ensures var h := Anthropic.Run(NEW_HANDLER, env, cfg, outs);
      var view, stage := Delivered(h.call.sent), Described(NO_MESSAGE, cfg, outs).stage;
      && WellBracketed(view)
      && Cut(view, Written(stage))
      && (Healthy(h.call) ==> view == Written(stage))
  {
    var h := Anthropic.Run(NEW_HANDLER, env, cfg, outs);
    var stage := Described(NO_MESSAGE, cfg, outs).stage;
    RunInStep(NEW_HANDLER, env, cfg, NO_MESSAGE, outs);
    StageOfMessage(stage);
    var bs, reason, usage :| Written(stage) <= FullMessage(bs, reason, usage);
    hide Written, FullMessage, Delivered;
    assert Cut(Delivered(h.call.sent), Written(stage));
    assert Cut(Delivered(h.call.sent), FullMessage(bs, reason, usage));
  }

  /** A transport may accept frames again after it failed. What it accepted is that view
  exactly if its failures last, and then it is well bracketed. */
  lemma {:induction false} AcceptedView(env: Env, cfg: Config, outs: seq<Output>)
    ensures var sent := Anthropic.Run(NEW_HANDLER, env, cfg, outs).call.sent;
      && (FailsForGood(sent) <==> Accepted(sent) == Delivered(sent))
      && (FailsForGood(sent) ==> WellBracketed(Accepted(sent)))
  {
    ClientView(env, cfg, outs);
    var sent := Anthropic.Run(NEW_HANDLER, env, cfg, outs).call.sent;
    AcceptedIsDelivered(sent);
  }

  /** Otherwise it need not be. Outputs that follow a failed write are still handled; when
  the first write is lost and the next accepted, the client sees a message that never
  began. */
  lemma {:induction false} AcceptedCanBreak(env: Env, cfg: Config)
    requires env.net(0) != {} && env.net(1) == {} && forall k: nat, e: Event :: env.refusal(k, e).None?
    ensures var outs := [Output(None, [], false, false, None), Output(None, [], true, false, None)];
      var view := Accepted(Anthropic.Run(NEW_HANDLER, env, cfg, outs).call.sent);
      && view == [Chunk(MessageDelta("end_turn", MakeUsage(None)))] && !WellBracketed(view)
  {
    var early, late := Output(None, [], false, false, None), Output(None, [], true, false, None);
    var h1 := Handle(NEW_HANDLER, env, cfg, early).handler;
    assert h1.call.sent == [Sent(Chunk(MessageStart), env.net(0))];
    var told := Chunk(MessageDelta("end_turn", MakeUsage(None)));
    assert Actions(cfg, late, {}) == [End("end_turn", MakeUsage(None))];
    var h2 := Handle(h1, env, cfg, late).handler;
    assert h2.call.sent == [Sent(Chunk(MessageStart), env.net(0)), Sent(told, {})];
    assert [early, late][1..] == [late] && [late][1..] == [];
    assert Anthropic.Run(h2, env, cfg, []) == h2 && Anthropic.Run(h1, env, cfg, [late]) == h2;
    assert h2.call.sent[1..] == [Sent(told, {})] && [Sent(told, {})][1..] == [];
    assert Accepted([Sent(told, {})]) == [told];
    NotBegun([told]);
  }

  lemma {:induction false} NotBegun(frames: seq<Frame<Event>>)
    requires frames != [] && frames[0].Chunk? && !frames[0].event.MessageStart?
    ensures !WellBracketed(frames)
  {
    forall bs, reason, usage ensures !Cut(frames, FullMessage(bs, reason, usage)) {
      assert FullMessage(bs, reason, usage)[0] == Chunk(MessageStart);
    }
  }

  // ---------------------------------------------------------------------
  // Runs without failures.

  /** Every write succeeds and every event serialises. */
  ghost predicate Clean(env: Env) {
    && (forall k: nat :: env.net(k) == {})
    && (forall k: nat, e: Event :: env.refusal(k, e).None?)
  }

  lemma {:induction false} SendClean(h: Handler, env: Env, e: Event)
    requires Clean(env) && Healthy(h.call)
    ensures Healthy(Send(h, env, e).handler.call)
  {
  }

  lemma {:induction false} DoClean(h: Handler, env: Env, action: Action)
    requires Clean(env) && Healthy(h.call)
    ensures Healthy(Do(h, env, action).handler.call)
  {
    match action {
      case Flag(_) =>
      case Put(piece) => PieceClean(h, env, piece);
      case End(reason, usage) => EndClean(h, env, reason, usage);
    }
  }

  lemma {:induction false} PieceClean(h: Handler, env: Env, piece: Piece)
    requires Clean(env) && Healthy(h.call)
    ensures Healthy(SendPiece(h, env, piece).handler.call)
  {
    hide Healthy, Send, Clean;
    SendClean(h, env, BlockStop(h.index));
    var stopped := if h.last.Some? then Send(h, env, BlockStop(h.index)) else Outcome(h, true);
    var next := stopped.handler.(last := Some(piece.Kind()), index := h.index + 1);
    SendClean(next, env, StartEvent(h.index + 1, piece));
    var opens := h.last != Some(piece.Kind()) || piece.Named();
    var ready := if opens then StartBlock(h, env, piece) else Outcome(h, true);
    match piece {
      case Words(text) => SendClean(ready.handler, env, TextDelta(ready.handler.index, text));
      case Tool(_, _, arguments) => SendClean(ready.handler, env, InputJsonDelta(ready.handler.index, arguments));
    }
  }

  lemma {:induction false} EndClean(h: Handler, env: Env, reason: string, usage: Usage)
    requires Clean(env) && Healthy(h.call)
    ensures Healthy(EndMessage(h, env, reason, usage).handler.call)
  {
    SendClean(h, env, BlockStop(h.index));
    var stopped := if h.index >= 0 then Send(h, env, BlockStop(h.index)) else Outcome(h, true);
    SendClean(stopped.handler, env, MessageDelta(reason, usage));
    var told := Send(stopped.handler, env, MessageDelta(reason, usage));
    SendClean(told.handler, env, MessageStop);
    hide Send;
  }

  lemma {:induction false} DoAllClean(h: Handler, env: Env, actions: seq<Action>)
    requires Clean(env) && Healthy(h.call)
    ensures Healthy(DoAll(h, env, actions).handler.call)
    decreases |actions|
  {
    hide Do, Healthy, Clean;
    if actions != [] {
      DoClean(h, env, actions[0]);
      if Do(h, env, actions[0]).ok {
        DoAllClean(Do(h, env, actions[0]).handler, env, actions[1..]);
      }
    }
  }

  lemma {:induction false} RunClean(h: Handler, env: Env, cfg: Config, outs: seq<Output>)
    requires Clean(env) && Healthy(h.call) && forall out | out in outs :: out.error.None?
    ensures Healthy(Anthropic.Run(h, env, cfg, outs).call)
    decreases |outs|
  {
    hide Healthy, Clean, DoAll, Actions, Send;
    if outs != [] {
      SendClean(h.(messageStarted := true), env, MessageStart);
      var begun := Begin(h, env);
      assert outs[0].error.None?;
      if begun.ok {
        DoAllClean(begun.handler, env, Actions(cfg, outs[0], begun.handler.flags));
      }
      RunClean(Handle(h, env, cfg, outs[0]).handler, env, cfg, outs[1..]);
    }
  }

  // ---------------------------------------------------------------------
  // When the message is whole.

  predicate Ends(out: Output) { out.error.None? && (out.finished || out.cancelled) }

  lemma {:induction false} NoEarlyEnd(i: Ideal, actions: seq<Action>)
    requires forall a | a in actions :: !a.End?
    ensures i.stage.Growing? ==> FollowAll(i, actions).stage.Growing?
    decreases |actions|
  {
    hide Grow;
    if actions != [] {
      assert !actions[0].End?;
      NoEarlyEnd(Follow(i, actions[0]), actions[1..]);
    }
  }

  lemma {:induction false} ItemsDoNotEnd(index: nat, items: seq<Item>)
    ensures forall a | a in ItemActions(index, items) :: !a.End?
  {
    if items != [] {
      ItemsDoNotEnd(index, items[1..]);
    }
  }

  lemma {:induction false} FollowAllAppend(i: Ideal, a: seq<Action>, b: seq<Action>)
    ensures FollowAll(i, a + b) == FollowAll(FollowAll(i, a), b)
    decreases |a|
  {
    hide Follow;
    if a == [] {
      assert a + b == b;
    } else {
      assert (a + b)[0] == a[0] && (a + b)[1..] == a[1..] + b;
      FollowAllAppend(Follow(i, a[0]), a[1..], b);
    }
  }

  lemma {:induction false} OutputEnds(i: Ideal, cfg: Config, out: Output, ss: seq<Sequence>, flags: set<nat>,
                                      has: bool, reason: string)
    requires i.stage.Growing?
    ensures FollowAll(i, ActionsFrom(cfg, out, ss, flags, has, reason)).stage.Whole? <==> out.finished || out.cancelled
    ensures !FollowAll(i, ActionsFrom(cfg, out, ss, flags, has, reason)).stage.Unborn?
    decreases |ss|
  {
    if ss == [] {
      var end := EndActions(out, has, reason);
      assert FollowAll(i, []) == i;
      if out.finished || out.cancelled {
        assert end[1..] == [];
        assert FollowAll(i, end) == FollowAll(Follow(i, end[0]), end[1..]);
      }
    } else {
      var acts := SequenceActions(cfg, ss[0], flags);
      var after := FlagsAfter(flags, acts);
      ItemsDoNotEnd(ss[0].index, if ss[0].parsed.Some? then ss[0].parsed.value.items else []);
      assert forall a | a in acts :: !a.End?;
      hide SequenceActions, FlagsAfter, Follow;
      NoEarlyEnd(i, acts);
      var nextReason := match ss[0].finishReason case None => reason case Some(r) => r;
      FollowAllAppend(i, acts, ActionsFrom(cfg, out, ss[1..], after, has || ss[0].index in after, nextReason));
      OutputEnds(FollowAll(i, acts), cfg, out, ss[1..], after, has || ss[0].index in after, nextReason);
    }
  }

  /** The message is whole exactly when some output finished or was cancelled. */
  lemma {:induction false} WholeAfterEnd(i: Ideal, cfg: Config, outs: seq<Output>)
    ensures Described(i, cfg, outs).stage.Whole? <==> i.stage.Whole? || exists out :: out in outs && Ends(out)
    decreases |outs|
  {
    hide ActionsFrom, FollowAll;
    if outs != [] {
      var out := outs[0];
      var next := if out.error.Some? then i else FollowAll(Born(i), Actions(cfg, out, i.flags));
      assert outs == [out] + outs[1..];
      assert (exists o :: o in outs && Ends(o)) <==> Ends(out) || exists o :: o in outs[1..] && Ends(o);
      if out.error.None? {
        if i.stage.Whole? {
          FollowAllGrows(i, Actions(cfg, out, i.flags));
        } else {
          OutputEnds(Born(i), cfg, out, out.sequences, i.flags, false, "");
        }
      }
      WholeAfterEnd(next, cfg, outs[1..]);
    }
  }

  /** When nothing fails, the client gets everything: exactly the frames of the
  message described; and a whole message, closing frame included, if and only if an
  output finished or was cancelled. */
  lemma {:induction false} WholeMessageArrives(env: Env, cfg: Config, outs: seq<Output>)
    requires Clean(env) && forall out | out in outs :: out.error.None?
    ensures var h := Anthropic.Run(NEW_HANDLER, env, cfg, outs);
      var view, stage := Delivered(h.call.sent), Described(NO_MESSAGE, cfg, outs).stage;
      && view == Written(stage)
      && (stage.Whole? <==> exists out :: out in outs && Ends(out))
      && (h.call.complete <==> stage.Whole?)
  {
    var h := Anthropic.Run(NEW_HANDLER, env, cfg, outs);
    RunClean(NEW_HANDLER, env, cfg, outs);
    RunInStep(NEW_HANDLER, env, cfg, NO_MESSAGE, outs);
    WholeAfterEnd(NO_MESSAGE, cfg, outs);
    hide Written, Described, Delivered;
    assert Healthy(h.call) && Keeps(h.call);
  }

  // ---------------------------------------------------------------------
  // What the blocks hold.

  function Payload(piece: Piece): string { if piece.Words? then piece.text else piece.arguments }

  function Tagged(kind: Kind, s: string): seq<(Kind, char)> { seq(|s|, k requires 0 <= k < |s| => (kind, s[k])) }

  /** The characters of the blocks in order, each with the kind of its block. */
  function Content(bs: seq<Block>): seq<(Kind, char)> {
    if bs == [] then [] else Content(bs[..|bs| - 1]) + Tagged(bs[|bs| - 1].kind, Flatten(bs[|bs| - 1].deltas))
  }

  /** The tool calls that the blocks announce. */
  function Announced(bs: seq<Block>): seq<(string, string)> {
    if bs == [] then []
    else Announced(bs[..|bs| - 1]) + if bs[|bs| - 1].name != "" then [(bs[|bs| - 1].id, bs[|bs| - 1].name)] else []
  }

  function Spoken(ps: seq<Piece>): seq<(Kind, char)> {
    if ps == [] then [] else Tagged(ps[0].Kind(), Payload(ps[0])) + Spoken(ps[1..])
  }

  function Named(ps: seq<Piece>): seq<(string, string)> {
    if ps == [] then [] else (if ps[0].Named() then [(ps[0].id, ps[0].name)] else []) + Named(ps[1..])
  }

  /** The pieces of the actions before an end. */
  function Pieces(actions: seq<Action>): seq<Piece> {
    if actions == [] || actions[0].End? then []
    else (if actions[0].Put? then [actions[0].piece] else []) + Pieces(actions[1..])
  }

  function BlocksOf(s: Stage): seq<Block> { if s.Unborn? then [] else s.blocks }

  lemma {:induction false} TaggedAppend(kind: Kind, a: string, b: string)
    ensures Tagged(kind, a + b) == Tagged(kind, a) + Tagged(kind, b)
  {
  }

  lemma {:induction false} GrowKeepsContent(bs: seq<Block>, piece: Piece)
    ensures Content(Grow(bs, piece)) == Content(bs) + Tagged(piece.Kind(), Payload(piece))
  {
    var next := Grow(bs, piece);
    var more := NewDelta(piece);
    assert Flatten(more) == Payload(piece) by {
      assert [Payload(piece)][1..] == [] && Payload(piece) + Flatten([]) == Payload(piece);
    }
    if Continues(bs, piece) {
      var b := bs[|bs| - 1];
      assert next[..|next| - 1] == bs[..|bs| - 1];
      FlattenAppend(b.deltas, more);
      TaggedAppend(b.kind, Flatten(b.deltas), Payload(piece));
      hide Flatten, Tagged;
      assert Content(bs[..|bs| - 1]) + (Tagged(b.kind, Flatten(b.deltas)) + Tagged(b.kind, Payload(piece)))
          == Content(bs[..|bs| - 1]) + Tagged(b.kind, Flatten(b.deltas)) + Tagged(b.kind, Payload(piece));
    } else {
      assert next[..|bs|] == bs;
    }
  }

  lemma {:induction false} GrowKeepsNames(bs: seq<Block>, piece: Piece)
    ensures Announced(Grow(bs, piece)) == Announced(bs) + if piece.Named() then [(piece.id, piece.name)] else []
  {
    var next := Grow(bs, piece);
    if Continues(bs, piece) {
      assert next[..|next| - 1] == bs[..|bs| - 1];
      assert Announced(bs) + [] == Announced(bs);
    } else {
      assert next[..|bs|] == bs;
    }
  }

  /** Nothing is lost, repeated or reordered, and every named tool call opens one
  block: the blocks hold the payloads of the pieces, character by character, text in
  text blocks and arguments in tool_use blocks. */
  lemma {:induction false} PiecesKept(i: Ideal, actions: seq<Action>)
    requires i.stage.Growing?
    ensures var bs, next := i.stage.blocks, BlocksOf(FollowAll(i, actions).stage);
      Content(next) == Content(bs) + Spoken(Pieces(actions))
      && Announced(next) == Announced(bs) + Named(Pieces(actions))
    decreases |actions|
  {
    hide Grow, Content, Announced, Tagged;
    var bs := i.stage.blocks;
    if actions == [] {
      assert Content(bs) + [] == Content(bs) && Announced(bs) + [] == Announced(bs);
    } else {
      var a, rest := actions[0], Pieces(actions[1..]);
      match a {
        case Put(piece) =>
          GrowKeepsContent(bs, piece);
          GrowKeepsNames(bs, piece);
          PiecesKept(Follow(i, a), actions[1..]);
          var head := if piece.Named() then [(piece.id, piece.name)] else [];
          assert Pieces(actions) == [piece] + rest && ([piece] + rest)[1..] == rest;
          Regroup3(Content(bs), Tagged(piece.Kind(), Payload(piece)), Spoken(rest));
          Regroup3(Announced(bs), head, Named(rest));
        case Flag(_) =>
          assert [] + rest == rest;
          PiecesKept(Follow(i, a), actions[1..]);
        case End(_, _) =>
          FollowAllGrows(Follow(i, a), actions[1..]);
          assert Content(bs) + [] == Content(bs) && Announced(bs) + [] == Announced(bs);
      }
    }
  }

  lemma {:induction false} Regroup3<T>(a: seq<T>, b: seq<T>, c: seq<T>)
    ensures a + b + c == a + (b + c)
  {
  }

  /** What the outputs say, up to the end of the message. */
  function Said(i: Ideal, cfg: Config, outs: seq<Output>): seq<Piece>
    decreases |outs|
  {
    if outs == [] || i.stage.Whole? then []
    else if outs[0].error.Some? then Said(i, cfg, outs[1..])
    else
      var actions := Actions(cfg, outs[0], i.flags);
      Pieces(actions) + Said(FollowAll(Born(i), actions), cfg, outs[1..])
  }

  lemma {:induction false} SpokenAppend(a: seq<Piece>, b: seq<Piece>)
    ensures Spoken(a + b) == Spoken(a) + Spoken(b)
    decreases |a|
  {
    hide Tagged;
    if a == [] {
      assert a + b == b;
    } else {
      assert (a + b)[0] == a[0] && (a + b)[1..] == a[1..] + b;
      SpokenAppend(a[1..], b);
      Regroup3(Tagged(a[0].Kind(), Payload(a[0])), Spoken(a[1..]), Spoken(b));
    }
  }

  lemma {:induction false} NamedAppend(a: seq<Piece>, b: seq<Piece>)
    ensures Named(a + b) == Named(a) + Named(b)
    decreases |a|
  {
    if a == [] {
      assert a + b == b;
    } else {
      assert (a + b)[0] == a[0] && (a + b)[1..] == a[1..] + b;
      NamedAppend(a[1..], b);
      Regroup3(if a[0].Named() then [(a[0].id, a[0].name)] else [], Named(a[1..]), Named(b));
    }
  }

  lemma {:induction false} WholeStays(i: Ideal, cfg: Config, outs: seq<Output>)
    requires i.stage.Whole?
    ensures Described(i, cfg, outs).stage == i.stage
    decreases |outs|
  {
    hide Actions;
    if outs != [] {
      if outs[0].error.None? {
        FollowAllGrows(i, Actions(cfg, outs[0], i.flags));
      }
      WholeStays(i, cfg, outs[1..]);
    }
  }

  /** Over a whole run: the blocks of the message hold what the outputs said, and
  announce the tool calls they named, in order. */
  lemma {:induction false} MessageKeepsWhatWasSaid(i: Ideal, cfg: Config, outs: seq<Output>)
    ensures var bs, next := BlocksOf(i.stage), BlocksOf(Described(i, cfg, outs).stage);
      Content(next) == Content(bs) + Spoken(Said(i, cfg, outs))
      && Announced(next) == Announced(bs) + Named(Said(i, cfg, outs))
    decreases |outs|
  {
    hide Actions, FollowAll, Pieces;
    var bs := BlocksOf(i.stage);
    if outs == [] || i.stage.Whole? {
      if i.stage.Whole? {
        WholeStays(i, cfg, outs);
      }
      hide Content, Announced;
      assert Content(bs) + [] == Content(bs) && Announced(bs) + [] == Announced(bs);
    } else if outs[0].error.Some? {
      MessageKeepsWhatWasSaid(i, cfg, outs[1..]);
    } else {
      var actions := Actions(cfg, outs[0], i.flags);
      var next := FollowAll(Born(i), actions);
      PiecesKept(Born(i), actions);
      MessageKeepsWhatWasSaid(next, cfg, outs[1..]);
      hide Content, Announced, Spoken, Named;
      var rest := Said(next, cfg, outs[1..]);
      SpokenAppend(Pieces(actions), rest);
      NamedAppend(Pieces(actions), rest);
      Regroup3(Content(bs), Spoken(Pieces(actions)), Spoken(rest));
      Regroup3(Announced(bs), Named(Pieces(actions)), Named(rest));
    }
  }
}
