/** What the client of an Anthropic stream can rely on, for every sequence of model
outputs and every pattern of write and serialisation failures. */
module AnthropicTheorems {
  import opened Text
  import opened StreamCall
  import opened Anthropic

  // ---------------------------------------------------------------------
  // Messages: the grammar, and its printed form.

  datatype Block = Block(kind: Kind, id: string, name: string, deltas: seq<string>)

  function DeltaEvent(i: int, kind: Kind, d: string): Event {
    if kind.TextBlock? then TextDelta(i, d) else InputJsonDelta(i, d)
  }

  function Deltas(i: int, kind: Kind, ds: seq<string>): seq<Frame<Event>> {
    if ds == [] then [] else Deltas(i, kind, ds[..|ds| - 1]) + [Chunk(DeltaEvent(i, kind, ds[|ds| - 1]))]
  }

  /** A block without its stop event. */
  function OpenBlock(i: int, b: Block): seq<Frame<Event>> {
    [Chunk(BlockStart(i, b.kind, b.id, b.name))] + Deltas(i, b.kind, b.deltas)
  }

  function Blocks(bs: seq<Block>): seq<Frame<Event>> {
    if bs == [] then []
    else Blocks(bs[..|bs| - 1]) + OpenBlock(|bs| - 1, bs[|bs| - 1]) + [Chunk(BlockStop(|bs| - 1))]
  }

  function FullMessage(bs: seq<Block>, reason: string, usage: Usage): seq<Frame<Event>> {
    [Chunk(MessageStart)] + Blocks(bs) + [Chunk(MessageDelta(reason, usage)), Chunk(MessageStop), Done]
  }

  /** A prefix of a message, or such a prefix cut by one error event. */
  ghost predicate Cut(frames: seq<Frame<Event>>, whole: seq<Frame<Event>>) {
    frames <= whole
    || (frames != [] && frames[|frames| - 1].Failure? && frames[..|frames| - 1] <= whole)
  }

  ghost predicate WellBracketed(frames: seq<Frame<Event>>) {
    exists bs, reason, usage :: Cut(frames, FullMessage(bs, reason, usage))
  }

  // ---------------------------------------------------------------------
  // The message that the outputs describe.

  /** How far the message is: not begun, with blocks of which the last is open, or
  complete. */
  datatype Stage = Unborn | Growing(blocks: seq<Block>) | Whole(blocks: seq<Block>, reason: string, usage: Usage)

  datatype Ideal = Ideal(stage: Stage, flags: set<nat>)

  function NewDelta(piece: Piece): seq<string> {
    match piece
    case Words(text) => [text]
    case Tool(_, _, arguments) => if arguments == "" then [] else [arguments]
  }

  function NewBlock(piece: Piece): Block {
    if piece.Words? then Block(TextBlock, "", "", NewDelta(piece))
    else Block(ToolUse, piece.id, piece.name, NewDelta(piece))
  }

  predicate Continues(bs: seq<Block>, piece: Piece) {
    bs != [] && bs[|bs| - 1].kind == piece.Kind() && !piece.Named()
  }

  /** A piece continues the last block if it has the block's kind and no name. */
  function Grow(bs: seq<Block>, piece: Piece): seq<Block> {
    if Continues(bs, piece) then
      var b := bs[|bs| - 1];
      bs[..|bs| - 1] + [b.(deltas := b.deltas + NewDelta(piece))]
    else bs + [NewBlock(piece)]
  }

  function Follow(i: Ideal, action: Action): Ideal {
    if !i.stage.Growing? then i
    else
      match action
      case Put(piece) => i.(stage := Growing(Grow(i.stage.blocks, piece)))
      case Flag(index) => i.(flags := i.flags + {index})
      case End(reason, usage) => i.(stage := Whole(i.stage.blocks, reason, usage))
  }

  function FollowAll(i: Ideal, actions: seq<Action>): Ideal
    decreases |actions|
  {
    if actions == [] then i else FollowAll(Follow(i, actions[0]), actions[1..])
  }

  function Born(i: Ideal): Ideal { if i.stage.Unborn? then i.(stage := Growing([])) else i }

  /** Outputs that report an error add nothing to the message. */
  function Described(i: Ideal, cfg: Config, outs: seq<Output>): Ideal
    decreases |outs|
  {
    if outs == [] then i
    else if outs[0].error.Some? then Described(i, cfg, outs[1..])
    else Described(FollowAll(Born(i), Actions(cfg, outs[0], i.flags)), cfg, outs[1..])
  }

  const NO_MESSAGE: Ideal := Ideal(Unborn, {})

  /** The frames that stand for a stage. */
  function Written(s: Stage): seq<Frame<Event>> {
    match s
    case Unborn => []
    case Growing(bs) =>
      if bs == [] then [Chunk(MessageStart)]
      else [Chunk(MessageStart)] + Blocks(bs[..|bs| - 1]) + OpenBlock(|bs| - 1, bs[|bs| - 1])
    case Whole(bs, reason, usage) => FullMessage(bs, reason, usage)
  }

  lemma {:induction false} BlocksSplit(bs: seq<Block>)
    requires bs != []
    ensures [Chunk(MessageStart)] + Blocks(bs) == Written(Growing(bs)) + [Chunk(BlockStop(|bs| - 1))]
  {
    hide OpenBlock;
    var before, last, stop := Blocks(bs[..|bs| - 1]), OpenBlock(|bs| - 1, bs[|bs| - 1]), [Chunk(BlockStop(|bs| - 1))];
    Join([Chunk(MessageStart)], before, last, stop);
  }

  lemma {:induction false} Join<T>(a: seq<T>, b: seq<T>, c: seq<T>, d: seq<T>)
    ensures a + (b + c + d) == a + b + c + d
    ensures a + b + (c + d) == a + b + c + d
  {
  }

  /** Every stage stands at the beginning of some message. */
  lemma {:induction false} StageOfMessage(s: Stage)
    ensures exists bs, reason, usage :: Written(s) <= FullMessage(bs, reason, usage)
  {
    match s {
      case Whole(bs, reason, usage) => assert Written(s) <= FullMessage(bs, reason, usage);
      case Growing(bs) =>
        var u := Usage(0, 0, 0);
        if bs != [] {
          BlocksSplit(bs);
        }
        assert Written(s) <= FullMessage(bs, "", u);
      case Unborn => assert Written(s) <= FullMessage([], "", Usage(0, 0, 0));
    }
  }

  // ---------------------------------------------------------------------
  // The events a piece takes, and that they print the grown message.

  function BlockEvents(bs: seq<Block>, piece: Piece): seq<Event> {
    (if bs != [] then [BlockStop(|bs| - 1)] else []) + [StartEvent(|bs|, piece)]
  }

  function DeltaEvents(i: int, piece: Piece): seq<Event> {
    match piece
    case Words(text) => [TextDelta(i, text)]
    case Tool(_, _, arguments) => if arguments == "" then [] else [InputJsonDelta(i, arguments)]
  }

  function PieceEvents(bs: seq<Block>, piece: Piece): seq<Event> {
    if Continues(bs, piece) then DeltaEvents(|bs| - 1, piece) else BlockEvents(bs, piece) + DeltaEvents(|bs|, piece)
  }

  function EndEvents(bs: seq<Block>, reason: string, usage: Usage): seq<Event> {
    (if bs != [] then [BlockStop(|bs| - 1)] else []) + [MessageDelta(reason, usage), MessageStop]
  }

  function Chunks(es: seq<Event>): seq<Frame<Event>> {
    seq(|es|, k requires 0 <= k < |es| => Chunk(es[k]))
  }

  lemma {:induction false} ChunksAppend(a: seq<Event>, b: seq<Event>)
    ensures Chunks(a + b) == Chunks(a) + Chunks(b)
  {
  }

  lemma {:induction false} DeltasGrow(i: int, kind: Kind, ds: seq<string>, piece: Piece)
    requires kind == piece.Kind()
    ensures Deltas(i, kind, ds + NewDelta(piece)) == Deltas(i, kind, ds) + Chunks(DeltaEvents(i, piece))
  {
    var more := NewDelta(piece);
    if more == [] {
      assert ds + more == ds;
    } else {
      assert (ds + more)[..|ds|] == ds && (ds + more)[|ds|] == more[0];
      assert Chunks(DeltaEvents(i, piece)) == [Chunk(DeltaEvent(i, kind, more[0]))];
    }
  }

  lemma {:induction false} FirstDelta(i: int, piece: Piece)
    ensures OpenBlock(i, NewBlock(piece)) == [Chunk(StartEvent(i, piece))] + Chunks(DeltaEvents(i, piece))
  {
    DeltasGrow(i, piece.Kind(), [], piece);
    assert [] + NewDelta(piece) == NewDelta(piece);
    assert Deltas(i, piece.Kind(), []) == [];
  }

  lemma {:induction false} GrowPrinted(bs: seq<Block>, piece: Piece)
    ensures Written(Growing(Grow(bs, piece))) == Written(Growing(bs)) + Chunks(PieceEvents(bs, piece))
  {
    if Continues(bs, piece) {
      LastGrows(bs, piece);
    } else {
      BlockOpens(bs, piece);
    }
  }

  lemma {:induction false} LastGrows(bs: seq<Block>, piece: Piece)
    requires Continues(bs, piece)
    ensures Written(Growing(Grow(bs, piece))) == Written(Growing(bs)) + Chunks(DeltaEvents(|bs| - 1, piece))
  {
    var next := Grow(bs, piece);
    var init, b := bs[..|bs| - 1], bs[|bs| - 1];
    assert next[..|next| - 1] == init && |next| == |bs|;
    assert next[|next| - 1] == b.(deltas := b.deltas + NewDelta(piece));
    DeltasGrow(|bs| - 1, b.kind, b.deltas, piece);
    hide Deltas, Blocks, DeltaEvents, NewDelta, Chunks, Grow;
    var start, before := [Chunk(MessageStart)], Blocks(init);
    var head, ds := [Chunk(BlockStart(|bs| - 1, b.kind, b.id, b.name))], Deltas(|bs| - 1, b.kind, b.deltas);
    var more := Chunks(DeltaEvents(|bs| - 1, piece));
    assert Written(Growing(next)) == start + before + (head + (ds + more));
    assert Written(Growing(bs)) == start + before + (head + ds);
    JoinLast(start + before, head, ds, more);
  }

  lemma {:induction false} JoinLast<T>(a: seq<T>, b: seq<T>, c: seq<T>, d: seq<T>)
    ensures a + (b + (c + d)) == a + (b + c) + d
  {
  }

  lemma {:induction false} BlockOpens(bs: seq<Block>, piece: Piece)
    requires !Continues(bs, piece)
    ensures Written(Growing(Grow(bs, piece))) == Written(Growing(bs)) + Chunks(PieceEvents(bs, piece))
  {
    hide Deltas, Blocks, DeltaEvents, NewDelta, Chunks, BlockEvents, OpenBlock, NewBlock;
    assert Grow(bs, piece)[..|bs|] == bs;
    FirstDelta(|bs|, piece);
    ChunksAppend(BlockEvents(bs, piece), DeltaEvents(|bs|, piece));
    BlockEventsPrinted(bs, piece);
    var start := [Chunk(StartEvent(|bs|, piece))];
    var deltas := Chunks(DeltaEvents(|bs|, piece));
    Join([Chunk(MessageStart)], Blocks(bs), start, deltas);
    Join(Written(Growing(bs)), [], Chunks(BlockEvents(bs, piece)), deltas);
    assert Written(Growing(bs)) + [] == Written(Growing(bs));
  }

  lemma {:induction false} BlockEventsPrinted(bs: seq<Block>, piece: Piece)
    ensures [Chunk(MessageStart)] + Blocks(bs) + [Chunk(StartEvent(|bs|, piece))]
         == Written(Growing(bs)) + Chunks(BlockEvents(bs, piece))
  {
    hide OpenBlock;
    var start := [Chunk(StartEvent(|bs|, piece))];
    if bs != [] {
      BlocksSplit(bs);
      hide Blocks, Written;
      var stop := [Chunk(BlockStop(|bs| - 1))];
      assert Chunks(BlockEvents(bs, piece)) == stop + start;
      Join(Written(Growing(bs)), [], stop, start);
      assert Written(Growing(bs)) + [] == Written(Growing(bs));
    } else {
      assert Chunks(BlockEvents(bs, piece)) == start;
    }
  }

  lemma {:induction false} EndPrinted(bs: seq<Block>, reason: string, usage: Usage)
    ensures FullMessage(bs, reason, usage) == Written(Growing(bs)) + Chunks(EndEvents(bs, reason, usage)) + [Done]
  {
    hide OpenBlock;
    var tail := [Chunk(MessageDelta(reason, usage)), Chunk(MessageStop)];
    if bs != [] {
      BlocksSplit(bs);
      hide Blocks, Written;
      assert Chunks(EndEvents(bs, reason, usage)) == [Chunk(BlockStop(|bs| - 1))] + tail;
    } else {
      assert Chunks(EndEvents(bs, reason, usage)) == tail;
    }
    hide Blocks, Written;
    assert tail + [Done] == [Chunk(MessageDelta(reason, usage)), Chunk(MessageStop), Done];
  }

  // ---------------------------------------------------------------------
  // Sending: one event, then several.

  /** Everything written so far arrived, and no error was reported. */
  predicate Healthy(c: Call<Event>) {
    c.Connected() && c.rejection.None? && (c.sent != [] ==> !c.sent[|c.sent| - 1].frame.Failure?)
  }

  predicate Alive(c: Call<Event>) { c.stream && Keeps(c) && Healthy(c) && !c.finished }

  /** What an operation may do to the client's view. */
  ghost predicate Advances(c: Call<Event>, next: Call<Event>, ok: bool, frames: seq<Frame<Event>>) {
    && next.stream && Keeps(next)
    && (ok ==> Healthy(next) && Delivered(next.sent) == Delivered(c.sent) + frames)
    && (!ok ==> !Healthy(next) && Cut(Delivered(next.sent), Delivered(c.sent) + frames))
  }

  /** Nothing more arrives. */
  predicate Still(c: Call<Event>, next: Call<Event>) {
    && next.stream && Keeps(next)
    && Delivered(next.sent) == Delivered(c.sent)
    && (Healthy(next) <==> Healthy(c)) && (c.finished ==> next == c)
  }

  lemma {:induction false} ApplyAlive(c: Call<Event>, op: Op<Event>)
    requires Alive(c)
    ensures match op
      case Write(Serialized(e), _) =>
        var next := c.Apply(op);
        Advances(c, next, next.Connected(), [Chunk(e)]) && !next.finished
      case Finish(_) =>
        Advances(c, c.Apply(op), c.Apply(op).Connected(), [Done]) && c.Apply(op).finished
      case _ => Advances(c, c.Apply(op), false, []) && c.Apply(op).finished
  {
    StepKeeps(c, op);
    var next := c.Apply(op);
    if next.sent != c.sent {
      DeliveredNext(c.sent, next.sent[|c.sent|]);
    }
    hide Delivered;
    assert Delivered(c.sent) + [] == Delivered(c.sent);
  }

  lemma {:induction false} ApplyDead(c: Call<Event>, op: Op<Event>)
    requires c.stream && Keeps(c) && !Alive(c)
    ensures Still(c, c.Apply(op))
  {
    StepKeeps(c, op);
    var next := c.Apply(op);
    if next.sent != c.sent {
      DeliveredNext(c.sent, next.sent[|c.sent|]);
    }
  }

  lemma {:induction false} SendAlive(h: Handler, env: Env, e: Event)
    requires Alive(h.call)
    ensures var o := Send(h, env, e);
      o.handler == h.(call := o.handler.call) && Advances(h.call, o.handler.call, o.ok, [Chunk(e)])
      && (o.ok ==> Alive(o.handler.call))
  {
    var k := |h.call.sent|;
    ApplyAlive(h.call, Write(env.Message(k, e), env.net(k)));
    hide Keeps, Delivered;
    var D := Delivered(h.call.sent);
    assert D + [] == D && D <= D + [Chunk(e)];
  }

  lemma {:induction false} SendDead(h: Handler, env: Env, e: Event)
    requires h.call.stream && Keeps(h.call) && !Alive(h.call)
    ensures var o := Send(h, env, e);
      o.handler == h.(call := o.handler.call) && !o.ok && Still(h.call, o.handler.call)
  {
    var k := |h.call.sent|;
    ApplyDead(h.call, Write(env.Message(k, e), env.net(k)));
  }

  function SendAll(h: Handler, env: Env, es: seq<Event>): Outcome
    decreases |es|
  {
    if es == [] then Outcome(h, true)
    else
      var first := Send(h, env, es[0]);
      if !first.ok then first else SendAll(first.handler, env, es[1..])
  }

  lemma {:induction false} SendAllAlive(h: Handler, env: Env, es: seq<Event>)
    requires Alive(h.call)
    ensures var o := SendAll(h, env, es);
      o.handler == h.(call := o.handler.call) && Advances(h.call, o.handler.call, o.ok, Chunks(es))
      && (o.ok ==> Alive(o.handler.call))
    decreases |es|
  {
    hide Send, Keeps, Delivered;
    var D := Delivered(h.call.sent);
    if es == [] {
      assert D + Chunks(es) == D;
    } else {
      var first := Send(h, env, es[0]);
      SendAlive(h, env, es[0]);
      assert D + Chunks(es) == D + [Chunk(es[0])] + Chunks(es[1..]);
      if first.ok {
        SendAllAlive(first.handler, env, es[1..]);
      }
    }
  }

  // ---------------------------------------------------------------------
  // The handler and the message in step.

  predicate Ready(h: Handler, bs: seq<Block>) {
    && h.messageStarted && h.index == |bs| - 1
    && h.last == if bs == [] then None else Some(bs[|bs| - 1].kind)
  }

  /** A piece is sent as its events; while that works, the block counters follow. */
  lemma {:induction false} PieceSent(h: Handler, env: Env, bs: seq<Block>, piece: Piece)
    requires Ready(h, bs)
    ensures var o, all := SendPiece(h, env, piece), SendAll(h, env, PieceEvents(bs, piece));
      o.ok == all.ok && o.handler.call == all.handler.call && o.handler.flags == h.flags
      && (o.ok ==> Ready(o.handler, Grow(bs, piece)))
  {
    hide Chunks;
    var es := PieceEvents(bs, piece);
    var i := if Continues(bs, piece) then |bs| - 1 else |bs|;
    if Continues(bs, piece) {
      LastEvents(h, env, i, piece);
    } else {
      BlockSent(h, env, bs, piece);
      SendAllAppend(h, env, BlockEvents(bs, piece), DeltaEvents(i, piece));
      var ready := StartBlock(h, env, piece);
      if ready.ok {
        LastEvents(ready.handler, env, i, piece);
        SameCall(ready.handler, SendAll(h, env, BlockEvents(bs, piece)).handler, env, DeltaEvents(i, piece));
      }
    }
  }

  lemma {:induction false} LastEvents(h: Handler, env: Env, i: int, piece: Piece)
    requires h.index == i
    ensures SendAll(h, env, DeltaEvents(i, piece))
         == match piece
            case Words(text) => Send(h, env, TextDelta(h.index, text))
            case Tool(_, _, arguments) =>
              if arguments == "" then Outcome(h, true) else Send(h, env, InputJsonDelta(h.index, arguments))
  {
    hide Send;
    assert SendAll(h, env, []) == Outcome(h, true);
    match piece {
      case Words(text) => OneEvent(h, env, TextDelta(i, text));
      case Tool(_, _, arguments) => OneEvent(h, env, InputJsonDelta(i, arguments));
    }
  }

  lemma {:induction false} BlockSent(h: Handler, env: Env, bs: seq<Block>, piece: Piece)
    requires Ready(h, bs)
    ensures var o, all := StartBlock(h, env, piece), SendAll(h, env, BlockEvents(bs, piece));
      o.ok == all.ok && o.handler.call == all.handler.call && o.handler.flags == h.flags
      && (o.ok ==> o.handler == h.(call := o.handler.call, index := |bs|, last := Some(piece.Kind())))
  {
    var stop, start := if bs != [] then [BlockStop(|bs| - 1)] else [], StartEvent(|bs|, piece);
    var stopped := if bs != [] then Send(h, env, BlockStop(h.index)) else Outcome(h, true);
    assert stopped.handler == h.(call := stopped.handler.call);
    hide Send;
    OneEvent(h, env, BlockStop(h.index));
    assert SendAll(h, env, []) == Outcome(h, true);
    assert BlockEvents(bs, piece) == stop + [start];
    SendAllAppend(h, env, stop, [start]);
    OneEvent(stopped.handler, env, start);
    if stopped.ok {
      var next := stopped.handler.(last := Some(piece.Kind()), index := h.index + 1);
      SendOnCall(next, stopped.handler, env, start);
    }
  }

  lemma {:induction false} SendOnCall(a: Handler, b: Handler, env: Env, e: Event)
    requires a.call == b.call
    ensures Send(a, env, e) == Outcome(a.(call := Send(b, env, e).handler.call), Send(b, env, e).ok)
  {
  }

  /** Sending depends on the call alone. */
  lemma {:induction false} SameCall(a: Handler, b: Handler, env: Env, es: seq<Event>)
    requires a.call == b.call
    ensures var x, y := SendAll(a, env, es), SendAll(b, env, es);
      x.ok == y.ok && x.handler.call == y.handler.call
    decreases |es|
  {
    if es != [] {
      var first, second := Send(a, env, es[0]), Send(b, env, es[0]);
      assert first.ok == second.ok && first.handler.call == second.handler.call;
      hide Send;
      SameCall(first.handler, second.handler, env, es[1..]);
    }
  }

  lemma {:induction false} SendAllAppend(h: Handler, env: Env, a: seq<Event>, b: seq<Event>)
    ensures var first := SendAll(h, env, a);
      SendAll(h, env, a + b) == if first.ok then SendAll(first.handler, env, b) else first
    decreases |a|
  {
    hide Send;
    if a == [] {
      assert a + b == b;
    } else {
      assert (a + b)[0] == a[0] && (a + b)[1..] == a[1..] + b;
      var first := Send(h, env, a[0]);
      if first.ok {
        SendAllAppend(first.handler, env, a[1..], b);
      }
    }
  }

  /** The handler h has reached the stage of i; or the client's view was cut short. */
  ghost predicate InStep(h: Handler, i: Ideal) {
    && h.call.stream && Keeps(h.call)
    && (Healthy(h.call) ==>
          && Delivered(h.call.sent) == Written(i.stage)
          && (h.call.finished <==> i.stage.Whole?)
          && (!h.call.finished ==> h.flags == i.flags)
          && (i.stage.Growing? ==> Ready(h, i.stage.blocks))
          && (i.stage.Unborn? ==> h == NEW_HANDLER.(call := h.call, flags := h.flags)))
    && (!Healthy(h.call) ==> Cut(Delivered(h.call.sent), Written(i.stage)))
  }

  lemma {:induction false} PieceInStep(h: Handler, env: Env, i: Ideal, piece: Piece)
    requires InStep(h, i) && Alive(h.call) && i.stage.Growing?
    ensures var o := SendPiece(h, env, piece);
      InStep(o.handler, Follow(i, Put(piece)))
      && (o.ok <==> Healthy(o.handler.call)) && (o.ok ==> Alive(o.handler.call))
  {
    hide SendPiece, PieceEvents, Keeps, Delivered, Written, Ready, Grow, Chunks;
    var bs := i.stage.blocks;
    PieceSent(h, env, bs, piece);
    SendAllAlive(h, env, PieceEvents(bs, piece));
    GrowPrinted(bs, piece);
  }

  lemma {:induction false} EndInStep(h: Handler, env: Env, i: Ideal, reason: string, usage: Usage)
    requires InStep(h, i) && Alive(h.call) && i.stage.Growing?
    ensures var o := EndMessage(h, env, reason, usage);
      InStep(o.handler, Follow(i, End(reason, usage)))
      && (o.ok <==> Healthy(o.handler.call)) && (o.ok ==> o.handler.call.finished)
  {
    var bs := i.stage.blocks;
    EndSent(h, env, bs, reason, usage);
    EndPrinted(bs, reason, usage);
    var all := SendAll(h, env, EndEvents(bs, reason, usage));
    SendAllAlive(h, env, EndEvents(bs, reason, usage));
    if all.ok {
      ApplyAlive(all.handler.call, Finish(env.net(|all.handler.call.sent|)));
    }
    hide EndMessage, SendAll, EndEvents, Keeps, Delivered, Written, Ready, Chunks, FullMessage, Healthy;
  }

  lemma {:induction false} EndSent(h: Handler, env: Env, bs: seq<Block>, reason: string, usage: Usage)
    requires Ready(h, bs)
    ensures var o, all := EndMessage(h, env, reason, usage), SendAll(h, env, EndEvents(bs, reason, usage));
      if all.ok then
        var c := all.handler.call.FinishStream(env.net(|all.handler.call.sent|));
        o.ok == c.Connected() && o.handler.call == c
      else !o.ok && o.handler.call == all.handler.call
  {
    hide Send;
    var told, ended := MessageDelta(reason, usage), MessageStop;
    var stopped := if bs != [] then Send(h, env, BlockStop(h.index)) else Outcome(h, true);
    OneEvent(h, env, BlockStop(h.index));
    SendAllAppend(h, env, if bs != [] then [BlockStop(|bs| - 1)] else [], [told, ended]);
    assert SendAll(h, env, []) == Outcome(h, true);
    assert [told] + [ended] == [told, ended];
    SendAllAppend(stopped.handler, env, [told], [ended]);
    OneEvent(stopped.handler, env, told);
    OneEvent(Send(stopped.handler, env, told).handler, env, ended);
  }

  lemma {:induction false} OneEvent(h: Handler, env: Env, e: Event)
    ensures SendAll(h, env, [e]) == Send(h, env, e)
  {
    hide Send;
    assert [e][1..] == [];
  }

  // ---------------------------------------------------------------------
  // Whole outputs.

  /** The message only grows. */
  lemma {:induction false} FollowGrows(i: Ideal, action: Action)
    ensures Written(i.stage) <= Written(Follow(i, action).stage)
  {
    if i.stage.Growing? {
      match action {
        case Put(piece) => GrowPrinted(i.stage.blocks, piece);
        case End(reason, usage) => EndPrinted(i.stage.blocks, reason, usage);
        case Flag(_) =>
      }
    }
  }

  lemma {:induction false} FollowAllGrows(i: Ideal, actions: seq<Action>)
    ensures Written(i.stage) <= Written(FollowAll(i, actions).stage)
    ensures !i.stage.Growing? ==> FollowAll(i, actions) == i
    decreases |actions|
  {
    hide Written;
    if actions != [] {
      FollowGrows(i, actions[0]);
      FollowAllGrows(Follow(i, actions[0]), actions[1..]);
    }
  }

  /** Once the client's view is cut short or complete, it stays. */
  lemma {:induction false} DoDead(h: Handler, env: Env, action: Action)
    requires h.call.stream && Keeps(h.call) && !Alive(h.call)
    ensures Still(h.call, Do(h, env, action).handler.call)
  {
    hide Keeps, Delivered, Healthy;
    match action {
      case Flag(_) =>
      case Put(piece) => PieceDead(h, env, piece);
      case End(reason, usage) => EndDead(h, env, reason, usage);
    }
  }

  lemma {:induction false} PieceDead(h: Handler, env: Env, piece: Piece)
    requires h.call.stream && Keeps(h.call) && !Alive(h.call)
    ensures Still(h.call, SendPiece(h, env, piece).handler.call)
  {
    hide Send, Keeps, Delivered, Healthy;
    SendDead(h, env, BlockStop(h.index));
    var next := h.(last := Some(piece.Kind()), index := h.index + 1);
    SendDead(next, env, StartEvent(h.index + 1, piece));
    match piece {
      case Words(text) => SendDead(h, env, TextDelta(h.index, text));
      case Tool(_, _, arguments) => SendDead(h, env, InputJsonDelta(h.index, arguments));
    }
  }

  lemma {:induction false} EndDead(h: Handler, env: Env, reason: string, usage: Usage)
    requires h.call.stream && Keeps(h.call) && !Alive(h.call)
    ensures Still(h.call, EndMessage(h, env, reason, usage).handler.call)
  {
    hide Send, Keeps, Delivered, Healthy;
    SendDead(h, env, BlockStop(h.index));
    SendDead(h, env, MessageDelta(reason, usage));
  }

  lemma {:induction false} DoAllDead(h: Handler, env: Env, actions: seq<Action>)
    requires h.call.stream && Keeps(h.call) && !Alive(h.call)
    ensures Still(h.call, DoAll(h, env, actions).handler.call)
    decreases |actions|
  {
    hide Do, Delivered;
    if actions != [] {
      var first := Do(h, env, actions[0]);
      DoDead(h, env, actions[0]);
      if first.ok {
        DoAllDead(first.handler, env, actions[1..]);
      }
    }
  }

  lemma {:induction false} StillInStep(h: Handler, i: Ideal, next: Handler, later: Ideal)
    requires InStep(h, i) && !Alive(h.call) && Still(h.call, next.call)
    requires Written(i.stage) <= Written(later.stage) && (i.stage.Whole? ==> later.stage == i.stage)
    ensures InStep(next, later)
  {
    hide Keeps, Delivered, Written, Ready;
  }

  lemma {:induction false} ActionInStep(h: Handler, env: Env, i: Ideal, action: Action)
    requires InStep(h, i) && Alive(h.call) && i.stage.Growing?
    ensures var o := Do(h, env, action);
      InStep(o.handler, Follow(i, action)) && (o.ok <==> Healthy(o.handler.call))
  {
    hide SendPiece, EndMessage, Keeps, Delivered, Written;
    match action {
      case Put(piece) => PieceInStep(h, env, i, piece);
      case End(reason, usage) => EndInStep(h, env, i, reason, usage);
      case Flag(_) =>
    }
  }

  lemma {:induction false} ActionsInStep(h: Handler, env: Env, i: Ideal, actions: seq<Action>)
    requires InStep(h, i) && (Alive(h.call) ==> i.stage.Growing?)
    ensures InStep(DoAll(h, env, actions).handler, FollowAll(i, actions))
    decreases |actions|
  {
    hide Do, Keeps, Delivered, Written, Ready, Follow;
    if !Alive(h.call) {
      DoAllDead(h, env, actions);
      FollowAllGrows(i, actions);
      StillInStep(h, i, DoAll(h, env, actions).handler, FollowAll(i, actions));
    } else if actions != [] {
      var first, next := Do(h, env, actions[0]), Follow(i, actions[0]);
      ActionInStep(h, env, i, actions[0]);
      assert first.ok && Alive(first.handler.call) ==> next.stage.Growing?
      by { AliveGrows(first.handler, i, actions[0]); }
      if first.ok {
        ActionsInStep(first.handler, env, next, actions[1..]);
      } else {
        FollowAllGrows(next, actions[1..]);
        StillInStep(first.handler, next, first.handler, FollowAll(next, actions[1..]));
      }
    }
  }

  lemma {:induction false} AliveGrows(h: Handler, i: Ideal, action: Action)
    requires i.stage.Growing? && InStep(h, Follow(i, action))
    ensures Alive(h.call) ==> Follow(i, action).stage.Growing?
  {
    hide Keeps, Delivered, Written, Ready;
  }

  lemma {:induction false} HandleInStep(h: Handler, env: Env, cfg: Config, i: Ideal, out: Output)
    requires InStep(h, i)
    ensures InStep(Handle(h, env, cfg, out).handler, Described(i, cfg, [out]))
  {
    hide Actions, DoAll, Keeps, Delivered, Ready;
    var k := |h.call.sent|;
    assert [out][1..] == [];
    match out.error {
      case Some(reason) =>
        var next := h.(call := h.call.FinishWithError(reason, env.net(k)));
        assert Described(i, cfg, [out]) == i;
        if Alive(h.call) {
          ApplyAlive(h.call, Fail(reason, env.net(k)));
          assert Delivered(h.call.sent) + [] == Delivered(h.call.sent);
        } else {
          ApplyDead(h.call, Fail(reason, env.net(k)));
          StillInStep(h, i, next, i);
        }
      case None =>
        var begun := Begin(h, env);
        BeginInStep(h, env, i);
        var acts := Actions(cfg, out, begun.handler.flags);
        var ideal := Actions(cfg, out, i.flags);
        assert Described(i, cfg, [out]) == FollowAll(Born(i), ideal);
        if begun.ok && Alive(begun.handler.call) {
          ActionsInStep(begun.handler, env, Born(i), acts);
        } else {
          FollowAllGrows(Born(i), ideal);
          if begun.ok {
            DoAllDead(begun.handler, env, acts);
          }
          StillInStep(begun.handler, Born(i), Handle(h, env, cfg, out).handler, FollowAll(Born(i), ideal));
        }
    }
  }

  lemma {:induction false} BeginInStep(h: Handler, env: Env, i: Ideal)
    requires InStep(h, i)
    ensures var o := Begin(h, env);
      InStep(o.handler, Born(i)) && (Alive(o.handler.call) ==> o.handler.flags == i.flags && Born(i).stage.Growing?)
      && (!o.ok ==> !Alive(o.handler.call))
  {
    hide Keeps, Delivered, Send;
    var started := h.(messageStarted := true);
    assert Written(Growing([])) == [Chunk(MessageStart)];
    if !Alive(h.call) {
      SendDead(started, env, MessageStart);
      StillInStep(h, i, Begin(h, env).handler, Born(i));
    } else if !h.messageStarted {
      SendAlive(started, env, MessageStart);
      assert [] + [Chunk(MessageStart)] == [Chunk(MessageStart)];
    }
  }

  lemma {:induction false} RunInStep(h: Handler, env: Env, cfg: Config, i: Ideal, outs: seq<Output>)
    requires InStep(h, i)
    ensures InStep(Anthropic.Run(h, env, cfg, outs), Described(i, cfg, outs))
    decreases |outs|
  {
    hide Handle, InStep, Actions, FollowAll, Born;
    if outs != [] {
      HandleInStep(h, env, cfg, i, outs[0]);
      assert [outs[0]][1..] == [];
      RunInStep(Handle(h, env, cfg, outs[0]).handler, env, cfg, Described(i, cfg, [outs[0]]), outs[1..]);
    }
  }
}
