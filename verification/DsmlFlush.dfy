/** The finish-time flush, for any bytes: exactly when every tool index has been named
once and its deltas, with those of the one flush, are its cached arguments. */
module DsmlFlush {
  import opened Text
  import opened ToolCalls
  import opened Utf8
  import opened DsmlSyntax
  import opened DsmlParams
  import opened DsmlDetector
  import opened DsmlStreaming
  import opened DsmlTheorems
  import opened DsmlThrowing
  import opened DsmlRendering
  import DsmlJson

  /** Index `i` was named once; it streamed its cached arguments if it is closed and nothing
  if it is open; and with the flush it has them all. */
  predicate Whole(r: Outcome, i: nat) {
    var st := r.state;
    && i < |st.prev| && i < |st.streamed| && st.prev[i].Some?
    && NamesFor(r.calls, i) == [st.prev[i].value.name]
    && ArgsFor(r.calls, i) == st.streamed[i] == (if i < st.toolId then st.prev[i].value.args else "")
    && ArgsFor(r.calls, i) + FlushedFor(st, i) == st.prev[i].value.args
  }

  predicate AllWhole(r: Outcome) { forall i | 0 <= i < |r.state.prev| :: Whole(r, i) }

  /** What the loop had found is lost when parsing throws. */
  predicate StepLoses(env: Env, st: State, chunk: string)
    requires st.Valid()
  {
    StepThrows(env, st, chunk)
    && InvokeLoop(env, Received(st, chunk), Received(st, chunk).buffer, []).calls != []
  }

  predicate NoneLoses(env: Env, st: State, chunks: seq<string>)
    requires st.Valid()
    decreases |chunks|
  {
    chunks == [] || (!StepLoses(env, st, chunks[0]) && NoneLoses(env, Step(env, st, chunks[0]).0, chunks[1..]))
  }

  /** The number of steps that emit the calls of a JSON block. */
  function JsonSteps(env: Env, st: State, chunks: seq<string>): nat
    requires st.Valid()
    decreases |chunks|
  {
    if chunks == [] then 0
    else (if EmitsJson(env, st, chunks[0]) then 1 else 0) + JsonSteps(env, Step(env, st, chunks[0]).0, chunks[1..])
  }

  // ---------------------------------------------------------------------
  // The fields, whatever is lost.

  /** An announced name is that of the invoke that is open in the buffer; a slot that
  exists has been announced. */
  predicate Shaped(st: State) {
    && Consistent(st)
    && (st.nameSent ==> st.toolId >= 0 && FirstInvoke(st.buffer).Some?)
    && (|st.prev| == st.toolId + 1 > 0 ==> st.nameSent)
  }

  /** The announced name is cached. */
  predicate NameCached(st: State) {
    st.nameSent ==>
      && 0 <= st.toolId < |st.prev| && st.prev[st.toolId].Some? && FirstInvoke(st.buffer).Some?
      && st.prev[st.toolId].value.name == FirstInvoke(st.buffer).value.name
  }

  /** Index `i` has what its slot says; indices without a slot have nothing. */
  predicate Served(st: State, sent: seq<Item>, i: nat)
    requires st.Valid()
  {
    if i < |st.prev| then
      st.prev[i].Some? && NamesFor(sent, i) == [st.prev[i].value.name] && ArgsFor(sent, i) == st.streamed[i]
    else NamesFor(sent, i) == [] && ArgsFor(sent, i) == ""
  }

  ghost predicate AllServed(st: State, sent: seq<Item>)
    requires st.Valid()
  {
    forall i: nat :: Served(st, sent, i)
  }

  lemma {:induction false} AddItem(all: seq<Item>, item: Item, i: int)
    ensures NamesFor(all + [item], i)
         == NamesFor(all, i) + if item.index == i && item.name.Some? then [item.name.value] else []
    ensures ArgsFor(all + [item], i) == ArgsFor(all, i) + if item.index == i then item.args else ""
  {
    NamesAppend(all, [item], i);
    ArgsAppend(all, [item], i);
    assert [item][1..] == [] && NamesFor([], i) == [] && ArgsFor([], i) == "";
  }

  /** The next slot, empty. */
  lemma {:induction false} SlotPrepared(st: State)
    requires Shaped(st)
    ensures var p := Prepared(st);
      if st.nameSent then p == st
      else
        && p.toolId == |st.prev| && p.prev == st.prev + [None] && p.streamed == st.streamed + [""]
        && !p.nameSent && p.buffer == st.buffer && p.held == st.held
  {
    if !st.nameSent {
      var st1 := if st.toolId == -1 then st.(toolId := 0, prev := [], streamed := [], nameSent := false) else st;
      assert |st1.prev| == st1.toolId && st1.prev == st.prev;
      assert st.toolId == -1 ==> st.streamed == [];
      var grown := st1.(prev := st1.prev + [None], streamed := st1.streamed + [""]);
      assert Grown(st1) == Grown(grown) == grown;
    }
  }

  /** One round of the loop: the slot of the invoke is named and cached. */
  lemma {:induction false} RoundServed(st: State, all: seq<Item>, name: string, args: string)
    requires Shaped(st) && AllServed(st, all)
    requires st.nameSent ==> st.prev[st.toolId].Some? && st.prev[st.toolId].value.name == name
    ensures var (named, ann) := Announced(Prepared(st), name);
      var k := named.toolId;
      && 0 <= k && |named.prev| == k + 1 && named.nameSent && named.streamed[k] == ""
      && (forall i | 0 <= i < |st.prev| && i < k :: named.prev[i] == st.prev[i])
      && (forall i | 0 <= i < |st.prev| && i < k :: named.streamed[i] == st.streamed[i])
      && k >= |st.prev| - 1
      && AllServed(Cached(named, name, args), all + ann)
  {
    hide NamesFor, ArgsFor, FirstInvoke, Prepared;
    SlotPrepared(st);
    var (named, ann) := Announced(Prepared(st), name);
    var k, cached := named.toolId, Cached(named, name, args);
    assert all + [] == all;
    forall i: nat ensures Served(cached, all + ann, i) {
      assert Served(st, all, i);
      if !st.nameSent {
        AddItem(all, Item(k, Some(name), ""), i);
      }
    }
  }

  lemma {:induction false} CloseServed(named: State, all: seq<Item>, name: string, args: string, rest: string)
    requires named.Valid() && 0 <= named.toolId && |named.prev| == named.toolId + 1
    requires named.streamed[named.toolId] == "" && AllServed(Cached(named, name, args), all)
    ensures AllServed(Closing(named, name, args, rest), all + [Item(named.toolId, None, args)])
  {
    hide NamesFor, ArgsFor;
    var k, item := named.toolId, Item(named.toolId, None, args);
    forall i: nat ensures Served(Closing(named, name, args, rest), all + [item], i) {
      assert Served(Cached(named, name, args), all, i);
      AddItem(all, item, i);
      assert "" + args == args;
    }
  }

  /** What a round keeps of the fields. */
  lemma {:induction false} RoundShaped(st: State, text: string, v: Invoke, args: string)
    requires Shaped(st) && st.buffer == text && FirstInvoke(text) == Some(v)
    ensures var (named, ann) := Announced(Prepared(st), v.name);
      && Shaped(named) && |named.prev| == named.toolId + 1 && Shaped(Cached(named, v.name, args))
      && Shaped(Closing(named, v.name, args, text[v.end..]))
      && named.toolId >= |st.prev| - 1 && (!st.nameSent ==> named.toolId >= |st.prev|)
  {
    hide FirstInvoke, Prepared;
    SlotPrepared(st);
  }

  /** The loop keeps the fields in shape; after a loss the open slot is a new one. */
  lemma {:induction false} LoopShaped(env: Env, st: State, text: string, calls: seq<Item>)
    requires Shaped(st) && st.buffer == text
    ensures var r := InvokeLoop(env, st, text, calls);
      && Shaped(r.state) && |calls| <= |r.calls| && |st.prev| <= |r.state.prev|
      && (r.threw && (r.calls != calls || !st.nameSent) ==>
            |st.prev| <= r.state.toolId && r.state.nameSent && |r.state.prev| == r.state.toolId + 1)
    decreases |text|
  {
    assert st.Valid();
    hide FirstInvoke, Arguments, Shaped, Prepared;
    if FirstInvoke(text).Some? {
      var v := FirstInvoke(text).value;
      var (named, ann) := Announced(Prepared(st), v.name);
      ThrowsAtOnce(st, v.name, calls);
      if Arguments(env.lib, v.body, !v.closed).None? {
        RoundShaped(st, text, v, "");
      } else {
        var args, rest := Arguments(env.lib, v.body, !v.closed).value, text[v.end..];
        RoundShaped(st, text, v, args);
        if v.closed {
          LoopShaped(env, Closing(named, v.name, args, rest), rest, calls + ann + [Item(named.toolId, None, args)]);
        }
      }
    }
  }

  /** What was sent is in step with the fields before and after a round. */
  ghost predicate InStep(st: State, sent: seq<Item>) { Shaped(st) && NameCached(st) && AllServed(st, sent) }

  lemma {:induction false} RoundInStep(st: State, sent: seq<Item>, text: string, v: Invoke, args: string)
    requires InStep(st, sent) && st.buffer == text && FirstInvoke(text) == Some(v)
    ensures st.Valid() && Announced(Prepared(st), v.name).0.Valid()
    ensures var (named, ann) := Announced(Prepared(st), v.name);
      && 0 <= named.toolId < |named.prev|
      && InStep(Cached(named, v.name, args), sent + ann)
      && InStep(Closing(named, v.name, args, text[v.end..]), sent + ann + [Item(named.toolId, None, args)])
  {
    RoundShaped(st, text, v, args);
    RoundServed(st, sent, v.name, args);
    hide FirstInvoke, AllServed, Shaped, Prepared;
    var (named, ann) := Announced(Prepared(st), v.name);
    CloseServed(named, sent + ann, v.name, args, text[v.end..]);
  }

  /** The loop keeps them in step, unless something is lost. */
  lemma {:induction false} LoopServed(env: Env, st: State, text: string, calls: seq<Item>, sent: seq<Item>)
    requires InStep(st, sent + calls) && st.buffer == text
    ensures var r := InvokeLoop(env, st, text, calls);
      !r.threw || r.calls == calls ==> InStep(r.state, sent + r.calls)
    decreases |text|
  {
    assert Shaped(st) && st.Valid();
    hide FirstInvoke, Arguments, InStep, Shaped, Prepared, Announced;
    if FirstInvoke(text).Some? {
      var v := FirstInvoke(text).value;
      if Arguments(env.lib, v.body, !v.closed).None? {
        ThrowsAtOnce(st, v.name, calls);
      } else if v.closed {
        ClosedServed(env, st, text, calls, sent, v, Arguments(env.lib, v.body, false).value);
      } else {
        OpenServed(env, st, text, calls, sent, v, Arguments(env.lib, v.body, true).value);
      }
    }
  }

  lemma {:induction false} OpenServed(env: Env, st: State, text: string, calls: seq<Item>, sent: seq<Item>, v: Invoke,
                                      args: string)
    requires InStep(st, sent + calls) && st.buffer == text && FirstInvoke(text) == Some(v) && !v.closed
    requires Arguments(env.lib, v.body, true) == Some(args)
    ensures InStep(InvokeLoop(env, st, text, calls).state, sent + InvokeLoop(env, st, text, calls).calls)
  {
    assert Shaped(st) && st.Valid();
    hide FirstInvoke, Arguments, InStep, Shaped, Prepared, Announced, Cached;
    RoundInStep(st, sent + calls, text, v, args);
    var ann := Announced(Prepared(st), v.name).1;
    assert sent + calls + ann == sent + (calls + ann);
  }

  lemma {:induction false} ClosedServed(env: Env, st: State, text: string, calls: seq<Item>, sent: seq<Item>, v: Invoke,
                                        args: string)
    requires InStep(st, sent + calls) && st.buffer == text && FirstInvoke(text) == Some(v) && v.closed
    requires Arguments(env.lib, v.body, false) == Some(args)
    ensures var r := InvokeLoop(env, st, text, calls);
      !r.threw || r.calls == calls ==> InStep(r.state, sent + r.calls)
    decreases |text|, 0
  {
    assert Shaped(st) && st.Valid();
    hide FirstInvoke, Arguments, InvokeLoop, AllServed, NameCached, Prepared, Shaped, Announced;
    RoundInStep(st, sent + calls, text, v, args);
    var (named, ann) := Announced(Prepared(st), v.name);
    var item, rest := Item(named.toolId, None, args), text[v.end..];
    var next := Closing(named, v.name, args, rest);
    NextRound(env, st, text, calls, v, args);
    Joined(sent, calls, ann, item);
    LoopServed(env, next, rest, calls + ann + [item], sent);
    LoopGrows(env, next, rest, calls + ann + [item]);
  }

  lemma {:induction false} Joined(a: seq<Item>, b: seq<Item>, c: seq<Item>, x: Item)
    ensures a + b + c + [x] == a + (b + c + [x]) && |b + c + [x]| > |b|
  {
  }

  lemma {:induction false} NextRound(env: Env, st: State, text: string, calls: seq<Item>, v: Invoke, args: string)
    requires st.Valid() && FirstInvoke(text) == Some(v) && v.closed && Arguments(env.lib, v.body, false) == Some(args)
    ensures var (named, ann) := Announced(Prepared(st), v.name);
      var next := Closing(named, v.name, args, text[v.end..]);
      && next.buffer == text[v.end..]
      && InvokeLoop(env, st, text, calls)
         == InvokeLoop(env, next, text[v.end..], calls + ann + [Item(named.toolId, None, args)])
  {
    hide FirstInvoke, Arguments, Prepared;
  }

  lemma {:induction false} LoopGrows(env: Env, st: State, text: string, calls: seq<Item>)
    requires Shaped(st) && st.buffer == text
    ensures |InvokeLoop(env, st, text, calls).calls| >= |calls|
  {
    LoopShaped(env, st, text, calls);
  }

  lemma {:induction false} ThrowsAtOnce(st: State, name: string, calls: seq<Item>)
    requires Shaped(st)
    ensures |Announced(Prepared(st), name).1| <= 1
    ensures var (named, ann) := Announced(Prepared(st), name);
      if st.nameSent then named == st && calls + ann == calls else calls + ann != calls
  {
    hide FirstInvoke, Prepared;
    SlotPrepared(st);
  }

  // ---------------------------------------------------------------------
  // Steps and runs.

  lemma {:induction false} ReceivedShaped(st: State, chunk: string)
    requires Shaped(st)
    ensures var st1 := Received(st, chunk);
      && Shaped(st1) && st1 == st.(buffer := st1.buffer, held := st1.held)
      && (NameCached(st) ==> NameCached(st1))
      && (st1.nameSent ==> FirstInvoke(st1.buffer).Some?)
  {
    hide FirstInvoke, ReleasedLength;
    var st1 := Received(st, chunk);
    if st.nameSent {
      assert st.buffer <= st1.buffer && st1.buffer == st.buffer + st1.buffer[|st.buffer|..];
      FirstInvokeGrows(st.buffer, st1.buffer[|st.buffer|..]);
    }
  }

  /** A step of any kind: only the loop changes more than the buffer. */
  lemma {:induction false} StepShaped(env: Env, st: State, chunk: string)
    requires Shaped(st) && chunk != ""
    ensures var (st', r) := Step(env, st, chunk);
      && Shaped(st') && |st.prev| <= |st'.prev|
      && (StepLoses(env, st, chunk) ==>
            r.calls == [] && |st.prev| <= st'.toolId && st'.nameSent && |st'.prev| == st'.toolId + 1)
  {
    hide FirstInvoke, Suspicious, QuotedKey, PotentiallyDsml, InvokeLoop, Received, JsonCalls, AroundBlock, Numbered;
    var st1 := Received(st, chunk);
    ReceivedShaped(st, chunk);
    if st1.nameSent {
      OpenIsDsml(env.fmt, st1.buffer);
    }
    LoopShaped(env, st1, st1.buffer, []);
  }

  /** A step that loses nothing and emits no JSON calls. */
  lemma {:induction false} StepServed(env: Env, st: State, chunk: string, sent: seq<Item>)
    requires InStep(st, sent) && chunk != "" && !StepLoses(env, st, chunk) && !EmitsJson(env, st, chunk)
    ensures InStep(Step(env, st, chunk).0, sent + Step(env, st, chunk).1.calls)
  {
    hide FirstInvoke, Suspicious, QuotedKey, PotentiallyDsml, InvokeLoop, Received, JsonStep, Served;
    var st1 := Received(st, chunk);
    ReceivedShaped(st, chunk);
    SameServed(st, st1, sent);
    assert sent + [] == sent;
    if st1.nameSent {
      OpenIsDsml(env.fmt, st1.buffer);
    }
    if StepThrows(env, st, chunk) || !(QuotedKey(st1.buffer) && !PotentiallyDsml(st1.buffer)) {
      LoopServed(env, st1, st1.buffer, [], sent);
      SameServed(st1, st1.(buffer := ""), sent);
    } else if Suspicious(env.fmt, st1.buffer) {
      JsonKeeps(env, st1);
      SameServed(st1, JsonStep(env, st1).0, sent);
    } else {
      SameServed(st1, st1.(buffer := ""), sent);
    }
  }

  lemma {:induction false} SameServed(st: State, st': State, sent: seq<Item>)
    requires st.Valid() && AllServed(st, sent) && st' == st.(buffer := st'.buffer, held := st'.held)
    ensures AllServed(st', sent)
  {
    hide NamesFor, ArgsFor;
    forall i: nat ensures Served(st', sent, i) {
      assert Served(st, sent, i);
    }
  }

  lemma {:induction false} JsonKeeps(env: Env, st: State)
    ensures JsonStep(env, st).0 == st.(buffer := JsonStep(env, st).0.buffer)
  {
  }

  lemma {:induction false} OtherIndices(items: seq<Item>, base: nat)
    requires base > 0 && forall k | 0 <= k < |items| :: items[k].index == base + k
    ensures NamesFor(items, 0) == []
    decreases |items|
  {
    if items != [] {
      OtherIndices(items[1..], base + 1);
    }
  }

  /** A JSON block names index 0 once. */
  lemma {:induction false} JsonStepServed(env: Env, st: State, chunk: string, sent: seq<Item>)
    requires InStep(st, sent) && EmitsJson(env, st, chunk)
    ensures InStep(Step(env, st, chunk).0, sent) && |NamesFor(Step(env, st, chunk).1.calls, 0)| == 1
  {
    hide FirstInvoke, Suspicious, QuotedKey, PotentiallyDsml, InvokeLoop, Received, Served, JsonCalls, AroundBlock;
    var st1 := Received(st, chunk);
    ReceivedShaped(st, chunk);
    if st1.nameSent {
      OpenIsDsml(env.fmt, st1.buffer);
    }
    JsonKeeps(env, st1);
    SameServed(st, JsonStep(env, st1).0, sent);
    var items := JsonStep(env, st1).1.calls;
    assert items == Numbered(JsonCalls(env, st1.buffer)) && items[0].name.Some?;
    OtherIndices(items[1..], 1);
  }

  /** A run that loses nothing: what the loop sent is in step with the fields, and each
  JSON block adds a name for index 0. */
  lemma {:induction false} RunServed(env: Env, st: State, chunks: seq<string>, sent: seq<Item>, dsml: seq<Item>)
    returns (dsml': seq<Item>)
    requires st.Valid() && InStep(st, dsml) && NonEmpty(chunks) && NoneLoses(env, st, chunks)
    ensures var r, n := Run(env, st, chunks), JsonSteps(env, st, chunks);
      && InStep(r.state, dsml')
      && |NamesFor(sent + r.calls, 0)| - |NamesFor(sent, 0)| == |NamesFor(dsml', 0)| - |NamesFor(dsml, 0)| + n
      && (n == 0 && sent == dsml ==> dsml' == sent + r.calls)
    decreases |chunks|
  {
    hide InStep, Step, StepLoses, EmitsJson, NamesFor;
    if chunks == [] {
      assert sent + [] == sent;
      return dsml;
    }
    var c, rest := chunks[0], chunks[1..];
    assert c in chunks && forall d | d in rest :: d in chunks;
    var (st', r) := Step(env, st, c);
    var more := Run(env, st', rest).calls;
    assert sent + (r.calls + more) == sent + r.calls + more;
    NamesAppend(sent, r.calls, 0);
    if EmitsJson(env, st, c) {
      JsonStepServed(env, st, c, dsml);
      dsml' := RunServed(env, st', rest, sent + r.calls, dsml);
    } else {
      StepServed(env, st, c, dsml);
      NamesAppend(dsml, r.calls, 0);
      dsml' := RunServed(env, st', rest, sent + r.calls, dsml + r.calls);
    }
  }

  /** Once an index has been lost, it stays without a name. */
  lemma {:induction false} RunPast(env: Env, st: State, chunks: seq<string>, j: nat)
    requires Shaped(st) && Past(st, j) && NonEmpty(chunks) && JsonSteps(env, st, chunks) == 0
    ensures var r := Run(env, st, chunks); NamesFor(r.calls, j) == [] && j < |r.state.prev|
    decreases |chunks|
  {
    assert st.Valid();
    if chunks != [] {
      hide Shaped, Past, Step, EmitsJson, NamesFor;
      var c := chunks[0];
      assert c in chunks && forall d | d in chunks[1..] :: d in chunks;
      StepShaped(env, st, c);
      LaterStep(env, st, c, j);
      var (st', r) := Step(env, st, c);
      RunPast(env, st', chunks[1..], j);
      NamesAppend(r.calls, Run(env, st', chunks[1..]).calls, j);
    } else {
      assert NamesFor([], j) == [];
    }
  }

  /** A step that loses something leaves an index without a name. */
  lemma {:induction false} RunLoses(env: Env, st: State, chunks: seq<string>, sent: seq<Item>) returns (j: nat)
    requires st.Valid() && InStep(st, sent) && NonEmpty(chunks)
    requires JsonSteps(env, st, chunks) == 0 && !NoneLoses(env, st, chunks)
    ensures var r := Run(env, st, chunks); NamesFor(sent + r.calls, j) == [] && j < |r.state.prev|
    decreases |chunks|
  {
    var c, rest := chunks[0], chunks[1..];
    assert c in chunks && forall d | d in rest :: d in chunks;
    RunFirst(env, st, chunks);
    hide InStep, Step, StepLoses, EmitsJson, NamesFor, Run;
    var (st', r) := Step(env, st, c);
    var more := Run(env, st', rest).calls;
    if StepLoses(env, st, c) {
      j := LostHere(env, st, c, rest, sent);
      assert [] + more == more;
    } else {
      StepServed(env, st, c, sent);
      ThreeParts(sent, r.calls, more);
      j := RunLoses(env, st', rest, sent + r.calls);
    }
  }

  lemma {:induction false} ThreeParts(a: seq<Item>, b: seq<Item>, c: seq<Item>)
    ensures a + (b + c) == a + b + c
  {
  }

  lemma {:induction false} RunFirst(env: Env, st: State, chunks: seq<string>)
    requires st.Valid() && chunks != []
    ensures var rest := Run(env, Step(env, st, chunks[0]).0, chunks[1..]);
      && Run(env, st, chunks).calls == Step(env, st, chunks[0]).1.calls + rest.calls
      && Run(env, st, chunks).state == rest.state
  {
    hide Step;
  }

  lemma {:induction false} LostHere(env: Env, st: State, chunk: string, rest: seq<string>, sent: seq<Item>)
    returns (j: nat)
    requires st.Valid() && InStep(st, sent) && chunk != "" && NonEmpty(rest) && StepLoses(env, st, chunk)
    requires JsonSteps(env, Step(env, st, chunk).0, rest) == 0
    ensures Step(env, st, chunk).1.calls == []
    ensures var r := Run(env, Step(env, st, chunk).0, rest); NamesFor(sent + r.calls, j) == [] && j < |r.state.prev|
  {
    hide Step, StepLoses, NamesFor, Run, JsonSteps, Consistent;
    StepShaped(env, st, chunk);
    var st' := Step(env, st, chunk).0;
    j := st'.toolId;
    RunPast(env, st', rest, j);
    NotYet(st, sent, j);
    NamesAppend(sent, Run(env, st', rest).calls, j);
  }

  lemma {:induction false} NotYet(st: State, sent: seq<Item>, j: nat)
    requires InStep(st, sent) && j >= |st.prev|
    ensures NamesFor(sent, j) == []
  {
    assert Served(st, sent, j);
  }

  lemma {:induction false} InitialInStep()
    ensures InStep(INITIAL, [])
  {
    NothingInEmpty();
    forall i: nat ensures Served(INITIAL, [], i) {
      assert NamesFor([], i) == [] && ArgsFor([], i) == "";
    }
  }

  // ---------------------------------------------------------------------
  // The flush.

  lemma {:induction false} StepIsWhole(r: Outcome, i: nat)
    requires InStep(r.state, r.calls) && i < |r.state.prev|
    ensures Whole(r, i)
  {
    hide NamesFor, ArgsFor, FirstInvoke;
    var st := r.state;
    assert Served(st, r.calls, i) && Served(st, r.calls, |st.prev| - 1);
    if i >= st.toolId {
      assert "" + st.prev[i].value.args == st.prev[i].value.args;
    } else {
      assert st.streamed[i] + "" == st.streamed[i];
    }
  }

  /** Main result, for any bytes in any non-empty chunks: unless a step loses what it found
  because parsing throws, or a JSON block was read as well, every tool index has been
  named once, closed ones have streamed exactly their cached arguments and the open one
  nothing, and the one flush completes it. */
  lemma {:induction false} FlushCompletes(env: Env, chunks: seq<string>)
    requires NonEmpty(chunks) && NoneLoses(env, INITIAL, chunks) && JsonSteps(env, INITIAL, chunks) == 0
    ensures AllWhole(Run(env, INITIAL, chunks))
  {
    hide Run, InStep, Whole, NoneLoses, JsonSteps;
    InitialInStep();
    var r := Run(env, INITIAL, chunks);
    var dsml := RunServed(env, INITIAL, chunks, [], []);
    assert [] + r.calls == r.calls;
    forall i | 0 <= i < |r.state.prev| ensures Whole(r, i) {
      StepIsWhole(r, i);
    }
  }

  /** And only then: with at most one of the two, this holds if and only if no tool was
  begun, or there was neither. */
  lemma {:induction false} FlushExactly(env: Env, chunks: seq<string>)
    requires NonEmpty(chunks)
    requires NoneLoses(env, INITIAL, chunks) || JsonSteps(env, INITIAL, chunks) == 0
    ensures AllWhole(Run(env, INITIAL, chunks))
       <==> Run(env, INITIAL, chunks).state.prev == []
            || (NoneLoses(env, INITIAL, chunks) && JsonSteps(env, INITIAL, chunks) == 0)
  {
    hide Run, NoneLoses, JsonSteps, NamesFor, InStep;
    InitialInStep();
    var r := Run(env, INITIAL, chunks);
    assert [] + r.calls == r.calls;
    if NoneLoses(env, INITIAL, chunks) && JsonSteps(env, INITIAL, chunks) == 0 {
      FlushCompletes(env, chunks);
    } else if NoneLoses(env, INITIAL, chunks) {
      var dsml := RunServed(env, INITIAL, chunks, [], []);
      if r.state.prev != [] {
        FirstNamed(r.state, dsml);
        assert !Whole(r, 0);
      }
    } else {
      var j := RunLoses(env, INITIAL, chunks, []);
      assert !Whole(r, j);
    }
  }

  lemma {:induction false} FirstNamed(st: State, sent: seq<Item>)
    requires InStep(st, sent) && st.prev != []
    ensures |NamesFor(sent, 0)| == 1 && NamesFor([], 0) == []
  {
    assert Served(st, sent, 0);
  }

  /** The collision: the calls of a JSON block are numbered from 0, and so are the invokes
  that follow, so that index 0 is named twice. */
  lemma {:induction false} JsonCollides(env: Env, block: string, name: string)
    requires Complete(block) && QuotedKey(block) && !PotentiallyDsml(block)
    requires !DsmlJson.BlockOpen(block) && JsonCalls(env, block) != []
    requires Quotable(name) && Complete(OpenTag(name))
    ensures var r := Run(env, INITIAL, [block, OpenTag(name)]);
      NamesFor(r.calls, 0) == [JsonCalls(env, block)[0].name, name] && !Whole(r, 0)
  {
    hide Complete, QuotedKey, PotentiallyDsml, JsonCalls, Quotable, Step, FirstInvoke, Arguments, OpenTag, NamesFor;
    var tag, json := OpenTag(name), JsonCalls(env, block);
    JsonFirst(env, block);
    TagOpens(env, name);
    assert [block, tag][1..] == [tag] && [tag][1..] == [];
    var items := [Item(0, Some(name), "")];
    assert Run(env, INITIAL, [tag]).calls == items + [] == items;
    assert Run(env, INITIAL, [block, tag]).calls == Numbered(json) + items;
    NamesAppend(Numbered(json), items, 0);
    OneName(name);
  }

  function OpenTag(name: string): string { INVOKE + Attribute(NAME, name, ">") }

  lemma {:induction false} OneName(name: string)
    ensures NamesFor([Item(0, Some(name), "")], 0) == [name]
  {
    assert [Item(0, Some(name), "")][1..] == [] && NamesFor([], 0) == [];
  }

  lemma {:induction false} JsonFirst(env: Env, block: string)
    requires Complete(block) && QuotedKey(block) && !PotentiallyDsml(block)
    requires !DsmlJson.BlockOpen(block) && JsonCalls(env, block) != []
    ensures Step(env, INITIAL, block).0 == INITIAL
    ensures Step(env, INITIAL, block).1.calls == Numbered(JsonCalls(env, block))
    ensures NamesFor(Numbered(JsonCalls(env, block)), 0) == [JsonCalls(env, block)[0].name]
  {
    hide Complete, QuotedKey, PotentiallyDsml, JsonCalls, ReleasedLength, AroundBlock;
    assert block != "" by { hide JsonCalls; NoKeyInEmpty(); }
    SplitsAtCharacter(block, "");
    assert block + "" == block && "" + block == block && block[..|block|] == block && block[|block|..] == "";
    var items := Numbered(JsonCalls(env, block));
    OtherIndices(items[1..], 1);
  }

  lemma {:induction false} NoKeyInEmpty()
    ensures !QuotedKey("")
  {
  }

  lemma {:induction false} TagOpens(env: Env, name: string)
    requires Quotable(name) && Complete(OpenTag(name))
    ensures Step(env, INITIAL, OpenTag(name)).1.calls == [Item(0, Some(name), "")]
  {
    hide Complete, HeadAt, Attribute, Find, Trim, Step;
    var tag := OpenTag(name);
    assert ">" + "" == ">";
    CallHeadRead(name, "");
    FirstHeadIs(tag, 0);
    NameTrimmed(name);
    FindIsNone(tag, INVOKE_END, |tag|);
    assert tag[HeadAt(tag, 0).bodyFrom..] == "";
    TagNames(env, tag, name);
  }

  /** Steps that do not throw lose nothing. */
  lemma {:induction false} NoThrowNoLoss(env: Env, st: State, chunks: seq<string>)
    requires st.Valid() && NoneThrow(env, st, chunks)
    ensures NoneLoses(env, st, chunks)
    decreases |chunks|
  {
    hide StepThrows, Step;
    if chunks != [] {
      NoThrowNoLoss(env, Step(env, st, chunks[0]).0, chunks[1..]);
    }
  }

  /** The end of the stream changes neither what was sent nor the slots. */
  lemma {:induction false} EndKeeps(env: Env, st: State, chunks: seq<string>)
    requires st.Valid()
    ensures var r, end := Run(env, st, chunks), Run(env, st, chunks + [""]);
      end.calls == r.calls && end.state == r.state.(buffer := end.state.buffer, held := end.state.held)
    decreases |chunks|
  {
    if chunks == [] {
      assert chunks + [""] == [""] && [""][1..] == [];
    } else {
      hide Step;
      assert (chunks + [""])[0] == chunks[0] && (chunks + [""])[1..] == chunks[1..] + [""];
      EndKeeps(env, Step(env, st, chunks[0]).0, chunks[1..]);
    }
  }
}
