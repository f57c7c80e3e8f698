/** What streaming emits, for every chunking of the text.

`Invokes` reads the invokes off a whole text. The theorems say that after any
chunks the detector has emitted and cached exactly what `Invokes` of the text
received so far prescribes, so the chunk boundaries leave no trace.
*/
module DsmlStreaming {
  import opened Text
  import opened ToolCalls
  import opened Utf8
  import opened DsmlSyntax
  import opened DsmlParams
  import opened DsmlDetector

  /** An invoke of the text; only the last one can be open. */
  datatype Call = Call(name: string, body: string, closed: bool)

  function Invokes(s: string): seq<Call>
    decreases |s|
  {
    match FirstInvoke(s)
    case None => []
    case Some(v) =>
      [Call(v.name, v.body, v.closed)] + if v.closed then Invokes(s[v.end..]) else []
  }

  function ArgumentsOf(env: Env, c: Call): string {
    match Arguments(env.lib, c.body, !c.closed)
    case Some(args) => args
    case None => ""
  }

  /** One name item per call, and one argument item once it is closed. */
  function ItemsOf(env: Env, calls: seq<Call>, id: int): seq<Item> {
    if calls == [] then []
    else
      var c := calls[0];
      [Item(id, Some(c.name), "")]
      + (if c.closed then [Item(id, None, ArgumentsOf(env, c))] else [])
      + ItemsOf(env, calls[1..], id + 1)
  }

  /** The arguments of all these calls parse. */
  predicate AllParse(env: Env, calls: seq<Call>) {
    forall c | c in calls :: Arguments(env.lib, c.body, !c.closed).Some?
  }

  /** Wherever the text is cut between characters, what has arrived parses. */
  ghost predicate NoThrow(env: Env, text: string) {
    forall n | 0 <= n <= |text| && Complete(text[..n]) :: AllParse(env, Invokes(text[..n]))
  }

  /** The step parses invokes, and parsing throws. */
  predicate StepThrows(env: Env, st: State, chunk: string)
    requires st.Valid()
  {
    var st1 := Received(st, chunk);
    && chunk != "" && Suspicious(env.fmt, st1.buffer) && !(QuotedKey(st1.buffer) && !PotentiallyDsml(st1.buffer))
    && InvokeLoop(env, st1, st1.buffer, []).threw
  }

  /** The step emits the calls of a JSON block. */
  predicate EmitsJson(env: Env, st: State, chunk: string) {
    var st1 := Received(st, chunk);
    && chunk != "" && Suspicious(env.fmt, st1.buffer) && QuotedKey(st1.buffer) && !PotentiallyDsml(st1.buffer)
    && JsonStep(env, st1).1.calls != []
  }

  // ---------------------------------------------------------------------
  // Invokes of growing text.

  predicate AllClosed(calls: seq<Call>) { forall c | c in calls :: c.closed }

  function ClosedOf(s: string): (r: seq<Call>)
    ensures AllClosed(r)
    decreases |s|
  {
    match FirstInvoke(s)
    case None => []
    case Some(v) => if v.closed then [Call(v.name, v.body, true)] + ClosedOf(s[v.end..]) else []
  }

  /** The text after the last closed invoke. */
  function Rest(s: string): string
    decreases |s|
  {
    match FirstInvoke(s)
    case None => s
    case Some(v) => if v.closed then Rest(s[v.end..]) else s
  }

  lemma {:induction false} RestShape(s: string)
    ensures EndsWith(s, Rest(s))
    ensures FirstInvoke(Rest(s)).Some? ==> !FirstInvoke(Rest(s)).value.closed
    decreases |s|
  {
    hide FirstInvoke;
    if FirstInvoke(s).Some? && FirstInvoke(s).value.closed {
      var v := FirstInvoke(s).value;
      RestShape(s[v.end..]);
      var r := Rest(s);
      assert s[v.end..][|s| - v.end - |r|..] == s[|s| - |r|..];
    }
  }

  /** Closed invokes are settled: more text only adds to the rest. */
  lemma {:induction false} InvokesGrow(s: string, t: string)
    ensures Invokes(s + t) == ClosedOf(s) + Invokes(Rest(s) + t)
    decreases |s|
  {
    hide FirstInvoke;
    if FirstInvoke(s).Some? && FirstInvoke(s).value.closed {
      var v := FirstInvoke(s).value;
      FirstInvokeGrows(s, t);
      assert (s + t)[v.end..] == s[v.end..] + t;
      InvokesGrow(s[v.end..], t);
    }
  }

  lemma {:induction false} ItemsAppend(env: Env, a: seq<Call>, b: seq<Call>, id: int)
    ensures ItemsOf(env, a + b, id) == ItemsOf(env, a, id) + ItemsOf(env, b, id + |a|)
  {
    if a == [] {
      assert a + b == b;
    } else {
      hide ArgumentsOf;
      assert (a + b)[0] == a[0] && (a + b)[1..] == a[1..] + b;
      ItemsAppend(env, a[1..], b, id + 1);
    }
  }

  // ---------------------------------------------------------------------
  // The fields of the detector, read off the calls.

  predicate CachedCalls(env: Env, prev: seq<Option<Snapshot>>, streamed: seq<string>, calls: seq<Call>) {
    && |prev| == |streamed| == |calls|
    && forall i | 0 <= i < |calls| ::
         && prev[i] == Some(Snapshot(calls[i].name, ArgumentsOf(env, calls[i])))
         && streamed[i] == (if calls[i].closed then ArgumentsOf(env, calls[i]) else "")
  }

  /** All of `calls` but possibly the last are closed, and the fields say so. */
  predicate Describes(env: Env, st: State, done: seq<Call>, open: seq<Call>) {
    && AllClosed(done) && |open| <= 1 && (open != [] ==> !open[0].closed)
    && CachedCalls(env, st.prev, st.streamed, done + open)
    && st.nameSent == (open != [])
    && st.toolId == (if done + open == [] then -1 else |done|)
  }

  /** Before a text is processed: `done` is cached, and if a name has been
  announced it is the name of the invoke that is open in the text. */
  predicate Ready(env: Env, st: State, done: seq<Call>, text: string) {
    && AllClosed(done)
    && st.Valid()
    && |done| <= |st.prev| <= |done| + 1
    && CachedCalls(env, st.prev[..|done|], st.streamed[..|done|], done)
    && (st.nameSent ==> |st.prev| == |done| + 1 && FirstInvoke(text).Some?)
    && (|st.prev| == |done| + 1 ==> st.nameSent && st.streamed[|done|] == "")
    && st.toolId == (if |st.prev| == 0 then -1 else |done|)
  }

  /** The loop throws exactly if the arguments of an invoke of its text do not parse. */
  lemma {:induction false} LoopThrows(env: Env, st: State, text: string, calls: seq<Item>)
    requires st.Valid()
    ensures InvokeLoop(env, st, text, calls).threw <==> !AllParse(env, Invokes(text))
    decreases |text|
  {
    hide FirstInvoke, Arguments;
    if FirstInvoke(text).Some? {
      var v := FirstInvoke(text).value;
      var c, rest := Call(v.name, v.body, v.closed), if v.closed then Invokes(text[v.end..]) else [];
      assert Invokes(text) == [c] + rest;
      assert c in Invokes(text) && (forall d | d in Invokes(text) :: d == c || d in rest)
          && forall d | d in rest :: d in Invokes(text);
      var (named, announcement) := Announced(Prepared(st), v.name);
      if Arguments(env.lib, v.body, !v.closed).Some? && v.closed {
        var args := Arguments(env.lib, v.body, false).value;
        LoopThrows(env, Closing(named, v.name, args, text[v.end..]), text[v.end..],
                   calls + announcement + [Item(named.toolId, None, args)]);
      }
    }
  }

  /** One round of the loop caches the call it finds in slot `|done|`. */
  lemma {:induction false} Round(env: Env, st: State, text: string, done: seq<Call>, v: Invoke, args: string)
    requires Ready(env, st, done, text)
    requires FirstInvoke(text) == Some(v) && Arguments(env.lib, v.body, !v.closed) == Some(args)
    ensures var k, c := |done|, Call(v.name, v.body, v.closed);
      var (named, announcement) := Announced(Prepared(st), v.name);
      && named.toolId == k && |named.prev| == k + 1 && named.nameSent && named.streamed[k] == ""
      && announcement == [Item(k, Some(v.name), "")][if st.nameSent then 1 else 0..]
      && named.buffer == st.buffer && named.held == st.held
      && CachedCalls(env,
                     named.prev[k := Some(Snapshot(v.name, args))],
                     named.streamed[k := if v.closed then args else ""],
                     done + [c])
  {
    hide FirstInvoke, Arguments;
    var k := |done|;
    forall i | 0 <= i < k ensures st.prev[i] == st.prev[..k][i] && st.streamed[i] == st.streamed[..k][i] {}
    var prepared := Prepared(st);
    if |st.prev| == k {
      var st1 := if st.toolId == -1 then st.(toolId := 0, prev := [], streamed := [], nameSent := false) else st;
      var grown := st1.(prev := st1.prev + [None], streamed := st1.streamed + [""]);
      assert st1.toolId == k && |grown.prev| == k + 1;
      assert Grown(st1) == Grown(grown) == grown;
    } else {
      assert prepared == st;
    }
    var item := [Item(k, Some(v.name), "")];
    assert item[0..] == item && item[1..] == [];
  }

  /** The loop emits the calls of the text, but for a name it has announced
  before, and leaves the rest of the text in the buffer. */
  ghost predicate Follows(env: Env, st: State, text: string, sent: seq<Item>, done: seq<Call>, r: LoopResult) {
    && !r.threw
    && r.state.buffer == Rest(text) && r.state.held == st.held
    && Describes(env, r.state, done + ClosedOf(text), Invokes(Rest(text)))
    && (st.nameSent ==> ItemsOf(env, Invokes(text), |done|) != [])
    && r.calls == sent + ItemsOf(env, Invokes(text), |done|)[if st.nameSent then 1 else 0..]
  }

  lemma {:induction false} LoopFollowsInvokes(env: Env, st: State, text: string, sent: seq<Item>, done: seq<Call>)
    requires Ready(env, st, done, text) && st.buffer == text && AllParse(env, Invokes(text))
    ensures Follows(env, st, text, sent, done, InvokeLoop(env, st, text, sent))
    decreases |text|
  {
    hide FirstInvoke, Arguments, CachedCalls;
    match FirstInvoke(text)
    case None =>
      NothingFound(env, st, text, sent, done);
    case Some(v) =>
      FirstParses(env, text);
      var args := Arguments(env.lib, v.body, !v.closed).value;
      if v.closed {
        var rest := text[v.end..];
        var next, sent' := OneClosed(env, st, text, sent, done, v, args);
        var c := Call(v.name, v.body, true);
        LoopFollowsInvokes(env, next, rest, sent', done + [c]);
        ClosedThenFollows(env, st, text, sent, done, v, next, sent', InvokeLoop(env, next, rest, sent'));
      } else {
        OneOpen(env, st, text, sent, done, v, args);
      }
  }

  lemma {:induction false} FirstParses(env: Env, text: string)
    requires FirstInvoke(text).Some? && AllParse(env, Invokes(text))
    ensures var v := FirstInvoke(text).value;
      Arguments(env.lib, v.body, !v.closed).Some? && (v.closed ==> AllParse(env, Invokes(text[v.end..])))
  {
    hide FirstInvoke, Arguments;
    var v := FirstInvoke(text).value;
    assert Invokes(text)[0] == Call(v.name, v.body, v.closed);
    assert v.closed ==> Invokes(text)[1..] == Invokes(text[v.end..]);
  }

  lemma {:induction false} NothingFound(env: Env, st: State, text: string, sent: seq<Item>, done: seq<Call>)
    requires Ready(env, st, done, text) && st.buffer == text && FirstInvoke(text).None?
    ensures Follows(env, st, text, sent, done, InvokeLoop(env, st, text, sent))
  {
    hide FirstInvoke, Arguments;
    assert done + ClosedOf(text) == done && done + [] == done;
    assert st.prev[..|done|] == st.prev && st.streamed[..|done|] == st.streamed;
  }

  lemma {:induction false} OneOpen(env: Env, st: State, text: string, sent: seq<Item>, done: seq<Call>, v: Invoke,
                                   args: string)
    requires Ready(env, st, done, text) && st.buffer == text && !v.closed
    requires FirstInvoke(text) == Some(v) && Arguments(env.lib, v.body, true) == Some(args)
    ensures Follows(env, st, text, sent, done, InvokeLoop(env, st, text, sent))
  {
    hide FirstInvoke, Arguments, CachedCalls, Prepared;
    var k, c := |done|, Call(v.name, v.body, false);
    Round(env, st, text, done, v, args);
    var (named, announcement) := Announced(Prepared(st), v.name);
    var cached := named.(prev := named.prev[k := Some(Snapshot(v.name, args))]);
    assert named.streamed[k := ""] == cached.streamed;
    OpenDescribed(env, cached, done, c);
    assert done + ClosedOf(text) == done;
    assert Invokes(text) == [c];
    assert ItemsOf(env, [c], k) == [Item(k, Some(v.name), "")];
  }

  lemma {:induction false} OneClosed(env: Env, st: State, text: string, sent: seq<Item>, done: seq<Call>, v: Invoke,
                                     args: string)
    returns (next: State, sent': seq<Item>)
    requires Ready(env, st, done, text) && st.buffer == text && v.closed
    requires FirstInvoke(text) == Some(v) && Arguments(env.lib, v.body, false) == Some(args)
    ensures Ready(env, next, done + [Call(v.name, v.body, true)], text[v.end..])
    ensures next.buffer == text[v.end..] && next.held == st.held && !next.nameSent
    ensures InvokeLoop(env, st, text, sent) == InvokeLoop(env, next, text[v.end..], sent')
    ensures sent' == sent + [Item(|done|, Some(v.name), "")][if st.nameSent then 1 else 0..]
                  + [Item(|done|, None, args)]
  {
    hide FirstInvoke, Arguments, CachedCalls, Prepared;
    var k, c := |done|, Call(v.name, v.body, true);
    Round(env, st, text, done, v, args);
    var (named, announcement) := Announced(Prepared(st), v.name);
    next := named.(prev := named.prev[k := Some(Snapshot(v.name, args))],
                   streamed := named.streamed[k := args],
                   buffer := text[v.end..], toolId := k + 1, nameSent := false);
    sent' := sent + announcement + [Item(k, None, args)];
    NextReady(env, next, done, c, text[v.end..]);
  }

  lemma {:induction false} ClosedThenFollows(env: Env, st: State, text: string, sent: seq<Item>, done: seq<Call>,
                                             v: Invoke, next: State, sent': seq<Item>, r: LoopResult)
    requires FirstInvoke(text) == Some(v) && v.closed
    requires Follows(env, next, text[v.end..], sent', done + [Call(v.name, v.body, true)], r)
    requires next.held == st.held && !next.nameSent
    requires sent' == sent + [Item(|done|, Some(v.name), "")][if st.nameSent then 1 else 0..]
                      + [Item(|done|, None, ArgumentsOf(env, Call(v.name, v.body, true)))]
    ensures Follows(env, st, text, sent, done, r)
  {
    hide FirstInvoke, ArgumentsOf, CachedCalls, ItemsOf;
    var c, rest := Call(v.name, v.body, true), text[v.end..];
    assert done + [c] + ClosedOf(rest) == done + ClosedOf(text);
    assert Invokes(text) == [c] + Invokes(rest);
    ItemsOfClosed(env, c, Invokes(rest), |done|);
    var items := ItemsOf(env, Invokes(rest), |done| + 1);
    assert items[0..] == items;
  }

  lemma {:induction false} NextReady(env: Env, next: State, done: seq<Call>, c: Call, rest: string)
    requires AllClosed(done) && c.closed && CachedCalls(env, next.prev, next.streamed, done + [c])
    requires next.toolId == |done| + 1 && !next.nameSent
    ensures Ready(env, next, done + [c], rest)
  {
    hide FirstInvoke;
    var k := |done + [c]|;
    assert next.prev[..k] == next.prev && next.streamed[..k] == next.streamed;
  }

  lemma {:induction false} OpenDescribed(env: Env, st: State, done: seq<Call>, c: Call)
    requires AllClosed(done) && !c.closed && CachedCalls(env, st.prev, st.streamed, done + [c])
    requires st.toolId == |done| && st.nameSent
    ensures Describes(env, st, done, [c])
  {
  }

  lemma {:induction false} ItemsOfClosed(env: Env, c: Call, rest: seq<Call>, k: int)
    requires c.closed
    ensures ItemsOf(env, [c] + rest, k)
         == [Item(k, Some(c.name), "")] + [Item(k, None, ArgumentsOf(env, c))] + ItemsOf(env, rest, k + 1)
  {
    assert ([c] + rest)[1..] == rest;
  }

  // ---------------------------------------------------------------------
  // Flushed text cannot hold a tag, nor the beginning of one.

  /** Whole characters do not end inside the bar (U+FF5C). */
  lemma {:induction false} NoCutBar(s: string)
    requires Complete(s) && s != ""
    ensures s[|s| - 1] != '\U{EF}'
    ensures |s| >= 2 ==> !(s[|s| - 2] == '\U{EF}' && s[|s| - 1] == '\U{BD}')
  {
    var k := LastChar(s);
    LastCharBytes(s, k);
  }

  lemma {:induction false} LastCharBytes(s: string, k: nat)
    requires k < |s| && StartsWithChar(s[k..], |s| - k)
    ensures CharLength(s[k]) == |s| - k && forall i | k < i < |s| :: IsContinuation(s[i])
  {
    var last := s[k..];
    forall i | k < i < |s| ensures IsContinuation(s[i]) {
      assert last[1..|s| - k][i - k - 1] == s[i];
    }
    assert last[0] == s[k];
  }

  lemma {:induction false} TagPrefix(s: string, p: nat)
    requires p < |s| && !Literal(s, p, INVOKE).No?
    ensures s[p] == '<'
    ensures p + 1 < |s| ==> s[p + 1] == '\U{EF}'
    ensures p + 2 < |s| ==> s[p + 2] == '\U{BD}'
    ensures p + 3 < |s| ==> OccursAt(s, OPEN_MARK, p)
  {
    LiteralLetters(s, p, INVOKE);
    assert INVOKE[0] == '<' && INVOKE[1] == '\U{EF}' && INVOKE[2] == '\U{BD}' && INVOKE[3] == '\U{9C}';
    if p + 3 < |s| {
      assert s[p..p + 4] == OPEN_MARK;
    }
  }

  lemma {:induction false} EndsWithAngle(s: string)
    requires s != "" && s[|s| - 1] == '<'
    ensures EndsWithPrefix(s)
  {
    hide Trim;
    TrimKeepsLast(s, BLANK);
    assert EndsWith(TrimWhitespace(s), "<");
  }

  lemma {:induction false} FlushedIsSettled(total: string, s: string)
    requires Complete(total) && EndsWith(total, s)
    requires !PotentiallyDsml(s) && !EndsWithPrefix(s)
    ensures Settled(s)
  {
    forall p | 0 <= p < |s| ensures HeadAt(s, p).Fail? {
      if !Literal(s, p, INVOKE).No? {
        hide Complete, EndsWithPrefix;
        TagPrefix(s, p);
        NoCutBar(total);
        assert s[|s| - 1] == total[|total| - 1] && (|s| >= 2 ==> s[|s| - 2] == total[|total| - 2]);
        if p + 1 == |s| {
          EndsWithAngle(s);
        }
      }
    }
  }

  lemma {:induction false} SettledInvokes(s: string, t: string)
    requires Settled(s)
    ensures Invokes(s + t) == Invokes(t)
  {
    hide FirstInvoke, HeadAt;
    forall p | 0 <= p < |s| ensures !HeadAt(s + t, p).Match? {
      HeadGrows(s, t, p);
    }
    SettledPrefix(s, t);
    if FirstInvoke(t).Some? {
      var v := FirstInvoke(t).value;
      assert (s + t)[|s| + v.end..] == t[v.end..];
    }
  }

  // ---------------------------------------------------------------------
  // The invariant of a run.

  /** `received` has arrived, of which `total` are whole characters; the invokes
  of `total`, however it goes on, are the `done` ones and those of the buffer;
  all of them have been announced and cached. */
  ghost predicate Tracks(env: Env, received: string, total: string, st: State, sent: seq<Item>, done: seq<Call>) {
    && received == total + st.held
    && Complete(total) && (st.held == "" || PartialChar(st.held))
    && EndsWith(total, st.buffer)
    && st.Valid()
    && (forall t :: Invokes(total + t) == done + Invokes(st.buffer + t))
    && (FirstInvoke(st.buffer).Some? ==> !FirstInvoke(st.buffer).value.closed)
    && Describes(env, st, done, Invokes(st.buffer))
    && sent == ItemsOf(env, Invokes(total), 0) && AllParse(env, Invokes(total))
  }

  lemma {:induction false} NothingInEmpty()
    ensures FirstInvoke("").None? && Invokes("") == []
  {
  }

  lemma {:induction false} TracksInitial(env: Env)
    ensures Tracks(env, "", "", INITIAL, [], [])
  {
    assert FirstInvoke("").None?;
    forall t ensures Invokes("" + t) == [] + Invokes("" + t) {}
  }

  lemma {:induction false} QuietPart(full: string, total: string, buffer: string)
    requires total <= full && EndsWith(total, buffer)
    requires !QuotedKey(full)
    ensures !QuotedKey(buffer)
  {
    var n := |total| - |buffer|;
    assert full == total[..n] + buffer + full[|total|..];
    if Has(buffer, DOUBLE_QUOTED) { OccursInWhole(total[..n], buffer, full[|total|..], DOUBLE_QUOTED); }
    if Has(buffer, SINGLE_QUOTED) { OccursInWhole(total[..n], buffer, full[|total|..], SINGLE_QUOTED); }
  }

  /** The buffer with the chunk: where the text of the invokes continues. */
  lemma {:induction false} Continue(total: string, buffer: string, chunk: string, done: seq<Call>)
    requires forall t :: Invokes(total + t) == done + Invokes(buffer + t)
    ensures forall t :: Invokes(total + chunk + t) == done + Invokes(buffer + chunk + t)
    ensures Invokes(total + chunk) == done + Invokes(buffer + chunk)
  {
    hide Invokes;
    forall t ensures Invokes(total + chunk + t) == done + Invokes(buffer + chunk + t) {
      assert total + chunk + t == total + (chunk + t);
      assert buffer + chunk + t == buffer + (chunk + t);
    }
  }

  lemma {:induction false} InvokesOf(total: string, buffer: string, done: seq<Call>)
    requires forall t :: Invokes(total + t) == done + Invokes(buffer + t)
    ensures Invokes(total) == done + Invokes(buffer)
  {
    hide Invokes;
    assert total + "" == total && buffer + "" == buffer;
  }

  lemma {:induction false} EndsWithGrown(total: string, buffer: string, chunk: string)
    requires EndsWith(total, buffer)
    ensures EndsWith(total + chunk, buffer + chunk)
  {
    var n := |total| - |buffer|;
    assert total == total[..n] + buffer;
    assert (total + chunk)[n..] == buffer + chunk;
  }

  lemma {:induction false} SameFields(env: Env, st: State, st': State, done: seq<Call>, open: seq<Call>)
    requires Describes(env, st, done, open)
    requires st' == st.(held := st'.held, buffer := st'.buffer)
    ensures Describes(env, st', done, open)
  {
  }

  /** Flushing: the buffer holds no invoke and none can start in it. */
  lemma {:induction false} FlushTracks(env: Env, received: string, total: string, st: State, sent: seq<Item>,
                                       done: seq<Call>,
                    s: string, held: string)
    requires Describes(env, st, done, Invokes(st.buffer)) && st.Valid()
    requires sent == ItemsOf(env, Invokes(total), 0) && Invokes(total) == done + Invokes(st.buffer)
    requires st.buffer <= s && Settled(s)
    requires forall t :: Invokes(received + t) == done + Invokes(s + t)
    requires Invokes(received) == done + Invokes(s)
    ensures forall t :: Invokes(received + t) == done + Invokes("" + t)
    ensures Describes(env, st.(held := held, buffer := ""), done, Invokes(""))
    ensures sent == ItemsOf(env, Invokes(received), 0)
    ensures FirstInvoke("").None?
  {
    hide HeadAt, Describes, FirstInvoke, ItemsOf, Settled;
    SettledInvokes(s, "");
    assert s + "" == s;
    NothingInEmpty();
    BufferWasQuiet(st.buffer, s);
    SameFields(env, st, st.(held := held, buffer := ""), done, []);
    forall t ensures Invokes(received + t) == done + Invokes("" + t) {
      SettledInvokes(s, t);
      assert "" + t == t;
    }
  }

  lemma {:induction false} BufferWasQuiet(buffer: string, s: string)
    requires buffer <= s && Invokes(s) == []
    ensures Invokes(buffer) == []
  {
    hide FirstInvoke;
    assert s == buffer + s[|buffer|..];
    if FirstInvoke(buffer).Some? {
      FirstInvokeGrows(buffer, s[|buffer|..]);
    }
  }

  lemma {:induction false} ReadyAgain(env: Env, st: State, done: seq<Call>, s: string)
    requires st.Valid() && Describes(env, st, done, Invokes(st.buffer)) && st.buffer <= s
    ensures Ready(env, st.(buffer := s), done, s)
  {
    hide FirstInvoke, Arguments, ArgumentsOf;
    var open := Invokes(st.buffer);
    if FirstInvoke(st.buffer).Some? {
      FirstInvokeGrows(st.buffer, s[|st.buffer|..]);
      assert s == st.buffer + s[|st.buffer|..];
    }
    var all, k := done + open, |done|;
    assert st.toolId == (if all == [] then -1 else k);
    forall i | 0 <= i < k
      ensures st.prev[..k][i] == Some(Snapshot(done[i].name, ArgumentsOf(env, done[i])))
      ensures st.streamed[..k][i] == ArgumentsOf(env, done[i])
    {
      assert all[i] == done[i];
    }
    if open != [] {
      assert all[k] == open[0];
    }
  }

  /** An announced name is the first item of the invokes of the longer text. */
  lemma {:induction false} SentSoFar(env: Env, st: State, done: seq<Call>, s: string)
    requires st.buffer <= s
    requires FirstInvoke(st.buffer).Some? ==> !FirstInvoke(st.buffer).value.closed
    ensures var open, items := Invokes(st.buffer), ItemsOf(env, Invokes(s), |done|);
      && (open != [] ==> items != [])
      && ItemsOf(env, done + open, 0) + items[if open != [] then 1 else 0..] == ItemsOf(env, done + Invokes(s), 0)
  {
    hide FirstInvoke, ArgumentsOf, ItemsOf;
    var open, all, k := Invokes(st.buffer), Invokes(s), |done|;
    ItemsAppend(env, done, open, 0);
    ItemsAppend(env, done, all, 0);
    var items := ItemsOf(env, all, k);
    if open != [] {
      assert s == st.buffer + s[|st.buffer|..];
      FirstInvokeGrows(st.buffer, s[|st.buffer|..]);
      FirstItem(env, open, all, k);
      assert [items[0]] + items[1..] == items;
    } else {
      NoItems(env, open, k);
      assert items[0..] == items;
    }
  }

  lemma {:induction false} NoItems(env: Env, open: seq<Call>, k: int)
    requires open == []
    ensures ItemsOf(env, open, k) == []
  {
  }

  lemma {:induction false} FirstItem(env: Env, open: seq<Call>, all: seq<Call>, k: int)
    requires |open| == 1 && !open[0].closed && all != [] && all[0].name == open[0].name
    ensures ItemsOf(env, all, k) != [] && ItemsOf(env, open, k) == [ItemsOf(env, all, k)[0]]
  {
  }

  /** Main step: a chunk keeps the invariant. */
  lemma {:induction false} StepTracks(env: Env, received: string, total: string, st: State, sent: seq<Item>,
                                      done: seq<Call>, chunk: string, full: string)
    returns (total': string, done': seq<Call>)
    requires Tracks(env, received, total, st, sent, done)
    requires chunk != "" && received + chunk <= full && Complete(full)
    requires !QuotedKey(full) && !StepThrows(env, st, chunk)
    ensures var (st', r) := Step(env, st, chunk);
      Tracks(env, received + chunk, total', st', sent + r.calls, done')
  {
    hide Complete, ReleasedLength, PartialChar, Suspicious, PotentiallyDsml, QuotedKey, Describes,
         FirstInvoke, Invokes, InvokeLoop, AllParse;
    var merged := st.held + chunk;
    var more := full[|received + chunk|..];
    assert full == total + (merged + more);
    var n := Receive(total, merged, more);
    var arrived := merged[..n];
    total' := total + arrived;
    var s := st.buffer + arrived;
    var st1 := st.(held := merged[n..], buffer := s);
    assert Received(st, chunk) == st1;
    assert received + chunk == total' + st1.held;
    assert total' <= full;
    EndsWithGrown(total, st.buffer, arrived);
    QuietPart(full, total', s);
    InvokesOf(total, st.buffer, done);
    Continue(total, st.buffer, arrived, done);
    if !Suspicious(env.fmt, s) {
      done' := done;
      NotSuspicious(env.fmt, total', s);
      FlushTracks(env, total', total, st, sent, done, s, st1.held);
      DoneParse(env, total, total', st.buffer, s, done);
      FlushKeeps(env, received + chunk, total', st1, sent, done);
    } else {
      done' := done + ClosedOf(s);
      LoopThrows(env, st1, s, []);
      AllOfThemParse(env, total, st.buffer, s, done);
      LoopKeeps(env, received + chunk, total', total, st, sent, done, s, st1);
    }
  }

  lemma {:induction false} DoneParse(env: Env, total: string, total': string, buffer: string, s: string,
                                     done: seq<Call>)
    requires Invokes(total) == done + Invokes(buffer) && AllParse(env, Invokes(total))
    requires Invokes(total') == done + Invokes(s) && Settled(s)
    ensures AllParse(env, Invokes(total'))
  {
    hide Invokes, Settled;
    SettledInvokes(s, "");
    assert s + "" == s;
    NothingInEmpty();
    forall c | c in Invokes(total') ensures c in Invokes(total) {}
  }

  lemma {:induction false} AllOfThemParse(env: Env, total: string, buffer: string, s: string, done: seq<Call>)
    requires Invokes(total) == done + Invokes(buffer) && AllParse(env, Invokes(total)) && AllParse(env, Invokes(s))
    ensures AllParse(env, done + Invokes(s))
  {
    hide Invokes, Arguments;
    forall c | c in done + Invokes(s) ensures c in Invokes(total) || c in Invokes(s) {}
  }

  lemma {:induction false} FlushKeeps(env: Env, received: string, total: string, st: State, sent: seq<Item>,
                                      done: seq<Call>)
    requires received == total + st.held && Complete(total) && (st.held == "" || PartialChar(st.held)) && st.Valid()
    requires forall t :: Invokes(total + t) == done + Invokes("" + t)
    requires Describes(env, st.(buffer := ""), done, Invokes("")) && FirstInvoke("").None?
    requires sent == ItemsOf(env, Invokes(total), 0) && AllParse(env, Invokes(total))
    ensures Tracks(env, received, total, st.(buffer := ""), sent + [], done)
  {
    hide AllParse, Complete, PartialChar, Describes, FirstInvoke, Invokes;
    assert sent + [] == sent;
    assert total[|total|..] == "";
  }

  lemma {:induction false} LoopKeeps(env: Env, received: string, total': string, total: string, st: State,
                                     sent: seq<Item>, done: seq<Call>, s: string, st1: State)
    requires received == total' + st1.held && Complete(total') && (st1.held == "" || PartialChar(st1.held))
    requires st1 == st.(held := st1.held, buffer := s) && st.Valid() && st.buffer <= s && AllParse(env, Invokes(s))
    requires EndsWith(total', s)
    requires forall t :: Invokes(total' + t) == done + Invokes(s + t)
    requires Invokes(total') == done + Invokes(s) && AllParse(env, Invokes(total'))
    requires Describes(env, st, done, Invokes(st.buffer))
    requires FirstInvoke(st.buffer).Some? ==> !FirstInvoke(st.buffer).value.closed
    requires sent == ItemsOf(env, done + Invokes(st.buffer), 0)
    ensures var (st', r) := DsmlStep(env, st1);
      Tracks(env, received, total', st', sent + r.calls, done + ClosedOf(s))
  {
    hide Complete, PartialChar, Invokes, FirstInvoke, InvokeLoop, CachedCalls, ItemsOf, AllParse;
    ReadyAgain(env, st, done, s);
    assert Ready(env, st1, done, s);
    LoopFollowsInvokes(env, st1, s, [], done);
    SentSoFar(env, st, done, s);
    LoopTracks(env, total', s, done);
    var r := InvokeLoop(env, st1, s, []);
    var items := ItemsOf(env, Invokes(s), |done|);
    assert r.calls == items[if st.nameSent then 1 else 0..];
  }

  lemma {:induction false} NotSuspicious(fmt: Format, total: string, s: string)
    requires Complete(total) && EndsWith(total, s) && !Suspicious(fmt, s)
    ensures Settled(s)
  {
    hide Complete, PotentiallyDsml, EndsWithPrefix, HasToolCall;
    FlushedIsSettled(total, s);
  }

  /** What the loop leaves in the buffer. */
  lemma {:induction false} LoopTracks(env: Env, total: string, s: string, done: seq<Call>)
    requires EndsWith(total, s)
    requires forall t :: Invokes(total + t) == done + Invokes(s + t)
    ensures EndsWith(total, Rest(s))
    ensures FirstInvoke(Rest(s)).Some? ==> !FirstInvoke(Rest(s)).value.closed
    ensures forall t :: Invokes(total + t) == done + ClosedOf(s) + Invokes(Rest(s) + t)
  {
    hide FirstInvoke;
    RestShape(s);
    var r := Rest(s);
    assert total[|total| - |s|..][|s| - |r|..] == total[|total| - |r|..];
    forall t ensures Invokes(total + t) == done + ClosedOf(s) + Invokes(r + t) {
      InvokesGrow(s, t);
    }
  }
}
