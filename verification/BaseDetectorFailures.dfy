/** Streams for which the deltas of the base detector do not add up, and exactly when a
reset leads to one. The streams run from the initial state, on the JSON of calls. */
module BaseDetectorFailures {
  import opened Text
  import opened Json
  import opened ToolCalls
  import opened BaseDetector
  import opened BaseDetectorTheorems

  // ---------------------------------------------------------------------
  // The JSON of a call as it grows, and what the parser makes of it.

  /** What a text shows: a call with a name only, a call with its arguments so far, a
  complete one, or a call that is renamed by a second key `name`, the last of which
  counts. */
  datatype Told = Named | Shown(printed: string) | Closed(printed: string) | Renamed

  const NAME_ONLY: string := "{\"name\":\"f\""
  const RENAME: string := ",\"name\":\"g\""
  const ARGUMENTS: string := ",\"arguments\":"

  function ReadingOf(t: Told): Reading {
    match t
    case Named => Seen(Some("f"), Absent, false, Some(""))
    case Shown(p) => Seen(Some("f"), Dump(p), false, Some(""))
    case Closed(p) => Seen(Some("f"), Dump(p), true, Some(""))
    case Renamed => Undeclared
  }

  /** The parsed JSON says so. */
  predicate Denotes(env: Env, j: Json, t: Told) {
    match t
    case Named => j == Obj(map["name" := Str("f")])
    case Renamed => NameOf(j) == Some("g")
    case _ =>
      && NameOf(j) == Some("f") && Field(j, "parameters").None? && !Empty(j)
      && Field(j, "arguments").Some? && env.dump(Field(j, "arguments").value) == Some(t.printed)
  }

  /** The library takes the whole text, and finds this in it. */
  ghost predicate Means(env: Env, nameSent: bool, s: string, t: Told) {
    && s != "" && env.complete(s) == t.Closed?
    && exists j :: env.loads(s, nameSent) == Some(Loaded(j, |s|)) && Denotes(env, j, t)
  }

  /** A format whose calls follow its token, and two tools of which one is declared. */
  ghost predicate Calls(env: Env) {
    && (forall s :: env.hasToolCall(env.bot + s))
    && "f" in env.tools && "g" !in env.tools
    && forall sent: bool :: Means(env, sent, NAME_ONLY, Named)
  }

  lemma {:induction false} MeaningRead(env: Env, id: int, nameSent: bool, s: string, t: Told)
    requires Calls(env) && Means(env, nameSent, s, t)
    ensures Read(env, id, nameSent, env.bot + s) == ReadingOf(t)
  {
    hide ReadCall, PartialToken, Denotes;
    var text := env.bot + s;
    var j :| env.loads(s, nameSent) == Some(Loaded(j, |s|)) && Denotes(env, j, t);
    assert StartsWith(text, env.bot) && text[|env.bot|..] == s && env.hasToolCall(env.bot + s);
    assert StartOf(env, id, text) == |env.bot|;
    DenotesRead(env, j, t);
    WholeRead(env, nameSent, text, |env.bot|, j);
  }

  lemma {:induction false} DenotesRead(env: Env, j: Json, t: Told)
    requires Denotes(env, j, t)
    ensures NameOf(j) == (if t.Renamed? then Some("g") else Some("f"))
    ensures !t.Renamed? ==> Field(j, "parameters").None? && !Empty(j)
    ensures match t
      case Named => Field(j, "arguments").None?
      case Renamed => true
      case _ => Field(j, "arguments").Some? && env.dump(Field(j, "arguments").value) == Some(t.printed)
  {
    KeysDiffer();
    if t.Named? {
      assert "name" in j.fields;
    }
  }

  /** A text that the library takes whole from `start` on. */
  lemma {:induction false} WholeRead(env: Env, nameSent: bool, text: string, start: nat, j: Json)
    requires start <= |text| && env.loads(text[start..], nameSent) == Some(Loaded(j, |text| - start))
    requires NameOf(j).Some?
    requires NameOf(j).value in env.tools ==> Field(j, "parameters").None? && !Empty(j)
    requires NameOf(j).value in env.tools && Field(j, "arguments").Some? ==>
      env.dump(Field(j, "arguments").value).Some?
    ensures ReadCall(env, nameSent, text, start)
         == if NameOf(j).value !in env.tools then Undeclared
            else Seen(NameOf(j),
                      match Field(j, "arguments") case None => Absent case Some(a) => Dump(env.dump(a).value),
                      env.complete(text[start..]), Some(""))
  {
    hide NameOf, Field, Empty;
    assert Clip(text[start..], |text| - start) == text[start..] && text[start + (|text| - start)..] == "";
  }

  lemma {:induction false} KeysDiffer()
    ensures "name" != "parameters" && "name" != "arguments" && "arguments" != "parameters" && "f" != "g"
  {
    assert |"name"| == 4 && |"arguments"| == 9 && |"parameters"| == 10 && "f"[0] == 'f' && "g"[0] == 'g';
  }

  /** One more text, which shows `t`. */
  function Then(env: Env, st: State, s: string, t: Told): (e: Effect)
    requires st.Valid()
  {
    Apply(env, st.(buffer := env.bot + s), ReadingOf(t))
  }

  lemma {:induction false} NextText(env: Env, st: State, chunk: string, rest: seq<string>, s: string, t: Told)
    requires st.Valid() && Calls(env) && st.buffer + chunk == env.bot + s && Means(env, st.nameSent, s, t)
    ensures var e := Then(env, st, s, t);
      && e.state.Valid()
      && (var r, more := Run(env, st, [chunk] + rest), Run(env, e.state, rest);
          r.state == more.state && r.calls == e.result.calls + more.calls && r.threw == (e.threw || more.threw))
  {
    hide Apply, Read, Calls, Means, ReadingOf;
    MeaningRead(env, st.toolId, st.nameSent, s, t);
    assert ([chunk] + rest)[1..] == rest;
    assert Step(env, st, chunk) == Then(env, st, s, t);
  }

  // ---------------------------------------------------------------------
  // A slot that a reset leaves filled.

  /** Exactly when a reset for an undeclared name does no harm: for every state and every
  call that follows, it adds up if and only if its snapshots agree and the state had at
  most one slot, or nothing in the first. */
  lemma {:induction false} ResetRule(env: Env, st: State, dropped: string, first: string, texts: seq<string>,
                                     snaps: seq<string>)
    requires st.Valid() && Read(env, st.toolId, st.nameSent, st.buffer + dropped).Undeclared?
    requires OneCall(env, Step(env, st, dropped).state, first, texts, snaps, true)
    ensures var reset := Step(env, st, dropped).state;
      var r, all := Run(env, reset, [first] + texts), Snapshots(env, reset, first, snaps);
      && reset.toolId == -1
      && (!r.threw && ArgsFor(r.calls, 0) == Last(all)
          <==> Stable(all) && (|st.streamed| <= 1 || st.streamed[0] == ""))
  {
    hide Read, Run, OneCall, Snapshots, Stable, Last, ArgsFor;
    var reset := Step(env, st, dropped).state;
    assert Ready(reset) <==> |st.streamed| <= 1 || st.streamed[0] == "";
    SlotDecides(env, reset, first, texts, snaps);
  }

  /** The text of the arguments: a first part, more of it, and those of other calls; and
  how they print. */
  datatype Script = Script(value: string, more: string, last: string, first: string, second: string, final: string)

  function WithArguments(value: string): string { NAME_ONLY + (ARGUMENTS + value) }

  /** What the parser makes of the texts below. */
  ghost predicate Parses(env: Env, sc: Script) {
    && Calls(env)
    && Means(env, true, WithArguments(sc.value), Shown(sc.first))
    && Means(env, true, WithArguments(sc.value + sc.more), Shown(sc.second))
    && Means(env, true, WithArguments(sc.last + "}"), Closed(sc.final))
    && Means(env, true, NAME_ONLY + RENAME, Renamed)
    && Means(env, true, WithArguments(sc.value + sc.more + RENAME), Renamed)
  }

  /** The pieces of the streams. */
  function Opening(env: Env): string { env.bot + NAME_ONLY }

  function Ending(sc: Script): string { ARGUMENTS + (sc.last + "}") }

  lemma {:induction false} Buffers(env: Env, sc: Script)
    ensures "" + Opening(env) == env.bot + NAME_ONLY
    ensures Opening(env) + Ending(sc) == env.bot + WithArguments(sc.last + "}")
    ensures Opening(env) + RENAME == env.bot + (NAME_ONLY + RENAME)
    ensures Opening(env) + (ARGUMENTS + sc.value) == env.bot + WithArguments(sc.value)
    ensures Opening(env) + (ARGUMENTS + (sc.value + sc.more)) == env.bot + WithArguments(sc.value + sc.more)
    ensures env.bot + WithArguments(sc.value) + sc.more == env.bot + WithArguments(sc.value + sc.more)
    ensures env.bot + WithArguments(sc.value + sc.more) + RENAME == env.bot + WithArguments(sc.value + sc.more + RENAME)
    ensures env.bot + WithArguments(sc.value) + (sc.more + RENAME)
         == env.bot + WithArguments(sc.value + sc.more + RENAME)
  {
    hide Opening;
    assert Opening(env) == env.bot + NAME_ONLY by { Opened(env); }
  }

  lemma {:induction false} Opened(env: Env)
    ensures Opening(env) == env.bot + NAME_ONLY
  {
  }

  const NAMED: Entry := Entry(Some("f"), None)

  function Cached(text: string): Entry { Entry(Some("f"), Some(text)) }

  /** A call that is named in an empty slot. */
  lemma {:induction false} FirstName(env: Env, streamed: seq<string>, prev: seq<Entry>)
    ensures var e := Then(env, State("", -1, false, streamed, prev), NAME_ONLY, Named);
      && !e.threw && e.result.calls == [Item(0, Some("f"), "")]
      && e.state == State(Opening(env), 0, true, streamed + [""], if prev == [] then [NAMED] else prev[0 := NAMED])
  {
  }

  lemma {:induction false} FirstCompletes(env: Env, sc: Script)
    ensures var st := State(Opening(env), 0, true, [""], [NAMED]);
      var e := Then(env, st, WithArguments(sc.last + "}"), Closed(sc.final));
      !e.threw && e.state == State("", 1, false, [""], [NO_ENTRY, Cached(sc.final)])
  {
  }

  lemma {:induction false} SecondName(env: Env, sc: Script)
    ensures var e := Then(env, State("", 1, false, [""], [NO_ENTRY, Cached(sc.final)]), NAME_ONLY, Named);
      !e.threw && e.state == State(Opening(env), 1, true, ["", ""], [NO_ENTRY, NAMED])
  {
    assert Padded([""], 2, "") == ["", ""];
  }

  lemma {:induction false} Dropped(env: Env, st: State, s: string)
    requires st.Valid() && |st.streamed| == 2
    ensures var e := Then(env, st, s, Renamed);
      !e.threw && e.state == State("", -1, false, [st.streamed[0]], st.prev)
  {
  }

  lemma {:induction false} FirstShown(env: Env, buffer: string, s: string, p: string)
    ensures var e := Then(env, State(buffer, 0, true, ["", ""], [NAMED, NAMED]), s, Shown(p));
      !e.threw && e.state == State(env.bot + s, 0, true, ["", ""], [Cached(p), NAMED])
  {
  }

  lemma {:induction false} SecondShown(env: Env, buffer: string, s: string, p: string, p': string)
    requires p != p'
    ensures var e := Then(env, State(buffer, 0, true, ["", ""], [Cached(p), NAMED]), s, Shown(p'));
      !e.threw && e.state == State(env.bot + s, 0, true, [CommonPrefix(p, p'), ""], [Cached(p'), NAMED])
  {
    hide CommonPrefix;
    var q := CommonPrefix(p, p');
    var st := State(env.bot + s, 0, true, ["", ""], [Cached(p), NAMED]);
    assert Agreed(st, p') == Some(q);
    assert q[0..] == q && "" + q == q;
    assert ["", ""][0 := q] == [q, ""];
  }

  /** Two calls: one complete, one dropped because it is renamed. */
  function TwoCalls(env: Env, sc: Script): seq<string> { [Opening(env), Ending(sc), Opening(env), RENAME] }

  lemma {:induction false} AfterTwo(env: Env, sc: Script, rest: seq<string>)
    requires Parses(env, sc)
    ensures var st := State("", -1, false, [""], [NO_ENTRY, NAMED]);
      var r, more := Run(env, INITIAL, TwoCalls(env, sc) + rest), Run(env, st, rest);
      st.Valid() && r.state == more.state && r.threw == more.threw
  {
    hide Run, Then, Means, Opening, Ending, WithArguments;
    Buffers(env, sc);
    var s1 := State(Opening(env), 0, true, [""], [NAMED]);
    var s2 := State("", 1, false, [""], [NO_ENTRY, Cached(sc.final)]);
    var s3 := State(Opening(env), 1, true, ["", ""], [NO_ENTRY, NAMED]);
    FirstName(env, [], []);
    FirstCompletes(env, sc);
    SecondName(env, sc);
    Dropped(env, s3, NAME_ONLY + RENAME);
    assert [] + [""] == [""];
    NextText(env, INITIAL, Opening(env), [Ending(sc), Opening(env), RENAME] + rest, NAME_ONLY, Named);
    NextText(env, s1, Ending(sc), [Opening(env), RENAME] + rest, WithArguments(sc.last + "}"), Closed(sc.final));
    NextText(env, s2, Opening(env), [RENAME] + rest, NAME_ONLY, Named);
    NextText(env, s3, RENAME, rest, NAME_ONLY + RENAME, Renamed);
    Lists(Opening(env), Ending(sc), Opening(env), RENAME, rest);
  }

  lemma {:induction false} Lists(a: string, b: string, c: string, d: string, rest: seq<string>)
    ensures [a, b, c, d] + rest == [a] + ([b, c, d] + rest) && [b, c, d] + rest == [b] + ([c, d] + rest)
    ensures [c, d] + rest == [c] + ([d] + rest)
  {
  }

  /** A third call that is dropped while its arguments are streamed. */
  function StaleStream(env: Env, sc: Script): seq<string> {
    TwoCalls(env, sc) + [Opening(env), ARGUMENTS + sc.value, sc.more, RENAME]
  }

  lemma {:induction false} Reached(env: Env, sc: Script)
    requires Parses(env, sc) && sc.first != sc.second
    ensures var r := Run(env, INITIAL, StaleStream(env, sc));
      !r.threw && r.state == State("", -1, false, [CommonPrefix(sc.first, sc.second)], [Cached(sc.second), NAMED])
  {
    hide Run, CommonPrefix, Then, Means, Opening, WithArguments, TwoCalls;
    Buffers(env, sc);
    var q := CommonPrefix(sc.first, sc.second);
    var third := [Opening(env), ARGUMENTS + sc.value, sc.more, RENAME];
    AfterTwo(env, sc, third);
    var s4 := State("", -1, false, [""], [NO_ENTRY, NAMED]);
    var s5 := State(Opening(env), 0, true, ["", ""], [NAMED, NAMED]);
    var s6 := State(env.bot + WithArguments(sc.value), 0, true, ["", ""], [Cached(sc.first), NAMED]);
    var s7 := State(env.bot + WithArguments(sc.value + sc.more), 0, true, [q, ""], [Cached(sc.second), NAMED]);
    FirstName(env, [""], [NO_ENTRY, NAMED]);
    FirstShown(env, Opening(env), WithArguments(sc.value), sc.first);
    SecondShown(env, s6.buffer, WithArguments(sc.value + sc.more), sc.first, sc.second);
    Dropped(env, s7, WithArguments(sc.value + sc.more + RENAME));
    assert [""] + [""] == ["", ""] && [NO_ENTRY, NAMED][0 := NAMED] == [NAMED, NAMED];
    Lists(Opening(env), ARGUMENTS + sc.value, sc.more, RENAME, []);
    assert third + [] == third;
    NextText(env, s4, Opening(env), [ARGUMENTS + sc.value, sc.more, RENAME] + [], NAME_ONLY, Named);
    NextText(env, s5, ARGUMENTS + sc.value, [sc.more, RENAME] + [], WithArguments(sc.value), Shown(sc.first));
    NextText(env, s6, sc.more, [RENAME] + [], WithArguments(sc.value + sc.more), Shown(sc.second));
    NextText(env, s7, RENAME, [], WithArguments(sc.value + sc.more + RENAME), Renamed);
    NothingLeft(env, State("", -1, false, [q], [Cached(sc.second), NAMED]));
  }

  lemma {:induction false} NothingLeft(env: Env, st: State)
    requires st.Valid()
    ensures Run(env, st, []) == Outcome(st, [], "", false)
  {
  }

  /** A state it does harm to is reached: a call, a second one dropped for an undeclared
  name, a third one that is dropped while its arguments are streamed. The fourth then
  starts with the third one's text, and its first bytes are never sent. */
  lemma {:induction false} StaleSlot(env: Env, sc: Script)
    requires Parses(env, sc) && sc.first != sc.second && CommonPrefix(sc.first, sc.second) != ""
    requires |CommonPrefix(sc.first, sc.second)| <= |sc.final|
    ensures var before := CommonPrefix(sc.first, sc.second);
      var r := Run(env, INITIAL, StaleStream(env, sc));
      var next := Run(env, r.state, [Opening(env), Ending(sc)]);
      && !r.threw && r.state.streamed == [before] && !Ready(r.state)
      && !next.threw && ArgsFor(next.calls, 0) == sc.final[|before|..] != sc.final
  {
    hide Run, CommonPrefix, Then, Means, Opening, Ending, WithArguments, StaleStream;
    Buffers(env, sc);
    var before := CommonPrefix(sc.first, sc.second);
    Reached(env, sc);
    var st := State("", -1, false, [before], [Cached(sc.second), NAMED]);
    FirstName(env, [before], [Cached(sc.second), NAMED]);
    var named := State(Opening(env), 0, true, [before, ""], [NAMED, NAMED]);
    assert [before] + [""] == [before, ""] && [Cached(sc.second), NAMED][0 := NAMED] == [NAMED, NAMED];
    StaleCompletes(env, sc, before);
    NextText(env, st, Opening(env), [Ending(sc)], NAME_ONLY, Named);
    NextText(env, named, Ending(sc), [], WithArguments(sc.last + "}"), Closed(sc.final));
    assert [Opening(env)] + [Ending(sc)] == [Opening(env), Ending(sc)] && [Ending(sc)] + [] == [Ending(sc)];
    var items, e2 := [Item(0, Some("f"), "")], Then(env, named, WithArguments(sc.last + "}"), Closed(sc.final));
    NothingLeft(env, e2.state);
    assert items[1..] == [] && ArgsFor([], 0) == "" && ArgsFor(items, 0) == "";
    ArgsAppend(items, e2.result.calls + [], 0);
    ArgsAppend(e2.result.calls, [], 0);
  }

  lemma {:induction false} StaleCompletes(env: Env, sc: Script, before: string)
    requires |before| <= |sc.final|
    ensures var e := Then(env, State(Opening(env), 0, true, [before, ""], [NAMED, NAMED]),
                          WithArguments(sc.last + "}"), Closed(sc.final));
      !e.threw && e.state.Valid() && ArgsFor(e.result.calls, 0) == sc.final[|before|..]
  {
    OneDelta(0, sc.final[|before|..]);
  }

  /** A call and one that is dropped for an undeclared name after its arguments were shown;
  then one that is shown once. */
  function MissStream(env: Env, sc: Script): seq<string> {
    [Opening(env), Ending(sc), Opening(env), ARGUMENTS + sc.value]
    + [sc.more + RENAME, Opening(env), ARGUMENTS + (sc.value + sc.more)]
  }

  /** After a reset the flush looks past the open call: here nothing of the open call 0 was
  streamed, and the flush sends the arguments of the dropped call under index 1. */
  lemma {:induction false} FlushMisses(env: Env, sc: Script)
    requires Parses(env, sc) && sc.first != "" && sc.second != ""
    ensures var r := Run(env, INITIAL, MissStream(env, sc));
      && !r.threw && r.state.nameSent && r.state.toolId == 0
      && Remaining(r.state, 0) == sc.second && Flushed(r.state, 0) == "" && Flush(r.state) == Some((sc.first, 1))
  {
    hide Run, Then, Cached, Remaining, Flushed, Flush, Means, Opening, Ending, WithArguments;
    Buffers(env, sc);
    var s1 := State(Opening(env), 0, true, [""], [NAMED]);
    var s2 := State("", 1, false, [""], [NO_ENTRY, Cached(sc.final)]);
    var s3 := State(Opening(env), 1, true, ["", ""], [NO_ENTRY, NAMED]);
    var s4 := State(env.bot + WithArguments(sc.value), 1, true, ["", ""], [NO_ENTRY, Cached(sc.first)]);
    var rest := [sc.more + RENAME, Opening(env), ARGUMENTS + (sc.value + sc.more)];
    FirstName(env, [], []);
    FirstCompletes(env, sc);
    SecondName(env, sc);
    ShownInSecond(env, WithArguments(sc.value), sc.first);
    assert [] + [""] == [""];
    NextText(env, INITIAL, Opening(env), [Ending(sc), Opening(env), ARGUMENTS + sc.value] + rest, NAME_ONLY, Named);
    NextText(env, s1, Ending(sc), [Opening(env), ARGUMENTS + sc.value] + rest,
             WithArguments(sc.last + "}"), Closed(sc.final));
    NextText(env, s2, Opening(env), [ARGUMENTS + sc.value] + rest, NAME_ONLY, Named);
    NextText(env, s3, ARGUMENTS + sc.value, rest, WithArguments(sc.value), Shown(sc.first));
    Lists(Opening(env), Ending(sc), Opening(env), ARGUMENTS + sc.value, rest);
    ThenMisses(env, sc, s4);
  }

  lemma {:induction false} ThenMisses(env: Env, sc: Script, s4: State)
    requires Parses(env, sc) && sc.first != "" && sc.second != ""
    requires s4 == State(env.bot + WithArguments(sc.value), 1, true, ["", ""], [NO_ENTRY, Cached(sc.first)])
    ensures var r := Run(env, s4, [sc.more + RENAME, Opening(env), ARGUMENTS + (sc.value + sc.more)]);
      && !r.threw && r.state.nameSent && r.state.toolId == 0
      && Remaining(r.state, 0) == sc.second && Flushed(r.state, 0) == "" && Flush(r.state) == Some((sc.first, 1))
  {
    hide Run, Then, Cached, Remaining, Flushed, Flush, Means, Opening, WithArguments;
    Buffers(env, sc);
    var renamed, shown := sc.more + RENAME, ARGUMENTS + (sc.value + sc.more);
    var s5 := State("", -1, false, [""], [NO_ENTRY, Cached(sc.first)]);
    var s6 := State(Opening(env), 0, true, ["", ""], [NAMED, Cached(sc.first)]);
    var s7 := State(env.bot + WithArguments(sc.value + sc.more), 0, true, ["", ""],
                    [Cached(sc.second), Cached(sc.first)]);
    Dropped(env, s4, WithArguments(sc.value + sc.more + RENAME));
    FirstName(env, [""], [NO_ENTRY, Cached(sc.first)]);
    ShownInFirst(env, WithArguments(sc.value + sc.more), sc.second, Cached(sc.first));
    assert [""] + [""] == ["", ""];
    assert [NO_ENTRY, Cached(sc.first)][0 := NAMED] == [NAMED, Cached(sc.first)];
    NextText(env, s4, renamed, [Opening(env), shown], WithArguments(sc.value + sc.more + RENAME), Renamed);
    NextText(env, s5, Opening(env), [shown], NAME_ONLY, Named);
    NextText(env, s6, shown, [], WithArguments(sc.value + sc.more), Shown(sc.second));
    assert [renamed] + [Opening(env), shown] == [renamed, Opening(env), shown];
    assert [Opening(env)] + [shown] == [Opening(env), shown] && [shown] + [] == [shown];
    NothingLeft(env, s7);
    OldEntryFlushed(sc, s7);
  }

  lemma {:induction false} OldEntryFlushed(sc: Script, st: State)
    requires sc.first != "" && sc.second != ""
    requires st == State(st.buffer, 0, true, ["", ""], [Cached(sc.second), Cached(sc.first)])
    ensures Remaining(st, 0) == sc.second && Flushed(st, 0) == "" && Flush(st) == Some((sc.first, 1))
  {
    assert sc.second[0..] == sc.second && sc.first[0..] == sc.first;
  }

  lemma {:induction false} ShownInSecond(env: Env, s: string, p: string)
    ensures var e := Then(env, State(Opening(env), 1, true, ["", ""], [NO_ENTRY, NAMED]), s, Shown(p));
      !e.threw && e.state == State(env.bot + s, 1, true, ["", ""], [NO_ENTRY, Cached(p)])
  {
  }

  lemma {:induction false} ShownInFirst(env: Env, s: string, p: string, other: Entry)
    ensures var e := Then(env, State(Opening(env), 0, true, ["", ""], [NAMED, other]), s, Shown(p));
      !e.threw && e.state == State(env.bot + s, 0, true, ["", ""], [Cached(p), other])
  {
  }

  /** Texts of this kind: the arguments {"a":"x, then {"a":"xy"}, and {"a":"xyz"} of another
  call. */
  const EXAMPLE: Script := Script("{\"a\":\"x", "y\"}", "{\"a\":\"xyz\"}", Printed("x"), Printed("xy"), Printed("xyz"))

  function Printed(v: string): string { "{\"a\":\"" + v + "\"}" }

  function NamedJson(name: string): Json { Obj(map["name" := Str(name)]) }

  function ShownJson(v: string): Json { Obj(map["name" := Str("f"), "arguments" := Obj(map["a" := Str(v)])]) }

  /** A library that knows these texts, which differ in length. */
  const LIBRARY: Env := Env("<tool_call>\n", "\n</tool_call>", "\n", {"f"}, (s: string) => true,
    (s: string, sent: bool) =>
      Some(Loaded(if |s| == |NAME_ONLY| then NamedJson("f")
                  else if |s| == |WithArguments(EXAMPLE.value)| then ShownJson("x")
                  else if |s| == |WithArguments(EXAMPLE.value + EXAMPLE.more)| then ShownJson("xy")
                  else if |s| == |WithArguments(EXAMPLE.last + "}")| then ShownJson("xyz")
                  else NamedJson("g"), |s|)),
    (s: string) => |s| == |WithArguments(EXAMPLE.last + "}")|,
    (j: Json) => match Field(j, "a") case Some(Str(v)) => Some(Printed(v)) case _ => None)

  lemma {:induction false} NamedDenotes(env: Env)
    ensures Denotes(env, NamedJson("f"), Named) && Denotes(env, NamedJson("g"), Renamed)
  {
  }

  lemma {:induction false} ShownDenotes(v: string, closed: bool)
    ensures Denotes(LIBRARY, ShownJson(v), if closed then Closed(Printed(v)) else Shown(Printed(v)))
  {
    ShownFields(v);
    ArgumentsPrint(v);
    hide NameOf, Field, Empty, LIBRARY, Printed, ShownJson;
  }

  lemma {:induction false} ShownFields(v: string)
    ensures var j := ShownJson(v);
      && NameOf(j) == Some("f") && Field(j, "parameters").None? && !Empty(j)
      && Field(j, "arguments") == Some(Obj(map["a" := Str(v)]))
  {
    KeysDiffer();
    assert "name" in ShownJson(v).fields;
  }

  lemma {:induction false} ArgumentsPrint(v: string)
    ensures LIBRARY.dump(Obj(map["a" := Str(v)])) == Some(Printed(v))
  {
  }

  lemma {:induction false} Lengths()
    ensures |NAME_ONLY| == 11 && |RENAME| == 11 && |ARGUMENTS| == 13
    ensures |EXAMPLE.value| == 7 && |EXAMPLE.more| == 3 && |EXAMPLE.last| == 11
  {
  }

  /** The results above are about streams that exist. */
  lemma {:induction false} ExampleParses()
    ensures Parses(LIBRARY, EXAMPLE) && EXAMPLE.first != EXAMPLE.second
    ensures CommonPrefix(EXAMPLE.first, EXAMPLE.second) != ""
    ensures |CommonPrefix(EXAMPLE.first, EXAMPLE.second)| <= |EXAMPLE.final|
  {
    Lengths();
    NamedDenotes(LIBRARY);
    ShownDenotes("x", false);
    ShownDenotes("xy", false);
    ShownDenotes("xyz", true);
    hide Denotes, NamedJson, ShownJson;
    assert EXAMPLE.first[0] == '{' == EXAMPLE.second[0];
  }

  // ---------------------------------------------------------------------
  // Keys that are printed earlier than they arrive.

  function Member(key: string, value: string): string { "\"" + key + "\":" + value }

  function One(key: string, value: string): string { "{" + Member(key, value) + "}" }

  function Two(key1: string, value1: string, key2: string, value2: string): string {
    "{" + Member(key1, value1) + "," + Member(key2, value2) + "}"
  }

  predicate NoQuote(s: string) { forall i | 0 <= i < |s| :: s[i] != '"' }

  /** The beginning of an object tells which key is printed first. */
  lemma {:induction false} FirstKey(key: string, other: string, rest: string)
    requires NoQuote(key) && NoQuote(other)
    ensures "{\"" + key + "\":" <= "{\"" + other + "\":" + rest ==> key == other
  {
    var head, text := "{\"" + key + "\":", "{\"" + other + "\":" + rest;
    if head <= text {
      var tail := text[|head|..];
      assert text == head + tail;
      assert text[2..] == key + ['"'] + (":" + tail);
      assert text[2..] == other + ['"'] + (":" + rest);
      QuotedOnce(key, other, ":" + tail, ":" + rest);
    }
  }

  lemma {:induction false} QuotedOnce(key: string, other: string, a: string, b: string)
    requires NoQuote(key) && NoQuote(other) && key + ['"'] + a == other + ['"'] + b
    ensures key == other
  {
    var s, t := key + ['"'] + a, other + ['"'] + b;
    assert s[0] == t[0];
    if key != "" && other != "" {
      assert s[1..] == key[1..] + ['"'] + a && t[1..] == other[1..] + ['"'] + b;
      QuotedOnce(key[1..], other[1..], a, b);
    }
  }

  lemma {:induction false} OnesAgree(key: string, value1: string, value2: string)
    ensures "{\"" + key + "\":" <= CommonPrefix(One(key, value1), One(key, value2))
    ensures value1 != value2 ==> One(key, value1) != One(key, value2)
  {
    var head := "{\"" + key + "\":";
    var a, b := One(key, value1), One(key, value2);
    assert a == head + (value1 + "}") && b == head + (value2 + "}");
    CommonPrefixLongest(a, b, head);
    if a == b {
      assert value1 + "}" == a[|head|..] == b[|head|..] == value2 + "}";
      assert value1 == (value1 + "}")[..|value1|] && value2 == (value2 + "}")[..|value2|];
    }
  }

  /** A call whose object of arguments has one member, whose value grows, and then a second:
  as it is written, and as it prints with sorted keys. */
  ghost predicate Sorted(env: Env, key: string, value: string, more: string, other: string, value2: string) {
    var start := "{" + Member(key, value);
    && Calls(env)
    && Means(env, true, WithArguments(start), Shown(One(key, value)))
    && Means(env, true, WithArguments(start + more), Shown(One(key, value + more)))
    && Means(env, true, WithArguments(start + more + ("," + Member(other, value2) + "}}")),
             Closed(Two(other, value2, key, value + more)))
  }

  /** Printing sorts the keys. Whenever a key that arrives later is printed before one
  whose value was still growing, what was streamed is not a beginning of the final
  arguments; and the stream of this call does not add up. */
  lemma {:induction false} SortedKeysReorder(env: Env, key: string, value: string, more: string, other: string,
                                             value2: string)
    requires key != other && NoQuote(key) && NoQuote(other) && more != ""
    requires Sorted(env, key, value, more, other, value2)
    ensures var final := Two(other, value2, key, value + more);
      && !Stable([One(key, value), One(key, value + more), final])
      && (var r := Run(env, INITIAL, [Opening(env), ARGUMENTS + ("{" + Member(key, value)), more,
                                      "," + Member(other, value2) + "}}"]);
          r.threw || ArgsFor(r.calls, 0) != final)
  {
    Reordered(key, value, more, other, value2);
    var start, end := "{" + Member(key, value), "," + Member(other, value2) + "}}";
    hide One, Two, Member, Stable, Opening, Run, Means;
    ShownInTurn(env, start, more, end, One(key, value), One(key, value + more), Two(other, value2, key, value + more));
  }

  lemma {:induction false} Reordered(key: string, value: string, more: string, other: string, value2: string)
    requires key != other && NoQuote(key) && NoQuote(other) && more != ""
    ensures !Stable([One(key, value), One(key, value + more), Two(other, value2, key, value + more)])
  {
    var first, second, final := One(key, value), One(key, value + more), Two(other, value2, key, value + more);
    assert value != value + more;
    OnesAgree(key, value, value + more);
    var b := value2 + "," + Member(key, value + more) + "}";
    TwoStarts(other, value2, key, value + more);
    FirstKey(key, other, b);
    var q := CommonPrefix(first, second);
    hide CommonPrefix, One, Two, Member, Stable;
    assert !(q <= final);
    NotStable(first, second, final);
  }

  lemma {:induction false} TwoStarts(key1: string, value1: string, key2: string, value2: string)
    ensures Two(key1, value1, key2, value2) == "{\"" + key1 + "\":" + (value1 + "," + Member(key2, value2) + "}")
  {
  }

  lemma {:induction false} NotStable(a: string, b: string, c: string)
    requires a != b && !(CommonPrefix(a, b) <= c)
    ensures !Stable([a, b, c])
  {
    hide CommonPrefix;
    var later := [a, b, c][2..];
    assert later[0] == c;
  }

  /** A call whose arguments are shown twice and completed. */
  lemma {:induction false} ShownInTurn(env: Env, value: string, more: string, end: string, first: string,
                                       second: string, final: string)
    requires Calls(env)
    requires Means(env, true, WithArguments(value), Shown(first))
    requires Means(env, true, WithArguments(value + more), Shown(second))
    requires Means(env, true, WithArguments(value + more + end), Closed(final))
    ensures var r := Run(env, INITIAL, [Opening(env), ARGUMENTS + value, more, end]);
      !r.threw && ArgsFor(r.calls, 0) == final <==> Stable([first, second, final])
  {
    hide Read, Stable, Run, ArgsFor, Feeds, Means, Opening;
    var texts, snaps := [ARGUMENTS + value, more, end], [first, second, final];
    Opened(env);
    MeaningRead(env, -1, false, NAME_ONLY, Named);
    assert "" + Opening(env) == env.bot + NAME_ONLY;
    FeedsInTurn(env, value, more, end, first, second, final);
    DeltasAddUp(env, INITIAL, Opening(env), texts, snaps, true);
    assert [Opening(env)] + texts == [Opening(env), ARGUMENTS + value, more, end];
    var r := Run(env, INITIAL, [Opening(env), ARGUMENTS + value, more, end]);
    assert ArgsFor(r.calls, 0) + "" == ArgsFor(r.calls, 0);
  }

  lemma {:induction false} FeedsInTurn(env: Env, value: string, more: string, end: string, first: string,
                                       second: string, final: string)
    requires Calls(env)
    requires Means(env, true, WithArguments(value), Shown(first))
    requires Means(env, true, WithArguments(value + more), Shown(second))
    requires Means(env, true, WithArguments(value + more + end), Closed(final))
    ensures Feeds(env, Opening(env), 0, [ARGUMENTS + value, more, end], [first, second, final], true, true)
  {
    hide Read, Means;
    MeaningRead(env, 0, true, WithArguments(value), Shown(first));
    MeaningRead(env, 0, true, WithArguments(value + more), Shown(second));
    MeaningRead(env, 0, true, WithArguments(value + more + end), Closed(final));
    var b1, b2 := env.bot + WithArguments(value), env.bot + WithArguments(value + more);
    assert Opening(env) + (ARGUMENTS + value) == b1 && b1 + more == b2;
    assert b2 + end == env.bot + WithArguments(value + more + end);
    assert [ARGUMENTS + value, more, end][1..] == [more, end] && [more, end][1..] == [end];
    assert [first, second, final][1..] == [second, final] && [second, final][1..] == [final];
    assert Feeds(env, b2, 0, [end], [final], true, false);
    assert Feeds(env, b1, 0, [more, end], [second, final], true, false);
  }
}
