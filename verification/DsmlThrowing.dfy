/** Parsing that throws: exactly when it makes the calls depend on the chunking, and a
text for which it does. */
module DsmlThrowing {
  import opened Text
  import opened Json
  import opened ToolCalls
  import opened Utf8
  import opened DsmlSyntax
  import opened DsmlParams
  import opened DsmlDetector
  import opened DsmlStreaming
  import opened DsmlTheorems
  import opened DsmlProse
  import opened DsmlOneShot
  import opened DsmlRendering

  // ---------------------------------------------------------------------
  // A text that parses wherever it is cut.

  lemma {:induction false} StepIsSafe(env: Env, received: string, total: string, st: State, sent: seq<Item>,
                                      done: seq<Call>, chunk: string, full: string)
    requires Tracks(env, received, total, st, sent, done)
    requires chunk != "" && received + chunk <= full && Complete(full)
    requires !QuotedKey(full) && NoThrow(env, full)
    ensures !StepThrows(env, st, chunk)
  {
    hide Complete, ReleasedLength, PartialChar, Suspicious, PotentiallyDsml, QuotedKey, Describes, FirstInvoke, Invokes,
         InvokeLoop, AllParse, CachedCalls, ItemsOf;
    var merged := st.held + chunk;
    var more := full[|received + chunk|..];
    assert full == total + (merged + more);
    var n := Receive(total, merged, more);
    var total', s := total + merged[..n], st.buffer + merged[..n];
    var st1 := Received(st, chunk);
    assert st1 == st.(held := merged[n..], buffer := s);
    assert total' == full[..|total'|];
    Continue(total, st.buffer, merged[..n], done);
    LaterParse(env, total', done, s);
    LoopThrows(env, st1, s, []);
  }

  lemma {:induction false} LaterParse(env: Env, total: string, done: seq<Call>, s: string)
    requires Invokes(total) == done + Invokes(s) && AllParse(env, Invokes(total))
    ensures AllParse(env, Invokes(s))
  {
    hide Invokes, Arguments;
    forall c | c in Invokes(s) ensures c in Invokes(total) {}
  }

  lemma {:induction false} NoneThrows(env: Env, received: string, total: string, st: State, sent: seq<Item>,
                                      done: seq<Call>, chunks: seq<string>, full: string)
    requires st.Valid() && Tracks(env, received, total, st, sent, done)
    requires NonEmpty(chunks) && received + Flatten(chunks) <= full && Complete(full)
    requires !QuotedKey(full) && NoThrow(env, full)
    ensures NoneThrow(env, st, chunks)
    decreases |chunks|
  {
    hide Tracks, Complete, QuotedKey, NoThrow, StepThrows, Step;
    if chunks != [] {
      var c, rest := chunks[0], Flatten(chunks[1..]);
      assert received + Flatten(chunks) == received + c + rest;
      assert c in chunks && forall d | d in chunks[1..] :: d in chunks;
      assert received + c <= full by {
        assert full[..|received + c|] == (received + c + rest)[..|received + c|] == received + c;
      }
      StepIsSafe(env, received, total, st, sent, done, c, full);
      var total1, done1 := StepTracks(env, received, total, st, sent, done, c, full);
      var (st1, r) := Step(env, st, c);
      NoneThrows(env, received + c, total1, st1, sent + r.calls, done1, chunks[1..], full);
    }
  }

  lemma {:induction false} NeverThrows(env: Env, text: string, chunks: seq<string>)
    requires Complete(text) && !QuotedKey(text) && NoThrow(env, text) && Cuts(chunks, text)
    ensures NoneThrow(env, INITIAL, chunks)
  {
    hide Complete, QuotedKey, NoThrow, Tracks, Flatten, NoneThrow;
    TracksInitial(env);
    assert "" + Flatten(chunks) == text;
    NoneThrows(env, "", "", INITIAL, [], [], chunks, text);
  }

  // ---------------------------------------------------------------------
  // A text that does not, cut where it throws.

  lemma {:induction false} EndsWithItself(s: string)
    ensures EndsWith(s, s)
  {
    assert s[0..] == s;
  }

  lemma {:induction false} SuffixOfSuffix(s: string, n: nat, r: string)
    requires n <= |s| && EndsWith(s[n..], r)
    ensures EndsWith(s, r)
  {
    assert s[n..][|s| - n - |r|..] == s[|s| - |r|..];
  }

  lemma {:induction false} PreparedFields(st: State)
    requires st.Valid()
    ensures Prepared(st).buffer == st.buffer && Prepared(st).held == st.held
  {
  }

  /** After a throw the current tool counts as named, whatever was lost. */
  lemma {:induction false} LoopState(env: Env, st: State, text: string, calls: seq<Item>)
    requires st.Valid() && st.buffer == text
    ensures var r := InvokeLoop(env, st, text, calls);
      && EndsWith(text, r.state.buffer) && r.state.held == st.held
      && (r.threw ==> r.state.nameSent && r.state.toolId >= 0)
    decreases |text|
  {
    hide FirstInvoke, Arguments, EndsWith;
    EndsWithItself(text);
    if FirstInvoke(text).Some? {
      var v := FirstInvoke(text).value;
      PreparedFields(st);
      hide Prepared;
      var (named, announcement) := Announced(Prepared(st), v.name);
      if Arguments(env.lib, v.body, !v.closed).Some? && v.closed {
        var args, rest := Arguments(env.lib, v.body, false).value, text[v.end..];
        var closed := Closing(named, v.name, args, rest);
        var more := calls + announcement + [Item(named.toolId, None, args)];
        LoopState(env, closed, rest, more);
        SuffixOfSuffix(text, v.end, InvokeLoop(env, closed, rest, more).state.buffer);
      }
    }
  }

  /** Index `j` is no longer named. */
  predicate Past(st: State, j: nat) { st.Valid() && (st.toolId > j || (st.toolId == j && st.nameSent)) }

  lemma {:induction false} LoopNames(env: Env, st: State, text: string, calls: seq<Item>, j: nat)
    requires Past(st, j)
    ensures var r := InvokeLoop(env, st, text, calls);
      NamesFor(r.calls, j) == NamesFor(calls, j) && Past(r.state, j)
    decreases |text|
  {
    hide FirstInvoke, Arguments;
    if FirstInvoke(text).Some? {
      var v := FirstInvoke(text).value;
      var (named, announcement) := Announced(Prepared(st), v.name);
      NoName(named.toolId, announcement, calls, j);
      if Arguments(env.lib, v.body, !v.closed).Some? && v.closed {
        var args, rest := Arguments(env.lib, v.body, false).value, text[v.end..];
        var item := Item(named.toolId, None, args);
        NoName(named.toolId, [item], calls + announcement, j);
        LoopNames(env, Closing(named, v.name, args, rest), rest, calls + announcement + [item], j);
      }
    }
  }

  lemma {:induction false} NoName(id: int, items: seq<Item>, calls: seq<Item>, j: nat)
    requires |items| <= 1 && forall x | x in items :: x.index == id && (x.name.Some? ==> id != j)
    ensures NamesFor(calls + items, j) == NamesFor(calls, j)
  {
    NamesAppend(calls, items, j);
    if items != [] {
      assert items[0] in items && items[1..] == [];
    }
  }

  /** The step in which the text arrives. */
  lemma {:induction false} FirstStep(env: Env, text: string)
    requires Complete(text) && text != "" && FirstInvoke(text).Some?
    ensures Received(INITIAL, text) == INITIAL.(buffer := text)
    ensures StepThrows(env, INITIAL, text) <==> !AllParse(env, Invokes(text))
    ensures Step(env, INITIAL, text) == DsmlStep(env, INITIAL.(buffer := text))
  {
    hide Complete, QuotedKey, ReleasedLength, InvokeLoop, AllParse, FirstInvoke, Suspicious, PotentiallyDsml;
    SplitsAtCharacter(text, "");
    assert text + "" == text && "" + text == text && text[..|text|] == text && text[|text|..] == "";
    OpenIsDsml(env.fmt, text);
    LoopThrows(env, INITIAL.(buffer := text), text, []);
  }

  lemma {:induction false} HasTag(text: string)
    requires FirstInvoke(text).Some?
    ensures Has(text, INVOKE)
  {
    hide HeadAt;
    if !Has(text, INVOKE) {
      NoTagNoMatch(text, FirstHead(text, 0).value);
    }
  }

  /** While an invoke is open, the buffer is neither flushed nor read as JSON. */
  lemma {:induction false} OpenIsDsml(fmt: Format, text: string)
    requires FirstInvoke(text).Some?
    ensures Suspicious(fmt, text) && PotentiallyDsml(text)
  {
    HasTag(text);
    TagStartsWithMark();
    PrefixOccurs(text, INVOKE, OPEN_MARK);
    hide Has, EndsWithPrefix, EndsWithOpenBrace, QuotedKey, KeyPosition;
  }

  lemma {:induction false} TagStartsWithMark()
    ensures OPEN_MARK <= INVOKE
  {
  }

  lemma {:induction false} PrefixOccurs(text: string, pat: string, part: string)
    requires Has(text, pat) && part <= pat
    ensures Has(text, part)
  {
    hide Find;
    var p :| OccursAt(text, pat, p);
    assert text[p..p + |part|] == text[p..p + |pat|][..|part|] == part;
    assert OccursAt(text, part, p);
  }

  /** A step without a JSON block never names the index again. */
  lemma {:induction false} LaterStep(env: Env, st: State, chunk: string, j: nat)
    requires Past(st, j) && !EmitsJson(env, st, chunk)
    ensures NamesFor(Step(env, st, chunk).1.calls, j) == [] && Past(Step(env, st, chunk).0, j)
  {
    hide QuotedKey, Suspicious, ReleasedLength, InvokeLoop, HasToolCall, PotentiallyDsml, AroundBlock, Numbered,
         JsonCalls;
    var st1 := Received(st, chunk);
    LoopNames(env, st1, st1.buffer, [], j);
    assert NamesFor([], j) == [];
  }

  lemma {:induction false} LostStep(env: Env, text: string)
    requires Complete(text) && !QuotedKey(text) && !AllParse(env, Invokes(text))
    ensures var (st, r) := Step(env, INITIAL, text);
      && r.calls == [] && EndsWith(text, st.buffer) && st.held == "" && Past(st, 0)
  {
    hide Complete, QuotedKey, AllParse, InvokeLoop, Step, FirstInvoke, Received;
    NothingParses(env, text);
    FirstStep(env, text);
    var st := INITIAL.(buffer := text);
    LoopThrows(env, st, text, []);
    LoopState(env, st, text, []);
  }

  /** The buffer of the next step is a part of the text. */
  lemma {:induction false} NextBuffer(text: string, st: State, rest: string) returns (a: string, c: string)
    requires EndsWith(text, st.buffer) && st.held == "" && rest != ""
    ensures text + rest == a + Received(st, rest).buffer + c
  {
    hide ReleasedLength, EndsWith;
    var n := ReleasedLength(rest);
    a, c := Middle(text, st.buffer, rest, n);
    assert "" + rest == rest;
  }

  lemma {:induction false} Middle(text: string, buffer: string, rest: string, n: nat) returns (a: string, c: string)
    requires EndsWith(text, buffer) && n <= |rest|
    ensures text + rest == a + (buffer + rest[..n]) + c
  {
    a, c := text[..|text| - |buffer|], rest[n..];
    var front := rest[..n];
    assert text == a + buffer && rest == front + c;
    Four(a, buffer, front, c);
  }

  lemma {:induction false} Four(a: string, b: string, c: string, d: string)
    ensures a + b + (c + d) == a + (b + c) + d
  {
  }

  /** What the step that throws would have announced is lost, and index 0 is never named. */
  lemma {:induction false} NeverNamed(env: Env, text: string, rest: string)
    requires Complete(text) && rest != "" && !QuotedKey(text + rest) && !AllParse(env, Invokes(text))
    ensures NamesFor(Run(env, INITIAL, [text, rest]).calls, 0) == []
  {
    hide Complete, QuotedKey, AllParse, Invokes, Step, Received, NamesFor, Past;
    assert "" + text + rest == text + rest;
    KeyInPart("", text, rest);
    LostStep(env, text);
    var (st, r) := Step(env, INITIAL, text);
    var a, c := NextBuffer(text, st, rest);
    KeyInPart(a, Received(st, rest).buffer, c);
    LaterStep(env, st, rest, 0);
    TwoSteps(env, text, rest);
    var later := Step(env, st, rest).1.calls;
    assert [] + later == later;
  }

  lemma {:induction false} TwoSteps(env: Env, text: string, rest: string)
    ensures var st := Step(env, INITIAL, text).0;
      Run(env, INITIAL, [text, rest]).calls == Step(env, INITIAL, text).1.calls + Step(env, st, rest).1.calls
  {
    hide Step;
    var st := Step(env, INITIAL, text).0;
    var later := Step(env, st, rest).1.calls;
    assert [text, rest][1..] == [rest] && [rest][1..] == [] && later + [] == later;
    assert Run(env, st, [rest]).calls == later + Run(env, Step(env, st, rest).0, []).calls;
  }

  lemma {:induction false} NothingParses(env: Env, text: string)
    requires !AllParse(env, Invokes(text))
    ensures text != "" && FirstInvoke(text).Some?
  {
    hide HeadAt, Arguments;
    NothingInEmpty();
  }

  lemma {:induction false} KeyInPart(a: string, b: string, c: string)
    requires !QuotedKey(a + b + c)
    ensures !QuotedKey(b)
  {
    hide Has;
    if Has(b, DOUBLE_QUOTED) { OccursInWhole(a, b, c, DOUBLE_QUOTED); }
    if Has(b, SINGLE_QUOTED) { OccursInWhole(a, b, c, SINGLE_QUOTED); }
  }

  // ---------------------------------------------------------------------
  // The same text, cut behind its first tag.

  lemma {:induction false} HeadCut(s: string, p: nat)
    requires p <= |s| && HeadAt(s, p).Match?
    ensures var h := HeadAt(s, p); HeadAt(s[..h.bodyFrom], p) == h && s[h.bodyFrom - 1] == '>'
  {
    hide AttributeAt, SkipSpace;
    var h := HeadAt(s, p);
    var a, tag := s[..h.bodyFrom], p + |INVOKE|;
    var attr := SkipSpace(s, tag);
    NameCut(s, attr);
    assert a[p..tag] == s[p..tag];
    SkipSpaceIs(a, tag, attr);
  }

  lemma {:induction false} NameCut(s: string, p: nat)
    requires p <= |s| && AttributeAt(s, p).Match?
    ensures var h := AttributeAt(s, p); AttributeAt(s[..h.bodyFrom], p) == h && s[h.bodyFrom - 1] == '>'
  {
    hide Find, SkipSpace;
    var h := AttributeAt(s, p);
    var a := s[..h.bodyFrom];
    assert a[p..p + |NAME|] == s[p..p + |NAME|];
    SkipSpaceIs(a, h.nameTo + 1, SkipSpace(s, h.nameTo + 1));
    QuoteCut(s, h.bodyFrom, h.nameFrom, h.nameTo);
  }

  lemma {:induction false} QuoteCut(s: string, n: nat, from: nat, at: nat)
    requires from <= at < n <= |s| && Find(s, QUOTE, from) == Some(at)
    ensures Find(s[..n], QUOTE, from) == Some(at)
  {
    hide Find;
    forall q | from <= q <= at ensures OccursAt(s[..n], QUOTE, q) <==> OccursAt(s, QUOTE, q) {
      assert s[..n][q..q + 1] == s[q..q + 1];
    }
    FindIs(s[..n], QUOTE, from, at);
  }

  lemma {:induction false} FirstHeadCut(s: string, p: nat, m: nat)
    requires p < m <= |s| && HeadAt(s[..m], p).Match? && NoHead(s, 0, p)
    ensures FirstHead(s[..m], 0) == Some(p)
  {
    hide HeadAt;
    assert s == s[..m] + s[m..];
    forall q | 0 <= q < p ensures !HeadAt(s[..m], q).Match? {
      HeadGrows(s[..m], s[m..], q);
    }
    FirstHeadIs(s[..m], p);
  }

  lemma {:induction false} EmptyInvoke(s: string, h: Head)
    requires h.Match? && h.nameFrom < h.nameTo < h.bodyFrom <= |s|
    ensures InvokeOf(s[..h.bodyFrom], h, INVOKE_END)
         == Invoke(InvokeOf(s, h, INVOKE_END).name, "", false, h.bodyFrom)
  {
    hide Find, TrimWhitespace;
    var a := s[..h.bodyFrom];
    assert a[h.nameFrom..h.nameTo] == s[h.nameFrom..h.nameTo] && a[h.bodyFrom..] == "";
    FindIsNone(a, INVOKE_END, h.bodyFrom);
  }

  /** Up to the end of the first tag, a text holds one open invoke with an empty body. */
  lemma {:induction false} FirstTag(s: string) returns (m: nat)
    requires FirstInvoke(s).Some?
    ensures 0 < m <= |s| && s[m - 1] == '>'
    ensures FirstInvoke(s[..m]) == Some(Invoke(FirstInvoke(s).value.name, "", false, m))
  {
    hide HeadAt, InvokeOf;
    var p := FirstHead(s, 0).value;
    var h := HeadAt(s, p);
    m := h.bodyFrom;
    HeadCut(s, p);
    FirstHeadCut(s, p, m);
    EmptyInvoke(s, h);
  }

  lemma {:induction false} NothingInEmptyBody()
    ensures TrimWhitespace("") == "" && NextParam("", 0).None? && StripEndTokens("", END_TOKENS) == ""
    ensures OpenParam("", 0).None?
  {
    NothingToStrip("", END_TOKENS);
  }

  lemma {:induction false} EmptyBodyParses(lib: Library)
    ensures Arguments(lib, "", true).Some?
  {
    NothingInEmptyBody();
    hide NextParam, OpenParam, StripEndTokens, TrimWhitespace;
    assert ""[0..] == "";
  }

  /** Nothing is stripped from a text that ends with none of the tokens. */
  lemma {:induction false} NothingToStrip(s: string, tokens: seq<string>)
    requires forall t | t in tokens :: !EndsWith(s, t) || t == ""
    ensures StripEndTokens(s, tokens) == s
    decreases |tokens|
  {
    if tokens != [] {
      assert tokens[0] in tokens && forall t | t in tokens[1..] :: t in tokens;
      NothingToStrip(s, tokens[1..]);
    }
  }

  lemma {:induction false} PartialLast(s: string)
    requires PartialChar(s)
    ensures CharLength(s[|s| - 1]) != 1
  {
    assert |s| > 1 ==> s[1..][|s| - 2] == s[|s| - 1];
  }

  /** Characters of one byte are not inside others. */
  lemma {:induction false} CutAfterAscii(text: string, m: nat)
    requires Complete(text) && 0 < m <= |text| && CharLength(text[m - 1]) == 1
    ensures Complete(text[..m])
  {
    hide Complete, PartialChar, CharLength;
    var k := CutPoint(text, m);
    if k < m {
      assert text[k..m][m - k - 1] == text[m - 1];
      PartialLast(text[k..m]);
    }
  }

  /** A call is named as soon as its tag is whole. */
  lemma {:induction false} TagNames(env: Env, text: string, name: string)
    requires Complete(text) && FirstInvoke(text) == Some(Invoke(name, "", false, |text|))
    ensures Step(env, INITIAL, text).1.calls == [Item(0, Some(name), "")]
  {
    hide Complete, FirstInvoke, InvokeLoop, Arguments;
    assert text != "" by { NothingInEmpty(); }
    EmptyBodyParses(env.lib);
    FirstStep(env, text);
    var st := INITIAL.(buffer := text);
    var c := Call(name, "", false);
    assert Invokes(text) == [c];
    assert Ready(env, st, [], text);
    LoopFollowsInvokes(env, st, text, [], []);
    var items := ItemsOf(env, [c], 0);
    assert [c][1..] == [] && ItemsOf(env, [], 1) == [];
    assert items == [Item(0, Some(name), "")] && items[0..] == items && [] + items == items;
  }

  lemma {:induction false} NamedFirst(env: Env, text: string, name: string, rest: string)
    requires Complete(text) && FirstInvoke(text) == Some(Invoke(name, "", false, |text|))
    ensures NamesFor(Run(env, INITIAL, [text, rest]).calls, 0) != []
  {
    hide Complete, FirstInvoke, Step;
    TagNames(env, text, name);
    var items, more := [Item(0, Some(name), "")], Run(env, Step(env, INITIAL, text).0, [rest]).calls;
    assert [text, rest][1..] == [rest];
    NamesAppend(items, more, 0);
    assert NamesFor(items, 0) == [name] + NamesFor(items[1..], 0);
  }

  // ---------------------------------------------------------------------
  // The exact condition.

  /** Every chunking emits the same calls. */
  ghost predicate SameCalls(env: Env, text: string) {
    forall a, b | Cuts(a, text) && Cuts(b, text) :: Run(env, INITIAL, a).calls == Run(env, INITIAL, b).calls
  }

  /** Cut behind the first tag, the text names index 0. */
  lemma {:induction false} NamedCut(env: Env, text: string, n: nat) returns (m: nat)
    requires Complete(text) && !QuotedKey(text)
    requires n <= |text| && Complete(text[..n]) && !AllParse(env, Invokes(text[..n]))
    ensures 0 < m < |text| && NamesFor(Run(env, INITIAL, [text[..m], text[m..]]).calls, 0) != []
  {
    hide Complete, QuotedKey, AllParse, FirstInvoke, Run, HeadAt, NamesFor;
    var t := text[..n];
    NothingParses(env, t);
    m := FirstTag(t);
    CutAfterAscii(t, m);
    assert t[..m] == text[..m];
    TagAlone(env, t, m);
    NamedFirst(env, text[..m], FirstInvoke(t).value.name, text[m..]);
  }

  lemma {:induction false} TagAlone(env: Env, t: string, m: nat)
    requires !AllParse(env, Invokes(t)) && m <= |t|
    requires FirstInvoke(t).Some? && FirstInvoke(t[..m]) == Some(Invoke(FirstInvoke(t).value.name, "", false, m))
    ensures m < |t|
  {
    hide FirstInvoke, AllParse;
    if m == |t| {
      assert t[..m] == t;
      OnlyTag(env, t, FirstInvoke(t).value.name);
    }
  }

  lemma {:induction false} ThrowShows(env: Env, text: string, n: nat)
    requires Complete(text) && !QuotedKey(text)
    requires n <= |text| && Complete(text[..n]) && !AllParse(env, Invokes(text[..n]))
    ensures !SameCalls(env, text)
  {
    hide Complete, QuotedKey, AllParse, Invokes, Run, Cuts, Step, NamesFor, Past;
    var t, rest := text[..n], text[n..];
    assert text == t + rest;
    var m := NamedCut(env, text, n);
    TwoCuts(text, m);
    if n < |text| {
      if n == 0 { NothingParses(env, t); }
      NeverNamed(env, t, rest);
      TwoCuts(text, n);
    } else {
      assert t == text;
      LostStep(env, text);
      OneChunk(env, text);
    }
  }

  lemma {:induction false} OnlyTag(env: Env, t: string, name: string)
    requires FirstInvoke(t) == Some(Invoke(name, "", false, |t|))
    ensures AllParse(env, Invokes(t))
  {
    hide FirstInvoke, Arguments;
    EmptyBodyParses(env.lib);
  }

  lemma {:induction false} OneChunk(env: Env, text: string)
    requires Step(env, INITIAL, text).1.calls == []
    ensures NamesFor(Run(env, INITIAL, [text]).calls, 0) == []
  {
    hide Step;
    assert [text][1..] == [];
  }

  /** Main result. The calls do not depend on the chunking if and only if parsing throws
  nowhere: not for any beginning of the text that ends between characters. */
  lemma {:induction false} CallsExactly(env: Env, text: string)
    requires Complete(text) && !QuotedKey(text)
    ensures SameCalls(env, text) <==> NoThrow(env, text)
  {
    hide Complete, QuotedKey, AllParse, Invokes, Run, NoneThrow;
    if NoThrow(env, text) {
      forall a, b | Cuts(a, text) && Cuts(b, text)
        ensures Run(env, INITIAL, a).calls == Run(env, INITIAL, b).calls
      {
        NeverThrows(env, text, a);
        NeverThrows(env, text, b);
        ChunkingInvisible(env, a, b);
      }
    } else {
      var n :| 0 <= n <= |text| && Complete(text[..n]) && !AllParse(env, Invokes(text[..n]));
      ThrowShows(env, text, n);
    }
  }

  // ---------------------------------------------------------------------
  // A number cut behind its minus sign.

  /** A body up to the end of its first value. */
  function OpenBody(g: Given): string {
    PARAMETER + Attribute(NAME, g.name, Attribute(STRING, TypeOf(g), ">" + g.text))
  }

  lemma {:induction false} NoEndNoParam(s: string, from: nat)
    requires from <= |s| && !Has(s, PARAMETER_END)
    ensures NextParam(s, from).None?
    decreases |s| - from
  {
    hide ParamHeadAt, Find;
    assert ParamAt(s, from).None?;
    if from < |s| { NoEndNoParam(s, from + 1); }
  }

  lemma {:induction false} OpenHead(a: string, g: Given)
    requires Quotable(g.name)
    ensures var s := a + OpenBody(g);
      var h := ParamHeadAt(s, |a|);
      h.Some? && h.value.name == g.name && h.value.typ == TypeOf(g) && s[h.value.valueFrom..] == g.text
  {
    hide SkipSpace, OccursAt, Trim, AttributeSpan, Attribute, TypeOf;
    var second := Attribute(STRING, TypeOf(g), ">" + g.text);
    var s := a + OpenBody(g);
    NameRead(a, g.name, second);
    hide OpenBody, Quotable;
    var span := AttributeSpan(s, |a| + |PARAMETER|, NAME).value;
    TypRead(s, span.1 + 1, g, g.text);
  }

  lemma {:induction false} SameLast(s: string, token: string)
    requires s != "" && token != ""
    ensures EndsWith(s, token) ==> token[|token| - 1] == s[|s| - 1]
  {
    assert |token| <= |s| ==> s[|s| - |token|..][|token| - 1] == s[|s| - 1];
  }

  lemma {:induction false} LastStays(b: string)
    requires b != "" && b[|b| - 1] !in {'r', '\U{9C}', '/'}
    ensures StripEndTokens(b, END_TOKENS) == b
  {
    assert "parameter"[8] == 'r' && (BAR + "DSML" + BAR)[9] == '\U{9C}' && "</"[1] == '/';
    forall t | t in END_TOKENS ensures !EndsWith(b, t) {
      assert t != "" && t[|t| - 1] != b[|b| - 1];
      SameLast(b, t);
    }
    NothingToStrip(b, END_TOKENS);
  }

  lemma {:induction false} NotAnObject(lib: Library, g: Given)
    ensures OpenBody(g) != "" && Direct(lib, OpenBody(g)).None?
  {
    hide Attribute, TypeOf, TrimWhitespace;
    var b := OpenBody(g);
    Markers();
    assert b[0] == '<' && "" + b == b;
    TrimToFirst("", b);
  }

  lemma {:induction false} OpenValueThrows(lib: Library, g: Given)
    requires Quotable(g.name) && !g.isString && lib.loads(g.text).None?
    requires g.text != "" && g.text[0] !in BLANK && g.text[|g.text| - 1] !in BLANK + {'r', '\U{9C}', '/'}
    ensures WithOpen(lib, OpenBody(g), map[]).None?
  {
    hide ParamHeadAt, StripEndTokens, Trim, Quotable;
    OpenHead("", g);
    assert "" + OpenBody(g) == OpenBody(g);
    LastOfBody(g);
    LastStays(OpenBody(g));
    hide OpenBody;
    assert OpenParam(OpenBody(g), 0) == ParamHeadAt(OpenBody(g), 0);
    assert TrimWhitespace(g.text) == g.text;
  }

  lemma {:induction false} LastOfBody(g: Given)
    requires g.text != ""
    ensures var b := OpenBody(g); b != "" && b[|b| - 1] == g.text[|g.text| - 1]
  {
  }

  /** A value that the partial parser throws at makes the whole body throw. */
  lemma {:induction false} OpenBodyThrows(lib: Library, g: Given)
    requires Quotable(g.name) && !g.isString && lib.loads(g.text).None? && !Has(OpenBody(g), PARAMETER_END)
    requires g.text != "" && g.text[0] !in BLANK && g.text[|g.text| - 1] !in BLANK + {'r', '\U{9C}', '/'}
    ensures Arguments(lib, OpenBody(g), true).None?
  {
    NotAnObject(lib, g);
    NoEndNoParam(OpenBody(g), 0);
    OpenValueThrows(lib, g);
    hide NextParam, OpenBody, Has, Quotable, WithOpen, Direct;
    assert OpenBody(g)[0..] == OpenBody(g);
  }

  /** A call that is written up to the end of its first value. */
  function OpenCall(name: string, g: Given): string { INVOKE + Attribute(NAME, name, ">" + OpenBody(g)) }

  lemma {:induction false} OpenCallRead(name: string, g: Given)
    requires Quotable(name) && !Has(OpenBody(g), INVOKE_END)
    ensures Invokes(OpenCall(name, g)) == [Call(name, OpenBody(g), false)]
  {
    hide HeadAt, Find, OpenBody, Attribute, Trim, Has;
    var s := OpenCall(name, g);
    CallHeadRead(name, OpenBody(g));
    FirstHeadIs(s, 0);
    var h := HeadAt(s, 0);
    assert Find(OpenBody(g), INVOKE_END, 0).None?;
    FindInRest(s, INVOKE_END, h.bodyFrom);
    NameTrimmed(name);
    assert s[0..] == s;
  }

  /** The failing input: a value that the partial parser throws at, such as the number -5
  cut behind its minus sign. Cut there, the stream never names the call, however it
  goes on, and its text comes out as ordinary text, so the calls depend on the chunks. */
  lemma {:induction false} CutValueLosesCall(env: Env, name: string, g: Given, rest: string)
    requires Quotable(name) && Quotable(g.name) && !g.isString && env.lib.loads(g.text).None?
    requires g.text != "" && g.text[0] !in BLANK && g.text[|g.text| - 1] !in BLANK + {'r', '\U{9C}', '/'}
    requires !Has(OpenBody(g), PARAMETER_END) && !Has(OpenBody(g), INVOKE_END)
    requires Complete(OpenCall(name, g)) && Complete(OpenCall(name, g) + rest) && rest != ""
    requires !QuotedKey(OpenCall(name, g) + rest)
    ensures var text := OpenCall(name, g) + rest;
      && Step(env, INITIAL, OpenCall(name, g)).1 == Result(OpenCall(name, g), [])
      && NamesFor(Run(env, INITIAL, [OpenCall(name, g), rest]).calls, 0) == []
      && !NoThrow(env, text) && !SameCalls(env, text)
  {
    hide Complete, QuotedKey, Has, Run, Step, Arguments, OpenCall, OpenBody, Quotable, NamesFor, NoThrow, SameCalls,
         Invokes;
    var t := OpenCall(name, g);
    OpenCallRead(name, g);
    OpenBodyThrows(env.lib, g);
    var c := Call(name, OpenBody(g), false);
    assert c in [c] && !AllParse(env, Invokes(t));
    NeverNamed(env, t, rest);
    ThrownText(env, t, name, OpenBody(g), rest);
    assert (t + rest)[..|t|] == t;
    ThrowShows(env, t + rest, |t|);
    CallsExactly(env, t + rest);
  }

  lemma {:induction false} ThrownText(env: Env, t: string, name: string, body: string, rest: string)
    requires Complete(t) && !QuotedKey(t + rest)
    requires Invokes(t) == [Call(name, body, false)] && Arguments(env.lib, body, true).None?
    ensures Step(env, INITIAL, t).1 == Result(t, [])
  {
    hide Complete, QuotedKey, Arguments, FirstInvoke, Step;
    NothingInEmpty();
    assert "" + t + rest == t + rest;
    KeyInPart("", t, rest);
    FirstStep(env, t);
  }

  /** In particular behind a minus sign. */
  lemma {:induction false} MinusSign(env: Env, name: string, key: string, rest: string)
    requires Quotable(name) && Quotable(key) && env.lib.loads("-").None?
    requires var g := Given("", key, false, "-");
      && !Has(OpenBody(g), PARAMETER_END) && !Has(OpenBody(g), INVOKE_END) && Complete(OpenCall(name, g) + rest)
      && rest != "" && !QuotedKey(OpenCall(name, g) + rest)
    ensures var t := OpenCall(name, Given("", key, false, "-"));
      Step(env, INITIAL, t).1 == Result(t, []) && !SameCalls(env, t + rest)
  {
    hide Complete, QuotedKey, Has, Run, Step, OpenCall, OpenBody, Quotable, SameCalls, NoThrow;
    var g := Given("", key, false, "-");
    var t := OpenCall(name, g);
    LastOfCall(name, g);
    CutAfterAscii(t + rest, |t|);
    assert (t + rest)[..|t|] == t;
    CutValueLosesCall(env, name, g, rest);
  }

  lemma {:induction false} LastOfCall(name: string, g: Given)
    requires g.text != ""
    ensures var t := OpenCall(name, g); t != "" && t[|t| - 1] == g.text[|g.text| - 1]
  {
    hide OpenBody;
    LastOfBody(g);
  }
}
