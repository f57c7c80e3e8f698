/** What comes out as ordinary text of prose before, between and after invokes. */
module DsmlGaps {
  import opened Text
  import opened ToolCalls
  import opened Utf8
  import opened DsmlSyntax
  import opened DsmlParams
  import opened DsmlDetector
  import opened DsmlStreaming
  import opened DsmlTheorems
  import opened DsmlProse
  import opened DsmlOneShot
  import opened DsmlThrowing

  // ---------------------------------------------------------------------
  // The prose of a text.

  /** The text before the first tag. */
  function Gap(s: string): string
    requires FirstInvoke(s).Some?
  {
    s[..FirstHead(s, 0).value]
  }

  /** The pieces of prose before the closed invokes. */
  function ClosedGaps(s: string): seq<string>
    decreases |s|
  {
    match FirstInvoke(s)
    case None => []
    case Some(v) => if v.closed then [Gap(s)] + ClosedGaps(s[v.end..]) else []
  }

  /** The prose of what follows them: before an open invoke, or all of it. */
  function LastGap(rest: string): string {
    if FirstInvoke(rest).Some? then Gap(rest) else rest
  }

  /** All prose: before each invoke, and after the last if it is closed. */
  function Gaps(s: string): seq<string> { ClosedGaps(s) + [LastGap(Rest(s))] }

  /** A prefix of each piece. */
  predicate Prefixes(ps: seq<string>, gaps: seq<string>) {
    |ps| == |gaps| && forall k | 0 <= k < |ps| :: ps[k] <= gaps[k]
  }

  lemma {:induction false} GapGrows(s: string, t: string)
    requires FirstInvoke(s).Some?
    ensures FirstInvoke(s + t).Some? && Gap(s + t) == Gap(s)
  {
    hide HeadAt, InvokeOf;
    var p := FirstHead(s, 0).value;
    forall q | 0 <= q <= p ensures HeadAt(s + t, q) == HeadAt(s, q) {
      if q < p && HeadAt(s, q).Partial? {
        PartialBlocks(s, q, p);
      }
      HeadGrows(s, t, q);
    }
    FirstHeadIs(s + t, p);
    assert (s + t)[..p] == s[..p];
  }

  lemma {:induction false} ClosedGapsGrow(s: string, t: string)
    ensures ClosedGaps(s + t) == ClosedGaps(s) + ClosedGaps(Rest(s) + t)
    ensures Rest(s + t) == Rest(Rest(s) + t)
    decreases |s|
  {
    hide FirstInvoke, Gap;
    if FirstInvoke(s).Some? && FirstInvoke(s).value.closed {
      var v := FirstInvoke(s).value;
      FirstInvokeGrows(s, t);
      GapGrows(s, t);
      assert (s + t)[v.end..] == s[v.end..] + t;
      ClosedGapsGrow(s[v.end..], t);
    }
  }

  // ---------------------------------------------------------------------
  // Text that was flushed.

  lemma {:induction false} SettledAppend(a: string, b: string)
    requires Settled(a) && Settled(b)
    ensures Settled(a + b)
  {
    hide HeadAt;
    forall p | 0 <= p < |a + b| ensures HeadAt(a + b, p).Fail? {
      if p < |a| {
        HeadGrows(a, b, p);
      } else {
        HeadShift(a, b, p - |a|);
      }
    }
  }

  /** Flushed text comes before every tag. */
  lemma {:induction false} BehindFlushed(f: string, s: string)
    requires Settled(f)
    ensures FirstInvoke(s).None? ==> FirstInvoke(f + s).None?
    ensures FirstInvoke(s).Some? ==>
      && FirstInvoke(f + s) == Some(FirstInvoke(s).value.(end := |f| + FirstInvoke(s).value.end))
      && Gap(f + s) == f + Gap(s)
  {
    hide HeadAt, InvokeOf;
    forall p | 0 <= p < |f| ensures !HeadAt(f + s, p).Match? {
      HeadGrows(f, s, p);
    }
    SettledPrefix(f, s);
    if FirstInvoke(s).Some? {
      GapBehind(f, s);
    }
  }

  lemma {:induction false} GapBehind(f: string, s: string)
    requires FirstInvoke(s).Some? && forall p | 0 <= p < |f| :: !HeadAt(f + s, p).Match?
    ensures FirstInvoke(f + s).Some? && Gap(f + s) == f + Gap(s)
  {
    hide HeadAt, InvokeOf;
    var p := FirstHead(s, 0).value;
    forall q | 0 <= q <= |s| ensures HeadAt(f + s, |f| + q) == HeadAt(s, q).Shift(|f|) {
      HeadShift(f, s, q);
    }
    forall q | 0 <= q < |f| + p ensures !HeadAt(f + s, q).Match? {
      if q >= |f| { assert HeadAt(f + s, |f| + (q - |f|)) == HeadAt(s, q - |f|).Shift(|f|); }
    }
    assert HeadAt(f + s, |f| + p).Match?;
    FirstHeadIs(f + s, |f| + p);
    assert (f + s)[..|f| + p] == f + s[..p];
  }

  // ---------------------------------------------------------------------
  // A run.

  /** Nothing, or text that holds a place where it was flushed. */
  predicate CutOff(fmt: Format, p: string) { p == "" || !HeldThroughout(fmt, p) }

  predicate AllCutOff(fmt: Format, ps: seq<string>) { forall p | p in ps :: CutOff(fmt, p) }

  /** `out` consists of a prefix of the prose before each closed invoke and of `f`, flushed
  since the last of them; the buffer holds what follows. */
  ghost predicate Prose(fmt: Format, total: string, buffer: string, out: string, ps: seq<string>, f: string) {
    && Settled(f) && Rest(total) == f + buffer
    && Prefixes(ps, ClosedGaps(total)) && out == Flatten(ps) + f
    && AllCutOff(fmt, ps) && CutOff(fmt, f)
  }

  lemma {:induction false} LongerCutOff(fmt: Format, p: string, q: string)
    requires p != "" && CutOff(fmt, p) && p <= q
    ensures CutOff(fmt, q)
  {
    hide Complete, Suspicious;
    var n :| 0 < n <= |p| && Complete(p[..n]) && !Suspicious(fmt, p[..n]);
    assert q[..n] == p[..n];
  }

  lemma {:induction false} ClosedComplete(s: string)
    requires Complete(s) && FirstInvoke(s).Some? && FirstInvoke(s).value.closed
    ensures Complete(s[..FirstInvoke(s).value.end]) && Complete(s[FirstInvoke(s).value.end..])
  {
    hide Complete, HeadAt, Find;
    var v := FirstInvoke(s).value;
    assert INVOKE_END[18] == '>' && |INVOKE_END| == 19;
    assert s[v.end - 1] == s[v.end - 19..v.end][18] == '>';
    CutAfterAscii(s, v.end);
    assert s == s[..v.end] + s[v.end..];
    CompleteAppend(s[..v.end], s[v.end..]);
  }

  /** Invokes end between characters. */
  lemma {:induction false} RestComplete(s: string)
    requires Complete(s)
    ensures Complete(Rest(s))
    decreases |s|
  {
    hide FirstInvoke, Complete;
    if FirstInvoke(s).Some? && FirstInvoke(s).value.closed {
      ClosedComplete(s);
      RestComplete(s[FirstInvoke(s).value.end..]);
    }
  }

  lemma {:induction false} LoopLeaves(env: Env, st: State, text: string, calls: seq<Item>)
    requires st.Valid() && st.buffer == text
    ensures var r := InvokeLoop(env, st, text, calls);
      r.state.held == st.held && (!r.threw ==> r.state.buffer == Rest(text))
    decreases |text|
  {
    hide FirstInvoke, Arguments, Prepared;
    if FirstInvoke(text).Some? {
      var v := FirstInvoke(text).value;
      var (named, ann) := Announced(Prepared(st), v.name);
      PreparedFields(st);
      if Arguments(env.lib, v.body, !v.closed).Some? && v.closed {
        var args, rest := Arguments(env.lib, v.body, false).value, text[v.end..];
        LoopLeaves(env, Closing(named, v.name, args, rest), rest, calls + ann + [Item(named.toolId, None, args)]);
      }
    }
  }

  /** Nothing is cut off empty prose. */
  lemma {:induction false} EmptyPrefixes(gaps: seq<string>) returns (ps: seq<string>)
    ensures Prefixes(ps, gaps) && Flatten(ps) == "" && forall p | p in ps :: p == ""
  {
    if gaps == [] {
      ps := [];
    } else {
      var rest := EmptyPrefixes(gaps[1..]);
      ps := [""] + rest;
      assert ps[1..] == rest && forall k | 1 <= k < |ps| :: ps[k] == rest[k - 1] && gaps[k] == gaps[1..][k - 1];
    }
  }

  lemma {:induction false} PrefixesAppend(a: seq<string>, b: seq<string>, gapsA: seq<string>, gapsB: seq<string>)
    requires Prefixes(a, gapsA) && Prefixes(b, gapsB)
    ensures Prefixes(a + b, gapsA + gapsB) && Flatten(a + b) == Flatten(a) + Flatten(b)
  {
    FlattenAppend(a, b);
  }

  /** The loop closes invokes: what was flushed before the first is a prefix of its prose. */
  lemma {:induction false} ClosePieces(fmt: Format, f: string, s: string)
    returns (qs: seq<string>, f': string)
    requires Settled(f) && CutOff(fmt, f)
    ensures AllCutOff(fmt, qs) && CutOff(fmt, f')
    ensures Settled(f') && Rest(f + s) == f' + Rest(s)
    ensures Prefixes(qs, ClosedGaps(f + s)) && Flatten(qs) + f' == f
  {
    hide FirstInvoke, Gap, Settled, HeldThroughout;
    BehindFlushed(f, s);
    if FirstInvoke(s).Some? && FirstInvoke(s).value.closed {
      var v := FirstInvoke(s).value;
      var rest := s[v.end..];
      assert (f + s)[|f| + v.end..] == rest;
      var more := EmptyPrefixes(ClosedGaps(rest));
      qs, f' := [f] + more, "";
      NothingSettled();
      assert f + Gap(s) == Gap(f + s) && f <= Gap(f + s);
      assert qs[1..] == more && f + "" + "" == f && "" + Rest(s) == Rest(s);
      OnePiece(f, more, Gap(f + s), ClosedGaps(rest));
    } else {
      qs, f' := [], f;
      assert "" + f == f;
    }
  }

  lemma {:induction false} NothingSettled()
    ensures Settled("")
  {
  }

  lemma {:induction false} OnePiece(f: string, more: seq<string>, gap: string, gaps: seq<string>)
    requires f <= gap && Prefixes(more, gaps)
    ensures Prefixes([f] + more, [gap] + gaps)
  {
  }

  /** What a step that neither throws nor reads JSON does with its text. */
  lemma {:induction false} StepLeaves(env: Env, st: State, chunk: string)
    requires st.Valid() && chunk != "" && !QuotedKey(Received(st, chunk).buffer) && !StepThrows(env, st, chunk)
    ensures var (st1, (st', r)) := (Received(st, chunk), Step(env, st, chunk));
      && st'.held == st1.held
      && (if Suspicious(env.fmt, st1.buffer) then r.normal == "" && st'.buffer == Rest(st1.buffer)
          else r.normal == st1.buffer && st'.buffer == "")
  {
    hide QuotedKey, Suspicious, InvokeLoop, ReleasedLength, Rest, PotentiallyDsml;
    var st1 := Received(st, chunk);
    LoopLeaves(env, st1, st1.buffer, []);
  }

  /** The buffer is flushed. */
  lemma {:induction false} FlushPiece(fmt: Format, total: string, buffer: string, out: string, ps: seq<string>,
                                      f: string, arrived: string)
    requires Prose(fmt, total, buffer, out, ps, f) && Settled(buffer + arrived)
    requires Complete(total + arrived) && !Suspicious(fmt, buffer + arrived)
    ensures Prose(fmt, total + arrived, "", out + (buffer + arrived), ps, f + (buffer + arrived))
  {
    hide Settled, Prefixes, Suspicious, Complete, HeldThroughout, AllCutOff;
    var s := buffer + arrived;
    SettledAppend(f, s);
    NoneClosed(f + s);
    ClosedGapsGrow(total, arrived);
    RestComplete(total + arrived);
    hide Rest, ClosedGaps, Flatten;
    Reassociated(f, buffer, arrived);
    Reassociated(Flatten(ps), f, s);
    assert f + s + "" == f + s && ClosedGaps(total) + [] == ClosedGaps(total);
    FlushCutsOff(fmt, f, s);
  }

  lemma {:induction false} FlushCutsOff(fmt: Format, f: string, s: string)
    requires CutOff(fmt, f) && Complete(f + s) && !Suspicious(fmt, s)
    ensures CutOff(fmt, f + s)
  {
    hide Complete, Suspicious;
    if f != "" {
      LongerCutOff(fmt, f, f + s);
    } else if s != "" {
      assert (f + s)[..|s|] == s == f + s;
    }
  }

  lemma {:induction false} Reassociated(a: string, b: string, c: string)
    ensures a + b + c == a + (b + c)
  {
  }

  /** The loop runs. */
  lemma {:induction false} LoopPiece(fmt: Format, total: string, buffer: string, out: string, ps: seq<string>,
                                     f: string, arrived: string)
    returns (ps': seq<string>, f': string)
    requires Prose(fmt, total, buffer, out, ps, f)
    ensures Prose(fmt, total + arrived, Rest(buffer + arrived), out + "", ps', f')
  {
    hide Settled, Prefixes, CutOff;
    var s := buffer + arrived;
    ClosedGapsGrow(total, arrived);
    hide Rest, ClosedGaps, Flatten;
    Reassociated(f, buffer, arrived);
    var qs, f1 := ClosePieces(fmt, f, s);
    PrefixesAppend(ps, qs, ClosedGaps(total), ClosedGaps(f + s));
    ps', f' := ps + qs, f1;
    Reassociated(Flatten(ps), Flatten(qs), f1);
    assert out + "" == out;
  }

  lemma {:induction false} GapStep(env: Env, total: string, st: State, out: string, ps: seq<string>, f: string,
                                   chunk: string, arrived: string)
    returns (ps': seq<string>, f': string)
    requires st.Valid() && chunk != "" && Received(st, chunk).buffer == st.buffer + arrived
    requires Complete(total + arrived) && EndsWith(total, st.buffer)
    requires !QuotedKey(st.buffer + arrived) && !StepThrows(env, st, chunk)
    requires Prose(env.fmt, total, st.buffer, out, ps, f)
    ensures var (st', r) := Step(env, st, chunk);
      Prose(env.fmt, total + arrived, st'.buffer, out + r.normal, ps', f') && st'.held == Received(st, chunk).held
  {
    hide Complete, EndsWith, QuotedKey, Suspicious, Step, StepThrows, Received, Prose;
    StepLeaves(env, st, chunk);
    if !Suspicious(env.fmt, st.buffer + arrived) {
      EndsWithGrown(total, st.buffer, arrived);
      NotSuspicious(env.fmt, total + arrived, st.buffer + arrived);
      FlushPiece(env.fmt, total, st.buffer, out, ps, f, arrived);
      ps', f' := ps, f + (st.buffer + arrived);
    } else {
      ps', f' := LoopPiece(env.fmt, total, st.buffer, out, ps, f, arrived);
    }
  }

  lemma {:induction false} NoneClosed(s: string)
    requires Settled(s)
    ensures ClosedGaps(s) == [] && Rest(s) == s
  {
    hide HeadAt;
    assert FirstInvoke(s).None? by {
      SettledPrefixNone(s);
    }
  }

  lemma {:induction false} SettledPrefixNone(s: string)
    requires Settled(s)
    ensures FirstInvoke(s).None?
  {
    SettledInvokes(s, "");
    assert s + "" == s;
    NothingInEmpty();
  }

  lemma {:induction false} RunGaps(env: Env, received: string, total: string, st: State, sent: seq<Item>,
                                   done: seq<Call>, chunks: seq<string>, full: string, out: string, ps: seq<string>,
                                   f: string)
    returns (total': string, ps': seq<string>, f': string)
    requires st.Valid() && Tracks(env, received, total, st, sent, done) && Prose(env.fmt, total, st.buffer, out, ps, f)
    requires NonEmpty(chunks) && received + Flatten(chunks) <= full && Complete(full)
    requires !QuotedKey(full) && NoneThrow(env, st, chunks)
    ensures var r := Run(env, st, chunks);
      && Prose(env.fmt, total', r.state.buffer, out + r.normal, ps', f')
      && received + Flatten(chunks) == total' + r.state.held
      && Complete(total') && (r.state.held == "" || PartialChar(r.state.held))
    decreases |chunks|
  {
    if chunks == [] {
      hide Complete, Prose;
      assert received + Flatten(chunks) == received && out + "" == out;
      return total, ps, f;
    }
    hide Tracks, Complete, QuotedKey, StepThrows, Step, Prose, PartialChar, Received, Flatten;
    var c := chunks[0];
    FirstChunk(received, chunks, full);
    assert c in chunks && forall d | d in chunks[1..] :: d in chunks;
    var total1, done1 := StepTracks(env, received, total, st, sent, done, c, full);
    var (st1, r) := Step(env, st, c);
    var arrived := Arrival(env, received, total, st, sent, done, c, full, total1, done1);
    var ps1, f1 := GapStep(env, total, st, out, ps, f, c, arrived);
    total', ps', f' := RunGaps(env, received + c, total1, st1, sent + r.calls, done1, chunks[1..], full,
                               out + r.normal, ps1, f1);
    Reassociated(out, r.normal, Run(env, st1, chunks[1..]).normal);
  }

  lemma {:induction false} FirstChunk(received: string, chunks: seq<string>, full: string)
    requires chunks != [] && received + Flatten(chunks) <= full
    ensures received + chunks[0] <= full
    ensures received + chunks[0] + Flatten(chunks[1..]) == received + Flatten(chunks)
  {
    Reassociated(received, chunks[0], Flatten(chunks[1..]));
  }

  /** What a chunk adds to the whole characters. */
  lemma {:induction false} Arrival(env: Env, received: string, total: string, st: State, sent: seq<Item>,
                                   done: seq<Call>, chunk: string, full: string, total': string, done': seq<Call>)
    returns (arrived: string)
    requires Tracks(env, received, total, st, sent, done)
    requires chunk != "" && received + chunk <= full && Complete(full) && !QuotedKey(full)
    requires !StepThrows(env, st, chunk)
    requires Tracks(env, received + chunk, total', Step(env, st, chunk).0, sent + Step(env, st, chunk).1.calls, done')
    ensures total' == total + arrived && Received(st, chunk).buffer == st.buffer + arrived
    ensures Complete(total') && EndsWith(total, st.buffer) && !QuotedKey(st.buffer + arrived)
  {
    hide Complete, ReleasedLength, PartialChar, Suspicious, PotentiallyDsml, QuotedKey, Describes, FirstInvoke, Invokes,
         InvokeLoop, AllParse, CachedCalls, ItemsOf, Step, StepThrows;
    var merged := st.held + chunk;
    var n := ReleasedLength(merged);
    arrived := merged[..n];
    assert Received(st, chunk) == st.(held := merged[n..], buffer := st.buffer + arrived);
    assert total + arrived + merged[n..] == received + chunk;
    WholePart(full, total, st.buffer, arrived);
    StepLeaves(env, st, chunk);
    SameLength(total', total + arrived, merged[n..], received + chunk);
  }

  lemma {:induction false} WholePart(full: string, total: string, buffer: string, arrived: string)
    requires total + arrived <= full && EndsWith(total, buffer) && !QuotedKey(full)
    ensures !QuotedKey(buffer + arrived)
  {
    EndsWithGrown(total, buffer, arrived);
    QuietPart(full, total + arrived, buffer + arrived);
  }

  lemma {:induction false} SameLength(a: string, b: string, h: string, whole: string)
    requires a + h == whole && b + h == whole
    ensures a == b
  {
    assert a == whole[..|whole| - |h|] == b;
  }

  // ---------------------------------------------------------------------
  // The end of the stream.

  /** What is known of the piece after the last closed invoke: before an open invoke it was
  cut off like the others; otherwise plain text is there as a whole, and text that is
  held throughout is not there at all. */
  predicate LastPiece(fmt: Format, rest: string, last: string) {
    if FirstInvoke(rest).Some? then CutOff(fmt, last)
    else if Plain(fmt, rest) then last == rest
    else HeldThroughout(fmt, rest) ==> last == ""
  }

  /** The end emits the rest of the last piece, or nothing. */
  lemma {:induction false} EndPiece(env: Env, text: string, st: State, out: string, ps: seq<string>, f: string)
    returns (last: string)
    requires Prose(env.fmt, text, st.buffer, out, ps, f) && st.Valid()
    ensures last <= LastGap(Rest(text)) && out + Step(env, st, "").1.normal == Flatten(ps) + last
    ensures LastPiece(env.fmt, Rest(text), last)
  {
    hide FirstInvoke, ClosedGaps, Rest, Prefixes, PotentiallyDsml, QuotedKey, HasToolCall, Gap, Settled, CutOff, Plain,
         HeldThroughout, AllCutOff;
    var end := Step(env, st, "").1.normal;
    BehindFlushed(f, st.buffer);
    EndEmits(env, st);
    Reassociated(Flatten(ps), f, end);
    last := f + end;
    assert f + "" == f;
    if FirstInvoke(st.buffer).Some? {
      OpenIsDsml(env.fmt, st.buffer);
    } else {
      EndOfProse(env.fmt, f, st.buffer);
    }
  }

  lemma {:induction false} EndEmits(env: Env, st: State)
    requires st.Valid()
    ensures Step(env, st, "").1.normal == if Plain(env.fmt, st.buffer) then st.buffer else ""
    ensures FirstInvoke(st.buffer).Some? ==> !Plain(env.fmt, st.buffer)
  {
    hide FirstInvoke, PotentiallyDsml, QuotedKey, HasToolCall;
    if FirstInvoke(st.buffer).Some? {
      OpenIsDsml(env.fmt, st.buffer);
    }
  }

  lemma {:induction false} EndOfProse(fmt: Format, f: string, buffer: string)
    requires CutOff(fmt, f)
    ensures Plain(fmt, f + buffer) ==> Plain(fmt, buffer)
    ensures HeldThroughout(fmt, f + buffer) ==> f == "" && f + buffer == buffer
  {
    if Plain(fmt, f + buffer) {
      assert f + buffer + "" == f + buffer;
      PlainPart(fmt, f, buffer, "");
    }
    hide Plain, HeldThroughout;
    if f != "" {
      LongerCutOff(fmt, f, f + buffer);
    }
    assert f == "" ==> f + buffer == buffer;
    NotCutOff(fmt, f + buffer);
  }

  lemma {:induction false} NotCutOff(fmt: Format, p: string)
    ensures CutOff(fmt, p) && HeldThroughout(fmt, p) ==> p == ""
  {
  }

  lemma {:induction false} WholeText(text: string, total: string, held: string)
    requires Complete(text) && text == total + held && Complete(total) && (held == "" || PartialChar(held))
    ensures held == "" && total == text
  {
    hide PartialChar, Complete;
    CompleteAppend(total, held);
    CutIsNotComplete(held);
  }

  /** What comes out as ordinary text, under any chunking: of each piece of prose, before,
  between and after the invokes, some beginning, in order, and nothing else; no part of
  a tag, name or argument, and no byte twice. */
  lemma {:induction false} OnlyProse(env: Env, text: string, chunks: seq<string>) returns (ps: seq<string>)
    requires Complete(text) && !QuotedKey(text) && Cuts(chunks, text) && NoneThrow(env, INITIAL, chunks)
    ensures Prefixes(ps, Gaps(text)) && TextOf(env, chunks) == Flatten(ps)
    ensures ps != [] && AllCutOff(env.fmt, ps[..|ps| - 1])
    ensures LastPiece(env.fmt, Rest(text), ps[|ps| - 1])
  {
    hide Complete, QuotedKey, NoneThrow, Tracks, Flatten, Prose, Rest, ClosedGaps, Prefixes, Step, Run, LastGap,
         LastPiece, AllCutOff;
    TracksInitial(env);
    ProseInitial(env.fmt);
    assert "" + Flatten(chunks) == text;
    var total, qs, f := RunGaps(env, "", "", INITIAL, [], [], chunks, text, "", [], "");
    var r := Run(env, INITIAL, chunks);
    WholeText(text, total, r.state.held);
    assert "" + r.normal == r.normal;
    var last := EndPiece(env, text, r.state, r.normal, qs, f);
    RunAppend(env, INITIAL, chunks, "");
    ps := qs + [last];
    AddLast(qs, ClosedGaps(text), last, LastGap(Rest(text)));
    ProsePrefixes(env.fmt, text, r.state.buffer, r.normal, qs, f);
  }

  lemma {:induction false} ProsePrefixes(fmt: Format, total: string, buffer: string, out: string, ps: seq<string>,
                                         f: string)
    requires Prose(fmt, total, buffer, out, ps, f)
    ensures Prefixes(ps, ClosedGaps(total)) && AllCutOff(fmt, ps)
  {
  }

  lemma {:induction false} ProseInitial(fmt: Format)
    ensures Prose(fmt, "", INITIAL.buffer, "", [], "")
  {
    NothingInEmpty();
    NothingSettled();
    assert "" + "" == "";
  }

  lemma {:induction false} AddLast(qs: seq<string>, gaps: seq<string>, last: string, gap: string)
    requires last <= gap
    ensures Prefixes(qs, gaps) ==> Prefixes(qs + [last], gaps + [gap])
    ensures Flatten(qs + [last]) == Flatten(qs) + last
  {
    FlattenAppend(qs, [last]);
    assert [last][1..] == [] && Flatten([]) == "" && last + "" == last;
    assert Flatten([last]) == last;
  }

  // ---------------------------------------------------------------------
  // The exact condition.

  /** Prose before an invoke is held back wherever it is cut; prose after the last is held
  back too, or has nothing in it that looks like a call. */
  predicate Settles(fmt: Format, text: string) {
    && (forall g | g in ClosedGaps(text) :: HeldThroughout(fmt, g))
    && (if FirstInvoke(Rest(text)).Some? then HeldThroughout(fmt, Gap(Rest(text)))
        else Plain(fmt, Rest(text)) || HeldThroughout(fmt, Rest(text)))
  }

  /** What the end emits of this buffer. */
  function EndText(fmt: Format, buffer: string): string { if Plain(fmt, buffer) then buffer else "" }

  lemma {:induction false} PartHeld(fmt: Format, p: string, g: string)
    requires CutOff(fmt, p) && p <= g && HeldThroughout(fmt, g)
    ensures p == ""
  {
    hide HeldThroughout;
    if p != "" {
      LongerCutOff(fmt, p, g);
      NotCutOff(fmt, g);
    }
  }

  lemma {:induction false} AllEmpty(ps: seq<string>)
    requires forall p | p in ps :: p == ""
    ensures Flatten(ps) == ""
  {
    if ps != [] {
      assert ps[0] in ps && forall p | p in ps[1..] :: p in ps;
      AllEmpty(ps[1..]);
    }
  }

  /** The text that then comes out, under every chunking. */
  lemma {:induction false} SettledText(env: Env, text: string, chunks: seq<string>)
    requires Complete(text) && !QuotedKey(text) && Cuts(chunks, text) && NoneThrow(env, INITIAL, chunks)
    requires Settles(env.fmt, text)
    ensures TextOf(env, chunks) == EndText(env.fmt, Rest(text))
  {
    hide Complete, QuotedKey, Cuts, NoneThrow, Plain, HeldThroughout, CutOff, Rest, ClosedGaps, FirstInvoke, Gap,
         TextOf, Flatten, Gaps, Prefixes, LastPiece, LastGap, AllCutOff, EndText;
    var ps := OnlyProse(env, text, chunks);
    PiecesSplit(ps, ClosedGaps(text), LastGap(Rest(text)));
    assert Gaps(text) == ClosedGaps(text) + [LastGap(Rest(text))] by { GapsAre(text); }
    var before, last := ps[..|ps| - 1], ps[|ps| - 1];
    PiecesEmpty(env.fmt, before, ClosedGaps(text));
    LastSettles(env.fmt, Rest(text), last);
    assert "" + last == last;
  }

  lemma {:induction false} GapsAre(text: string)
    ensures Gaps(text) == ClosedGaps(text) + [LastGap(Rest(text))]
  {
  }

  lemma {:induction false} PiecesSplit(ps: seq<string>, gaps: seq<string>, gap: string)
    requires ps != []
    ensures Prefixes(ps, gaps + [gap]) ==> Prefixes(ps[..|ps| - 1], gaps) && ps[|ps| - 1] <= gap
    ensures Flatten(ps) == Flatten(ps[..|ps| - 1]) + ps[|ps| - 1]
  {
    var before, last := ps[..|ps| - 1], ps[|ps| - 1];
    AddLast(before, [], last, last);
    assert ps == before + [last];
    hide Flatten;
    if Prefixes(ps, gaps + [gap]) {
      WithoutLast(before, last, gaps, gap);
    }
  }

  lemma {:induction false} WithoutLast(before: seq<string>, last: string, gaps: seq<string>, gap: string)
    requires Prefixes(before + [last], gaps + [gap])
    ensures Prefixes(before, gaps) && last <= gap
  {
    var ps, all := before + [last], gaps + [gap];
    assert ps[|before|] == last && all[|before|] == gap;
    forall k | 0 <= k < |before| ensures before[k] <= gaps[k] {
      assert ps[k] == before[k] && all[k] == gaps[k];
    }
  }

  lemma {:induction false} PiecesEmpty(fmt: Format, ps: seq<string>, gaps: seq<string>)
    requires Prefixes(ps, gaps) && AllCutOff(fmt, ps) && forall g | g in gaps :: HeldThroughout(fmt, g)
    ensures Flatten(ps) == ""
  {
    hide HeldThroughout, CutOff;
    forall p | p in ps ensures p == "" {
      var k :| 0 <= k < |ps| && ps[k] == p;
      assert gaps[k] in gaps;
      PartHeld(fmt, p, gaps[k]);
    }
    AllEmpty(ps);
  }

  lemma {:induction false} LastSettles(fmt: Format, rest: string, last: string)
    requires LastPiece(fmt, rest, last) && last <= LastGap(rest)
    requires if FirstInvoke(rest).Some? then HeldThroughout(fmt, Gap(rest))
             else Plain(fmt, rest) || HeldThroughout(fmt, rest)
    ensures last == EndText(fmt, rest)
  {
    if FirstInvoke(rest).Some? {
      OpenIsDsml(fmt, rest);
      hide FirstInvoke, HeldThroughout, CutOff;
      PartHeld(fmt, last, Gap(rest));
    }
  }

  // ---------------------------------------------------------------------
  // A text that does not, cut where it is flushed.

  lemma {:induction false} FindCut(s: string, pat: string, from: nat, m: nat)
    requires Find(s, pat, from).Some? && Find(s, pat, from).value + |pat| <= m <= |s|
    ensures Find(s[..m], pat, from) == Find(s, pat, from)
  {
    hide Find;
    var at := Find(s, pat, from).value;
    forall q: int | from <= q <= at ensures OccursAt(s[..m], pat, q) <==> OccursAt(s, pat, q) {
      assert q + |pat| <= m ==> s[..m][q..q + |pat|] == s[q..q + |pat|];
    }
    FindIs(s[..m], pat, from, at);
  }

  /** A text that ends with its first invoke. */
  lemma {:induction false} ClosedCut(s: string)
    requires FirstInvoke(s).Some? && FirstInvoke(s).value.closed
    ensures FirstInvoke(s[..FirstInvoke(s).value.end]) == FirstInvoke(s)
  {
    hide HeadAt, TrimWhitespace, Find;
    var p, v := FirstHead(s, 0).value, FirstInvoke(s).value;
    var h, a := HeadAt(s, p), s[..v.end];
    HeadCut(s, p);
    assert a == s[..h.bodyFrom] + a[h.bodyFrom..];
    HeadGrows(s[..h.bodyFrom], a[h.bodyFrom..], p);
    FirstHeadCut(s, p, v.end);
    FindCut(s, INVOKE_END, h.bodyFrom, v.end);
    var e := Find(s, INVOKE_END, h.bodyFrom).value;
    assert a[h.nameFrom..h.nameTo] == s[h.nameFrom..h.nameTo] && a[h.bodyFrom..e] == s[h.bodyFrom..e];
  }

  /** A beginning of a text that ends with an invoke, or nothing. */
  ghost predicate Ended(a: string) { Complete(a) && Rest(a) == "" && (a != "" ==> FirstInvoke(a).Some?) }

  /** Where the last piece of prose starts. */
  lemma {:induction false} SplitLast(text: string) returns (a: string)
    requires Complete(text)
    ensures text == a + Rest(text) && Ended(a) && Complete(Rest(text))
    decreases |text|
  {
    hide FirstInvoke, Complete;
    NothingInEmpty();
    EmptyIsComplete();
    RestComplete(text);
    if FirstInvoke(text).Some? && FirstInvoke(text).value.closed {
      ClosedComplete(text);
      var a' := SplitLast(text[FirstInvoke(text).value.end..]);
      a := EndedLonger(text, a');
    } else {
      a := "";
      assert "" + text == text && "" + "" == "";
    }
  }

  lemma {:induction false} EndedLonger(text: string, a': string) returns (a: string)
    requires Complete(text) && FirstInvoke(text).Some? && FirstInvoke(text).value.closed && Ended(a')
    ensures a == text[..FirstInvoke(text).value.end] + a' && Ended(a)
    ensures forall b :: text[FirstInvoke(text).value.end..] == a' + b ==> text == a + b
  {
    hide FirstInvoke, Complete;
    var end := FirstInvoke(text).value.end;
    var head := text[..end];
    a := head + a';
    ClosedComplete(text);
    CompleteAppend(head, a');
    ClosedCut(text);
    FirstInvokeGrows(head, a');
    assert a[end..] == a' && text == head + text[end..];
    forall b | text[end..] == a' + b ensures text == a + b {
      Reassociated(head, a', b);
    }
  }

  /** Where the prose before a closed invoke starts. */
  lemma {:induction false} SplitBefore(text: string, g: string) returns (a: string, b: string)
    requires Complete(text) && g in ClosedGaps(text)
    ensures text == a + b && Ended(a) && Complete(b) && Rest(b) == Rest(text)
    ensures FirstInvoke(b).Some? && FirstInvoke(b).value.closed && Gap(b) == g
    decreases |text|
  {
    hide FirstInvoke, Complete, Gap;
    NothingInEmpty();
    EmptyIsComplete();
    var rest := text[FirstInvoke(text).value.end..];
    if Gap(text) == g {
      a, b := "", text;
      assert "" + text == text && "" + "" == "";
    } else {
      ClosedComplete(text);
      var a', b' := SplitBefore(rest, g);
      a := EndedLonger(text, a');
      b := b';
    }
  }

  /** A chunk of whole characters joins the buffer. */
  lemma {:induction false} WholeChunk(st: State, chunk: string)
    requires st.held == "" && Complete(chunk) && chunk != ""
    ensures Received(st, chunk) == st.(buffer := st.buffer + chunk)
  {
    hide Complete, ReleasedLength;
    SplitsAtCharacter(chunk, "");
    assert chunk + "" == chunk && "" + chunk == chunk && chunk[..|chunk|] == chunk && chunk[|chunk|..] == "";
  }

  lemma {:induction false} ThenEnds(env: Env, st: State)
    requires st.Valid()
    ensures Run(env, st, [""]).normal == EndText(env.fmt, st.buffer)
  {
    hide Step, Plain, FirstInvoke;
    EndEmits(env, st);
    assert [""][1..] == [] && EndText(env.fmt, st.buffer) + "" == EndText(env.fmt, st.buffer);
  }

  /** The whole text at once. */
  lemma {:induction false} AtOnce(env: Env, text: string, chunks: seq<string>)
    requires Complete(text) && text != "" && !QuotedKey(text) && Suspicious(env.fmt, text)
    requires chunks == [text] && NoneThrow(env, INITIAL, chunks)
    ensures TextOf(env, chunks) == EndText(env.fmt, Rest(text))
  {
    hide Complete, QuotedKey, Suspicious, Step, StepThrows, Rest, Received, EndText;
    WholeChunk(INITIAL, text);
    assert "" + text == text;
    StepLeaves(env, INITIAL, text);
    var st := Step(env, INITIAL, text).0;
    ThenEnds(env, st);
    assert (chunks + [""])[1..] == [""] && "" + EndText(env.fmt, st.buffer) == EndText(env.fmt, st.buffer);
  }

  /** From an empty buffer: a piece that is flushed, and the rest. */
  lemma {:induction false} TwoPieces(env: Env, st: State, b: string, n: nat, chunks: seq<string>)
    requires st.Valid() && st.buffer == "" && st.held == "" && 0 < n < |b|
    requires Complete(b[..n]) && Complete(b[n..]) && !Suspicious(env.fmt, b[..n]) && !QuotedKey(b)
    requires chunks == [b[..n], b[n..]] && NoneThrow(env, st, chunks)
    ensures b[..n] <= Run(env, st, chunks + [""]).normal
    ensures Suspicious(env.fmt, b[n..]) ==>
      Run(env, st, chunks + [""]).normal == b[..n] + EndText(env.fmt, Rest(b[n..]))
  {
    hide Complete, QuotedKey, Suspicious, Step, StepThrows, Rest, Received, EndText;
    var c, d := b[..n], b[n..];
    assert chunks + [""] == [c, d, ""] && [c, d][1..] == [d] && [c, d, ""][1..] == [d, ""] && [d, ""][1..] == [""] && [d][1..] == [];
    assert "" + c == c && "" + d == d && "" + c + d == b && c + d + "" == b;
    KeyInPart("", c, d);
    KeyInPart(c, d, "");
    WholeChunk(st, c);
    StepLeaves(env, st, c);
    var st1 := Step(env, st, c).0;
    WholeChunk(st1, d);
    StepLeaves(env, st1, d);
    var st2 := Step(env, st1, d).0;
    ThenEnds(env, st2);
    assert Run(env, st1, [d, ""]).normal == Step(env, st1, d).1.normal + Run(env, st2, [""]).normal;
    assert "" + EndText(env.fmt, st2.buffer) == EndText(env.fmt, st2.buffer);
  }

  lemma {:induction false} Pieces(a: string, b: string, n: nat) returns (chunks: seq<string>)
    requires 0 < n < |b|
    ensures chunks == (if a == "" then [] else [a]) + [b[..n], b[n..]] && Cuts(chunks, a + b)
  {
    chunks := (if a == "" then [] else [a]) + [b[..n], b[n..]];
    TwoCuts(b, n);
    if a == "" {
      assert [] + [b[..n], b[n..]] == [b[..n], b[n..]] && a + b == b;
    } else {
      assert chunks[1..] == [b[..n], b[n..]];
    }
  }

  /** Up to `a` nothing comes out, and the buffer is empty. */
  lemma {:induction false} FirstChunkSilent(env: Env, a: string)
    requires Ended(a) && a != "" && !QuotedKey(a) && !StepThrows(env, INITIAL, a)
    ensures var (st, r) := Step(env, INITIAL, a);
      st.Valid() && st.buffer == "" && st.held == "" && r.normal == ""
  {
    hide Complete, QuotedKey, Suspicious, Step, StepThrows, Rest, Received, FirstInvoke;
    WholeChunk(INITIAL, a);
    assert "" + a == a;
    OpenIsDsml(env.fmt, a);
    StepLeaves(env, INITIAL, a);
  }

  lemma {:induction false} CutLater(env: Env, a: string, b: string, n: nat, chunks: seq<string>)
    requires Ended(a) && a != "" && !QuotedKey(a) && !QuotedKey(b) && 0 < n < |b|
    requires Complete(b[..n]) && Complete(b[n..]) && !Suspicious(env.fmt, b[..n])
    requires chunks == [a, b[..n], b[n..]] && NoneThrow(env, INITIAL, chunks)
    ensures b[..n] <= TextOf(env, chunks)
    ensures Suspicious(env.fmt, b[n..]) ==> TextOf(env, chunks) == b[..n] + EndText(env.fmt, Rest(b[n..]))
  {
    hide Complete, QuotedKey, Suspicious, Step, StepThrows, Rest, EndText, Run, Ended;
    var rest := [b[..n], b[n..]];
    assert chunks[1..] == rest && chunks + [""] == [a] + (rest + [""]);
    FirstChunkSilent(env, a);
    var st := Step(env, INITIAL, a).0;
    TwoPieces(env, st, b, n, rest);
    FirstThen(env, a, rest + [""]);
    assert "" + Run(env, st, rest + [""]).normal == Run(env, st, rest + [""]).normal;
  }

  lemma {:induction false} CutRun(env: Env, a: string, b: string, n: nat, chunks: seq<string>)
    requires Ended(a) && Complete(a + b) && !QuotedKey(a + b) && 0 < n < |b|
    requires Complete(b[..n]) && !Suspicious(env.fmt, b[..n])
    requires chunks == (if a == "" then [] else [a]) + [b[..n], b[n..]] && NoneThrow(env, INITIAL, chunks)
    ensures b[..n] <= TextOf(env, chunks)
    ensures Suspicious(env.fmt, b[n..]) ==> TextOf(env, chunks) == b[..n] + EndText(env.fmt, Rest(b[n..]))
  {
    hide Complete, QuotedKey, Suspicious, Rest, EndText, FirstInvoke, Run, NoneThrow;
    var c, d := b[..n], b[n..];
    assert b == c + d && a + b + "" == a + b && "" + a + b == a + b;
    CompleteAppend(a, b);
    CompleteAppend(c, d);
    KeyInPart(a, b, "");
    KeyInPart("", a, b);
    if a == "" {
      assert chunks == [c, d];
      TwoPieces(env, INITIAL, b, n, chunks);
    } else {
      assert chunks == [a, c, d];
      CutLater(env, a, b, n, chunks);
    }
  }

  lemma {:induction false} FirstThen(env: Env, a: string, rest: seq<string>)
    ensures Run(env, INITIAL, [a] + rest).normal
         == Step(env, INITIAL, a).1.normal + Run(env, Step(env, INITIAL, a).0, rest).normal
  {
    hide Step;
    assert ([a] + rest)[1..] == rest;
  }

  // ---------------------------------------------------------------------
  // Main result.

  /** Cut where a piece of prose can be flushed, the text comes out differently from at once. */
  lemma {:induction false} CutDiffers(env: Env, text: string, a: string, b: string, n: nat)
    requires Complete(text) && !QuotedKey(text) && NoThrow(env, text) && text == a + b && Ended(a)
    requires 0 < n < |b| && Complete(b[..n]) && !Suspicious(env.fmt, b[..n]) && Suspicious(env.fmt, text)
    requires EndText(env.fmt, Rest(text)) == "" || (Suspicious(env.fmt, b[n..]) && Rest(b[n..]) == Rest(text))
    ensures !SameText(env, text)
  {
    hide Complete, QuotedKey, Suspicious, NoThrow, Rest, TextOf, EndText, Ended, NoneThrow, Cuts;
    var chunks := Pieces(a, b, n);
    NeverThrows(env, text, chunks);
    CutRun(env, a, b, n, chunks);
    WholeCuts(text);
    NeverThrows(env, text, [text]);
    AtOnce(env, text, [text]);
    assert |b[..n]| > 0;
    assert TextOf(env, chunks) != TextOf(env, [text]);
  }

  lemma {:induction false} WholeCuts(text: string)
    requires text != ""
    ensures Cuts([text], text)
  {
    assert [text][1..] == [] && Flatten([]) == "" && text + "" == text;
  }

  lemma {:induction false} TagSuspicious(fmt: Format, a: string, b: string)
    requires FirstInvoke(b).Some?
    ensures Suspicious(fmt, a + b)
  {
    HasTag(b);
    hide FirstInvoke;
    assert a + b + "" == a + b;
    OccursInWhole(a, b, "", INVOKE);
  }

  /** Prose before a closed invoke that can be flushed. */
  lemma {:induction false} GapDiffers(env: Env, text: string, g: string)
    requires Complete(text) && !QuotedKey(text) && NoThrow(env, text)
    requires g in ClosedGaps(text) && !HeldThroughout(env.fmt, g)
    ensures !SameText(env, text)
  {
    hide Complete, QuotedKey, Suspicious, NoThrow, Rest, ClosedGaps, FirstInvoke, SameText, Ended;
    var a, b := SplitBefore(text, g);
    var n :| 0 < n <= |g| && Complete(g[..n]) && !Suspicious(env.fmt, g[..n]);
    GapInside(b);
    assert g[..n] == b[..n];
    TagSuspicious(env.fmt, a, b);
    FlushedBefore(env.fmt, text, a, b, n);
    CutDiffers(env, text, a, b, n);
  }

  lemma {:induction false} GapInside(b: string)
    requires FirstInvoke(b).Some?
    ensures Gap(b) <= b && |Gap(b)| < |b|
  {
    hide HeadAt, InvokeOf;
  }

  /** What can be flushed is settled, so the invoke is behind it. */
  lemma {:induction false} FlushedBefore(fmt: Format, text: string, a: string, b: string, n: nat)
    requires Complete(text) && text == a + b && Ended(a) && n <= |b| && Complete(b[..n]) && !Suspicious(fmt, b[..n])
    requires FirstInvoke(b).Some? && FirstInvoke(b).value.closed && Rest(b) == Rest(text)
    ensures Suspicious(fmt, b[n..]) && Rest(b[n..]) == Rest(text)
  {
    hide Complete, Suspicious, FirstInvoke, Settled, Gap;
    var c, d := b[..n], b[n..];
    assert b == c + d && "" + c == c;
    NotSuspicious(fmt, c, c);
    BehindFlushed(c, d);
    assert FirstInvoke(d).Some?;
    TagSuspicious(fmt, "", d);
    assert "" + d == d;
    var v := FirstInvoke(d).value;
    assert b[n + v.end..] == d[v.end..];
  }

  /** Prose after the last closed invoke. */
  lemma {:induction false} LastDiffers(env: Env, text: string)
    requires Complete(text) && !QuotedKey(text) && NoThrow(env, text)
    requires if FirstInvoke(Rest(text)).Some? then !HeldThroughout(env.fmt, Gap(Rest(text)))
             else !Plain(env.fmt, Rest(text)) && !HeldThroughout(env.fmt, Rest(text))
    ensures !SameText(env, text)
  {
    hide Complete, QuotedKey, Suspicious, NoThrow, Rest, FirstInvoke, SameText, Ended, Plain;
    var a := SplitLast(text);
    var b := Rest(text);
    var n: nat;
    if FirstInvoke(b).Some? {
      var g := Gap(b);
      n :| 0 < n <= |g| && Complete(g[..n]) && !Suspicious(env.fmt, g[..n]);
      GapInside(b);
      assert Gap(b)[..n] == b[..n];
      OpenIsDsml(env.fmt, b);
    } else {
      n :| 0 < n <= |b| && Complete(b[..n]) && !Suspicious(env.fmt, b[..n]);
      assert n == |b| ==> b[..n] == b;
    }
    NotPlainEnd(env.fmt, a, b);
    CutDiffers(env, text, a, b, n);
  }

  lemma {:induction false} NotPlainEnd(fmt: Format, a: string, b: string)
    requires FirstInvoke(b).Some? || !Plain(fmt, b)
    ensures EndText(fmt, b) == "" && Suspicious(fmt, b) && Suspicious(fmt, a + b)
  {
    hide FirstInvoke;
    if FirstInvoke(b).Some? {
      OpenIsDsml(fmt, b);
    }
    assert !Plain(fmt, b);
    hide PotentiallyDsml, QuotedKey, HasToolCall;
    assert a + b + "" == a + b;
    if !Suspicious(fmt, a + b) {
      PlainPart(fmt, a, b, "");
    }
  }

  /** Main result, for texts with invokes. Ordinary text comes out the same under every
  chunking if and only if no chunk boundary lets prose before an invoke be flushed, and
  none the prose after the last, unless nothing in it looks like a call; and then it is
  that last prose, if nothing in it looks like a call, and nothing otherwise. */
  lemma {:induction false} ProseAroundInvokes(env: Env, text: string)
    requires Complete(text) && !QuotedKey(text) && NoThrow(env, text)
    ensures SameText(env, text) <==> Settles(env.fmt, text)
    ensures Settles(env.fmt, text) ==>
      forall chunks | Cuts(chunks, text) :: TextOf(env, chunks) == EndText(env.fmt, Rest(text))
  {
    hide Complete, QuotedKey, NoThrow, Rest, TextOf, EndText, HeldThroughout, Plain, FirstInvoke, Cuts, ClosedGaps, Gap;
    if Settles(env.fmt, text) {
      hide Settles;
      forall chunks | Cuts(chunks, text) ensures TextOf(env, chunks) == EndText(env.fmt, Rest(text)) {
        NeverThrows(env, text, chunks);
        SettledText(env, text, chunks);
      }
    } else if g :| g in ClosedGaps(text) && !HeldThroughout(env.fmt, g) {
      GapDiffers(env, text, g);
    } else {
      LastDiffers(env, text);
    }
  }
}
