/** Exactly when ordinary text does not depend on how a stream is cut. */
module DsmlProse {
  import opened Text
  import opened ToolCalls
  import opened Utf8
  import opened DsmlSyntax
  import opened DsmlDetector
  import opened DsmlTheorems

  /** The text that a stream emits, the empty chunk at its end included. */
  function TextOf(env: Env, chunks: seq<string>): string { Run(env, INITIAL, chunks + [""]).normal }

  predicate Cuts(chunks: seq<string>, text: string) { NonEmpty(chunks) && Flatten(chunks) == text }

  ghost predicate SameText(env: Env, text: string) {
    forall a, b | Cuts(a, text) && Cuts(b, text) :: TextOf(env, a) == TextOf(env, b)
  }

  /** Wherever the text is cut between characters, the flush is held back. */
  predicate HeldThroughout(fmt: Format, text: string) {
    forall n | 0 < n <= |text| && Complete(text[..n]) :: Suspicious(fmt, text[..n])
  }

  lemma {:induction false} RunAppend(env: Env, st: State, chunks: seq<string>, last: string)
    requires st.Valid()
    ensures var r := Run(env, st, chunks);
      Run(env, st, chunks + [last]).normal == r.normal + Step(env, r.state, last).1.normal
    decreases |chunks|
  {
    hide Step;
    if chunks == [] {
      assert chunks + [last] == [last] && [last][1..] == [];
      var (next, r) := Step(env, st, last);
      assert Run(env, next, []).normal == "" && r.normal + "" == "" + r.normal;
    } else {
      assert (chunks + [last])[0] == chunks[0] && (chunks + [last])[1..] == chunks[1..] + [last];
      RunAppend(env, Step(env, st, chunks[0]).0, chunks[1..], last);
    }
  }

  /** A part of a text has no tag letters and no quoted key if the text has none. */
  lemma {:induction false} QuietPrefix(text: string, n: nat)
    requires n <= |text| && !QuotedKey(text) && !Has(text, INVOKE)
    ensures !QuotedKey(text[..n]) && !Has(text[..n], INVOKE)
  {
    hide Has;
    var a := text[..n];
    assert "" + a + text[n..] == text;
    if Has(a, INVOKE) {
      OccursInWhole("", a, text[n..], INVOKE);
    } else if Has(a, DOUBLE_QUOTED) {
      OccursInWhole("", a, text[n..], DOUBLE_QUOTED);
    } else if Has(a, SINGLE_QUOTED) {
      OccursInWhole("", a, text[n..], SINGLE_QUOTED);
    }
  }

  function Holding(buffer: string, held: string): State { State(buffer, held, -1, false, [], []) }

  /** A chunk that leaves the buffer suspicious, or empty, emits nothing. */
  lemma {:induction false} HoldStep(env: Env, buffer: string, held: string, chunk: string)
    requires chunk != ""
    requires var next := Received(Holding(buffer, held), chunk).buffer;
      && !QuotedKey(next) && !Has(next, INVOKE) && (next == "" || Suspicious(env.fmt, next))
    ensures var next := Received(Holding(buffer, held), chunk);
      next == Holding(next.buffer, next.held) && Step(env, Holding(buffer, held), chunk) == (next, Result("", []))
  {
    hide Suspicious, QuotedKey, HeadAt, ReleasedLength, PotentiallyDsml;
    var next := Received(Holding(buffer, held), chunk);
    assert FirstInvoke(next.buffer).None? by {
      if FirstInvoke(next.buffer).Some? { NoTagNoMatch(next.buffer, FirstHead(next.buffer, 0).value); }
    }
  }

  lemma {:induction false} HeldRun(env: Env, text: string, buffer: string, held: string, chunks: seq<string>)
    requires Complete(text) && !QuotedKey(text) && !Has(text, INVOKE) && HeldThroughout(env.fmt, text)
    requires NonEmpty(chunks) && text == buffer + held + Flatten(chunks)
    requires Complete(buffer) && (held == "" || PartialChar(held))
    ensures var r := Run(env, Holding(buffer, held), chunks);
      r.normal == "" && r.state == Holding(text, "")
    decreases |chunks|
  {
    hide Complete, PartialChar, ReleasedLength, Suspicious, QuotedKey, Has, Step, HeldThroughout;
    if chunks == [] {
      assert text == buffer + held;
      CompleteAppend(buffer, held);
      CutIsNotComplete(held);
      assert buffer + "" == buffer;
    } else {
      var c, rest := chunks[0], Flatten(chunks[1..]);
      assert c in chunks && forall d | d in chunks[1..] :: d in chunks;
      var merged := held + c;
      assert text == buffer + (merged + rest);
      var n := Receive(buffer, merged, rest);
      var next := buffer + merged[..n];
      assert text == next + merged[n..] + rest;
      assert text[..|next|] == next;
      QuietPrefix(text, |next|);
      PrefixHeld(env.fmt, text, |next|);
      HoldStep(env, buffer, held, c);
      HeldRun(env, text, next, merged[n..], chunks[1..]);
    }
  }

  lemma {:induction false} PrefixHeld(fmt: Format, text: string, n: nat)
    requires n <= |text| && Complete(text[..n]) && HeldThroughout(fmt, text)
    ensures text[..n] == "" || Suspicious(fmt, text[..n])
  {
    hide Suspicious, Complete;
  }

  lemma {:induction false} HeldTextSame(env: Env, text: string, chunks: seq<string>)
    requires Complete(text) && !QuotedKey(text) && !Has(text, INVOKE) && HeldThroughout(env.fmt, text)
    requires Cuts(chunks, text)
    ensures TextOf(env, chunks) == EndOfStream(env, Holding(text, "")).1.normal
  {
    hide Complete, QuotedKey, Has, HeldThroughout, EndOfStream, Run, Flatten, Step;
    assert "" + "" + text == text;
    EmptyIsComplete();
    HeldRun(env, text, "", "", chunks);
    RunAppend(env, INITIAL, chunks, "");
    var end := EndOfStream(env, Holding(text, ""));
    EndStep(env, text);
    assert "" + end.1.normal == end.1.normal;
  }

  lemma {:induction false} PlainTextSame(env: Env, text: string, chunks: seq<string>)
    requires Complete(text) && Plain(env.fmt, text) && Cuts(chunks, text)
    ensures TextOf(env, chunks) == text
  {
    hide Complete, Plain, Run, Flatten, Step;
    PlainTextPreserved(env, chunks);
    RunAppend(env, INITIAL, chunks, "");
  }

  /** A text that is neither is cut where it is flushed, or not cut at all. */
  lemma {:induction false} CutShows(env: Env, text: string, n: nat)
    requires Complete(text) && !QuotedKey(text) && !Has(text, INVOKE) && !Plain(env.fmt, text)
    requires 0 < n <= |text| && Complete(text[..n]) && !Suspicious(env.fmt, text[..n])
    ensures n < |text| && Cuts([text[..n], text[n..]], text) && Cuts([text], text)
    ensures TextOf(env, [text[..n], text[n..]]) != TextOf(env, [text])
  {
    hide Complete, QuotedKey, Has, Plain, Suspicious, Step, TextOf, Run, Cuts;
    NotPlainIsHeld(env, text);
    var a, b := text[..n], text[n..];
    assert n == |text| ==> a == text;
    TwoCuts(text, n);
    FlushedFirst(env, a, b);
    assert TextOf(env, [a, b])[0] == a[0];
  }

  lemma {:induction false} TwoCuts(text: string, n: nat)
    requires 0 < n < |text|
    ensures Cuts([text[..n], text[n..]], text) && Cuts([text], text)
  {
    var a, b := text[..n], text[n..];
    assert [a, b][1..] == [b] && [b][1..] == [] && [text][1..] == [];
    assert Flatten([]) == "" && b + "" == b && text + "" == text && a + b == text;
    assert Flatten([b]) == b;
  }

  lemma {:induction false} FlushedFirst(env: Env, a: string, b: string)
    requires a != "" && Complete(a) && !Suspicious(env.fmt, a)
    ensures a <= TextOf(env, [a, b])
  {
    hide Complete, Suspicious, Step;
    ProseIsFlushed(env, a);
    var chunks := [a, b] + [""];
    assert chunks[0] == a;
    var rest := Run(env, INITIAL, chunks[1..]).normal;
    assert TextOf(env, [a, b]) == a + rest;
  }

  lemma {:induction false} NotPlainIsHeld(env: Env, text: string)
    requires text != "" && Complete(text) && !QuotedKey(text) && !Has(text, INVOKE) && !Plain(env.fmt, text)
    ensures Suspicious(env.fmt, text) && TextOf(env, [text]) == ""
  {
    hide Complete, QuotedKey, Has, Plain, Suspicious, Run, Step, EndOfStream;
    EndIsSilent(env, text);
    WholeHeld(env, text);
    EndStep(env, text);
    RunAppend(env, INITIAL, [text], "");
    assert "" + "" == "";
  }

  lemma {:induction false} EndStep(env: Env, text: string)
    ensures Step(env, Holding(text, ""), "") == EndOfStream(env, Holding(text, ""))
  {
    hide EndOfStream;
  }

  lemma {:induction false} EndIsSilent(env: Env, text: string)
    requires !QuotedKey(text) && !Plain(env.fmt, text)
    ensures EndOfStream(env, Holding(text, "")).1.normal == "" && Suspicious(env.fmt, text)
  {
    hide HasToolCall, PotentiallyDsml, QuotedKey, EndsWithPrefix, EndsWithOpenBrace;
  }

  lemma {:induction false} WholeHeld(env: Env, text: string)
    requires Complete(text) && text != "" && !QuotedKey(text) && !Has(text, INVOKE) && Suspicious(env.fmt, text)
    ensures var r := Run(env, INITIAL, [text]); r.normal == "" && r.state == Holding(text, "")
  {
    hide Complete, QuotedKey, Has, Suspicious, Step, ReleasedLength;
    SplitsAtCharacter(text, "");
    assert text + "" == text && "" + text == text && text[..|text|] == text && text[|text|..] == "";
    HoldStep(env, "", "", text);
    assert [text][1..] == [];
    assert Run(env, Holding(text, ""), []) == Outcome(Holding(text, ""), [], "");
    assert "" + "" == "";
  }

  /** Main result. Ordinary text comes out the same under every chunking if and only if
  nothing in it looks like a call, or every beginning of it that ends between
  characters does, so that no chunk boundary lets it be flushed. */
  lemma {:induction false} ProseExactly(env: Env, text: string)
    requires Complete(text) && !QuotedKey(text) && !Has(text, INVOKE)
    ensures SameText(env, text) <==> Plain(env.fmt, text) || HeldThroughout(env.fmt, text)
  {
    hide Complete, QuotedKey, Has, Plain, Suspicious, TextOf, Cuts;
    if Plain(env.fmt, text) {
      forall a | Cuts(a, text) ensures TextOf(env, a) == text {
        PlainTextSame(env, text, a);
      }
    } else if HeldThroughout(env.fmt, text) {
      forall a | Cuts(a, text) ensures TextOf(env, a) == EndOfStream(env, Holding(text, "")).1.normal {
        HeldTextSame(env, text, a);
      }
    } else {
      var n :| 0 < n <= |text| && Complete(text[..n]) && !Suspicious(env.fmt, text[..n]);
      CutShows(env, text, n);
    }
  }
}
