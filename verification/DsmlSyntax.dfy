/** The DSML tags of DeepSeek-V3.2 and V4, as recognisers over bytes.

`Head` recognises the opening tag of an invoke, the part of the regular
expression `<|DSML|invoke\s+name="([^"]+)"\s*>` (the bar being U+FF5C) that
needs care when the text still grows: at a position the tag has matched, can no
longer match, or has run out of text.
*/
module DsmlSyntax {
  import opened Text

  /** U+FF5C in UTF-8. */
  const BAR: string := "\U{EF}\U{BD}\U{9C}"
  const INVOKE: string := "<" + BAR + "DSML" + BAR + "invoke"
  const INVOKE_END: string := "</" + BAR + "DSML" + BAR + "invoke>"
  const NAME: string := "name=\""
  const QUOTE: string := "\""

  /** The characters of `trim_whitespace`. */
  const BLANK: set<char> := {' ', '\t', '\n', '\r'}

  function TrimWhitespace(s: string): string { Trim(s, BLANK) }

  /** `\s` of the regular expressions. */
  predicate IsSpace(c: char) {
    c == ' ' || c == '\t' || c == '\n' || c == '\U{0B}' || c == '\U{0C}' || c == '\r'
  }

  function SkipSpace(s: string, p: nat): (r: nat)
    requires p <= |s|
    ensures p <= r <= |s|
    ensures forall i | p <= i < r :: IsSpace(s[i])
    ensures r < |s| ==> !IsSpace(s[r])
    decreases |s| - p
  {
    if p < |s| && IsSpace(s[p]) then SkipSpace(s, p + 1) else p
  }

  lemma {:induction false} SkipSpaceIs(s: string, p: nat, r: nat)
    requires p <= r <= |s|
    requires forall i | p <= i < r :: IsSpace(s[i])
    requires r < |s| ==> !IsSpace(s[r])
    ensures SkipSpace(s, p) == r
  {
  }

  datatype Verdict = Yes | No | More

  /** Is `lit` at `p`, or could it still be once more text arrives? */
  function Literal(s: string, p: nat, lit: string): (v: Verdict)
    requires p <= |s|
    ensures v.Yes? <==> OccursAt(s, lit, p)
  {
    if p + |lit| <= |s| then
      if s[p..p + |lit|] == lit then Yes else No
    else if s[p..] == lit[..|s| - p] then More
    else No
  }

  /** `Match`: the name is `s[nameFrom..nameTo]` and the body starts at `bodyFrom`. */
  datatype Head = Match(nameFrom: nat, nameTo: nat, bodyFrom: nat) | Partial | Fail
  {
    function Shift(n: nat): Head {
      if Match? then Match(n + nameFrom, n + nameTo, n + bodyFrom) else this
    }
  }

  function HeadAt(s: string, p: nat): (h: Head)
    requires p <= |s|
    ensures h.Match? ==> p < h.nameFrom < h.nameTo < h.bodyFrom <= |s|
  {
    TagAt(s, p, INVOKE)
  }

  function TagAt(s: string, p: nat, tag: string): (h: Head)
    requires p <= |s|
    ensures h.Match? ==> p < h.nameFrom < h.nameTo < h.bodyFrom <= |s|
  {
    match Literal(s, p, tag)
    case No => Fail
    case More => Partial
    case Yes => AfterTag(s, p + |tag|)
  }

  /** `\s+name="..."\s*>` at `p`. */
  function AfterTag(s: string, p: nat): (h: Head)
    requires p <= |s|
    ensures h.Match? ==> p < h.nameFrom < h.nameTo < h.bodyFrom <= |s|
  {
    var attr := SkipSpace(s, p);
    if attr == p then (if attr == |s| then Partial else Fail)
    else AttributeAt(s, attr)
  }

  /** `name="..."\s*>` at `p`. */
  function AttributeAt(s: string, p: nat): (h: Head)
    requires p <= |s|
    ensures h.Match? ==> p < h.nameFrom < h.nameTo < h.bodyFrom <= |s|
  {
    match Literal(s, p, NAME)
    case No => Fail
    case More => Partial
    case Yes =>
      var from := p + |NAME|;
      match Find(s, QUOTE, from)
      case None => Partial
      case Some(to) =>
        if to == from then Fail
        else
          var close := SkipSpace(s, to + 1);
          if close == |s| then Partial
          else if s[close] == '>' then Match(from, to, close + 1)
          else Fail
  }

  // ---------------------------------------------------------------------
  // A verdict does not change when the text grows or is embedded.

  lemma {:induction false} LiteralGrows(s: string, t: string, p: nat, lit: string)
    requires p <= |s|
    ensures Literal(s, p, lit).Yes? ==> Literal(s + t, p, lit).Yes?
    ensures Literal(s, p, lit).No? ==> Literal(s + t, p, lit).No?
  {
    if p + |lit| <= |s| {
      assert (s + t)[p..p + |lit|] == s[p..p + |lit|];
    } else if Literal(s, p, lit).No? {
      var n := |s| - p;
      if p + |lit| <= |s + t| {
        assert (s + t)[p..p + |lit|][..n] == s[p..];
      } else {
        assert (s + t)[p..][..n] == s[p..];
        assert lit[..|s + t| - p][..n] == lit[..n];
      }
    }
  }

  lemma {:induction false} LiteralShift(a: string, b: string, p: nat, lit: string)
    requires p <= |b|
    ensures Literal(a + b, |a| + p, lit) == Literal(b, p, lit)
  {
    if p + |lit| <= |b| {
      assert (a + b)[|a| + p..|a| + p + |lit|] == b[p..p + |lit|];
    } else {
      assert (a + b)[|a| + p..] == b[p..];
    }
  }

  lemma {:induction false} SkipGrows(s: string, t: string, p: nat)
    requires p <= |s| && SkipSpace(s, p) < |s|
    ensures SkipSpace(s + t, p) == SkipSpace(s, p)
  {
    SkipSpaceIs(s + t, p, SkipSpace(s, p));
  }

  lemma {:induction false} SkipShift(a: string, b: string, p: nat)
    requires p <= |b|
    ensures SkipSpace(a + b, |a| + p) == |a| + SkipSpace(b, p)
  {
    SkipSpaceIs(a + b, |a| + p, |a| + SkipSpace(b, p));
  }

  lemma {:induction false} AttributeGrows(s: string, t: string, p: nat)
    requires p <= |s|
    ensures !AttributeAt(s, p).Partial? ==> AttributeAt(s + t, p) == AttributeAt(s, p)
  {
    hide Literal, Find, SkipSpace;
    LiteralGrows(s, t, p, NAME);
    if Literal(s, p, NAME).Yes? {
      var from := p + |NAME|;
      if Find(s, QUOTE, from).Some? {
        FindGrows(s, t, QUOTE, from);
        var to := Find(s, QUOTE, from).value;
        if to != from && SkipSpace(s, to + 1) < |s| {
          SkipGrows(s, t, to + 1);
        }
      }
    }
  }

  lemma {:induction false} AfterTagGrows(s: string, t: string, p: nat)
    requires p <= |s|
    ensures !AfterTag(s, p).Partial? ==> AfterTag(s + t, p) == AfterTag(s, p)
  {
    var attr := SkipSpace(s, p);
    if attr < |s| {
      SkipGrows(s, t, p);
      AttributeGrows(s, t, attr);
    } else {
      assert s[attr..] == "" == NAME[..0];
    }
  }

  /** Main fact about `HeadAt`: `Match` and `Fail` are final. */
  lemma {:induction false} HeadGrows(s: string, t: string, p: nat)
    requires p <= |s|
    ensures !HeadAt(s, p).Partial? ==> HeadAt(s + t, p) == HeadAt(s, p)
  {
    LiteralGrows(s, t, p, INVOKE);
    if Literal(s, p, INVOKE).Yes? {
      AfterTagGrows(s, t, p + |INVOKE|);
    }
  }

  lemma {:induction false} AttributeShift(a: string, b: string, p: nat)
    requires p <= |b|
    ensures AttributeAt(a + b, |a| + p) == AttributeAt(b, p).Shift(|a|)
  {
    hide Literal, Find, SkipSpace;
    LiteralShift(a, b, p, NAME);
    if Literal(b, p, NAME).Yes? {
      var from := p + |NAME|;
      FindShift(a, b, QUOTE, from);
      if Find(b, QUOTE, from).Some? {
        SkipShift(a, b, Find(b, QUOTE, from).value + 1);
      }
    }
  }

  lemma {:induction false} AfterTagShift(a: string, b: string, p: nat)
    requires p <= |b|
    ensures AfterTag(a + b, |a| + p) == AfterTag(b, p).Shift(|a|)
  {
    hide AttributeAt, SkipSpace;
    var s, q, attr := a + b, |a| + p, SkipSpace(b, p);
    assert SkipSpace(s, q) == |a| + attr by { SkipShift(a, b, p); }
    if attr != p {
      assert AttributeAt(s, |a| + attr) == AttributeAt(b, attr).Shift(|a|) by { AttributeShift(a, b, attr); }
    }
  }

  lemma {:induction false} TagShift(a: string, b: string, p: nat, tag: string)
    requires p <= |b|
    ensures TagAt(a + b, |a| + p, tag) == TagAt(b, p, tag).Shift(|a|)
  {
    hide Literal, AfterTag;
    LiteralShift(a, b, p, tag);
    if Literal(b, p, tag).Yes? {
      AfterTagShift(a, b, p + |tag|);
      assert |a| + p + |tag| == |a| + (p + |tag|);
    }
  }

  lemma {:induction false} HeadShift(a: string, b: string, p: nat)
    requires p <= |b|
    ensures HeadAt(a + b, |a| + p) == HeadAt(b, p).Shift(|a|)
  {
    TagShift(a, b, p, INVOKE);
  }

  // ---------------------------------------------------------------------
  // A tag that has begun keeps later tags from matching first.

  predicate NoAngle(s: string, from: nat, to: nat)
    requires from <= to <= |s|
  {
    forall i | from <= i < to :: s[i] != '<'
  }

  predicate NoQuote(s: string, from: nat, to: nat)
    requires from <= to <= |s|
  {
    forall i | from <= i < to :: s[i] != '"'
  }

  lemma {:induction false} TagLetters()
    ensures |INVOKE| == 17 && INVOKE[0] == '<'
    ensures forall i | 1 <= i < |INVOKE| :: INVOKE[i] != '<'
    ensures |NAME| == 6 && NAME[5] == '"'
    ensures forall i | 0 <= i < |NAME| :: NAME[i] != '<'
  {
    assert INVOKE == ['<', '\U{EF}', '\U{BD}', '\U{9C}', 'D', 'S', 'M', 'L', '\U{EF}', '\U{BD}', '\U{9C}',
                      'i', 'n', 'v', 'o', 'k', 'e'];
    assert NAME == ['n', 'a', 'm', 'e', '=', '"'];
  }

  lemma {:induction false} LiteralLetters(s: string, p: nat, lit: string)
    requires p <= |s| && !Literal(s, p, lit).No?
    ensures forall i | p <= i < |s| && i < p + |lit| :: s[i] == lit[i - p]
  {
    var n := if p + |lit| <= |s| then |lit| else |s| - p;
    assert s[p..p + n] == lit[..n];
    forall i | p <= i < |s| && i < p + |lit| ensures s[i] == lit[i - p] {
      assert s[p..p + n][i - p] == s[i];
    }
  }

  lemma {:induction false} FirstQuote(s: string, from: nat)
    requires from <= |s|
    ensures Find(s, QUOTE, from).None? ==> NoQuote(s, from, |s|)
    ensures Find(s, QUOTE, from).Some? ==>
      var to := Find(s, QUOTE, from).value; to < |s| && s[to] == '"' && NoQuote(s, from, to)
  {
    var n := if Find(s, QUOTE, from).Some? then Find(s, QUOTE, from).value else |s|;
    forall i | from <= i < n ensures s[i] != '"' {
      assert !OccursAt(s, QUOTE, i);
      assert s[i..i + 1] == [s[i]];
    }
    if n < |s| {
      assert s[n..n + 1] == [s[n]];
    }
  }

  /** The shape of a matched tag: no `<` between its start and its name, its
  name is delimited by quotes, and there is no further quote before its body. */
  ghost predicate TagShape(s: string, p: nat, h: Head)
    requires h.Match?
  {
    && p < h.nameFrom < h.nameTo < h.bodyFrom <= |s|
    && NoAngle(s, p, h.nameFrom)
    && s[h.nameFrom - 1] == '"' && s[h.nameTo] == '"'
    && NoQuote(s, h.nameFrom, h.nameTo)
    && NoQuote(s, h.nameTo + 1, h.bodyFrom) && NoAngle(s, h.nameTo, h.bodyFrom)
  }

  lemma {:induction false} AfterTagShape(s: string, p: nat)
    requires p <= |s| && AfterTag(s, p).Match?
    ensures TagShape(s, p, AfterTag(s, p))
  {
    hide AttributeAt, Find;
    var attr := SkipSpace(s, p);
    AttributeShape(s, attr);
  }

  lemma {:induction false} AttributeShape(s: string, p: nat)
    requires p <= |s| && AttributeAt(s, p).Match?
    ensures TagShape(s, p, AttributeAt(s, p))
  {
    hide Find;
    TagLetters();
    LiteralLetters(s, p, NAME);
    FirstQuote(s, p + |NAME|);
    assert s[p + 5] == NAME[5];
  }

  lemma {:induction false} MatchShape(s: string, p: nat)
    requires p <= |s| && HeadAt(s, p).Match?
    ensures p < |s| && s[p] == '<'
    ensures TagShape(s, p + 1, HeadAt(s, p))
  {
    TagLetters();
    LiteralLetters(s, p, INVOKE);
    AfterTagShape(s, p + |INVOKE|);
  }

  /** The shape of a tag that ran out of text: no `<` before `from`, and from
  there on no quote, or the closing quote and white space only. */
  ghost predicate CutShape(s: string, p: nat, from: nat) {
    && p <= from <= |s| && NoAngle(s, p, from)
    && (NoQuote(s, from, |s|)
        || exists to: nat :: from < to < |s| && NoQuote(s, from, to) && s[to] == '"'
                          && forall i | to < i < |s| :: IsSpace(s[i]))
  }

  lemma {:induction false} AttributeCut(s: string, p: nat) returns (from: nat)
    requires p <= |s| && AttributeAt(s, p).Partial?
    ensures CutShape(s, p, from)
  {
    TagLetters();
    LiteralLetters(s, p, NAME);
    from := if p + |NAME| <= |s| then p + |NAME| else |s|;
    FirstQuote(s, from);
    if from < |s| && Find(s, QUOTE, from).Some? {
      var to := Find(s, QUOTE, from).value;
      assert from < to < |s| && NoQuote(s, from, to) && s[to] == '"';
    }
  }

  lemma {:induction false} PartialShape(s: string, p: nat) returns (from: nat)
    requires p <= |s| && HeadAt(s, p).Partial?
    ensures |s| - p < |INVOKE| || CutShape(s, p + 1, from)
  {
    TagLetters();
    from := |s|;
    if Literal(s, p, INVOKE).Yes? {
      LiteralLetters(s, p, INVOKE);
      var attr := SkipSpace(s, p + |INVOKE|);
      if attr != p + |INVOKE| {
        from := AttributeCut(s, attr);
      }
    }
  }

  lemma {:induction false} PartialBlocks(s: string, p: nat, q: nat)
    requires p < q <= |s| && HeadAt(s, p).Partial?
    ensures !HeadAt(s, q).Match?
  {
    if HeadAt(s, q).Match? {
      MatchShape(s, q);
      var from := PartialShape(s, p);
    }
  }

  /** Bodies start in the order of their tags. */
  lemma {:induction false} BodiesInOrder(s: string, p: nat, q: nat)
    requires p < q <= |s| && HeadAt(s, p).Match? && HeadAt(s, q).Match?
    ensures HeadAt(s, p).bodyFrom < HeadAt(s, q).bodyFrom
  {
    MatchShape(s, p);
    MatchShape(s, q);
  }

  // ---------------------------------------------------------------------
  // The first invoke of a text (`std::regex_search` with the streaming regex).

  predicate NoHead(s: string, from: nat, end: nat)
    requires end <= |s| + 1
  {
    forall q | from <= q < end :: !HeadAt(s, q).Match?
  }

  /** Position of the first matching tag at or after `from`. */
  function FirstHead(s: string, from: nat): (r: Option<nat>)
    requires from <= |s|
    ensures r.Some? ==> from <= r.value < |s| && HeadAt(s, r.value).Match? && NoHead(s, from, r.value)
    ensures r.None? ==> NoHead(s, from, |s| + 1)
    decreases |s| - from
  {
    if HeadAt(s, from).Match? then Some(from)
    else if from == |s| then None
    else FirstHead(s, from + 1)
  }

  lemma {:induction false} FirstHeadIs(s: string, p: nat)
    requires p <= |s| && HeadAt(s, p).Match?
    requires forall q | 0 <= q < p :: !HeadAt(s, q).Match?
    ensures FirstHead(s, 0) == Some(p)
  {
  }

  datatype Invoke = Invoke(name: string, body: string, closed: bool, end: nat)

  /** The invoke whose tag matched at `p`: its body runs to the first end tag,
  or to the end of the text if there is none. */
  function InvokeAt(s: string, p: nat): (v: Invoke)
    requires p <= |s| && HeadAt(s, p).Match?
    ensures p < v.end <= |s|
  {
    InvokeOf(s, HeadAt(s, p), INVOKE_END)
  }

  function InvokeOf(s: string, h: Head, endTag: string): (v: Invoke)
    requires h.Match? && h.nameFrom < h.nameTo < h.bodyFrom <= |s|
    ensures h.bodyFrom <= v.end <= |s|
  {
    var name := TrimWhitespace(s[h.nameFrom..h.nameTo]);
    match Find(s, endTag, h.bodyFrom)
    case Some(e) => Invoke(name, s[h.bodyFrom..e], true, e + |endTag|)
    case None => Invoke(name, s[h.bodyFrom..], false, |s|)
  }

  function FirstInvoke(s: string): (r: Option<Invoke>)
    ensures r.Some? ==> 0 < r.value.end <= |s|
  {
    match FirstHead(s, 0)
    case None => None
    case Some(p) => Some(InvokeAt(s, p))
  }

  lemma {:induction false} InvokeOfGrows(s: string, t: string, h: Head, endTag: string)
    requires h.Match? && h.nameFrom < h.nameTo < h.bodyFrom <= |s|
    ensures InvokeOf(s + t, h, endTag).name == InvokeOf(s, h, endTag).name
    ensures InvokeOf(s, h, endTag).closed ==> InvokeOf(s + t, h, endTag) == InvokeOf(s, h, endTag)
  {
    assert (s + t)[h.nameFrom..h.nameTo] == s[h.nameFrom..h.nameTo];
    if Find(s, endTag, h.bodyFrom).Some? {
      var e := Find(s, endTag, h.bodyFrom).value;
      FindGrows(s, t, endTag, h.bodyFrom);
      assert (s + t)[h.bodyFrom..e] == s[h.bodyFrom..e];
    }
  }

  lemma {:induction false} InvokeOfShift(a: string, b: string, h: Head, endTag: string)
    requires h.Match? && h.nameFrom < h.nameTo < h.bodyFrom <= |b|
    ensures var v := InvokeOf(b, h, endTag);
      InvokeOf(a + b, h.Shift(|a|), endTag) == Invoke(v.name, v.body, v.closed, |a| + v.end)
  {
    hide Find, TrimWhitespace;
    FindShift(a, b, endTag, h.bodyFrom);
    assert (a + b)[|a| + h.nameFrom..|a| + h.nameTo] == b[h.nameFrom..h.nameTo];
    match Find(b, endTag, h.bodyFrom)
    case None => assert (a + b)[|a| + h.bodyFrom..] == b[h.bodyFrom..];
    case Some(e) => assert (a + b)[|a| + h.bodyFrom..|a| + e] == b[h.bodyFrom..e];
  }

  /** More text neither moves nor renames the first invoke, and does not change
  it at all once it is closed. */
  lemma {:induction false} FirstInvokeGrows(s: string, t: string)
    requires FirstInvoke(s).Some?
    ensures FirstInvoke(s + t).Some?
    ensures FirstInvoke(s + t).value.name == FirstInvoke(s).value.name
    ensures FirstInvoke(s).value.closed ==> FirstInvoke(s + t) == FirstInvoke(s)
  {
    var p := FirstHead(s, 0).value;
    forall q | 0 <= q <= p ensures HeadAt(s + t, q) == HeadAt(s, q) {
      if q < p && HeadAt(s, q).Partial? {
        PartialBlocks(s, q, p);
      }
      HeadGrows(s, t, q);
    }
    FirstHeadIs(s + t, p);
    InvokeOfGrows(s, t, HeadAt(s, p), INVOKE_END);
  }

  /** Text in which no tag has begun. */
  predicate Settled(s: string) { forall p | 0 <= p < |s| :: HeadAt(s, p).Fail? }

  /** Dropping settled text does not change which invoke comes first. */
  lemma {:induction false} SettledPrefix(a: string, b: string)
    requires forall p | 0 <= p < |a| :: !HeadAt(a + b, p).Match?
    ensures FirstInvoke(b).None? ==> FirstInvoke(a + b).None?
    ensures FirstInvoke(b).Some? ==>
      FirstInvoke(a + b) == Some(FirstInvoke(b).value.(end := |a| + FirstInvoke(b).value.end))
  {
    hide HeadAt, InvokeOf;
    forall q | 0 <= q <= |b| ensures HeadAt(a + b, |a| + q) == HeadAt(b, q).Shift(|a|) {
      HeadShift(a, b, q);
    }
    match FirstHead(b, 0)
    case None =>
      forall q | 0 <= q <= |a + b| ensures !HeadAt(a + b, q).Match? {
        if q >= |a| { assert HeadAt(a + b, |a| + (q - |a|)) == HeadAt(b, q - |a|).Shift(|a|); }
      }
    case Some(p) =>
      forall q | 0 <= q < |a| + p ensures !HeadAt(a + b, q).Match? {
        if q >= |a| { assert HeadAt(a + b, |a| + (q - |a|)) == HeadAt(b, q - |a|).Shift(|a|); }
      }
      FirstHeadIs(a + b, |a| + p);
      InvokeOfShift(a, b, HeadAt(b, p), INVOKE_END);
  }

  /** A text without the letters of the tag, followed by a `<` or by nothing,
  holds no beginning of a tag. */
  lemma {:induction false} NoTagBefore(a: string, b: string, p: nat)
    requires !Has(a, INVOKE) && b != "" && b[0] == '<' && p < |a|
    ensures HeadAt(a + b, p).Fail?
  {
    var s := a + b;
    TagLetters();
    if p + |INVOKE| <= |a| {
      assert !OccursAt(a, INVOKE, p);
      assert s[p..p + |INVOKE|] == a[p..p + |INVOKE|];
    } else {
      assert s[|a|] == '<';
      if p + |INVOKE| <= |s| {
        assert s[p..p + |INVOKE|][|a| - p] == s[|a|];
      } else {
        assert s[p..][|a| - p] == s[|a|];
        assert INVOKE[..|s| - p][|a| - p] == INVOKE[|a| - p];
      }
    }
  }

  lemma {:induction false} NoTagNoMatch(s: string, p: nat)
    requires !Has(s, INVOKE) && p <= |s|
    ensures !HeadAt(s, p).Match?
  {
    assert !OccursAt(s, INVOKE, p);
  }
}
