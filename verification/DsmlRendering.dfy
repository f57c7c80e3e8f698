/** Calls that a model writes down in the DSML form are read back: their names, their
parameters, and through any chunking of the text. */
module DsmlRendering {
  import opened Text
  import opened Json
  import opened ToolCalls
  import opened Utf8
  import opened DsmlSyntax
  import opened DsmlParams
  import opened DsmlDetector
  import opened DsmlStreaming
  import opened DsmlTheorems
  import opened DsmlOneShot

  // ---------------------------------------------------------------------
  // The written form.

  /** A parameter: text to be kept as it is, or JSON; blanks may come before it. */
  datatype Given = Given(gap: string, name: string, isString: bool, text: string)

  /** A call, with what comes before it, and the blanks at the end of its body. */
  datatype Written = Written(gap: string, name: string, params: seq<Given>, tail: string)

  predicate Quotable(name: string) {
    name != "" && (forall c | c in name :: c != '"') && name[0] !in BLANK && name[|name| - 1] !in BLANK
  }

  predicate Blank(s: string) { forall c | c in s :: c in BLANK }

  predicate GivenOk(g: Given) { Blank(g.gap) && Quotable(g.name) && !Has(g.text, PARAMETER_END) }

  predicate WrittenOk(w: Written) {
    && !Has(w.gap, INVOKE) && Quotable(w.name) && Blank(w.tail)
    && (forall g | g in w.params :: GivenOk(g)) && !Has(Body(w), INVOKE_END)
  }

  function TypeOf(g: Given): string { if g.isString then "true" else "false" }

  function Attribute(key: string, value: string, rest: string): string { " " + key + value + QUOTE + rest }

  function RenderParam(g: Given, rest: string): string {
    PARAMETER + Attribute(NAME, g.name, Attribute(STRING, TypeOf(g), ">" + (g.text + PARAMETER_END + rest)))
  }

  function RenderParams(gs: seq<Given>, tail: string): string {
    if gs == [] then tail else gs[0].gap + RenderParam(gs[0], RenderParams(gs[1..], tail))
  }

  function Body(w: Written): string { RenderParams(w.params, w.tail) }

  function RenderCall(w: Written, rest: string): string {
    INVOKE + Attribute(NAME, w.name, ">" + (Body(w) + INVOKE_END + rest))
  }

  function Rendered(ws: seq<Written>, tail: string): string {
    if ws == [] then tail else ws[0].gap + RenderCall(ws[0], Rendered(ws[1..], tail))
  }

  // ---------------------------------------------------------------------
  // Attributes.

  lemma {:induction false} QuoteFound(a: string, value: string, rest: string)
    requires forall c | c in value :: c != '"'
    ensures Find(a + value + QUOTE + rest, QUOTE, |a|) == Some(|a| + |value|)
  {
    hide Find;
    var s := a + value + QUOTE + rest;
    forall p | |a| <= p < |a| + |value| ensures !OccursAt(s, QUOTE, p) {
      assert s[p] == value[p - |a|] && value[p - |a|] in value;
      assert s[p..p + 1][0] == s[p];
    }
    assert s[|a| + |value|..|a| + |value| + 1] == QUOTE;
    FindIs(s, QUOTE, |a|, |a| + |value|);
  }

  /** Where an attribute's value is. */
  lemma {:induction false} AttributeRead(a: string, key: string, value: string, rest: string)
    requires key != "" && !IsSpace(key[0]) && value != "" && forall c | c in value :: c != '"'
    ensures var s, start := a + Attribute(key, value, rest), |a| + 1 + |key|;
      && SkipSpace(s, |a|) == |a| + 1 && OccursAt(s, key, |a| + 1)
      && Find(s, QUOTE, start) == Some(start + |value|)
      && s[start..start + |value|] == value && s[start + |value| + 1..] == rest
      && start + |value| + 1 + |rest| == |s|
  {
    hide Find, SkipSpace;
    var s, start := a + Attribute(key, value, rest), |a| + 1 + |key|;
    assert s == (a + " " + key) + value + QUOTE + rest;
    QuoteFound(a + " " + key, value, rest);
    assert s[|a| + 1..|a| + 1 + |key|] == key;
    assert s[|a|] == ' ' && s[|a| + 1] == key[0];
    SkipSpaceIs(s, |a|, |a| + 1);
  }

  /** The end of a tag. */
  lemma {:induction false} CloseRead(s: string, p: nat, rest: string)
    requires p <= |s| && s[p..] == ">" + rest
    ensures p < |s| && SkipSpace(s, p) == p && s[p] == '>' && s[p + 1..] == rest
  {
    assert s[p..][0] == '>' && s[p..][1..] == rest;
    SkipSpaceIs(s, p, p);
  }

  // ---------------------------------------------------------------------
  // Parameters.

  lemma {:induction false} Markers()
    ensures IsMarker(PARAMETER_END) && IsMarker(INVOKE_END) && PARAMETER[0] == '<' && INVOKE[0] == '<'
    ensures NAME[0] == 'n' && STRING[0] == 's'
  {
    assert PARAMETER_END == ['<', '/', '\U{EF}', '\U{BD}', '\U{9C}', 'D', 'S', 'M', 'L', '\U{EF}', '\U{BD}', '\U{9C}',
                             'p', 'a', 'r', 'a', 'm', 'e', 't', 'e', 'r', '>'];
    assert INVOKE_END == ['<', '/', '\U{EF}', '\U{BD}', '\U{9C}', 'D', 'S', 'M', 'L', '\U{EF}', '\U{BD}', '\U{9C}',
                          'i', 'n', 'v', 'o', 'k', 'e', '>'];
  }

  lemma {:induction false} AttributeSpanRead(a: string, key: string, value: string, rest: string)
    requires key != "" && !IsSpace(key[0]) && value != "" && forall c | c in value :: c != '"'
    ensures var s, start := a + Attribute(key, value, rest), |a| + 1 + |key|;
      && AttributeSpan(s, |a|, key) == Some((start, start + |value|))
      && start + |value| < |s| && s[start..start + |value|] == value && s[start + |value| + 1..] == rest
  {
    hide Find, SkipSpace, OccursAt, Attribute;
    AttributeRead(a, key, value, rest);
  }

  lemma {:induction false} ParamHeadRead(a: string, g: Given, rest: string)
    requires Quotable(g.name)
    ensures var s := a + RenderParam(g, rest);
      var h := ParamHeadAt(s, |a|);
      && h.Some? && h.value.name == g.name && h.value.typ == TypeOf(g)
      && s[h.value.valueFrom..] == g.text + PARAMETER_END + rest
  {
    hide SkipSpace, OccursAt, Trim, AttributeSpan, Attribute, TypeOf;
    var value := g.text + PARAMETER_END + rest;
    var second := Attribute(STRING, TypeOf(g), ">" + value);
    var s := a + RenderParam(g, rest);
    NameRead(a, g.name, second);
    hide RenderParam, Quotable;
    var span := AttributeSpan(s, |a| + |PARAMETER|, NAME).value;
    TypRead(s, span.1 + 1, g, value);
  }

  /** The tag and its first attribute. */
  lemma {:induction false} NameRead(a: string, name: string, second: string)
    requires Quotable(name)
    ensures var s := a + (PARAMETER + Attribute(NAME, name, second));
      var span := AttributeSpan(s, |a| + |PARAMETER|, NAME);
      && OccursAt(s, PARAMETER, |a|) && |a| + |PARAMETER| <= |s|
      && span.Some? && TrimWhitespace(s[span.value.0..span.value.1]) == name && s[span.value.1 + 1..] == second
  {
    hide SkipSpace, OccursAt, Trim, AttributeSpan;
    Markers();
    var s := a + (PARAMETER + Attribute(NAME, name, second));
    TagAtStart(a, PARAMETER, Attribute(NAME, name, second));
    assert s == a + PARAMETER + Attribute(NAME, name, second);
    AttributeSpanRead(a + PARAMETER, NAME, name, second);
    hide Attribute;
    assert TrimWhitespace(name) == name;
  }

  /** The second attribute and the end of the tag. */
  lemma {:induction false} TypRead(s: string, p: nat, g: Given, value: string)
    requires p <= |s| && s[p..] == Attribute(STRING, TypeOf(g), ">" + value)
    ensures var from, end := p + 1 + |STRING|, p + 1 + |STRING| + |TypeOf(g)|;
      && AttributeSpan(s, p, STRING) == Some((from, end)) && end + 1 < |s|
      && TrimWhitespace(s[from..end]) == TypeOf(g)
      && SkipSpace(s, end + 1) == end + 1 && s[end + 1] == '>' && s[end + 2..] == value
  {
    hide Find, SkipSpace, OccursAt, Trim, AttributeSpan, Attribute, TypeOf;
    Markers();
    TypeHasNoQuote(g);
    var a := s[..p];
    assert s == a + Attribute(STRING, TypeOf(g), ">" + value);
    AttributeSpanRead(a, STRING, TypeOf(g), ">" + value);
    CloseRead(s, p + 1 + |STRING| + |TypeOf(g)| + 1, value);
    assert TrimWhitespace(TypeOf(g)) == TypeOf(g);
  }

  lemma {:induction false} TypeHasNoQuote(g: Given)
    ensures TypeOf(g) != "" && (forall c | c in TypeOf(g) :: c != '"')
    ensures TypeOf(g)[0] !in BLANK && TypeOf(g)[|TypeOf(g)| - 1] !in BLANK
  {
  }

  lemma {:induction false} TagAtStart(a: string, tag: string, rest: string)
    ensures OccursAt(a + (tag + rest), tag, |a|)
  {
    assert (a + (tag + rest))[|a|..|a| + |tag|] == tag;
  }

  lemma {:induction false} ParamRead(a: string, g: Given, rest: string)
    requires GivenOk(g)
    ensures var s := a + RenderParam(g, rest);
      var p := ParamAt(s, |a|);
      && p.Some? && p.value.name == g.name && p.value.typ == TypeOf(g) && p.value.value == g.text
      && s[p.value.end..] == rest
  {
    hide Find, ParamHeadAt, RenderParam;
    var s := a + RenderParam(g, rest);
    ParamHeadRead(a, g, rest);
    var from := ParamHeadAt(s, |a|).value.valueFrom;
    Markers();
    MarkerFound(g.text, PARAMETER_END, rest);
    FindInRest(s, PARAMETER_END, from);
    assert s[from..][..|g.text|] == g.text;
    assert s[from..][|g.text| + |PARAMETER_END|..] == rest;
  }

  /** Blanks are passed over. */
  lemma {:induction false} GapPassed(s: string, from: nat, end: nat)
    requires from <= end <= |s| && forall i | from <= i < end :: s[i] in BLANK
    ensures NextParam(s, from) == NextParam(s, end)
    decreases end - from
  {
    if from < end {
      NoTagAtBlank(s, from);
      hide ParamHeadAt;
      GapPassed(s, from + 1, end);
    }
  }

  lemma {:induction false} NoTagAtBlank(s: string, p: nat)
    requires p < |s| && s[p] in BLANK
    ensures ParamHeadAt(s, p).None?
  {
    Markers();
    assert p + |PARAMETER| <= |s| ==> s[p..p + |PARAMETER|][0] == s[p];
  }

  /** The object that parameters stand for: later ones win. */
  function Meant(lib: Library, gs: seq<Given>, acc: Params): Option<Params>
    decreases |gs|
  {
    if gs == [] then Some(acc)
    else
      match ParamValue(lib, TypeOf(gs[0]), gs[0].text)
      case None => None
      case Some(v) => Meant(lib, gs[1..], acc[gs[0].name := v])
  }

  lemma {:induction false} ParamsRead(lib: Library, a: string, gs: seq<Given>, tail: string, acc: Params)
    requires Blank(tail) && forall g | g in gs :: GivenOk(g)
    ensures var r := Closed(lib, a + RenderParams(gs, tail), |a|, acc);
      match Meant(lib, gs, acc) case None => r.None? case Some(params) => r.Some? && r.value.0 == params
    decreases |gs|
  {
    hide ParamAt, ParamValue, RenderParam, GivenOk;
    var s := a + RenderParams(gs, tail);
    if gs == [] {
      assert s == a + tail;
      GapPassed(s, |a|, |s|);
      NoParamAtEnd(s);
    } else {
      var g, rest := gs[0], RenderParams(gs[1..], tail);
      assert g in gs && GivenOk(g);
      GapIsBlank(g);
      var a1 := a + g.gap;
      assert s == a1 + RenderParam(g, rest);
      GapPassed(s, |a|, |a1|);
      ParamRead(a1, g, rest);
      var p := ParamAt(s, |a1|).value;
      assert NextParam(s, |a|) == Some(p);
      var v := ParamValue(lib, TypeOf(g), g.text);
      if v.Some? {
        var a2 := s[..p.end];
        assert s == a2 + rest;
        ParamsRead(lib, a2, gs[1..], tail, acc[g.name := v.value]);
      }
    }
  }

  lemma {:induction false} GapIsBlank(g: Given)
    requires GivenOk(g)
    ensures Blank(g.gap)
  {
  }

  lemma {:induction false} NoParamAtEnd(s: string)
    ensures NextParam(s, |s|).None?
  {
    Markers();
  }

  lemma {:induction false} BodyIsNotObject(lib: Library, w: Written)
    requires Blank(w.tail) && forall g | g in w.params :: GivenOk(g)
    ensures Direct(lib, Body(w)).None?
  {
    var body := Body(w);
    if w.params == [] {
      BlankTrims(body);
    } else {
      var g := w.params[0];
      var rest := RenderParam(g, RenderParams(w.params[1..], w.tail));
      assert g in w.params && rest[0] == PARAMETER[0];
      Markers();
      hide RenderParam;
      TrimToFirst(g.gap, rest);
    }
  }

  lemma {:induction false} BlankTrims(s: string)
    requires Blank(s)
    ensures TrimWhitespace(s) == ""
  {
    if s != "" {
      assert s[0] in s && forall c | c in s[1..] :: c in s;
      BlankTrims(s[1..]);
    }
  }

  /** Trimming stops at the first character that is not blank. */
  lemma {:induction false} TrimToFirst(gap: string, rest: string)
    requires Blank(gap) && rest != "" && rest[0] !in BLANK
    ensures TrimWhitespace(gap + rest) != "" && TrimWhitespace(gap + rest)[0] == rest[0]
  {
    LeftTrimmed(gap, rest);
    var l := TrimLeft(gap + rest, BLANK);
    FirstStays(l);
  }

  lemma {:induction false} LeftTrimmed(gap: string, rest: string)
    requires Blank(gap) && rest != "" && rest[0] !in BLANK
    ensures TrimLeft(gap + rest, BLANK) == rest
  {
    if gap == "" {
      assert gap + rest == rest;
    } else {
      assert (gap + rest)[0] == gap[0] && gap[0] in gap && (gap + rest)[1..] == gap[1..] + rest;
      assert forall c | c in gap[1..] :: c in gap;
      LeftTrimmed(gap[1..], rest);
    }
  }

  lemma {:induction false} FirstStays(s: string)
    requires s != "" && s[0] !in BLANK
    ensures TrimRight(s, BLANK) != "" && TrimRight(s, BLANK)[0] == s[0]
    decreases |s|
  {
    if s[|s| - 1] in BLANK {
      FirstStays(s[..|s| - 1]);
    }
  }

  /** The parameters of a written body are those that were written. */
  lemma {:induction false} BodyRoundTrip(lib: Library, w: Written)
    requires WrittenOk(w)
    ensures Parameters(lib, Body(w), false) == Meant(lib, w.params, map[])
  {
    hide Closed, RenderParams, Direct, GivenOk, Has;
    BodyIsNotObject(lib, w);
    ParamsRead(lib, "", w.params, w.tail, map[]);
    assert "" + Body(w) == Body(w);
  }

  /** Of the text parameters under one name the last is kept, byte for byte; and no
  names are added. */
  lemma {:induction false} TextParams(lib: Library, gs: seq<Given>, acc: Params, i: nat)
    requires forall k | 0 <= k < |gs| :: gs[k].isString
    requires i < |gs| && forall k | i < k < |gs| :: gs[k].name != gs[i].name
    ensures var r := Meant(lib, gs, acc);
      && r.Some? && gs[i].name in r.value && r.value[gs[i].name] == Str(gs[i].text)
      && forall name | name in r.value :: name in acc || exists k :: 0 <= k < |gs| && gs[k].name == name
    decreases |gs|
  {
    var g, next := gs[0], acc[gs[0].name := Str(gs[0].text)];
    assert ParamValue(lib, TypeOf(g), g.text) == Some(Str(g.text));
    OtherParams(lib, gs[1..], next, g.name);
    if i > 0 {
      TextParams(lib, gs[1..], next, i - 1);
    }
    NamesOnly(lib, gs, acc);
  }

  lemma {:induction false} OtherParams(lib: Library, gs: seq<Given>, acc: Params, name: string)
    requires forall k | 0 <= k < |gs| :: gs[k].isString
    ensures Meant(lib, gs, acc).Some?
    ensures name in acc && (forall k | 0 <= k < |gs| :: gs[k].name != name) ==>
      name in Meant(lib, gs, acc).value && Meant(lib, gs, acc).value[name] == acc[name]
    decreases |gs|
  {
    if gs != [] {
      OtherParams(lib, gs[1..], acc[gs[0].name := Str(gs[0].text)], name);
    }
  }

  lemma {:induction false} NamesOnly(lib: Library, gs: seq<Given>, acc: Params)
    requires Meant(lib, gs, acc).Some?
    ensures forall name | name in Meant(lib, gs, acc).value ::
      name in acc || exists k :: 0 <= k < |gs| && gs[k].name == name
    decreases |gs|
  {
    if gs != [] {
      var v := ParamValue(lib, TypeOf(gs[0]), gs[0].text);
      hide ParamValue;
      NamesOnly(lib, gs[1..], acc[gs[0].name := v.value]);
      forall name | name in Meant(lib, gs, acc).value
        ensures name in acc || exists k :: 0 <= k < |gs| && gs[k].name == name
      {
        if name !in acc && name != gs[0].name {
          var k :| 0 <= k < |gs[1..]| && gs[1..][k].name == name;
          assert gs[k + 1].name == name;
        }
      }
    }
  }

  // ---------------------------------------------------------------------
  // Calls.

  /** Where the parts of an opening tag at the start of a text are. */
  lemma {:induction false} TagParts(tag: string, key: string, name: string, content: string)
    requires name != "" && (forall c | c in name :: c != '"') && key != "" && !IsSpace(key[0])
    ensures var s := tag + Attribute(key, name, ">" + content);
      var attr, from := |tag| + 1, |tag| + 1 + |key|;
      var to := from + |name|;
      && OccursAt(s, tag, 0) && SkipSpace(s, |tag|) == attr && OccursAt(s, key, attr)
      && Find(s, QUOTE, from) == Some(to) && to + 1 < |s| && SkipSpace(s, to + 1) == to + 1 && s[to + 1] == '>'
      && s[from..to] == name && s[to + 2..] == content
  {
    hide Find, SkipSpace;
    var s := tag + Attribute(key, name, ">" + content);
    assert s[0..|tag|] == tag;
    AttributeRead(tag, key, name, ">" + content);
    hide Attribute, OccursAt;
    CloseRead(s, |tag| + 1 + |key| + |name| + 1, content);
  }

  /** The opening tag is recognised. */
  lemma {:induction false} CallHeadRead(name: string, content: string)
    requires Quotable(name)
    ensures var s := INVOKE + Attribute(NAME, name, ">" + content);
      var h := HeadAt(s, 0);
      && h.Match? && h.nameFrom < h.nameTo < h.bodyFrom <= |s|
      && s[h.nameFrom..h.nameTo] == name && s[h.bodyFrom..] == content
  {
    Markers();
    TagParts(INVOKE, NAME, name, content);
    assert name != "";
    hide Find, SkipSpace, OccursAt, Attribute, Quotable, HeadAt;
    var s := INVOKE + Attribute(NAME, name, ">" + content);
    TagMatches(s, |name|);
  }

  lemma {:induction false} TagMatches(s: string, n: nat)
    requires n > 0
    requires var attr, from := |INVOKE| + 1, |INVOKE| + 1 + |NAME|;
      && OccursAt(s, INVOKE, 0) && SkipSpace(s, |INVOKE|) == attr && OccursAt(s, NAME, attr)
      && Find(s, QUOTE, from) == Some(from + n)
      && from + n + 1 < |s| && SkipSpace(s, from + n + 1) == from + n + 1 && s[from + n + 1] == '>'
    ensures var from := |INVOKE| + 1 + |NAME|; HeadAt(s, 0) == Match(from, from + n, from + n + 2)
  {
    hide Find, SkipSpace, OccursAt;
    assert Literal(s, 0, INVOKE).Yes? && Literal(s, |INVOKE| + 1, NAME).Yes?;
  }

  lemma {:induction false} CallRead(w: Written, rest: string)
    requires WrittenOk(w)
    ensures var v := FirstInvoke(RenderCall(w, rest));
      && v.Some? && v.value.name == w.name && v.value.body == Body(w) && v.value.closed
      && RenderCall(w, rest)[v.value.end..] == rest
  {
    hide HeadAt, Find, Body, Attribute, Has, GivenOk, Trim;
    var content := Body(w) + INVOKE_END + rest;
    var s := RenderCall(w, rest);
    CallHeadRead(w.name, content);
    FirstHeadIs(s, 0);
    var h := HeadAt(s, 0);
    Markers();
    MarkerFound(Body(w), INVOKE_END, rest);
    FindInRest(s, INVOKE_END, h.bodyFrom);
    assert s[h.bodyFrom..][..|Body(w)|] == Body(w);
    assert s[h.bodyFrom..][|Body(w)| + |INVOKE_END|..] == rest;
    NameTrimmed(w.name);
  }

  lemma {:induction false} NameTrimmed(name: string)
    requires Quotable(name)
    ensures TrimWhitespace(name) == name
  {
  }

  function CallsOf(ws: seq<Written>): seq<Call> {
    if ws == [] then [] else [Call(ws[0].name, Body(ws[0]), true)] + CallsOf(ws[1..])
  }

  /** What is read off a written text are the calls that were written. */
  lemma {:induction false} CallsRoundTrip(ws: seq<Written>, tail: string)
    requires (forall w | w in ws :: WrittenOk(w)) && !Has(tail, INVOKE)
    ensures Invokes(Rendered(ws, tail)) == CallsOf(ws)
    decreases |ws|
  {
    hide HeadAt, FirstInvoke, Body, WrittenOk, RenderCall, Has;
    var s := Rendered(ws, tail);
    if ws == [] {
      NoCallIn(tail);
    } else {
      var w, rest := ws[0], Rendered(ws[1..], tail);
      assert w in ws && forall x | x in ws[1..] :: x in ws;
      CallRead(w, rest);
      CallStarts(w, rest);
      GapBefore(w.gap, RenderCall(w, rest));
      var v := FirstInvoke(RenderCall(w, rest)).value;
      assert s[|w.gap| + v.end..] == RenderCall(w, rest)[v.end..];
      CallsRoundTrip(ws[1..], tail);
    }
  }

  lemma {:induction false} NoCallIn(s: string)
    requires !Has(s, INVOKE)
    ensures FirstInvoke(s).None?
  {
    forall p | 0 <= p <= |s| ensures !HeadAt(s, p).Match? {
      NoTagNoMatch(s, p);
    }
    hide HeadAt;
  }

  lemma {:induction false} GapBefore(gap: string, b: string)
    requires !Has(gap, INVOKE) && b != "" && b[0] == '<' && FirstInvoke(b).Some?
    ensures FirstInvoke(gap + b) == Some(FirstInvoke(b).value.(end := |gap| + FirstInvoke(b).value.end))
  {
    hide HeadAt, FirstInvoke, Has;
    forall p | 0 <= p < |gap| ensures !HeadAt(gap + b, p).Match? {
      NoTagBefore(gap, b, p);
    }
    SettledPrefix(gap, b);
  }

  lemma {:induction false} CallStarts(w: Written, rest: string)
    requires WrittenOk(w)
    ensures RenderCall(w, rest) != "" && RenderCall(w, rest)[0] == '<' && !Has(w.gap, INVOKE)
  {
    hide Has, Body, Attribute, GivenOk, Quotable;
    Markers();
  }

  // ---------------------------------------------------------------------
  // Through the stream.

  /** A name item and one argument item for every call. */
  function ItemsFor(env: Env, ws: seq<Written>, id: int): seq<Item> {
    if ws == [] then []
    else
      var args := match Meant(env.lib, ws[0].params, map[]) case Some(p) => env.lib.dump(Obj(p)) case None => "";
      [Item(id, Some(ws[0].name), ""), Item(id, None, args)] + ItemsFor(env, ws[1..], id + 1)
  }

  lemma {:induction false} ItemsRoundTrip(env: Env, ws: seq<Written>, id: int)
    requires forall w | w in ws :: WrittenOk(w)
    ensures ItemsOf(env, CallsOf(ws), id) == ItemsFor(env, ws, id)
    decreases |ws|
  {
    hide Parameters, Meant, WrittenOk, Body;
    if ws != [] {
      var w, rest := ws[0], CallsOf(ws[1..]);
      assert w in ws && forall x | x in ws[1..] :: x in ws;
      BodyRoundTrip(env.lib, w);
      ItemsRoundTrip(env, ws[1..], id + 1);
      assert CallsOf(ws)[1..] == rest;
    }
  }

  /** Main result: a text in which calls are written, with anything but a tag between
  them, cut into any chunks at any byte, makes the detector emit exactly these calls:
  each name once, and the dump of the object its parameters stand for. */
  lemma {:induction false} WrittenCallsArrive(env: Env, ws: seq<Written>, tail: string, chunks: seq<string>)
    requires (forall w | w in ws :: WrittenOk(w)) && !Has(tail, INVOKE)
    requires NonEmpty(chunks) && Flatten(chunks) == Rendered(ws, tail) && Complete(Flatten(chunks))
    requires !QuotedKey(Flatten(chunks)) && NoneThrow(env, INITIAL, chunks)
    ensures Run(env, INITIAL, chunks).calls == ItemsFor(env, ws, 0)
  {
    hide NoneThrow, AllParse, QuotedKey, Run, Complete, Rendered, Invokes, WrittenOk, Has, ItemsOf, ItemsFor, Released,
         CachedCalls, Flatten;
    EveryMoment(env, chunks, Flatten(chunks));
    AllReleased(Flatten(chunks));
    CallsRoundTrip(ws, tail);
    ItemsRoundTrip(env, ws, 0);
  }
}
